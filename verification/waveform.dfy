/**
  `drawWaveform` as a pure function from the canvas size, the sample data and
  the first index to redraw, to the list of 2D-context calls it makes. A small
  interpreter of those calls (translation-only transforms) gives the
  device-space rectangles they touch, so that what ends up on the canvas can be
  stated directly.
*/
module Waveform {

  /** The context calls `drawWaveform` makes, in the context's own coordinates. */
  datatype Command =
    | ClearRect(x: real, y: real, w: real, h: real)
    | Translate(dx: real, dy: real)
    | FillRect(x: real, y: real, w: real, h: real)
    | ResetTransform   // setTransform(1, 0, 0, 1, 0, 0)

  /** The current transform; only translations arise here. */
  datatype Transform = Transform(tx: real, ty: real)

  const Identity: Transform := Transform(0.0, 0.0)

  /** A rectangle as it lands on the canvas, in device coordinates. */
  datatype Paint =
    | Cleared(x: real, y: real, w: real, h: real)
    | Filled(x: real, y: real, w: real, h: real)

  /** The context's transform after a run of calls, and every rectangle they touched. */
  datatype Frame = Frame(transform: Transform, paints: seq<Paint>)

  /** Half the height of the bar drawn for `sample`, one pixel included. */
  function HalfBar(sample: real, height: nat): real {
    sample * height as real / 2.0 + 1.0
  }

  /** The bar of index `x`: one column wide, from `-y` down to `y` about the translated origin. */
  function Bar(data: seq<real>, height: nat, x: nat): Command
    requires x < |data|
  {
    var y := HalfBar(data[x], height);
    FillRect(x as real, -y, 1.0, 2.0 * y)
  }

  /** How many indices `startAt <= x < length` there are. */
  function BarCount(length: nat, startAt: nat): nat {
    if startAt < length then length - startAt else 0
  }

  /** The loop `for (x = from; x < data.length; x++)`: one bar per index, in order. */
  function Bars(data: seq<real>, height: nat, from: nat): (bars: seq<Command>)
    ensures |bars| == BarCount(|data|, from)
    ensures forall i :: 0 <= i < |bars| ==> bars[i] == Bar(data, height, from + i)
    decreases |data| - from
  {
    if from >= |data| then []
    else [Bar(data, height, from)] + Bars(data, height, from + 1)
  }

  /** The calls `drawWaveform(canvas, ctx, data, startAt)` makes on a canvas of the given size;
      a call that omits `startAt` is `Draw(width, height, data, 0)`. */
  function Draw(width: nat, height: nat, data: seq<real>, startAt: nat): (cmds: seq<Command>)
    ensures |cmds| == BarCount(|data|, startAt) + 3
    // Clear from startAt to the right edge, then move the origin to the vertical middle.
    ensures cmds[0] == ClearRect(startAt as real, 0.0, width as real - startAt as real, height as real)
    ensures cmds[1] == Translate(0.0, height as real / 2.0)
    // Every other call but the last is the bar of index startAt, startAt + 1, ...
    ensures forall i :: 2 <= i < |cmds| - 1 ==> cmds[i] == Bar(data, height, startAt + i - 2)
    // The transform is restored last.
    ensures cmds[|cmds| - 1] == ResetTransform
  {
    [ClearRect(startAt as real, 0.0, width as real - startAt as real, height as real),
     Translate(0.0, height as real / 2.0)]
    + Bars(data, height, startAt)
    + [ResetTransform]
  }

  /** The filled rectangles of a call list are exactly its bars: one per index
      `startAt <= x < |data|`, in increasing order, each one column wide at `x`
      and centred on the translated origin; there are none when `startAt >= |data|`. */
  lemma DrawBars(width: nat, height: nat, data: seq<real>, startAt: nat)
    ensures var cmds := Draw(width, height, data, startAt);
      && (forall i :: 0 <= i < |cmds| ==> (cmds[i].FillRect? <==> 2 <= i < |cmds| - 1))
      && (forall x :: startAt <= x < |data| ==>
            && cmds[x - startAt + 2].FillRect?
            && cmds[x - startAt + 2].x == x as real
            && cmds[x - startAt + 2].w == 1.0
            && cmds[x - startAt + 2].y == -HalfBar(data[x], height)
            && cmds[x - startAt + 2].y + cmds[x - startAt + 2].y + cmds[x - startAt + 2].h == 0.0)
      && (forall i, j :: 2 <= i < j < |cmds| - 1 ==> cmds[i].x < cmds[j].x)
      && (startAt >= |data| ==> forall i :: 0 <= i < |cmds| ==> !cmds[i].FillRect?)
  {
  }

  /** One call on a context whose transform is `t`. */
  function ExecOne(c: Command, t: Transform): (f: Frame)
    ensures |f.paints| <= 1
  {
    match c
    case ClearRect(x, y, w, h) => Frame(t, [Cleared(x + t.tx, y + t.ty, w, h)])
    case Translate(dx, dy) => Frame(Transform(t.tx + dx, t.ty + dy), [])
    case FillRect(x, y, w, h) => Frame(t, [Filled(x + t.tx, y + t.ty, w, h)])
    case ResetTransform => Frame(Identity, [])
  }

  /** A list of calls, first to last, on a context whose transform is `t`. */
  function Exec(cmds: seq<Command>, t: Transform): Frame
    decreases |cmds|
  {
    if |cmds| == 0 then Frame(t, [])
    else
      var first := ExecOne(cmds[0], t);
      var rest := Exec(cmds[1..], first.transform);
      Frame(rest.transform, first.paints + rest.paints)
  }

  /** Running two call lists back to back runs the second from where the first left the transform. */
  lemma {:induction false} ExecConcat(a: seq<Command>, b: seq<Command>, t: Transform)
    ensures Exec(a + b, t) ==
            Frame(Exec(b, Exec(a, t).transform).transform,
                  Exec(a, t).paints + Exec(b, Exec(a, t).transform).paints)
    decreases |a|
  {
    if |a| == 0 {
      assert a + b == b;
    } else {
      assert (a + b)[1..] == a[1..] + b;
      ExecConcat(a[1..], b, ExecOne(a[0], t).transform);
    }
  }

  /** Bars do not move the origin, and each lands shifted by the current translation. */
  lemma {:induction false} ExecBars(data: seq<real>, height: nat, from: nat, t: Transform)
    ensures var f := Exec(Bars(data, height, from), t);
      && f.transform == t
      && |f.paints| == BarCount(|data|, from)
      && forall i :: 0 <= i < |f.paints| ==>
           var y := HalfBar(data[from + i], height);
           f.paints[i] == Filled((from + i) as real + t.tx, -y + t.ty, 1.0, 2.0 * y)
    decreases |data| - from
  {
    if from < |data| {
      var bars := Bars(data, height, from);
      assert bars[1..] == Bars(data, height, from + 1);
      ExecBars(data, height, from + 1, t);
    }
  }

  /** What a call of `drawWaveform` leaves on the canvas when it starts from
      transform `t`: the cleared strip and the bars, in device coordinates, and
      the identity transform. */
  lemma DrawFrame(width: nat, height: nat, data: seq<real>, startAt: nat, t: Transform)
    ensures var f := Exec(Draw(width, height, data, startAt), t);
      && f.transform == Identity
      && |f.paints| == BarCount(|data|, startAt) + 1
      && f.paints[0] == Cleared(startAt as real + t.tx, t.ty, width as real - startAt as real, height as real)
      && forall i :: 1 <= i < |f.paints| ==>
           var y := HalfBar(data[startAt + i - 1], height);
           f.paints[i] == Filled((startAt + i - 1) as real + t.tx, height as real / 2.0 - y + t.ty, 1.0, 2.0 * y)
  {
    var head := [ClearRect(startAt as real, 0.0, width as real - startAt as real, height as real),
                 Translate(0.0, height as real / 2.0)];
    var bars := Bars(data, height, startAt);
    var t' := Transform(t.tx, t.ty + height as real / 2.0);
    assert Draw(width, height, data, startAt) == head + bars + [ResetTransform];
    ExecConcat(head + bars, [ResetTransform], t);
    ExecConcat(head, bars, t);
    assert head[1..][1..] == [];
    assert Exec(head[1..], Transform(t.tx, t.ty)) == Frame(t', []);
    assert Exec(head, t) == Frame(t', [Cleared(startAt as real + t.tx, t.ty, width as real - startAt as real, height as real)]);
    ExecBars(data, height, startAt, t');
  }

  /** The net transform after any call is the identity, whatever the transform
      before, the data or `startAt`. */
  lemma DrawRestoresTransform(width: nat, height: nat, data: seq<real>, startAt: nat, t: Transform)
    ensures Exec(Draw(width, height, data, startAt), t).transform == Identity
  {
    DrawFrame(width, height, data, startAt, t);
  }

  /** Drawing once more paints exactly what that drawing paints on its own from
      the identity transform: an earlier call leaves no translation behind. */
  lemma RedrawIndependent(width: nat, height: nat, first: seq<real>, firstStart: nat,
                          second: seq<real>, secondStart: nat, t: Transform)
    ensures Exec(Draw(width, height, first, firstStart) + Draw(width, height, second, secondStart), t).paints ==
            Exec(Draw(width, height, first, firstStart), t).paints
            + Exec(Draw(width, height, second, secondStart), Identity).paints
  {
    ExecConcat(Draw(width, height, first, firstStart), Draw(width, height, second, secondStart), t);
    DrawRestoresTransform(width, height, first, firstStart, t);
  }

  /** The left and right edges of a rectangle; a negative width extends it leftwards. */
  function Left(p: Paint): real {
    if p.w >= 0.0 then p.x else p.x + p.w
  }

  function Right(p: Paint): real {
    if p.w >= 0.0 then p.x + p.w else p.x
  }

  /** The rectangle spans the whole pixel column `c`. */
  predicate CoversColumn(p: Paint, c: int) {
    Left(p) <= c as real && (c + 1) as real <= Right(p)
  }

  /** On a context with the identity transform, a canvas column is cleared
      exactly when it is at or right of `startAt`. */
  lemma ClearsFromStartAt(width: nat, height: nat, data: seq<real>, startAt: nat)
    ensures var f := Exec(Draw(width, height, data, startAt), Identity);
      forall c :: 0 <= c < width ==> (CoversColumn(f.paints[0], c) <==> startAt <= c)
  {
  }

  /** On a context with the identity transform, no canvas column left of
      `startAt` is touched, and after the cleared strip comes one bar per index
      `startAt, startAt + 1, ...`, each covering exactly its own column. */
  lemma PaintsOnlyFromStartAt(width: nat, height: nat, data: seq<real>, startAt: nat)
    ensures var f := Exec(Draw(width, height, data, startAt), Identity);
      && |f.paints| == BarCount(|data|, startAt) + 1
      && (forall i, c :: 0 <= i < |f.paints| && 0 <= c < width && CoversColumn(f.paints[i], c) ==> startAt <= c)
      && (forall i, c :: 1 <= i < |f.paints| ==>
            f.paints[i].Filled? && (CoversColumn(f.paints[i], c) <==> c == startAt + i - 1))
  {
    DrawFrame(width, height, data, startAt, Identity);
  }

  /** On a context with the identity transform, the bar of each index is
      centred on the canvas's horizontal midline and reaches `HalfBar` above and
      below it. */
  lemma BarsSymmetricAboutMidline(width: nat, height: nat, data: seq<real>, startAt: nat)
    ensures var f := Exec(Draw(width, height, data, startAt), Identity);
      && |f.paints| == BarCount(|data|, startAt) + 1
      && forall i :: 1 <= i < |f.paints| ==>
           && f.paints[i].Filled?
           && f.paints[i].y == height as real / 2.0 - HalfBar(data[startAt + i - 1], height)
           && f.paints[i].y + f.paints[i].h == height as real / 2.0 + HalfBar(data[startAt + i - 1], height)
  {
    DrawFrame(width, height, data, startAt, Identity);
  }
}
