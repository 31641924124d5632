/**
  The audio-worklet peak sampler. Each rendering quantum the host hands the
  processor a list of inputs, each a list of channels, each a block of samples.
  The processor folds the first channel of the first input into a running peak,
  counts the blocks, and every fourth block posts the peak to the UI thread and
  starts a new window from zero.

  The processor's two fields become the immutable `State`; the
  `port.postMessage` side effect becomes the optional `posted` value of a step.
*/
module WaveformSampler {
  import opened Wrappers

  /** Number of blocks folded into one posted peak. */
  const Decimation: nat := 4

  /** One block of samples of one channel. */
  type Channel = seq<real>

  /** The channels of one input. */
  type Input = seq<Channel>

  /** The `inputs` argument of one `process` call. */
  type Inputs = seq<Input>

  /** The processor's fields: blocks seen in the current window, and the running peak. */
  datatype State = State(counter: nat, lastSample: real)

  /** What one `process` call does: the new fields, the message posted (if any),
      and whether the call returned `false`. */
  datatype StepResult = StepResult(next: State, posted: Option<real>, returnedFalse: bool)

  /** The state of a sequence of calls: the final fields and every message posted, in order. */
  datatype RunResult = RunResult(final: State, posted: seq<real>)

  /** The invariant every reachable state keeps. */
  predicate Valid(s: State) {
    s.counter < Decimation && s.lastSample >= 0.0
  }

  /** The fields as the constructor sets them. */
  function Init(): (s: State)
    ensures Valid(s)
    ensures s.counter == 0 && s.lastSample == 0.0
  {
    State(0, 0.0)
  }

  /** `inputs[0][0]`, or `None` where JavaScript would read `undefined`
      (no input at all, or a first input without channels). */
  function FirstChannel(inputs: Inputs): Option<Channel> {
    if |inputs| == 0 then None
    else if |inputs[0]| == 0 then None
    else Some(inputs[0][0])
  }

  /** `Math.max` on real numbers. */
  function Max(a: real, b: real): real {
    if a >= b then a else b
  }

  /** `v` is the largest of `init` and every value of `samples`. */
  ghost predicate IsPeakOf(v: real, init: real, samples: seq<real>) {
    && init <= v
    && (forall i :: 0 <= i < |samples| ==> samples[i] <= v)
    && (v == init || exists i :: 0 <= i < |samples| && samples[i] == v)
  }

  /** `samples.reduce((prev, curr) => Math.max(prev, curr), init)`: a left fold. */
  function Peak(init: real, samples: seq<real>): (r: real)
    ensures IsPeakOf(r, init, samples)
    decreases |samples|
  {
    if |samples| == 0 then init
    else
      var r := Peak(Max(init, samples[0]), samples[1..]);
      assert forall i :: 1 <= i < |samples| ==> samples[i] == samples[1..][i - 1];
      r
  }

  /** Folding a concatenation is folding the second part from the first part's peak. */
  lemma {:induction false} PeakConcat(init: real, a: seq<real>, b: seq<real>)
    ensures Peak(init, a + b) == Peak(Peak(init, a), b)
    decreases |a|
  {
    if |a| > 0 {
      assert (a + b)[1..] == a[1..] + b;
      PeakConcat(Max(init, a[0]), a[1..], b);
    } else {
      assert a + b == b;
    }
  }

  /** One `process` call. */
  function Step(s: State, inputs: Inputs): (r: StepResult)
    // No input, or no first channel: return false and touch nothing.
    ensures FirstChannel(inputs).None? ==> r == StepResult(s, None, true)
    // Otherwise the call does not return false ...
    ensures FirstChannel(inputs).Some? ==> !r.returnedFalse
    // ... and posts exactly when this block completes a window.
    ensures FirstChannel(inputs).Some? ==> (r.posted.Some? <==> s.counter + 1 >= Decimation)
    // A posted value is the peak of the window so far and this block; the fields restart at zero.
    ensures r.posted.Some? ==>
              && r.next == Init()
              && IsPeakOf(r.posted.value, s.lastSample, FirstChannel(inputs).value)
    // Without a post, the block is counted and folded into the running peak.
    ensures FirstChannel(inputs).Some? && r.posted.None? ==>
              && r.next.counter == s.counter + 1
              && IsPeakOf(r.next.lastSample, s.lastSample, FirstChannel(inputs).value)
    // A block always leaves the counter in 0..3; the invariant is kept.
    ensures FirstChannel(inputs).Some? ==> r.next.counter < Decimation
    ensures Valid(s) ==> Valid(r.next)
  {
    match FirstChannel(inputs)
    case None => StepResult(s, None, true)
    case Some(samples) =>
      var peak := Peak(s.lastSample, samples);
      var counter := s.counter + 1;
      if counter >= Decimation then StepResult(State(0, 0.0), Some(peak), false)
      else StepResult(State(counter, peak), None, false)
  }

  /** The calls of `history`, oldest first, made from state `s`. */
  function Run(s: State, history: seq<Inputs>): (r: RunResult)
    decreases |history|
  {
    if |history| == 0 then RunResult(s, [])
    else
      var before := Run(s, history[..|history| - 1]);
      var last := Step(before.final, history[|history| - 1]);
      RunResult(last.next, before.posted + last.posted.ToSeq())
  }

  /** How many calls of `history` carried a first channel. */
  function ValidCount(history: seq<Inputs>): (n: nat)
    ensures n <= |history|
    decreases |history|
  {
    if |history| == 0 then 0
    else ValidCount(history[..|history| - 1]) + (if FirstChannel(history[|history| - 1]).Some? then 1 else 0)
  }

  /** Every sample the calls of `history` folded, in order. */
  function Samples(history: seq<Inputs>): seq<real>
    decreases |history|
  {
    if |history| == 0 then []
    else
      var last := FirstChannel(history[|history| - 1]);
      Samples(history[..|history| - 1]) + (if last.Some? then last.value else [])
  }

  /** From a valid state, the number of posts and the final counter depend only
      on how many calls carried a block. */
  lemma {:induction false} RunCounts(s: State, history: seq<Inputs>)
    requires Valid(s)
    ensures Valid(Run(s, history).final)
    ensures |Run(s, history).posted| == (s.counter + ValidCount(history)) / Decimation
    ensures Run(s, history).final.counter == (s.counter + ValidCount(history)) % Decimation
    decreases |history|
  {
    if |history| > 0 {
      var prefix := history[..|history| - 1];
      RunCounts(s, prefix);
    }
  }

  /** After `n` blocks from the initial state, `n / 4` peaks were posted and the counter is `n % 4`. */
  lemma {:induction false} RunFromInit(history: seq<Inputs>)
    ensures |Run(Init(), history).posted| == ValidCount(history) / Decimation
    ensures Run(Init(), history).final.counter == ValidCount(history) % Decimation
  {
    RunCounts(Init(), history);
  }

  /** From a valid state every posted peak is non-negative. */
  lemma {:induction false} RunPostsNonNegative(s: State, history: seq<Inputs>)
    requires Valid(s)
    ensures Valid(Run(s, history).final)
    ensures forall i :: 0 <= i < |Run(s, history).posted| ==> Run(s, history).posted[i] >= 0.0
    decreases |history|
  {
    if |history| > 0 {
      RunPostsNonNegative(s, history[..|history| - 1]);
    }
  }

  /** A block that does not complete the window is counted and folded in. */
  lemma StepWithinWindow(st: State, x: Inputs)
    requires FirstChannel(x).Some? ==> st.counter + 1 < Decimation
    ensures Step(st, x).posted == None
    ensures Step(st, x).next ==
              if FirstChannel(x).Some? then State(st.counter + 1, Peak(st.lastSample, FirstChannel(x).value))
              else st
  {
  }

  /** While a window is incomplete nothing is posted, and the running peak is
      the fold of every sample seen since the window began. */
  lemma {:induction false} RunWithinWindow(s: State, history: seq<Inputs>)
    requires Valid(s)
    requires s.counter + ValidCount(history) < Decimation
    ensures Run(s, history) ==
              RunResult(State(s.counter + ValidCount(history), Peak(s.lastSample, Samples(history))), [])
    decreases |history|
  {
    if |history| > 0 {
      var prefix := history[..|history| - 1];
      var x := history[|history| - 1];
      RunWithinWindow(s, prefix);
      var n := s.counter + ValidCount(prefix);
      var p := Peak(s.lastSample, Samples(prefix));
      assert Run(s, prefix) == RunResult(State(n, p), []);
      StepWithinWindow(State(n, p), x);
      var last := FirstChannel(x);
      if last.Some? {
        PeakConcat(s.lastSample, Samples(prefix), last.value);
        assert Samples(history) == Samples(prefix) + last.value;
      } else {
        assert Samples(history) == Samples(prefix) + [];
        assert Samples(history) == Samples(prefix);
      }
    }
  }

  /** The block that completes a window posts exactly one value: the largest of
      zero and every sample of the window's four blocks. The fields are then
      back at their initial values, so no earlier peak reaches a later window. */
  lemma WindowPost(window: seq<Inputs>, last: Inputs)
    requires ValidCount(window) == Decimation - 1
    requires FirstChannel(last).Some?
    ensures Run(Init(), window + [last]).final == Init()
    ensures |Run(Init(), window + [last]).posted| == 1
    ensures IsPeakOf(Run(Init(), window + [last]).posted[0], 0.0, Samples(window + [last]))
  {
    var h := window + [last];
    assert h[..|h| - 1] == window;
    RunWithinWindow(Init(), window);
    PeakConcat(0.0, Samples(window), FirstChannel(last).value);
  }

  /** Running two histories back to back runs the second from the state the first left. */
  lemma {:induction false} RunConcat(s: State, a: seq<Inputs>, b: seq<Inputs>)
    ensures Run(s, a + b) ==
            RunResult(Run(Run(s, a).final, b).final, Run(s, a).posted + Run(Run(s, a).final, b).posted)
    decreases |b|
  {
    if |b| == 0 {
      assert a + b == a;
    } else {
      var b' := b[..|b| - 1];
      assert (a + b)[..|a + b| - 1] == a + b';
      assert (a + b)[|a + b| - 1] == b[|b| - 1];
      RunConcat(s, a, b');
    }
  }

  /** Every window, not only the first: after any calls that end in a post, the
      block that completes the next window of 4 blocks posts exactly the largest
      of 0 and that window's samples, whatever peaks came before. */
  lemma LaterWindowPost(s: State, earlier: seq<Inputs>, window: seq<Inputs>, last: Inputs)
    requires |earlier| > 0
    requires Step(Run(s, earlier[..|earlier| - 1]).final, earlier[|earlier| - 1]).posted.Some?
    requires ValidCount(window) == Decimation - 1
    requires FirstChannel(last).Some?
    ensures Run(s, earlier + window + [last]).final == Init()
    ensures |Run(s, earlier + window + [last]).posted| == |Run(s, earlier).posted| + 1
    ensures Run(s, earlier + window + [last]).posted[..|Run(s, earlier).posted|] == Run(s, earlier).posted
    ensures IsPeakOf(Run(s, earlier + window + [last]).posted[|Run(s, earlier).posted|], 0.0, Samples(window + [last]))
  {
    assert Run(s, earlier).final == Init();
    assert earlier + window + [last] == earlier + (window + [last]);
    RunConcat(s, earlier, window + [last]);
    WindowPost(window, last);
  }
}
