/** The tap detector of 2016/04/P0-audio_test.py. Every block of audio read
    from the microphone is loud or quiet against an adaptive threshold; a
    quiet block that ends a short run of loud blocks is a tap. Long loud runs
    make the detector less sensitive, long quiet runs more sensitive. */
module TapDetector {
  import opened Wrappers

  /** `INITIAL_TAP_THRESHOLD` */
  const InitialTapThreshold: real := 0.1

  /** `OVERSENSITIVE = 15.0/INPUT_BLOCK_TIME`: loud blocks in a row after
      which the threshold is raised. */
  const Oversensitive: int := 1500

  /** `UNDERSENSITIVE = 120.0/INPUT_BLOCK_TIME`: quiet blocks in a row after
      which the threshold is lowered. */
  const Undersensitive: int := 12000

  /** `MAX_TAP_BLOCKS = 0.15/INPUT_BLOCK_TIME`: the longest loud run that
      still counts as a tap. */
  const MaxTapBlocks: int := 15

  /** The number of passes of the program's loop, `range(10000)`. */
  const Passes: int := 10000

  /** One `stream.read`: a block, seen through its RMS amplitude, or IOError. */
  datatype Read = Block(amplitude: real) | ReadError

  /** What one pass of the loop does: report a tap, report nothing, or stop
      the program with NameError when the very first read fails and there
      is no earlier block to measure. */
  datatype Outcome = Tap | NoTap | NameError

  /** The detector's variables; `lastAmplitude` is the amplitude of `block`,
      the most recent block read, None before the first one. */
  datatype DetectorState = DetectorState(
    tapThreshold: real, noisyCount: int, quietCount: int, errorCount: int, lastAmplitude: Option<real>)

  datatype Step = Step(state: DetectorState, outcome: Outcome)

  datatype Trace = Trace(state: DetectorState, outcomes: seq<Outcome>)

  /** Lines 111-114: no block read yet, no error, no quiet run, and a loud
      run too long to end in a tap. */
  function Initial(): (st: DetectorState)
    ensures Sane(st)
    ensures st.lastAmplitude == None && st.errorCount == 0 && st.quietCount == 0
    ensures st.noisyCount > MaxTapBlocks
  {
    DetectorState(InitialTapThreshold, MaxTapBlocks + 1, 0, 0, None)
  }

  /** The threshold is positive and the counters are not negative. */
  ghost predicate Sane(st: DetectorState)
  {
    st.tapThreshold > 0.0 && st.noisyCount >= 0 && st.quietCount >= 0 && st.errorCount >= 0
  }

  /** Lines 126-140: classify a block of the given amplitude. */
  function Classify(st: DetectorState, amplitude: real): Step
  {
    if amplitude > st.tapThreshold then
      var noisy := st.noisyCount + 1;
      var threshold := if noisy > Oversensitive then st.tapThreshold * 1.1 else st.tapThreshold;
      Step(st.(quietCount := 0, noisyCount := noisy, tapThreshold := threshold), NoTap)
    else
      var tap := 1 <= st.noisyCount <= MaxTapBlocks;
      var quiet := st.quietCount + 1;
      var threshold := if quiet > Undersensitive then st.tapThreshold * 0.9 else st.tapThreshold;
      Step(st.(noisyCount := 0, quietCount := quiet, tapThreshold := threshold), if tap then Tap else NoTap)
  }

  /** Lines 117-140: one pass of the loop. A failed read counts the error,
      sets the loud run to 1 and then measures the previous block again. */
  function Process(st: DetectorState, r: Read): Step
  {
    match r
    case Block(amplitude) => Classify(st.(lastAmplitude := Some(amplitude)), amplitude)
    case ReadError =>
      var st' := st.(errorCount := st.errorCount + 1, noisyCount := 1);
      if st.lastAmplitude.None? then Step(st', NameError)
      else Classify(st', st.lastAmplitude.value)
  }

  /** The loop over a sequence of reads; NameError ends it. */
  function Run(st: DetectorState, input: seq<Read>): Trace
    decreases |input|
  {
    if |input| == 0 then Trace(st, [])
    else
      var s := Process(st, input[0]);
      if s.outcome == NameError then Trace(s.state, [NameError])
      else
        var rest := Run(s.state, input[1..]);
        Trace(rest.state, [s.outcome] + rest.outcomes)
  }

  class Detector {
    var tapThreshold: real
    var noisyCount: int
    var quietCount: int
    var errorCount: int
    var lastAmplitude: Option<real>

    function State(): DetectorState
      reads this
    {
      DetectorState(tapThreshold, noisyCount, quietCount, errorCount, lastAmplitude)
    }

    ghost predicate Valid()
      reads this
    {
      Sane(State())
    }

    /** Lines 111-114. */
    constructor()
      ensures State() == Initial()
      ensures Valid()
    {
      tapThreshold := InitialTapThreshold;
      noisyCount := MaxTapBlocks + 1;
      quietCount := 0;
      errorCount := 0;
      lastAmplitude := None;
    }

    /** Lines 126-140 on the detector's variables. */
    method ClassifyBlock(amplitude: real) returns (outcome: Outcome)
      requires Valid()
      modifies this
      ensures Valid()
      ensures Step(State(), outcome) == Classify(old(State()), amplitude)
    {
      if amplitude > tapThreshold {
        quietCount := 0;
        noisyCount := noisyCount + 1;
        if noisyCount > Oversensitive {
          tapThreshold := tapThreshold * 1.1;
        }
        outcome := NoTap;
      } else {
        outcome := NoTap;
        if 1 <= noisyCount <= MaxTapBlocks {
          outcome := Tap;
        }
        noisyCount := 0;
        quietCount := quietCount + 1;
        if quietCount > Undersensitive {
          tapThreshold := tapThreshold * 0.9;
        }
      }
    }

    /** One pass of the loop body, lines 117-140. */
    method ProcessRead(r: Read) returns (outcome: Outcome)
      requires Valid()
      modifies this
      ensures Valid()
      ensures Step(State(), outcome) == Process(old(State()), r)
    {
      match r
      case Block(amplitude) =>
        lastAmplitude := Some(amplitude);
        outcome := ClassifyBlock(amplitude);
      case ReadError =>
        errorCount := errorCount + 1;
        noisyCount := 1;
        if lastAmplitude.None? {
          return NameError;
        }
        outcome := ClassifyBlock(lastAmplitude.value);
    }

    /** Lines 116-140: the loop, over the reads it is given; `outcomes` has
        one entry per pass, NameError last if the program stopped. */
    method Listen(input: seq<Read>) returns (outcomes: seq<Outcome>)
      requires Valid()
      modifies this
      ensures Valid()
      ensures Trace(State(), outcomes) == Run(old(State()), input)
    {
      outcomes := [];
      var i := 0;
      while i < |input|
        invariant 0 <= i <= |input|
        invariant Valid()
        invariant Run(old(State()), input) == Trace(Run(State(), input[i..]).state, outcomes + Run(State(), input[i..]).outcomes)
      {
        ghost var before := State();
        var outcome := ProcessRead(input[i]);
        ListenStep(old(State()), before, State(), outcome, input, i, outcomes);
        if outcome == NameError {
          outcomes := outcomes + [NameError];
          return;
        }
        outcomes := outcomes + [outcome];
        i := i + 1;
      }
    }
  }

  /** The loop from pass `i` on: that pass, then the passes after it unless
      it stopped the program. */
  lemma RunFrom(st: DetectorState, input: seq<Read>, i: nat)
    requires i < |input|
    ensures var s := Process(st, input[i]);
      if s.outcome == NameError then Run(st, input[i..]) == Trace(s.state, [NameError])
      else Run(st, input[i..]) == Trace(Run(s.state, input[i + 1..]).state, [s.outcome] + Run(s.state, input[i + 1..]).outcomes)
  {
    assert input[i..][0] == input[i] && input[i..][1..] == input[i + 1..];
  }

  /** One pass of `Listen`'s loop keeps its invariant, or ends the run. */
  lemma ListenStep(start: DetectorState, before: DetectorState, after: DetectorState, outcome: Outcome,
                   input: seq<Read>, i: nat, outcomes: seq<Outcome>)
    requires i < |input|
    requires Run(start, input) == Trace(Run(before, input[i..]).state, outcomes + Run(before, input[i..]).outcomes)
    requires Step(after, outcome) == Process(before, input[i])
    ensures outcome == NameError ==> Run(start, input) == Trace(after, outcomes + [NameError])
    ensures outcome != NameError ==>
      Run(start, input) == Trace(Run(after, input[i + 1..]).state, (outcomes + [outcome]) + Run(after, input[i + 1..]).outcomes)
  {
    RunFrom(before, input, i);
    if outcome != NameError {
      var rest := Run(after, input[i + 1..]).outcomes;
      assert outcomes + ([outcome] + rest) == (outcomes + [outcome]) + rest;
    }
  }

  /** The threshold stays positive and no counter goes negative. */
  lemma ProcessKeepsSane(st: DetectorState, r: Read)
    requires Sane(st)
    ensures Sane(Process(st, r).state)
  {
  }

  /** A loud block never reports a tap; it ends any quiet run and lengthens
      the loud one. */
  lemma LoudBlockNeverTaps(st: DetectorState, amplitude: real)
    requires amplitude > st.tapThreshold
    ensures Process(st, Block(amplitude)).outcome == NoTap
    ensures Process(st, Block(amplitude)).state.quietCount == 0
    ensures Process(st, Block(amplitude)).state.noisyCount == st.noisyCount + 1
  {
  }

  /** A quiet block reports a tap exactly when it ends a loud run of 1 to
      MaxTapBlocks blocks, and it starts or lengthens a quiet run. */
  lemma QuietBlockTapsIff(st: DetectorState, amplitude: real)
    requires amplitude <= st.tapThreshold
    ensures Process(st, Block(amplitude)).outcome == Tap <==> 1 <= st.noisyCount <= MaxTapBlocks
    ensures Process(st, Block(amplitude)).state.noisyCount == 0
    ensures Process(st, Block(amplitude)).state.quietCount == st.quietCount + 1
  {
  }

  /** The threshold moves only after more than Oversensitive loud blocks in
      a row (up by a tenth) or more than Undersensitive quiet ones (down by a
      tenth). */
  lemma ThresholdChanges(st: DetectorState, r: Read)
    requires Sane(st) && (r.Block? || st.lastAmplitude.Some?)
    ensures var st', a := Process(st, r).state, if r.Block? then r.amplitude else st.lastAmplitude.value;
      var noisy := if r.Block? then st.noisyCount else 1;
      && (st'.tapThreshold == st.tapThreshold * 1.1 <==> a > st.tapThreshold && noisy + 1 > Oversensitive)
      && (st'.tapThreshold == st.tapThreshold * 0.9 <==> a <= st.tapThreshold && st.quietCount + 1 > Undersensitive)
      && (st'.tapThreshold == st.tapThreshold <==>
            !(a > st.tapThreshold && noisy + 1 > Oversensitive) && !(a <= st.tapThreshold && st.quietCount + 1 > Undersensitive))
  {
  }

  /** One pass lengthens the quiet run by at most one and, while that run
      stays within Undersensitive, never lowers the threshold. */
  lemma PassNeverLowers(st: DetectorState, r: Read)
    requires Sane(st) && st.quietCount + 1 <= Undersensitive
    ensures Process(st, r).state.quietCount <= st.quietCount + 1
    ensures Process(st, r).state.tapThreshold >= st.tapThreshold
  {
  }

  /** A run of reads no longer than Undersensitive minus the quiet run ends
      with a threshold no lower than it started with. */
  lemma {:induction false} RunNeverLowers(st: DetectorState, input: seq<Read>)
    requires Sane(st) && st.quietCount + |input| <= Undersensitive
    ensures Run(st, input).state.tapThreshold >= st.tapThreshold
    decreases |input|
  {
    if |input| > 0 {
      var s := Process(st, input[0]);
      PassNeverLowers(st, input[0]);
      ProcessKeepsSane(st, input[0]);
      if s.outcome != NameError {
        RunNeverLowers(s.state, input[1..]);
      }
    }
  }

  /** `for i in range(10000)`: the program makes at most Passes passes, too
      few for a quiet run to exceed Undersensitive, so the threshold is never
      lowered below its initial value while it runs. */
  lemma ProgramNeverLowers(input: seq<Read>)
    requires |input| <= Passes
    ensures Run(Initial(), input).state.tapThreshold >= InitialTapThreshold
  {
    RunNeverLowers(Initial(), input);
  }

  /** After a tap, the next block read is never a tap: the loud run has been
      reset to 0. */
  lemma NoTapAfterTap(st: DetectorState, r: Read, amplitude: real)
    requires Process(st, r).outcome == Tap
    ensures Process(Process(st, r).state, Block(amplitude)).outcome == NoTap
  {
  }

  /** A failed read is not skipped: it sets the loud run to 1 and measures
      the last block again, so right after a tap a failed read reports a
      second tap. */
  lemma ReadErrorAfterTapTaps(st: DetectorState, r: Read)
    requires Sane(st) && st.quietCount < Undersensitive
    requires Process(st, r).outcome == Tap
    ensures Process(Process(st, r).state, ReadError).outcome == Tap
  {
    var s := Process(st, r).state;
    assert s.lastAmplitude.Some? && s.lastAmplitude.value <= s.tapThreshold by {
      if r.Block? {
        assert r.amplitude <= st.tapThreshold;
      }
    }
  }

  /** A failed read after a quiet block measures that block again with the
      loud run set to 1, so it reports a tap whatever came before. */
  lemma ReadErrorAfterQuietTaps(st: DetectorState)
    requires Sane(st) && st.lastAmplitude.Some? && st.lastAmplitude.value <= st.tapThreshold
    ensures Process(st, ReadError).outcome == Tap
  {
  }

  /** A failed read during a loud run longer than MaxTapBlocks resets the run
      to 1 and measures the loud block again, so the quiet block that follows
      reports a tap; without the failed read the same quiet block does not. */
  lemma ReadErrorShortensLongLoudRun(st: DetectorState, quiet: real)
    requires Sane(st) && st.noisyCount > MaxTapBlocks
    requires st.lastAmplitude.Some? && st.lastAmplitude.value > st.tapThreshold
    requires quiet <= st.tapThreshold
    ensures Run(st, [ReadError, Block(quiet)]).outcomes == [NoTap, Tap]
    ensures Run(st, [Block(quiet)]).outcomes == [NoTap]
  {
    var s1 := Process(st, ReadError);
    assert s1.outcome == NoTap && s1.state.noisyCount == 2 && s1.state.tapThreshold == st.tapThreshold;
    RunCons(st, ReadError, [Block(quiet)]);
    RunCons(s1.state, Block(quiet), []);
    RunCons(st, Block(quiet), []);
    assert [ReadError] + [Block(quiet)] == [ReadError, Block(quiet)];
    assert [Block(quiet)] + [] == [Block(quiet)];
  }

  /** A failed first read stops the program: there is no block to measure. */
  lemma FirstReadErrorStops()
    ensures Process(Initial(), ReadError).outcome == NameError
    ensures Run(Initial(), [ReadError, Block(0.0)]).outcomes == [NameError]
  {
  }

  /** The first block never reports a tap: the loud run starts longer than
      MaxTapBlocks. */
  lemma FirstBlockNeverTaps(amplitude: real)
    ensures Process(Initial(), Block(amplitude)).outcome == NoTap
  {
  }

  /** A quiet block, 1 to MaxTapBlocks loud ones and a quiet one report
      exactly one tap, at the end, when the threshold stays put. */
  lemma {:induction false} ShortBurstTaps(st: DetectorState, quiet: real, loud: real, k: nat)
    requires Sane(st)
    requires quiet <= st.tapThreshold < loud
    requires 1 <= k <= MaxTapBlocks && st.quietCount + 1 <= Undersensitive
    ensures var t := Run(st, [Block(quiet)] + Repeat(Block(loud), k) + [Block(quiet)]);
      && |t.outcomes| == k + 2
      && t.outcomes[k + 1] == Tap
      && forall i :: 1 <= i <= k ==> t.outcomes[i] == NoTap
  {
    var s0 := Process(st, Block(quiet)).state;
    assert s0.noisyCount == 0 && s0.tapThreshold == st.tapThreshold;
    LoudRun(s0, loud, k, [Block(quiet)]);
    LoudStateCounts(s0, loud, k);
    var input := [Block(quiet)] + Repeat(Block(loud), k) + [Block(quiet)];
    assert input[1..] == Repeat(Block(loud), k) + [Block(quiet)];
  }

  function Repeat<T>(x: T, k: nat): (xs: seq<T>)
    ensures |xs| == k && forall i :: 0 <= i < k ==> xs[i] == x
  {
    if k == 0 then [] else [x] + Repeat(x, k - 1)
  }

  /** k loud blocks in a row report no tap and then carry on from the state
      after them. */
  lemma {:induction false} LoudRun(st: DetectorState, loud: real, k: nat, tail: seq<Read>)
    requires Sane(st) && st.tapThreshold < loud && st.noisyCount + k <= Oversensitive
    ensures var t, rest := Run(st, Repeat(Block(loud), k) + tail), Run(LoudState(st, loud, k), tail);
      && t.state == rest.state
      && t.outcomes == Repeat(NoTap, k) + rest.outcomes
    decreases k
  {
    if k > 0 {
      var s1 := Process(st, Block(loud)).state;
      var input := Repeat(Block(loud), k) + tail;
      assert input == [Block(loud)] + (Repeat(Block(loud), k - 1) + tail);
      assert Process(st, Block(loud)).outcome == NoTap && Sane(s1) && s1.noisyCount == st.noisyCount + 1 && s1.tapThreshold < loud by {
        LoudStep(st, loud);
      }
      RunCons(st, Block(loud), Repeat(Block(loud), k - 1) + tail);
      LoudRun(s1, loud, k - 1, tail);
      assert Repeat(NoTap, k) == [NoTap] + Repeat(NoTap, k - 1);
    } else {
      assert Repeat(Block(loud), k) + tail == tail;
    }
  }

  /** A loud run of n that stays within Oversensitive for k more loud
      blocks ends at n + k, with the threshold unchanged. */
  lemma {:induction false} LoudStateCounts(st: DetectorState, loud: real, k: nat)
    requires Sane(st) && st.tapThreshold < loud && st.noisyCount + k <= Oversensitive
    ensures Sane(LoudState(st, loud, k))
    ensures LoudState(st, loud, k).noisyCount == st.noisyCount + k
    ensures LoudState(st, loud, k).tapThreshold == st.tapThreshold
    ensures k > 0 ==> LoudState(st, loud, k).quietCount == 0
    decreases k
  {
    if k > 0 {
      LoudStep(st, loud);
      LoudStateCounts(Process(st, Block(loud)).state, loud, k - 1);
    }
  }

  /** One loud block within Oversensitive: no tap, the loud run grows by one
      and the quiet run is reset. */
  lemma LoudStep(st: DetectorState, loud: real)
    requires Sane(st) && st.tapThreshold < loud && st.noisyCount + 1 <= Oversensitive
    ensures Process(st, Block(loud))
         == Step(st.(lastAmplitude := Some(loud), quietCount := 0, noisyCount := st.noisyCount + 1), NoTap)
  {
  }

  /** The loop's first pass, when it does not end the loop. */
  lemma RunCons(st: DetectorState, r: Read, rest: seq<Read>)
    requires Process(st, r).outcome != NameError
    ensures var s, t := Process(st, r), Run(Process(st, r).state, rest);
      Run(st, [r] + rest) == Trace(t.state, [s.outcome] + t.outcomes)
  {
    assert ([r] + rest)[0] == r && ([r] + rest)[1..] == rest;
  }

  /** The state after k loud blocks of the same amplitude. */
  function LoudState(st: DetectorState, loud: real, k: nat): DetectorState
    decreases k
  {
    if k == 0 then st else LoudState(Process(st, Block(loud)).state, loud, k - 1)
  }
}
