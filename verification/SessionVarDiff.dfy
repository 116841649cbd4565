/** The difficulties a connection announces, and how they follow the miner's speed. */
module SessionVarDiff {
  import opened Sequences
  import opened Powers
  import opened Clock
  import opened Difficulty
  import opened Session
  import opened SessionTraces
  import VarDiff
  import Miners

  /** The difficulties announced, in order. */
  function Difficulties(out: seq<Message>): seq<nat> {
    if out == [] then []
    else
      var last := out[|out| - 1];
      Difficulties(out[..|out| - 1]) + (if last.SetDifficulty? then [last.difficulty] else [])
  }

  lemma {:induction false} DifficultiesConcat(a: seq<Message>, b: seq<Message>)
    ensures Difficulties(a + b) == Difficulties(a) + Difficulties(b)
  {
    if b == [] {
      assert a + b == a;
    } else {
      var n := |b| - 1;
      DifficultiesConcat(a, b[..n]);
      ConcatLast(a, b);
    }
  }

  lemma WrittenDifficulties(s: Settings, c: Conn, input: Input)
    ensures Difficulties(Written(s, c, input)) ==
            if c.stage == 1 && Written(s, c, input) != [] then [s.start]
            else if Step(s, c, input).diff != c.diff then [Step(s, c, input).diff]
            else []
  {
    var w := Written(s, c, input);
    if c.stage == 1 && w != [] {
      var reply, announce := AuthorizeReply(input.line.id), SetDifficulty(s.start);
      DifficultiesConcat([reply], Greeting(s));
      assert Difficulties([reply]) == [] by { assert [reply][..0] == []; }
      assert Difficulties([announce]) == [s.start] by { assert [announce][..0] == []; }
      if s.cached.Some? {
        DifficultiesConcat([announce], [Notify(s.cached.value)]);
        assert Difficulties([Notify(s.cached.value)]) == [] by { assert [Notify(s.cached.value)][..0] == []; }
      }
    } else if c.stage == 0 && w != [] {
      assert w[..1][..0] == [] && Difficulties(w[..1]) == [];
    } else if w != [] {
      assert w[..0] == [];
    }
  }

  function Announced(s: Settings, inputs: seq<Input>): seq<nat> {
    Difficulties(Messages(Run(s, inputs).log))
  }

  lemma AnnouncedSnoc(s: Settings, inputs: seq<Input>)
    requires inputs != []
    ensures var before, input := inputs[..|inputs| - 1], inputs[|inputs| - 1];
            Announced(s, inputs) == Announced(s, before) + Difficulties(Written(s, Run(s, before), input))
  {
    var c, input := Run(s, inputs[..|inputs| - 1]), inputs[|inputs| - 1];
    StepWrites(s, c, input);
    DifficultiesConcat(Messages(c.log), Written(s, c, input));
  }

  /** What was announced fits the stage and the difficulty in force. */
  ghost predicate Tracks(s: Settings, stage: nat, diff: nat, ds: seq<nat>) {
    && stage <= 2 && (stage < 2 ==> ds == [] && diff == s.start)
    && (stage == 2 ==> |ds| > 0 && ds[0] == s.start && ds[|ds| - 1] == diff)
  }

  lemma TracksStep(s: Settings, c: Conn, input: Input, ds: seq<nat>)
    requires Tracks(s, c.stage, c.diff, ds)
    ensures var d := Step(s, c, input); Tracks(s, d.stage, d.diff, ds + Difficulties(Written(s, c, input)))
  {
    WrittenDifficulties(s, c, input);
    StageMoves(s, c, input);
  }

  /** The client is told every difficulty the server uses: the first announcement is the tier's,
      the last one is the current difficulty. */
  lemma {:induction false} AnnouncedTracksCurrent(s: Settings, inputs: seq<Input>)
    ensures var c, ds := Run(s, inputs), Announced(s, inputs);
            && c.stage <= 2 && (c.stage < 2 ==> ds == [] && c.diff == s.start)
            && (c.stage == 2 ==> |ds| > 0 && ds[0] == s.start && ds[|ds| - 1] == c.diff)
  {
    if inputs != [] {
      var before := inputs[..|inputs| - 1];
      AnnouncedTracksCurrent(s, before);
      AnnouncedSnoc(s, inputs);
      TracksStep(s, Run(s, before), inputs[|inputs| - 1], Announced(s, before));
    }
  }

  predicate Completes(s: Settings, c: Conn, input: Input) {
    c.open && c.stage == 2 && input.RetargetTick? && WindowCompletes(s, c, input.now)
  }

  /** The difficulties of the completed retarget windows, and the one now in force. */
  function WindowDifficulties(s: Settings, inputs: seq<Input>): seq<nat> {
    if inputs == [] then [s.start]
    else
      var c, input := Run(s, inputs[..|inputs| - 1]), inputs[|inputs| - 1];
      WindowDifficulties(s, inputs[..|inputs| - 1])
      + (if Completes(s, c, input) then [Step(s, c, input).diff] else [])
  }

  /** The shares per minute measured in each completed window. */
  function WindowRates(s: Settings, inputs: seq<Input>): seq<real> {
    if inputs == [] then []
    else
      var c, input := Run(s, inputs[..|inputs| - 1]), inputs[|inputs| - 1];
      WindowRates(s, inputs[..|inputs| - 1])
      + (if Completes(s, c, input) then [Rate(c.shareCount, Elapsed(c.lastRetarget, input.now))] else [])
  }

  /** What each completed window counted: its shares and its milliseconds. */
  function WindowCounts(s: Settings, inputs: seq<Input>): seq<(nat, nat)> {
    if inputs == [] then []
    else
      var c, input := Run(s, inputs[..|inputs| - 1]), inputs[|inputs| - 1];
      WindowCounts(s, inputs[..|inputs| - 1])
      + (if Completes(s, c, input) then [(c.shareCount, Elapsed(c.lastRetarget, input.now))] else [])
  }

  /** A window of a minute at least, and its count per minute. */
  predicate IsRateOf(rate: real, count: (nat, nat)) {
    count.1 >= 60000 && rate == count.0 as real / (count.1 as real / 60000.0)
  }

  lemma WindowRate(s: Settings, c: Conn, now: nat)
    requires WindowCompletes(s, c, now)
    ensures IsRateOf(Rate(c.shareCount, Elapsed(c.lastRetarget, now)), (c.shareCount, Elapsed(c.lastRetarget, now)))
  {
  }

  /** Windows last a minute at least, and their rates are their counts per minute. */
  lemma {:induction false} RatesAreCounts(s: Settings, inputs: seq<Input>)
    ensures var rates, counts := WindowRates(s, inputs), WindowCounts(s, inputs);
            |rates| == |counts| && forall k :: 0 <= k < |counts| ==> IsRateOf(rates[k], counts[k])
  {
    if inputs != [] {
      var before, input := inputs[..|inputs| - 1], inputs[|inputs| - 1];
      RatesAreCounts(s, before);
      if Completes(s, Run(s, before), input) {
        WindowRate(s, Run(s, before), input.now);
      }
    }
  }

  /** A session's windows follow the retarget rule, whatever else arrives in between. */
  lemma {:induction false} WindowsFollowRule(s: Settings, inputs: seq<Input>)
    ensures var ds, rates := WindowDifficulties(s, inputs), WindowRates(s, inputs);
            && |ds| > 0 && ds[0] == s.start && ds[|ds| - 1] == Run(s, inputs).diff
            && VarDiff.FollowsRule(ds, rates, s.Target(), s.floor)
  {
    if inputs != [] {
      WindowsFollowRule(s, inputs[..|inputs| - 1]);
      var c, input := Run(s, inputs[..|inputs| - 1]), inputs[|inputs| - 1];
      if !Completes(s, c, input) {
        OnlyWindowsChange(s, c, input);
      }
    }
  }

  lemma OnlyWindowsChange(s: Settings, c: Conn, input: Input)
    requires !Completes(s, c, input)
    ensures Step(s, c, input).diff == c.diff
  {
  }

  lemma ChangesSnoc(s: Settings, inputs: seq<Input>)
    requires inputs != []
    ensures var c, input := Run(s, inputs[..|inputs| - 1]), inputs[|inputs| - 1];
            VarDiff.Changes(WindowDifficulties(s, inputs)) ==
            VarDiff.Changes(WindowDifficulties(s, inputs[..|inputs| - 1])) + (if Step(s, c, input).diff != c.diff then 1 else 0)
  {
    var before, input := inputs[..|inputs| - 1], inputs[|inputs| - 1];
    var c, ds := Run(s, before), WindowDifficulties(s, before);
    WindowsFollowRule(s, before);
    if Completes(s, c, input) {
      assert (ds + [Step(s, c, input).diff])[..|ds|] == ds;
    } else {
      OnlyWindowsChange(s, c, input);
      assert WindowDifficulties(s, inputs) == ds;
    }
  }

  lemma AnnouncedCount(s: Settings, c: Conn, input: Input)
    requires c.stage <= 2 && (c.stage < 2 ==> c.diff == s.start)
    ensures var d := Step(s, c, input);
            |Difficulties(Written(s, c, input))| ==
            (if d.diff != c.diff then 1 else 0) + (if c.stage < 2 && d.stage == 2 then 1 else 0)
  {
    WrittenDifficulties(s, c, input);
    StageMoves(s, c, input);
    if c.stage < 2 {
      HandshakeKeepsDifficulty(s, c, input);
    }
  }

  lemma HandshakeKeepsDifficulty(s: Settings, c: Conn, input: Input)
    requires c.stage != 2
    ensures Step(s, c, input).diff == c.diff
  {
  }

  lemma {:induction false} NoWindowsBefore(s: Settings, inputs: seq<Input>)
    ensures Run(s, inputs).stage < 2 ==> WindowDifficulties(s, inputs) == [s.start]
  {
    if inputs != [] {
      var before, input := inputs[..|inputs| - 1], inputs[|inputs| - 1];
      NoWindowsBefore(s, before);
      AnnouncedTracksCurrent(s, before);
      StageMoves(s, Run(s, before), input);
    }
  }

  /** One announcement for the start and one for every window that changed the difficulty. */
  lemma {:induction false} AnnouncedCountsChanges(s: Settings, inputs: seq<Input>)
    ensures |Announced(s, inputs)| ==
            VarDiff.Changes(WindowDifficulties(s, inputs)) + (if Run(s, inputs).stage == 2 then 1 else 0)
    ensures Run(s, inputs).stage < 2 ==> WindowDifficulties(s, inputs) == [s.start]
  {
    NoWindowsBefore(s, inputs);
    if inputs != [] {
      var before, input := inputs[..|inputs| - 1], inputs[|inputs| - 1];
      var c := Run(s, before);
      AnnouncedCountsChanges(s, before);
      AnnouncedTracksCurrent(s, before);
      AnnouncedSnoc(s, inputs);
      AnnouncedCount(s, c, input);
      ChangesSnoc(s, inputs);
      StageMoves(s, c, input);
    }
  }

  /** The announcements after the first. */
  function Retargets(s: Settings, inputs: seq<Input>): nat {
    if Announced(s, inputs) == [] then 0 else |Announced(s, inputs)| - 1
  }

  lemma RetargetsAreChanges(s: Settings, inputs: seq<Input>)
    ensures Retargets(s, inputs) == VarDiff.Changes(WindowDifficulties(s, inputs))
  {
    AnnouncedTracksCurrent(s, inputs);
    AnnouncedCountsChanges(s, inputs);
  }

  lemma WithinAfter(ds: seq<nat>, rates: seq<real>, target: real, floor: nat, e: nat, start: nat, last: nat, changes: nat)
    requires VarDiff.FollowsRule(ds, rates, target, floor) && ds[0] == start && ds[|ds| - 1] == last
    requires IsPow2(start) && IsPow2(floor) && Max(start, floor) == Pow2(e)
    requires VarDiff.Changes(ds) == changes && e + changes <= 63
    ensures VarDiff.Within(last, Min(start, floor), e + changes)
  {
    VarDiff.RunStaysWithin(ds, rates, target, floor, e);
  }

  /** While the exponent of the larger of start and floor plus the number of retargets is at most 63,
      the difficulty is a power of two, at least the smaller of the two, and has at most doubled with
      every retarget; no doubling wraps. */
  lemma DifficultyStaysInRange(s: Settings, inputs: seq<Input>, e: nat)
    requires IsPow2(s.start) && IsPow2(s.floor) && Max(s.start, s.floor) == Pow2(e)
    requires e + Retargets(s, inputs) <= 63
    ensures var retargets := Retargets(s, inputs);
            VarDiff.Within(Run(s, inputs).diff, Min(s.start, s.floor), e + retargets)
  {
    WindowsFollowRule(s, inputs);
    RetargetsAreChanges(s, inputs);
    WithinAfter(WindowDifficulties(s, inputs), WindowRates(s, inputs), s.Target(), s.floor, e,
                s.start, Run(s, inputs).diff, Retargets(s, inputs));
  }

  /** Every window's count is less than one share off what a miner of this ideal difficulty is
      expected to find in it. */
  ghost predicate SteadyMiner(s: Settings, inputs: seq<Input>, ideal: real) {
    var ds, counts := WindowDifficulties(s, inputs), WindowCounts(s, inputs);
    && |ds| == |counts| + 1
    && forall k :: 0 <= k < |counts| ==> Miners.Counted(ideal, s.Target(), ds[k], counts[k].0, counts[k].1)
  }

  lemma SteadyRun(s: Settings, inputs: seq<Input>, ideal: real)
    requires s.sharesPerMin >= 3 && SteadyMiner(s, inputs, ideal)
    ensures VarDiff.IsRun(WindowDifficulties(s, inputs), WindowRates(s, inputs), 0.6 * ideal, s.Target(), s.floor)
  {
    var ds, rates, counts := WindowDifficulties(s, inputs), WindowRates(s, inputs), WindowCounts(s, inputs);
    WindowsFollowRule(s, inputs);
    RatesAreCounts(s, inputs);
    forall k | 0 <= k < |rates| ensures VarDiff.Separated(0.6 * ideal, s.Target(), ds[k], rates[k]) {
      assert IsRateOf(rates[k], counts[k]);
      Miners.WholeSharesSeparated(ideal, s.Target(), ds[k], counts[k].0, counts[k].1);
    }
  }

  /** A session with a miner of constant speed never hunts: with a target of three or more and every
      window's whole count less than a share off, the difficulty only rises or only falls, at most 63
      times in all. */
  lemma SessionNeverHunts(s: Settings, inputs: seq<Input>, ideal: real, i: nat, j: nat)
    requires s.sharesPerMin >= 3 && SteadyMiner(s, inputs, ideal)
    requires VarDiff.InRange(0.6 * ideal, s.Target(), s.floor, s.start)
    requires i < |WindowRates(s, inputs)| && j < |WindowRates(s, inputs)|
    ensures var ds := WindowDifficulties(s, inputs);
            && |ds| == |WindowRates(s, inputs)| + 1
            && !(ds[i + 1] < ds[i] && ds[j] < ds[j + 1])
            && VarDiff.Changes(ds) < 64
  {
    var ds, rates := WindowDifficulties(s, inputs), WindowRates(s, inputs);
    WindowsFollowRule(s, inputs);
    SteadyRun(s, inputs, ideal);
    VarDiff.ChangesAreLogarithmic(ds, rates, 0.6 * ideal, s.Target(), s.floor);
    if ds[i + 1] < ds[i] {
      VarDiff.NeverReverses(ds, rates, 0.6 * ideal, s.Target(), s.floor, i, j);
    }
  }
}
