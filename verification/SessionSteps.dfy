/** What single inputs do to a connection, in numbers, and where its settings come from. */
module SessionSteps {
  import opened Powers
  import opened Options
  import opened Difficulty
  import opened Session
  import opened SessionTraces
  import opened SessionVarDiff
  import Miners

  // ---------------------------------------------------------------- lines

  /** A connection closes when the client hangs up or breaks the framing, and for no other input. */
  lemma ClosesIff(s: Settings, c: Conn, input: Input)
    ensures Step(s, c, input).open <==> c.open && !(input.Received? && (input.line.EndOfStream? || input.line.BadFrame?))
  {
  }

  /** Closed connections, blank lines and lines that are no requests change nothing, and neither do a
      report of lost jobs or, during the handshake, anything but a request. */
  lemma NothingHappens(s: Settings, c: Conn, input: Input)
    requires || !c.open || input.JobsLagged? || (input.Received? && (input.line.Blank? || input.line.NotARequest?))
             || (c.stage != 2 && !input.Received?)
    ensures Step(s, c, input) == c
  {
  }

  /** During the handshake a subscribe is answered first and an authorize after it; any other request,
      or one out of turn, is passed over. */
  lemma HandshakeAnswers(s: Settings, c: Conn, id: Id, rpcMethod: string, params: Option<seq<string>>, jobs: map<string, nat>)
    requires c.open && c.stage < 2
    ensures var d := Step(s, c, Received(Request(id, rpcMethod, params), jobs));
            && (d.stage == c.stage + 1 <==> rpcMethod == if c.stage == 0 then "mining.subscribe" else "mining.authorize")
            && (d.stage == c.stage + 1 <==> Messages(d.log) != Messages(c.log))
            && (d.stage == c.stage + 1 || d == c)
            && d.(stage := c.stage, log := c.log) == c
  {
    var input := Received(Request(id, rpcMethod, params), jobs);
    StepWrites(s, c, input);
    var w := Written(s, c, input);
    if w != [] {
      assert |Messages(c.log) + w| > |Messages(c.log)|;
    } else {
      assert Messages(c.log) + w == Messages(c.log);
    }
  }

  // ---------------------------------------------------------------- retargets

  lemma RateLimits(shares: nat, elapsed: nat, target: nat)
    requires elapsed > 0
    ensures Rate(shares, elapsed) < target as real * 0.5 <==> 120_000 * shares < target * elapsed
    ensures Rate(shares, elapsed) > target as real * 2.0 <==> 30_000 * shares > target * elapsed
  {
    var minutes := elapsed as real / 60000.0;
    var t := target as real;
    Miners.Quotient(t * 0.5, shares as real, minutes);
    Miners.Quotient(t * 2.0, shares as real, minutes);
    TimesElapsed(target, elapsed);
    assert (t * 0.5) * minutes == 0.5 * (t * minutes) && (t * 2.0) * minutes == 2.0 * (t * minutes);
  }

  lemma TimesElapsed(target: nat, elapsed: nat)
    ensures (target as real) * (elapsed as real / 60000.0) == (target * elapsed) as real / 60000.0
  {
    assert (target as real) * (elapsed as real) == (target * elapsed) as real;
  }

  /** A retarget tick does something exactly when retargeting is on and a minute has passed since the
      window began. It then starts a new window, and with n shares in e milliseconds and a target of t
      a minute it halves the difficulty, down to the floor at least, when 120000 n < t e, doubles it
      modulo 2^64 when 30000 n > t e, and keeps it otherwise; the client is told of a change. */
  lemma RetargetOutcome(s: Settings, c: Conn, now: nat)
    requires c.open && c.stage == 2
    ensures var d := Step(s, c, RetargetTick(now));
            if !s.varDiff || now < c.lastRetarget + 60_000 then d == c
            else
              var elapsed := now - c.lastRetarget;
              && d.shareCount == 0 && d.lastRetarget == now
              && d.diff == (if 120_000 * c.shareCount < s.sharesPerMin * elapsed
                            then if c.diff / 2 >= s.floor then c.diff / 2 else s.floor
                            else if 30_000 * c.shareCount > s.sharesPerMin * elapsed then (2 * c.diff) % Pow2(64)
                            else c.diff)
              && d.log == (if d.diff != c.diff then c.log + [Sent(SetDifficulty(d.diff))] else c.log)
              && d.open && d.stage == 2 && d.pending == c.pending && d.worker == c.worker
  {
    if s.varDiff && c.lastRetarget + 60_000 <= now {
      RateLimits(c.shareCount, now - c.lastRetarget, s.sharesPerMin);
      assert Pow2(64) == U64 by { Pow2Values(); }
    }
  }

  /** When the window at hand began. */
  function WindowBegan(s: Settings, inputs: seq<Input>): nat {
    if inputs == [] then s.openedAt
    else
      var before, input := inputs[..|inputs| - 1], inputs[|inputs| - 1];
      if Completes(s, Run(s, before), input) then input.now else WindowBegan(s, before)
  }

  lemma OnlyWindowsRestart(s: Settings, c: Conn, input: Input)
    requires !Completes(s, c, input)
    ensures Step(s, c, input).lastRetarget == c.lastRetarget
  {
  }

  /** Windows follow one another without a gap from the opening of the connection on. */
  lemma {:induction false} WindowsAreGapless(s: Settings, inputs: seq<Input>)
    ensures Run(s, inputs).lastRetarget == WindowBegan(s, inputs)
  {
    if inputs != [] {
      var before, input := inputs[..|inputs| - 1], inputs[|inputs| - 1];
      WindowsAreGapless(s, before);
      if !Completes(s, Run(s, before), input) {
        OnlyWindowsRestart(s, Run(s, before), input);
      }
    }
  }

  // ---------------------------------------------------------------- the configuration

  /** p is the configured difficulty d as a power of two: 1 up to 1, then the logarithmically nearest
      one, and 0 from 2^63.5 on. */
  ghost predicate RoundedTo(d: real, p: nat) {
    && (d <= 1.0 ==> p == 1)
    && (d > 1.0 && 2.0 * d * d < Pow2(128) as real ==> IsPow2(p) && Rounds(p as real, d))
    && (d > 1.0 && 2.0 * d * d >= Pow2(128) as real ==> p == 0)
  }

  lemma ClampRounds(d: real)
    ensures RoundedTo(d, ClampToPowerOf2(d))
  {
    ClampOverflows(d);
    if d > 1.0 {
      RoundedLog2Fits(d);
      if RoundedLog2(d) < 64 {
        ClampIsNearest(d, 0);
      }
    }
  }

  /** A session starts at its port's difficulty rounded, and is first told that; its floor is the
      configured least difficulty rounded. */
  lemma StartAndFloor(c: Config, inputs: seq<Input>)
    ensures var s := SettingsOf(c);
            && RoundedTo(c.tierDifficulty, s.start) && RoundedTo(c.minShareDiff, s.floor)
            && s.conn == c.conn && s.openedAt == c.openedAt && s.varDiff == c.varDiff
            && s.sharesPerMin == c.sharesPerMin && s.cached == c.cached && s.pow == c.pow
            && (Run(s, inputs).stage == 2 ==> Announced(s, inputs) != [] && RoundedTo(c.tierDifficulty, Announced(s, inputs)[0]))
  {
    ClampRounds(c.tierDifficulty);
    ClampRounds(c.minShareDiff);
    AnnouncedTracksCurrent(SettingsOf(c), inputs);
  }
}
