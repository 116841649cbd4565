/** What a connection credits, and at which difficulty. */
module SessionCredit {
  import opened Powers
  import opened Options
  import opened Difficulty
  import opened Session
  import opened SessionTraces
  import Nonce

  /** The difficulty last announced to the client. */
  function Announced(log: seq<Effect>): Option<nat> {
    if log == [] then None
    else
      var last := log[|log| - 1];
      if last.Sent? && last.message.SetDifficulty? then Some(last.message.difficulty)
      else Announced(log[..|log| - 1])
  }

  /** Shares are credited, and blocks reported, at the difficulty the client was last told; and a
      credited share's hash really meets it. */
  ghost predicate Honest(log: seq<Effect>) {
    forall i :: 0 <= i < |log| ==>
      (log[i].Credited? ==>
        Announced(log[..i]) == Some(log[i].difficulty) && log[i].hash * log[i].difficulty <= MAX_TARGET)
      && (log[i].BlockFound? ==> Announced(log[..i]) == Some(log[i].difficulty))
  }

  /** The exact outcome of a submit in the loop. With three parameters and an active job, a network
      block is reported and not credited, and any other share is credited exactly when its hash times
      the difficulty is below 2^256; anything else has no effect. The reply is the same in every case. */
  lemma SubmitOutcome(s: Settings, c: Conn, id: Id, params: Option<seq<string>>, jobs: map<string, nat>)
    requires c.open && c.stage == 2
    ensures var c' := Step(s, c, Received(Request(id, "mining.submit", params), jobs));
            var outcome := if params.None? || |params.value| < 3 || params.value[1] !in jobs then []
                           else EffectOf(s, c.diff, params.value[0], jobs[params.value[1]], params.value[2]);
            && c'.log == c.log + outcome + [Sent(Reply(id))]
            && c'.shareCount == c.shareCount + (if outcome != [] && outcome[0].Credited? then 1 else 0)
            && c'.diff == c.diff && c'.pending == c.pending && c'.lastRetarget == c.lastRetarget
            && c'.open && c'.stage == 2
  {
    if params.Some? && |params.value| >= 3 && params.value[1] in jobs {
      var p := params.value;
      ShareMeetsDifficulty(s.pow(jobs[p[1]], Nonce.Compose(Nonce.Extranonce(s.conn), p[2])).hash, c.diff);
    } else {
      assert c.log + [] == c.log;
    }
  }

  /** A share against a header: a block, a credit, or nothing. */
  function EffectOf(s: Settings, difficulty: nat, worker: string, header: nat, suffix: string): seq<Effect> {
    var nonce := Nonce.Compose(Nonce.Extranonce(s.conn), suffix);
    var r := s.pow(header, nonce);
    if r.isNetworkBlock then [BlockFound(worker, difficulty, header, nonce)]
    else if r.hash * difficulty < Pow2(256) then [Credited(worker, difficulty, r.hash)]
    else []
  }

  lemma HonestAppend(log: seq<Effect>, e: Effect)
    requires Honest(log)
    requires e.Credited? ==> Announced(log) == Some(e.difficulty) && e.hash * e.difficulty <= MAX_TARGET
    requires e.BlockFound? ==> Announced(log) == Some(e.difficulty)
    ensures Honest(log + [e])
    ensures Announced(log + [e]) == if e.Sent? && e.message.SetDifficulty? then Some(e.message.difficulty) else Announced(log)
  {
    var all := log + [e];
    assert all[..|log|] == log;
    forall i | 0 <= i < |log| ensures all[..i] == log[..i] && all[i] == log[i] {
    }
  }

  /** At the loop the announced difficulty is the current one; before it nothing is credited. */
  ghost predicate CreditInvariant(c: Conn) {
    && Honest(c.log)
    && (c.stage == 2 ==> Announced(c.log) == Some(c.diff))
    && c.windowStart <= |c.log|
    && c.shareCount == Credits(c.log[c.windowStart..])
  }

  /** The number of credited shares in a stretch of the log. */
  function Credits(log: seq<Effect>): nat {
    if log == [] then 0
    else Credits(log[..|log| - 1]) + (if log[|log| - 1].Credited? then 1 else 0)
  }

  /** One more effect in the log, with the share count following the credits. */
  lemma AppendKeepsInvariant(c: Conn, e: Effect, d: Conn)
    requires CreditInvariant(c) && (e.Credited? || e.BlockFound? ==> c.stage == 2 && e.difficulty == c.diff)
    requires e.Credited? ==> e.hash * e.difficulty <= MAX_TARGET
    requires d.log == c.log + [e] && d.stage == c.stage && d.windowStart == c.windowStart
    requires d.shareCount == c.shareCount + (if e.Credited? then 1 else 0)
    requires d.diff == if e.Sent? && e.message.SetDifficulty? then e.message.difficulty else c.diff
    ensures CreditInvariant(d)
  {
    HonestAppend(c.log, e);
    var window := d.log[d.windowStart..];
    assert window[..|window| - 1] == c.log[c.windowStart..];
  }

  lemma JudgeKeepsInvariant(s: Settings, c: Conn, worker: string, header: nat, nonce: nat)
    requires CreditInvariant(c) && c.stage == 2
    ensures CreditInvariant(Judge(s, c, worker, header, nonce))
  {
    var r := s.pow(header, nonce);
    var d := Judge(s, c, worker, header, nonce);
    ShareMeetsDifficulty(r.hash, c.diff);
    if r.isNetworkBlock {
      AppendKeepsInvariant(c, BlockFound(worker, c.diff, header, nonce), d);
    } else if r.hash <= PoolTarget(c.diff) {
      AppendKeepsInvariant(c, Credited(worker, c.diff, r.hash), d);
    }
  }

  lemma SendKeepsInvariant(c: Conn, message: Message)
    requires CreditInvariant(c)
    ensures var d := if message.SetDifficulty? then c.(diff := message.difficulty) else c;
            CreditInvariant(Write(d, [message])) && Write(d, [message]).log == c.log + [Sent(message)]
  {
    var d := if message.SetDifficulty? then c.(diff := message.difficulty) else c;
    AppendKeepsInvariant(c, Sent(message), Write(d, [message]));
  }

  lemma WriteSplits(c: Conn, first: seq<Message>, rest: seq<Message>)
    ensures Write(c, first + rest) == Write(Write(c, first), rest)
  {
  }

  lemma SubscribeKeepsInvariant(c: Conn, reply: Message, extranonce: Message)
    requires CreditInvariant(c) && reply.SubscribeReply? && extranonce.SetExtranonce?
    ensures CreditInvariant(Write(c, [reply, extranonce]))
  {
    SendKeepsInvariant(c, reply);
    SendKeepsInvariant(Write(c, [reply]), extranonce);
    WriteSplits(c, [reply], [extranonce]);
    assert [reply] + [extranonce] == [reply, extranonce];
  }

  /** The difficulty announced in the greeting is the one the loop starts with. */
  lemma GreetingKeepsInvariant(s: Settings, c: Conn)
    requires CreditInvariant(c) && c.diff == s.start
    ensures CreditInvariant(Write(c, Greeting(s))) && Announced(Write(c, Greeting(s)).log) == Some(s.start)
  {
    var announce := SetDifficulty(s.start);
    SendKeepsInvariant(c, announce);
    HonestAppend(c.log, Sent(announce));
    assert c.(diff := s.start) == c;
    if s.cached.Some? {
      var job := Notify(s.cached.value);
      SendKeepsInvariant(Write(c, [announce]), job);
      HonestAppend(Write(c, [announce]).log, Sent(job));
      WriteSplits(c, [announce], [job]);
    } else {
      assert Greeting(s) == [announce];
    }
  }

  lemma AuthorizeKeepsInvariant(s: Settings, c: Conn, id: Id)
    requires CreditInvariant(c) && c.diff == s.start
    ensures var d := Write(c, [AuthorizeReply(id)] + Greeting(s));
            CreditInvariant(d) && Announced(d.log) == Some(s.start)
  {
    var reply := AuthorizeReply(id);
    SendKeepsInvariant(c, reply);
    WriteSplits(c, [reply], Greeting(s));
    GreetingKeepsInvariant(s, Write(c, [reply]));
  }

  lemma HandshakeKeepsInvariant(s: Settings, c: Conn, line: Line)
    requires CreditInvariant(c) && c.stage < 2 && (c.stage == 1 ==> c.diff == s.start)
    ensures CreditInvariant(Handshake(s, c, line))
  {
    if line.Request? && c.stage == 0 && line.rpcMethod == "mining.subscribe" {
      SubscribeKeepsInvariant(c, SubscribeReply(line.id), SetExtranonce(Nonce.Extranonce(s.conn)));
    } else if line.Request? && c.stage == 1 && line.rpcMethod == "mining.authorize" {
      AuthorizeKeepsInvariant(s, c, line.id);
    }
  }

  lemma ServeKeepsInvariant(s: Settings, c: Conn, input: Input)
    requires CreditInvariant(c) && c.stage == 2
    ensures CreditInvariant(Serve(s, c, input))
  {
    match input
    case ThrottleTick =>
      if c.pending.Some? {
        SendKeepsInvariant(c, Notify(c.pending.value));
      }
    case RetargetTick(now) =>
      if WindowCompletes(s, c, now) {
        var next := Retarget(s, c, now).diff;
        SendKeepsInvariant(c, SetDifficulty(next));
        var d := Retarget(s, c, now);
        assert d.log[d.windowStart..] == [];
      }
    case Received(Request(id, rpcMethod, params), jobs) =>
      var judged := if rpcMethod == "mining.submit" then Submit(s, c, params, jobs) else c;
      if rpcMethod == "mining.submit" && params.Some? && |params.value| >= 3 && params.value[1] in jobs {
        var p := params.value;
        JudgeKeepsInvariant(s, c.(worker := p[0]), p[0], jobs[p[1]], Nonce.Compose(Nonce.Extranonce(s.conn), p[2]));
      }
      SendKeepsInvariant(judged, Reply(id));
    case _ =>
  }

  lemma StepKeepsInvariant(s: Settings, c: Conn, input: Input)
    requires CreditInvariant(c) && c.stage <= 2 && (c.stage < 2 ==> c.diff == s.start)
    ensures var d := Step(s, c, input); CreditInvariant(d) && d.stage <= 2 && (d.stage < 2 ==> d.diff == s.start)
  {
    if c.open && c.stage == 2 {
      ServeKeepsInvariant(s, c, input);
      ServingStays(s, c, input);
    } else if c.open && input.Received? {
      HandshakeKeepsInvariant(s, c, input.line);
    }
  }

  lemma ServingStays(s: Settings, c: Conn, input: Input)
    ensures Serve(s, c, input).stage == c.stage
  {
  }

  /** In every session each credited share carries the difficulty of the last announcement before
      it, its hash times that difficulty is at most 2^256 - 1, and the share count is the number of
      shares credited since the last window began. */
  lemma {:induction false} CreditMatchesAnnouncement(s: Settings, inputs: seq<Input>)
    ensures var c := Run(s, inputs);
            && Honest(c.log)
            && (c.stage == 2 ==> Announced(c.log) == Some(c.diff))
            && c.windowStart <= |c.log| && c.shareCount == Credits(c.log[c.windowStart..])
            && c.stage <= 2 && (c.stage < 2 ==> c.diff == s.start)
  {
    if inputs != [] {
      CreditMatchesAnnouncement(s, inputs[..|inputs| - 1]);
      StepKeepsInvariant(s, Run(s, inputs[..|inputs| - 1]), inputs[|inputs| - 1]);
    }
  }

  // ---------------------------------------------------------------- which inputs are credited

  /** A submit in the loop, with enough parameters, for an active job, that is no network block and
      meets the difficulty in force. */
  predicate Earns(s: Settings, c: Conn, input: Input) {
    && c.open && c.stage == 2 && input.Received? && input.line.Request? && input.line.rpcMethod == "mining.submit"
    && input.line.params.Some?
    && var p := input.line.params.value;
       && |p| >= 3 && p[1] in input.jobs
       && var r := s.pow(input.jobs[p[1]], Nonce.Compose(Nonce.Extranonce(s.conn), p[2]));
          !r.isNetworkBlock && r.hash * c.diff <= MAX_TARGET
  }

  function Earned(s: Settings, inputs: seq<Input>): nat {
    if inputs == [] then 0
    else
      var before := inputs[..|inputs| - 1];
      Earned(s, before) + (if Earns(s, Run(s, before), inputs[|inputs| - 1]) then 1 else 0)
  }

  lemma CreditsSnoc(log: seq<Effect>, e: Effect)
    ensures Credits(log + [e]) == Credits(log) + (if e.Credited? then 1 else 0)
  {
    assert (log + [e])[..|log|] == log;
  }

  lemma {:induction false} WritingCreditsNothing(c: Conn, messages: seq<Message>)
    ensures Credits(Write(c, messages).log) == Credits(c.log)
  {
    if messages == [] {
      assert Write(c, messages).log == c.log;
    } else {
      var n := |messages| - 1;
      WritingCreditsNothing(c, messages[..n]);
      CreditsSnoc(Write(c, messages[..n]).log, Sent(messages[n]));
      assert Write(c, messages).log == Write(c, messages[..n]).log + [Sent(messages[n])];
    }
  }

  lemma SubmitCredits(s: Settings, c: Conn, id: Id, params: Option<seq<string>>, jobs: map<string, nat>)
    requires c.open && c.stage == 2
    ensures var input := Received(Request(id, "mining.submit", params), jobs);
            Credits(Submit(s, c, params, jobs).log) == Credits(c.log) + (if Earns(s, c, input) then 1 else 0)
  {
    if params.Some? && |params.value| >= 3 && params.value[1] in jobs {
      var p := params.value;
      var header, nonce := jobs[p[1]], Nonce.Compose(Nonce.Extranonce(s.conn), p[2]);
      ShareMeetsDifficulty(s.pow(header, nonce).hash, c.diff);
      CreditsSnoc(c.log, Credited(p[0], c.diff, s.pow(header, nonce).hash));
      CreditsSnoc(c.log, BlockFound(p[0], c.diff, header, nonce));
    }
  }

  lemma StepCredits(s: Settings, c: Conn, input: Input)
    ensures Credits(Step(s, c, input).log) == Credits(c.log) + (if Earns(s, c, input) then 1 else 0)
  {
    if !c.open {
      assert !Earns(s, c, input);
    } else if c.stage == 2 && input.Received? && input.line.Request? {
      var id, params := input.line.id, input.line.params;
      var judged := if input.line.rpcMethod == "mining.submit" then Submit(s, c, params, input.jobs) else c;
      SubmitCredits(s, c, id, params, input.jobs);
      WritingCreditsNothing(judged, [Reply(id)]);
    } else if c.stage == 2 {
      TicksWrite(s, c, input);
      WritingCreditsNothing(c, Written(s, c, input));
    } else {
      HandshakeWrites(s, c, input);
      WritingCreditsNothing(c, Written(s, c, input));
    }
  }

  /** A session credits its earning submits, each once, and nothing else: no submit that is stale,
      short, early or late, and no network block. */
  lemma {:induction false} CreditsAreEarned(s: Settings, inputs: seq<Input>)
    ensures Credits(Run(s, inputs).log) == Earned(s, inputs)
  {
    if inputs != [] {
      CreditsAreEarned(s, inputs[..|inputs| - 1]);
      StepCredits(s, Run(s, inputs[..|inputs| - 1]), inputs[|inputs| - 1]);
    }
  }
}
