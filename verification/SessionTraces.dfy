/** What holds of every trace of a connection. */
module SessionTraces {
  import opened Sequences
  import opened Options
  import opened Session
  import Nonce

  /** The messages written, in order. */
  function Messages(log: seq<Effect>): seq<Message> {
    if log == [] then []
    else
      var last := log[|log| - 1];
      Messages(log[..|log| - 1]) + (if last.Sent? then [last.message] else [])
  }

  lemma {:induction false} MessagesConcat(a: seq<Effect>, b: seq<Effect>)
    ensures Messages(a + b) == Messages(a) + Messages(b)
  {
    if b == [] {
      assert a + b == a;
    } else {
      var n := |b| - 1;
      MessagesConcat(a, b[..n]);
      ConcatLast(a, b);
    }
  }

  lemma {:induction false} MessagesWritten(c: Conn, messages: seq<Message>)
    ensures Messages(Write(c, messages).log) == Messages(c.log) + messages
  {
    var sent := seq(|messages|, i requires 0 <= i < |messages| => Sent(messages[i]));
    MessagesConcat(c.log, sent);
    SentOnly(sent, messages);
  }

  lemma {:induction false} SentOnly(sent: seq<Effect>, messages: seq<Message>)
    requires |sent| == |messages| && forall i :: 0 <= i < |sent| ==> sent[i] == Sent(messages[i])
    ensures Messages(sent) == messages
  {
    if sent != [] {
      SentOnly(sent[..|sent| - 1], messages[..|sent| - 1]);
    }
  }

  /** The output language: a greeting in a fixed order, then notifies, difficulties and replies. */
  ghost predicate InLanguage(s: Settings, out: seq<Message>) {
    && (|out| > 0 ==> out[0].SubscribeReply?)
    && (|out| > 1 ==> out[1] == SetExtranonce(Nonce.Extranonce(s.conn)))
    && (|out| > 2 ==> out[2].AuthorizeReply?)
    && (|out| > 3 ==> out[3] == SetDifficulty(s.start))
    && (|out| > 4 && s.cached.Some? ==> out[4] == Notify(s.cached.value))
    && forall i :: 4 <= i < |out| ==> out[i].Notify? || out[i].SetDifficulty? || out[i].Reply?
  }

  /** How much of the greeting each stage has written. */
  ghost predicate StageWritten(s: Settings, stage: nat, written: nat) {
    match stage
    case 0 => written == 0
    case 1 => written == 2
    case _ => stage == 2 && written >= 3 + |Greeting(s)|
  }

  /** The messages one input makes the connection write. */
  function Written(s: Settings, c: Conn, input: Input): seq<Message> {
    if !c.open then []
    else if c.stage != 2 then
      if !input.Received? || !input.line.Request? then []
      else if c.stage == 0 && input.line.rpcMethod == "mining.subscribe" then
        [SubscribeReply(input.line.id), SetExtranonce(Nonce.Extranonce(s.conn))]
      else if c.stage == 1 && input.line.rpcMethod == "mining.authorize" then
        [AuthorizeReply(input.line.id)] + Greeting(s)
      else []
    else
      match input
      case ThrottleTick => if c.pending.Some? then [Notify(c.pending.value)] else []
      case RetargetTick(now) =>
        var next := Retarget(s, c, now).diff;
        if next != c.diff then [SetDifficulty(next)] else []
      case Received(Request(id, _, _), _) => [Reply(id)]
      case _ => []
  }

  lemma SubmitWritesNothing(s: Settings, c: Conn, params: Option<seq<string>>, jobs: map<string, nat>)
    ensures Messages(Submit(s, c, params, jobs).log) == Messages(c.log)
  {
    if params.Some? && |params.value| >= 3 && params.value[1] in jobs {
      var log := Submit(s, c, params, jobs).log;
      if log != c.log {
        assert log[..|log| - 1] == c.log && !log[|log| - 1].Sent?;
      }
    }
  }

  lemma HandshakeWrites(s: Settings, c: Conn, input: Input)
    requires c.stage != 2
    ensures Step(s, c, input).log == Write(c, Written(s, c, input)).log
  {
    assert Write(c, []).log == c.log;
  }

  lemma TicksWrite(s: Settings, c: Conn, input: Input)
    requires c.stage == 2 && !(input.Received? && input.line.Request?)
    ensures Step(s, c, input).log == Write(c, Written(s, c, input)).log
  {
    assert Write(c, []).log == c.log;
  }

  lemma StepWrites(s: Settings, c: Conn, input: Input)
    ensures Messages(Step(s, c, input).log) == Messages(c.log) + Written(s, c, input)
  {
    if c.stage != 2 {
      HandshakeWrites(s, c, input);
      MessagesWritten(c, Written(s, c, input));
    } else if input.Received? && input.line.Request? {
      if c.open {
        var id, params := input.line.id, input.line.params;
        SubmitWritesNothing(s, c, params, input.jobs);
        var judged := if input.line.rpcMethod == "mining.submit" then Submit(s, c, params, input.jobs) else c;
        MessagesWritten(judged, [Reply(id)]);
      }
    } else {
      TicksWrite(s, c, input);
      MessagesWritten(c, Written(s, c, input));
    }
  }

  lemma StageMoves(s: Settings, c: Conn, input: Input)
    ensures var stage := Step(s, c, input).stage;
            && (c.stage == 2 || Written(s, c, input) == [] ==> stage == c.stage)
            && (c.stage == 0 && Written(s, c, input) != [] ==> stage == 1)
            && (c.stage == 1 && Written(s, c, input) != [] ==> stage == 2)
  {
  }

  lemma LanguageStep(s: Settings, c: Conn, input: Input, out: seq<Message>)
    requires InLanguage(s, out) && StageWritten(s, c.stage, |out|)
    ensures InLanguage(s, out + Written(s, c, input))
    ensures StageWritten(s, Step(s, c, input).stage, |out + Written(s, c, input)|)
  {
    StageMoves(s, c, input);
    var more := Written(s, c, input);
    var all := out + more;
    assert forall i :: 0 <= i < |out| ==> all[i] == out[i];
    assert forall i :: 0 <= i < |more| ==> all[|out| + i] == more[i];
    if c.stage == 2 {
      assert forall i :: 0 <= i < |more| ==> more[i].Notify? || more[i].SetDifficulty? || more[i].Reply?;
      assert |out| >= 4 && (s.cached.Some? ==> |out| >= 5);
    }
  }

  /** Every trace is in the output language, and so is every cut of it, which is what a client sees
      when a write of the handshake fails. */
  lemma {:induction false} OutputLanguage(s: Settings, inputs: seq<Input>)
    ensures var c := Run(s, inputs); var out := Messages(c.log);
            && InLanguage(s, out) && StageWritten(s, c.stage, |out|)
            && forall k :: 0 <= k <= |out| ==> InLanguage(s, out[..k])
  {
    if inputs != [] {
      var c, input := Run(s, inputs[..|inputs| - 1]), inputs[|inputs| - 1];
      OutputLanguage(s, inputs[..|inputs| - 1]);
      StepWrites(s, c, input);
      LanguageStep(s, c, input, Messages(c.log));
    }
  }

  function ReplyIds(out: seq<Message>): seq<Id> {
    if out == [] then []
    else
      var last := out[|out| - 1];
      ReplyIds(out[..|out| - 1]) + (if last.Reply? then [last.id] else [])
  }

  lemma {:induction false} ReplyIdsConcat(a: seq<Message>, b: seq<Message>)
    ensures ReplyIds(a + b) == ReplyIds(a) + ReplyIds(b)
  {
    if b == [] {
      assert a + b == a;
    } else {
      var n := |b| - 1;
      ReplyIdsConcat(a, b[..n]);
      ConcatLast(a, b);
    }
  }

  /** The ids of the requests that arrive after the handshake, while the connection is open. */
  function RequestIds(s: Settings, inputs: seq<Input>): seq<Id> {
    if inputs == [] then []
    else
      var before, input := Run(s, inputs[..|inputs| - 1]), inputs[|inputs| - 1];
      RequestIds(s, inputs[..|inputs| - 1])
      + (if before.open && before.stage == 2 && input.Received? && input.line.Request? then [input.line.id] else [])
  }

  lemma {:induction false} NoReplies(out: seq<Message>)
    requires forall i :: 0 <= i < |out| ==> !out[i].Reply?
    ensures ReplyIds(out) == []
  {
    if out != [] {
      NoReplies(out[..|out| - 1]);
    }
  }

  lemma WrittenReplies(s: Settings, c: Conn, input: Input)
    ensures ReplyIds(Written(s, c, input)) ==
            if c.open && c.stage == 2 && input.Received? && input.line.Request? then [input.line.id] else []
  {
    var w := Written(s, c, input);
    if c.open && c.stage == 2 && input.Received? && input.line.Request? {
      assert w[..0] == [] && w == [Reply(input.line.id)];
    } else {
      NoReplies(w);
    }
  }

  /** After the handshake every request is answered once, in order, and nothing else is answered. */
  lemma {:induction false} RepliesMatchRequests(s: Settings, inputs: seq<Input>)
    ensures ReplyIds(Messages(Run(s, inputs).log)) == RequestIds(s, inputs)
  {
    if inputs != [] {
      var c, input := Run(s, inputs[..|inputs| - 1]), inputs[|inputs| - 1];
      RepliesMatchRequests(s, inputs[..|inputs| - 1]);
      StepWrites(s, c, input);
      ReplyIdsConcat(Messages(c.log), Written(s, c, input));
      WrittenReplies(s, c, input);
    }
  }
}
