/** How jobs that arrive at a connection are written to its client, and that these are the deliveries of
    the job feed. */
module SessionJobs {
  import opened Options
  import opened Sequences
  import opened Session
  import opened SessionTraces
  import JobFeed

  // ---------------------------------------------------------------- one job

  predicate HangsUp(input: Input) {
    input.Received? && (input.line.EndOfStream? || input.line.BadFrame?)
  }

  /** Neither a job nor a tick that writes one, and the client stays. */
  predicate Quiet(input: Input) {
    !input.JobArrived? && !input.ThrottleTick? && !HangsUp(input)
  }

  ghost predicate AllQuiet(inputs: seq<Input>) {
    forall i :: 0 <= i < |inputs| ==> Quiet(inputs[i])
  }

  predicate InLoop(c: Conn) {
    c.open && c.stage == 2
  }

  lemma RunSnoc(s: Settings, inputs: seq<Input>, input: Input)
    ensures Run(s, inputs + [input]) == Step(s, Run(s, inputs), input)
  {
    assert (inputs + [input])[..|inputs|] == inputs;
  }

  lemma QuietStep(s: Settings, c: Conn, input: Input)
    requires InLoop(c) && Quiet(input)
    ensures var d := Step(s, c, input); InLoop(d) && d.pending == c.pending
  {
  }

  lemma {:induction false} QuietKeeps(s: Settings, inputs: seq<Input>, between: seq<Input>)
    requires InLoop(Run(s, inputs)) && AllQuiet(between)
    ensures var d := Run(s, inputs + between); InLoop(d) && d.pending == Run(s, inputs).pending
  {
    if between == [] {
      assert inputs + between == inputs;
    } else {
      var n := |between| - 1;
      QuietKeeps(s, inputs, between[..n]);
      RunSnoc(s, inputs + between[..n], between[n]);
      QuietStep(s, Run(s, inputs + between[..n]), between[n]);
      assert inputs + between == inputs + between[..n] + [between[n]];
    }
  }

  lemma ArrivalAndTick(s: Settings, c: Conn, payload: string)
    requires InLoop(c)
    ensures Step(s, c, JobArrived(payload)) == c.(pending := Some(payload))
    ensures var d := Step(s, c, ThrottleTick);
            && InLoop(d) && d.pending.None?
            && d.log == c.log + (if c.pending.Some? then [Sent(Notify(c.pending.value))] else [])
  {
    assert c.pending.None? ==> c.log + [] == c.log;
  }

  /** A job that arrived last is what the next tick writes, whatever happens in between; and ticks write
      nothing more until another one arrives. */
  lemma JobIsSentOnce(s: Settings, inputs: seq<Input>, payload: string, between: seq<Input>, after: seq<Input>)
    requires InLoop(Run(s, inputs)) && AllQuiet(between) && AllQuiet(after)
    ensures var waiting := inputs + [JobArrived(payload)] + between;
            var written := waiting + [ThrottleTick] + after;
            && Run(s, waiting + [ThrottleTick]).log == Run(s, waiting).log + [Sent(Notify(payload))]
            && Run(s, written + [ThrottleTick]).log == Run(s, written).log
  {
    var waiting := inputs + [JobArrived(payload)] + between;
    var written := waiting + [ThrottleTick] + after;
    RunSnoc(s, inputs, JobArrived(payload));
    ArrivalAndTick(s, Run(s, inputs), payload);
    QuietKeeps(s, inputs + [JobArrived(payload)], between);
    RunSnoc(s, waiting, ThrottleTick);
    ArrivalAndTick(s, Run(s, waiting), payload);
    QuietKeeps(s, waiting + [ThrottleTick], after);
    RunSnoc(s, written, ThrottleTick);
    ArrivalAndTick(s, Run(s, written), payload);
    assert Run(s, written).log + [] == Run(s, written).log;
  }

  // ---------------------------------------------------------------- all jobs

  /** The jobs written to the client, in order. */
  function Notified(out: seq<Message>): seq<string> {
    if out == [] then []
    else
      var last := out[|out| - 1];
      Notified(out[..|out| - 1]) + (if last.Notify? then [last.payload] else [])
  }

  lemma {:induction false} NotifiedConcat(a: seq<Message>, b: seq<Message>)
    ensures Notified(a + b) == Notified(a) + Notified(b)
  {
    if b == [] {
      assert a + b == a;
    } else {
      NotifiedConcat(a, b[..|b| - 1]);
      ConcatLast(a, b);
    }
  }

  lemma {:induction false} NoneNotified(out: seq<Message>)
    requires forall i :: 0 <= i < |out| ==> !out[i].Notify?
    ensures Notified(out) == []
  {
    if out != [] {
      NoneNotified(out[..|out| - 1]);
    }
  }

  function Payloads(jobs: seq<nat>, payloadOf: nat -> string): seq<string> {
    seq(|jobs|, i requires 0 <= i < |jobs| => payloadOf(jobs[i]))
  }

  function PayloadOf(job: Option<nat>, payloadOf: nat -> string): Option<string> {
    if job.Some? then Some(payloadOf(job.value)) else None
  }

  /** A feed, and what has reached the connection's loop. */
  datatype Joint = Joint(world: JobFeed.World, inputs: seq<Input>)

  datatype Happening = Feeds(event: JobFeed.Event) | Hears(input: Input)

  /** What an event of the feed is to the loop: a job, a report of lost ones, a tick, or nothing. */
  function InputOf(w: JobFeed.World, e: JobFeed.Event, payloadOf: nat -> string): seq<Input> {
    if !w.feed.Looping? then []
    else
      match e
      case Receive =>
        if w.feed.next >= |w.table.sent| then []
        else if |w.table.sent| - w.feed.next > 1024 then [JobsLagged]
        else [JobArrived(payloadOf(w.table.sent[w.feed.next]))]
      case Throttle => [ThrottleTick]
      case _ => []
  }

  predicate IsFeedInput(input: Input) {
    input.JobArrived? || input.JobsLagged? || input.ThrottleTick?
  }

  function Meet(j: Joint, h: Happening, payloadOf: nat -> string): Joint {
    match h
    case Feeds(e) => Joint(JobFeed.Happen(j.world, e), j.inputs + InputOf(j.world, e, payloadOf))
    case Hears(input) => if IsFeedInput(input) then j else j.(inputs := j.inputs + [input])
  }

  function Meets(j: Joint, hs: seq<Happening>, payloadOf: nat -> string): Joint {
    if hs == [] then j else Meet(Meets(j, hs[..|hs| - 1], payloadOf), hs[|hs| - 1], payloadOf)
  }

  /** The client has been written exactly the feed's deliveries, and the loop holds its waiting job. */
  ghost predicate InStep(c: Conn, f: JobFeed.Feed, payloadOf: nat -> string) {
    && InLoop(c) && f.Looping?
    && Notified(Messages(c.log)) == Payloads(JobFeed.Delivered(f), payloadOf)
    && c.pending == PayloadOf(f.pending, payloadOf)
  }

  ghost predicate Follows(s: Settings, j: Joint, payloadOf: nat -> string) {
    InStep(Run(s, j.inputs), j.world.feed, payloadOf)
  }

  lemma TickWritten(s: Settings, c: Conn, input: Input)
    requires InLoop(c)
    ensures Notified(Written(s, c, input)) == if input.ThrottleTick? && c.pending.Some? then [c.pending.value] else []
  {
    var w := Written(s, c, input);
    if input.ThrottleTick? && c.pending.Some? {
      assert w[..0] == [] && w == [Notify(c.pending.value)];
    } else {
      NoneNotified(w);
    }
  }

  lemma StaysInLoop(s: Settings, c: Conn, input: Input)
    requires InLoop(c) && !HangsUp(input)
    ensures InLoop(Step(s, c, input))
  {
  }

  lemma WrittenNotified(s: Settings, c: Conn, input: Input)
    requires InLoop(c) && !HangsUp(input)
    ensures var d := Step(s, c, input);
            && InLoop(d)
            && Notified(Messages(d.log)) ==
               Notified(Messages(c.log)) + (if input.ThrottleTick? && c.pending.Some? then [c.pending.value] else [])
  {
    StaysInLoop(s, c, input);
    StepWrites(s, c, input);
    NotifiedConcat(Messages(c.log), Written(s, c, input));
    TickWritten(s, c, input);
  }

  lemma PayloadsSnoc(jobs: seq<nat>, job: nat, payloadOf: nat -> string)
    ensures Payloads(jobs + [job], payloadOf) == Payloads(jobs, payloadOf) + [payloadOf(job)]
  {
  }

  lemma HearsFollows(s: Settings, j: Joint, input: Input, payloadOf: nat -> string)
    requires Follows(s, j, payloadOf) && !IsFeedInput(input) && !HangsUp(input)
    ensures Follows(s, j.(inputs := j.inputs + [input]), payloadOf)
  {
    RunSnoc(s, j.inputs, input);
    WrittenNotified(s, Run(s, j.inputs), input);
    QuietStep(s, Run(s, j.inputs), input);
  }

  lemma TickInStep(s: Settings, c: Conn, w: JobFeed.World, payloadOf: nat -> string)
    requires InStep(c, w.feed, payloadOf)
    ensures InStep(Step(s, c, ThrottleTick), JobFeed.Happen(w, JobFeed.Throttle).feed, payloadOf)
  {
    var f := w.feed;
    WrittenNotified(s, c, ThrottleTick);
    if f.pending.Some? {
      assert JobFeed.Delivered(JobFeed.Happen(w, JobFeed.Throttle).feed) == JobFeed.Delivered(f) + [f.pending.value];
      PayloadsSnoc(JobFeed.Delivered(f), f.pending.value, payloadOf);
    }
  }

  lemma ReceiveInStep(s: Settings, c: Conn, w: JobFeed.World, payloadOf: nat -> string)
    requires InStep(c, w.feed, payloadOf)
    ensures var inputs := InputOf(w, JobFeed.Receive, payloadOf);
            && |inputs| <= 1
            && InStep(if inputs == [] then c else Step(s, c, inputs[0]), JobFeed.Happen(w, JobFeed.Receive).feed, payloadOf)
  {
    var inputs := InputOf(w, JobFeed.Receive, payloadOf);
    if inputs != [] {
      WrittenNotified(s, c, inputs[0]);
    }
  }

  lemma TickFollows(s: Settings, j: Joint, payloadOf: nat -> string)
    requires Follows(s, j, payloadOf)
    ensures Follows(s, Joint(JobFeed.Happen(j.world, JobFeed.Throttle), j.inputs + [ThrottleTick]), payloadOf)
  {
    RunSnoc(s, j.inputs, ThrottleTick);
    TickInStep(s, Run(s, j.inputs), j.world, payloadOf);
  }

  lemma ReceiveFollows(s: Settings, j: Joint, payloadOf: nat -> string)
    requires Follows(s, j, payloadOf)
    ensures Follows(s, Meet(j, Feeds(JobFeed.Receive), payloadOf), payloadOf)
  {
    var inputs := InputOf(j.world, JobFeed.Receive, payloadOf);
    ReceiveInStep(s, Run(s, j.inputs), j.world, payloadOf);
    if inputs == [] {
      assert j.inputs + inputs == j.inputs;
    } else {
      assert inputs == [inputs[0]];
      RunSnoc(s, j.inputs, inputs[0]);
    }
  }

  /** However feed, ticks and requests interleave, until the client hangs up, it is written exactly what
      the feed delivers. */
  lemma {:induction false} ClientGetsDeliveries(s: Settings, j: Joint, hs: seq<Happening>, payloadOf: nat -> string)
    requires Follows(s, j, payloadOf)
    requires forall i :: 0 <= i < |hs| ==> !(hs[i].Hears? && HangsUp(hs[i].input))
    ensures Follows(s, Meets(j, hs, payloadOf), payloadOf)
  {
    if hs != [] {
      var before, h := Meets(j, hs[..|hs| - 1], payloadOf), hs[|hs| - 1];
      ClientGetsDeliveries(s, j, hs[..|hs| - 1], payloadOf);
      match h
      case Feeds(e) =>
        match e {
          case Receive => ReceiveFollows(s, before, payloadOf);
          case Throttle => TickFollows(s, before, payloadOf);
          case _ => assert before.inputs + [] == before.inputs;
        }
      case Hears(input) =>
        if !IsFeedInput(input) {
          HearsFollows(s, before, input, payloadOf);
        }
    }
  }

  // ---------------------------------------------------------------- the start

  /** During the handshake no job has arrived or been written. */
  ghost predicate Jobless(c: Conn) {
    c.stage <= 2 && (c.stage < 2 ==> c.pending.None? && Notified(Messages(c.log)) == [])
  }

  lemma StepJobless(s: Settings, c: Conn, input: Input)
    requires Jobless(c)
    ensures Jobless(Step(s, c, input))
  {
    StageMoves(s, c, input);
    if c.stage < 2 && Step(s, c, input).stage < 2 {
      StepWrites(s, c, input);
      NotifiedConcat(Messages(c.log), Written(s, c, input));
      NoneNotified(Written(s, c, input));
    }
  }

  lemma {:induction false} NothingPendingBefore(s: Settings, inputs: seq<Input>)
    ensures Jobless(Run(s, inputs))
  {
    if inputs != [] {
      NothingPendingBefore(s, inputs[..|inputs| - 1]);
      StepJobless(s, Run(s, inputs[..|inputs| - 1]), inputs[|inputs| - 1]);
    }
  }

  lemma GreetingNotified(s: Settings, c: Conn, input: Input)
    requires c.stage == 1 && Step(s, c, input).stage == 2
    ensures Notified(Written(s, c, input)) == if s.cached.Some? then [s.cached.value] else []
  {
    var w := Written(s, c, input);
    NoneNotified(w[..2]);
    if s.cached.Some? {
      assert w == w[..2] + [Notify(s.cached.value)] && w[..|w| - 1] == w[..2];
    } else {
      assert w == w[..2];
    }
  }

  lemma AuthorizedLoop(s: Settings, inputs: seq<Input>, last: Input)
    requires Run(s, inputs).stage == 1 && Run(s, inputs + [last]).stage == 2
    ensures var d := Run(s, inputs + [last]);
            && InLoop(d) && d.pending.None?
            && Notified(Messages(d.log)) == if s.cached.Some? then [s.cached.value] else []
  {
    var c := Run(s, inputs);
    NothingPendingBefore(s, inputs);
    RunSnoc(s, inputs, last);
    StepWrites(s, c, last);
    NotifiedConcat(Messages(c.log), Written(s, c, last));
    GreetingNotified(s, c, last);
    AuthorizingOpens(s, c, last);
  }

  lemma AuthorizingOpens(s: Settings, c: Conn, input: Input)
    requires c.stage == 1 && Step(s, c, input).stage == 2
    ensures var d := Step(s, c, input); d.open && d.pending == c.pending
  {
  }

  lemma GreetedInStep(c: Conn, start: nat, cached: Option<nat>, payloadOf: nat -> string)
    requires InLoop(c) && c.pending.None?
    requires Notified(Messages(c.log)) == if cached.Some? then [payloadOf(cached.value)] else []
    ensures InStep(c, JobFeed.Looping(start, start, cached, None, []), payloadOf)
  {
  }

  /** A connection that authorizes and reads the cache starts out following its feed. */
  lemma GreetedFollows(s: Settings, inputs: seq<Input>, last: Input, events: seq<JobFeed.Event>, payloadOf: nat -> string)
    requires Run(s, inputs).stage == 1 && Run(s, inputs + [last]).stage == 2
    requires JobFeed.Story(events).feed.Subscribed?
    requires s.cached == PayloadOf(JobFeed.Story(events).table.cached, payloadOf)
    ensures Follows(s, Joint(JobFeed.Story(events + [JobFeed.ReadCache]), inputs + [last]), payloadOf)
  {
    var w := JobFeed.Story(events);
    AuthorizedLoop(s, inputs, last);
    GreetedInStep(Run(s, inputs + [last]), w.feed.start, w.table.cached, payloadOf);
    JobFeed.StorySnoc(events, JobFeed.ReadCache);
  }
}
