/** One stratum connection: the handshake, then the loop over jobs, ticks and requests.

    A connection is driven by a sequence of inputs. What it writes, credits and submits is kept in
    one log in the order it happens. */
module Session {
  import opened Options
  import opened Clock
  import opened Powers
  import opened Difficulty
  import Nonce

  type Id = Option<string>

  datatype Line =
    | EndOfStream
    | BadFrame
    | Blank
    | NotARequest
    | Request(id: Id, rpcMethod: string, params: Option<seq<string>>)

  /** A line comes with the active jobs at the time it is handled. JobsLagged is a receive that
      reports dropped jobs instead of delivering one. */
  datatype Input =
    | Received(line: Line, jobs: map<string, nat>)
    | JobArrived(payload: string)
    | JobsLagged
    | ThrottleTick
    | RetargetTick(now: nat)

  datatype Message =
    | SubscribeReply(id: Id)
    | SetExtranonce(extranonce: string)
    | AuthorizeReply(id: Id)
    | SetDifficulty(difficulty: nat)
    | Notify(payload: string)
    | Reply(id: Id)

  datatype Effect =
    | Sent(message: Message)
    | Credited(worker: string, difficulty: nat, hash: Hash256)
    | BlockFound(worker: string, difficulty: nat, header: nat, nonce: nat)

  /** What a connection is given: its id, the tier's difficulty, the clock (ms) when it opened, the
      configuration, the cached job read after the handshake, and the proof-of-work function. */
  datatype Config = Config(
    conn: nat,
    tierDifficulty: real,
    openedAt: nat,
    varDiff: bool,
    sharesPerMin: nat,
    minShareDiff: real,
    cached: Option<string>,
    pow: (nat, nat) -> PowResult)

  /** The same with the start and the floor rounded to powers of two. */
  datatype Settings = Settings(
    conn: nat,
    start: nat,
    openedAt: nat,
    varDiff: bool,
    sharesPerMin: nat,
    floor: nat,
    cached: Option<string>,
    pow: (nat, nat) -> PowResult)
  {
    function Target(): real { sharesPerMin as real }
  }

  function SettingsOf(c: Config): Settings {
    Settings(c.conn, ClampToPowerOf2(c.tierDifficulty), c.openedAt, c.varDiff, c.sharesPerMin,
             ClampToPowerOf2(c.minShareDiff), c.cached, c.pow)
  }

  /** The variables of a connection. windowStart is the length of the log when share counting last
      restarted; nothing depends on it. */
  datatype Conn = Conn(
    open: bool,
    stage: nat,
    diff: nat,
    shareCount: nat,
    lastRetarget: nat,
    pending: Option<string>,
    worker: string,
    windowStart: nat,
    log: seq<Effect>)

  function Initial(s: Settings): Conn {
    Conn(true, 0, s.start, 0, s.openedAt, None, "", 0, [])
  }

  function Write(c: Conn, messages: seq<Message>): Conn {
    c.(log := c.log + seq(|messages|, i requires 0 <= i < |messages| => Sent(messages[i])))
  }

  /** Everything written between the authorize reply and the loop. */
  function Greeting(s: Settings): seq<Message> {
    [SetDifficulty(s.start)] + (if s.cached.Some? then [Notify(s.cached.value)] else [])
  }

  function Handshake(s: Settings, c: Conn, line: Line): Conn {
    match line
    case EndOfStream => c.(open := false)
    case BadFrame => c.(open := false)
    case Blank => c
    case NotARequest => c
    case Request(id, rpcMethod, _) =>
      if c.stage == 0 && rpcMethod == "mining.subscribe" then
        Write(c, [SubscribeReply(id), SetExtranonce(Nonce.Extranonce(s.conn))]).(stage := 1)
      else if c.stage == 1 && rpcMethod == "mining.authorize" then
        Write(c, [AuthorizeReply(id)] + Greeting(s)).(stage := 2)
      else c
  }

  /** Shares per minute over a window of elapsed milliseconds. */
  function Rate(shares: nat, elapsed: nat): real
    requires elapsed > 0
  {
    shares as real / (elapsed as real / 60000.0)
  }

  predicate WindowCompletes(s: Settings, c: Conn, now: nat) {
    s.varDiff && Elapsed(c.lastRetarget, now) / 1000 >= 60
  }

  function Retarget(s: Settings, c: Conn, now: nat): Conn {
    if !WindowCompletes(s, c, now) then c
    else
      var next := NextDifficulty(c.diff, Rate(c.shareCount, Elapsed(c.lastRetarget, now)), s.Target(), s.floor);
      var announced := if next != c.diff then Write(c, [SetDifficulty(next)]).(diff := next) else c;
      announced.(shareCount := 0, lastRetarget := now, windowStart := |announced.log|)
  }

  /** The outcome of a submit with enough parameters for a job that is still active. */
  function Judge(s: Settings, c: Conn, worker: string, header: nat, nonce: nat): Conn {
    var verdict := VerifyShare(s.pow, header, nonce, c.diff);
    if verdict.isNetworkBlock then c.(log := c.log + [BlockFound(worker, c.diff, header, nonce)])
    else if verdict.isValidShare then
      c.(shareCount := c.shareCount + 1, log := c.log + [Credited(worker, c.diff, s.pow(header, nonce).hash)])
    else c
  }

  function Submit(s: Settings, c: Conn, params: Option<seq<string>>, jobs: map<string, nat>): Conn {
    if params.None? || |params.value| < 3 then c
    else
      var p := params.value;
      var named := c.(worker := p[0]);
      if p[1] in jobs
      then Judge(s, named, p[0], jobs[p[1]], Nonce.Compose(Nonce.Extranonce(s.conn), p[2]))
      else named
  }

  function Serve(s: Settings, c: Conn, input: Input): Conn {
    match input
    case JobArrived(payload) => c.(pending := Some(payload))
    case JobsLagged => c
    case ThrottleTick =>
      if c.pending.Some? then Write(c, [Notify(c.pending.value)]).(pending := None) else c
    case RetargetTick(now) => Retarget(s, c, now)
    case Received(line, jobs) =>
      match line
      case EndOfStream => c.(open := false)
      case BadFrame => c.(open := false)
      case Blank => c
      case NotARequest => c
      case Request(id, rpcMethod, params) =>
        Write(if rpcMethod == "mining.submit" then Submit(s, c, params, jobs) else c, [Reply(id)])
  }

  /** Only lines are read during the handshake; a closed connection reads nothing. */
  function Step(s: Settings, c: Conn, input: Input): Conn {
    if !c.open then c
    else if c.stage == 2 then Serve(s, c, input)
    else if input.Received? then Handshake(s, c, input.line)
    else c
  }

  function Run(s: Settings, inputs: seq<Input>): Conn {
    if inputs == [] then Initial(s)
    else Step(s, Run(s, inputs[..|inputs| - 1]), inputs[|inputs| - 1])
  }

  lemma RunExtends(s: Settings, inputs: seq<Input>, i: nat)
    requires i < |inputs|
    ensures Run(s, inputs[..i + 1]) == Step(s, Run(s, inputs[..i]), inputs[i])
  {
    assert inputs[..i + 1][..i] == inputs[..i];
  }

  lemma {:induction false} ClosedStays(s: Settings, inputs: seq<Input>, i: nat)
    requires i <= |inputs| && !Run(s, inputs[..i]).open
    ensures Run(s, inputs) == Run(s, inputs[..i])
    decreases |inputs| - i
  {
    if i < |inputs| {
      RunExtends(s, inputs, i);
      ClosedStays(s, inputs, i + 1);
    } else {
      assert inputs[..i] == inputs;
    }
  }

  /** The connection handler. What it writes, credits and submits is the specification's log. */
  method HandleConnection(c: Config, inputs: seq<Input>) returns (log: seq<Effect>)
    ensures log == Run(SettingsOf(c), inputs).log
  {
    var s := SettingsOf(c);
    var done, i;
    log, done, i := PerformHandshake(s, inputs);
    if done {
      log := log + [Sent(SetDifficulty(s.start))];
      if s.cached.Some? {
        log := log + [Sent(Notify(s.cached.value))];
      }
      log := ServeLoop(s, inputs, i, log);
    }
  }

  /** The first loop: reads lines until the client has subscribed and authorized. When it is not
      done, the client hung up or the inputs ran out. */
  method PerformHandshake(s: Settings, inputs: seq<Input>) returns (log: seq<Effect>, done: bool, i: nat)
    ensures !done ==> log == Run(s, inputs).log
    ensures done ==> i <= |inputs| && Run(s, inputs[..i]) == Write(Initial(s).(log := log), Greeting(s)).(stage := 2)
  {
    log, done, i := [], false, 0;
    var handshakeState := 0;
    while handshakeState < 2 && i < |inputs|
      invariant 0 <= i <= |inputs| && 0 <= handshakeState <= 2
      invariant handshakeState < 2 ==> Run(s, inputs[..i]) == Initial(s).(stage := handshakeState, log := log)
      invariant handshakeState == 2 ==>
                  Run(s, inputs[..i]) == Write(Initial(s).(log := log), Greeting(s)).(stage := 2)
    {
      RunExtends(s, inputs, i);
      var input := inputs[i];
      i := i + 1;
      if input.Received? {
        match input.line
        case EndOfStream =>
          ClosedStays(s, inputs, i);
          return;
        case BadFrame =>
          ClosedStays(s, inputs, i);
          return;
        case Blank =>
        case NotARequest =>
        case Request(id, rpcMethod, _) =>
          if handshakeState == 0 && rpcMethod == "mining.subscribe" {
            log := log + [Sent(SubscribeReply(id))];
            log := log + [Sent(SetExtranonce(Nonce.Extranonce(s.conn)))];
            handshakeState := 1;
          } else if handshakeState == 1 && rpcMethod == "mining.authorize" {
            log := log + [Sent(AuthorizeReply(id))];
            handshakeState := 2;
          }
      }
    }
    done := handshakeState == 2;
    assert !done ==> inputs[..i] == inputs;
  }

  /** A submit, on the variables it can change. */
  method HandleSubmit(s: Settings, params: Option<seq<string>>, jobs: map<string, nat>, currentDiff: nat,
                      oldWorker: string, oldCount: nat, oldLog: seq<Effect>)
    returns (currentWorker: string, shareCount: nat, log: seq<Effect>)
    ensures forall c: Conn ::
              c.diff == currentDiff && c.worker == oldWorker && c.shareCount == oldCount && c.log == oldLog ==>
                Submit(s, c, params, jobs) == c.(worker := currentWorker, shareCount := shareCount, log := log)
  {
    currentWorker, shareCount, log := oldWorker, oldCount, oldLog;
    if params.Some? && |params.value| >= 3 {
      currentWorker := params.value[0];
      var jobId := params.value[1];
      var nonce := Nonce.Compose(Nonce.Extranonce(s.conn), params.value[2]);
      if jobId in jobs {
        var verdict := VerifyShare(s.pow, jobs[jobId], nonce, currentDiff);
        if verdict.isNetworkBlock {
          log := log + [BlockFound(currentWorker, currentDiff, jobs[jobId], nonce)];
        } else if verdict.isValidShare {
          shareCount := shareCount + 1;
          log := log + [Credited(currentWorker, currentDiff, s.pow(jobs[jobId], nonce).hash)];
        }
      }
    }
  }

  /** A request in the loop, on the variables it can change: submits are judged, and everything is
      answered alike. */
  method HandleRequest(s: Settings, id: Id, rpcMethod: string, params: Option<seq<string>>, jobs: map<string, nat>,
                       currentDiff: nat, oldWorker: string, oldCount: nat, oldLog: seq<Effect>)
    returns (currentWorker: string, shareCount: nat, log: seq<Effect>)
    ensures forall c: Conn ::
              c.diff == currentDiff && c.worker == oldWorker && c.shareCount == oldCount && c.log == oldLog ==>
                Write(if rpcMethod == "mining.submit" then Submit(s, c, params, jobs) else c, [Reply(id)]) ==
                c.(worker := currentWorker, shareCount := shareCount, log := log)
  {
    if rpcMethod == "mining.submit" {
      currentWorker, shareCount, log := HandleSubmit(s, params, jobs, currentDiff, oldWorker, oldCount, oldLog);
      log := log + [Sent(Reply(id))];
    } else {
      currentWorker, shareCount := oldWorker, oldCount;
      log := oldLog + [Sent(Reply(id))];
    }
  }

  /** A completed retarget window: the new difficulty, announced if it changed. */
  method HandleRetarget(s: Settings, elapsed: nat, oldDiff: nat, shareCount: nat, oldLog: seq<Effect>)
    returns (currentDiff: nat, log: seq<Effect>)
    requires elapsed > 0
    ensures currentDiff == NextDifficulty(oldDiff, Rate(shareCount, elapsed), s.Target(), s.floor)
    ensures log == if currentDiff != oldDiff then oldLog + [Sent(SetDifficulty(currentDiff))] else oldLog
  {
    var sharesPerMin := Rate(shareCount, elapsed);
    var newDiff := oldDiff;
    if sharesPerMin < s.Target() * 0.5 {
      newDiff := Max(oldDiff / 2, s.floor);
    } else if sharesPerMin > s.Target() * 2.0 {
      newDiff := (oldDiff * 2) % U64;
    }
    currentDiff, log := oldDiff, oldLog;
    if newDiff != currentDiff {
      currentDiff := newDiff;
      log := log + [Sent(SetDifficulty(currentDiff))];
    }
  }

  /** The second loop: jobs, throttle ticks, retargets and requests, until the client hangs up. */
  method ServeLoop(s: Settings, inputs: seq<Input>, start: nat, greeted: seq<Effect>) returns (log: seq<Effect>)
    requires start <= |inputs|
    requires Run(s, inputs[..start]) == Conn(true, 2, s.start, 0, s.openedAt, None, "", 0, greeted)
    ensures log == Run(s, inputs).log
  {
    log := greeted;
    var i := start;
    var currentDiff: nat := s.start;
    var currentWorker := "";
    var shareCount: nat := 0;
    var lastRetarget := s.openedAt;
    var pendingJob: Option<string> := None;
    ghost var windowStart: nat := 0;
    while i < |inputs|
      invariant start <= i <= |inputs|
      invariant Run(s, inputs[..i]) ==
                Conn(true, 2, currentDiff, shareCount, lastRetarget, pendingJob, currentWorker, windowStart, log)
    {
      RunExtends(s, inputs, i);
      var input := inputs[i];
      i := i + 1;
      match input
      case JobArrived(payload) =>
        pendingJob := Some(payload);
      case JobsLagged =>
      case ThrottleTick =>
        if pendingJob.Some? {
          log := log + [Sent(Notify(pendingJob.value))];
          pendingJob := None;
        }
      case RetargetTick(now) =>
        if s.varDiff && Elapsed(lastRetarget, now) / 1000 >= 60 {
          currentDiff, log := HandleRetarget(s, Elapsed(lastRetarget, now), currentDiff, shareCount, log);
          shareCount := 0;
          lastRetarget := now;
          windowStart := |log|;
        }
      case Received(line, jobs) =>
        match line
        case EndOfStream =>
          ClosedStays(s, inputs, i);
          return;
        case BadFrame =>
          ClosedStays(s, inputs, i);
          return;
        case Blank =>
        case NotARequest =>
        case Request(id, rpcMethod, params) =>
          currentWorker, shareCount, log :=
            HandleRequest(s, id, rpcMethod, params, jobs, currentDiff, currentWorker, shareCount, log);
    }
    assert inputs[..i] == inputs;
  }
}
