/** From submit to payout: the connections offer the shares they credit to a bounded channel, which
    drops them when it is full, and the accounting engine receives from its other end. */
module Intake {
  import opened Sequences
  import opened Shares
  import opened Telemetry
  import opened Oracle
  import opened Settlement
  import opened Conservation
  import Session
  import Accounting

  const CAPACITY: nat := 10_000

  /** A share as its connection credits it. */
  datatype Credit = Credit(connection: nat, worker: string, difficulty: nat)

  /** credited, taken and dropped have no effect: every share credited so far, in order; those the
      engine has taken; and those the channel had no room for. */
  datatype Pool = Pool(
    conns: seq<Session.Conn>,
    channel: seq<Credit>,
    system: Accounting.System,
    credited: seq<Credit>,
    taken: seq<Credit>,
    dropped: seq<Credit>)

  datatype Event =
    | Hears(connection: nat, input: Session.Input)
    | Accounts(step: Accounting.Step)

  /** What a connection has credited, in order. */
  function CreditsIn(connection: nat, log: seq<Session.Effect>): seq<Credit> {
    if log == [] then []
    else
      var last := log[|log| - 1];
      CreditsIn(connection, log[..|log| - 1])
      + (if last.Credited? then [Credit(connection, last.worker, last.difficulty)] else [])
  }

  function Opened(settings: seq<Session.Settings>, now: nat, db: Database): Pool {
    Pool(seq(|settings|, i requires 0 <= i < |settings| => Session.Initial(settings[i])),
         [], Accounting.Start(now, db), [], [], [])
  }

  /** try_send, for one credit after another. */
  function Offer(p: Pool, credits: seq<Credit>): Pool {
    if credits == [] then p
    else
      var q, c := Offer(p, credits[..|credits| - 1]), credits[|credits| - 1];
      if |q.channel| < CAPACITY then q.(channel := q.channel + [c], credited := q.credited + [c])
      else q.(dropped := q.dropped + [c], credited := q.credited + [c])
  }

  /** The credits of one more input. */
  function NewCredits(s: Session.Settings, c: Session.Conn, connection: nat, input: Session.Input): seq<Credit> {
    var before, after := c.log, Session.Step(s, c, input).log;
    if |before| <= |after| then CreditsIn(connection, after[|before|..]) else []
  }

  /** The engine receives the share at the head of the channel and no other. */
  predicate Receives(p: Pool, step: Accounting.Step) {
    step.Receive? ==>
      p.channel != [] && p.channel[0].worker == step.worker && p.channel[0].difficulty == step.difficulty
  }

  ghost function Happen(settings: seq<Session.Settings>, decay: Decay, p: Pool, e: Event): Pool {
    match e
    case Hears(i, input) =>
      if i < |settings| && i < |p.conns| then
        Offer(p, NewCredits(settings[i], p.conns[i], i, input))
          .(conns := p.conns[i := Session.Step(settings[i], p.conns[i], input)])
      else p
    case Accounts(step) =>
      if !Receives(p, step) then p
      else if step.Receive? then
        p.(system := Accounting.Next(decay, p.system, step), channel := p.channel[1..], taken := p.taken + [p.channel[0]])
      else p.(system := Accounting.Next(decay, p.system, step))
  }

  ghost function Story(settings: seq<Session.Settings>, decay: Decay, now: nat, db: Database, events: seq<Event>): Pool {
    if events == [] then Opened(settings, now, db)
    else Happen(settings, decay, Story(settings, decay, now, db, events[..|events| - 1]), events[|events| - 1])
  }

  // ---------------------------------------------------------------- the parts of a story

  /** The inputs of one connection. */
  function InputsOf(connection: nat, events: seq<Event>): seq<Session.Input> {
    if events == [] then []
    else
      var last := events[|events| - 1];
      InputsOf(connection, events[..|events| - 1])
      + (if last.Hears? && last.connection == connection then [last.input] else [])
  }

  /** The accounting steps carried out. */
  ghost function StepsOf(settings: seq<Session.Settings>, decay: Decay, now: nat, db: Database, events: seq<Event>): seq<Accounting.Step> {
    if events == [] then []
    else
      var before, last := events[..|events| - 1], events[|events| - 1];
      StepsOf(settings, decay, now, db, before)
      + (if last.Accounts? && Receives(Story(settings, decay, now, db, before), last.step) then [last.step] else [])
  }

  lemma {:induction false} OfferKeeps(p: Pool, credits: seq<Credit>)
    ensures var q := Offer(p, credits);
            q.conns == p.conns && q.system == p.system && q.taken == p.taken && q.credited == p.credited + credits
  {
    if credits != [] {
      var n := |credits| - 1;
      OfferKeeps(p, credits[..n]);
      assert credits == credits[..n] + [credits[n]];
    } else {
      assert p.credited + credits == p.credited;
    }
  }

  /** Every connection of a story is a session of its own. */
  lemma {:induction false} ConnectionIsSession(settings: seq<Session.Settings>, decay: Decay, now: nat, db: Database,
                                               events: seq<Event>, i: nat)
    requires i < |settings|
    ensures var p := Story(settings, decay, now, db, events);
            |p.conns| == |settings| && p.conns[i] == Session.Run(settings[i], InputsOf(i, events))
  {
    if events != [] {
      var before, e := events[..|events| - 1], events[|events| - 1];
      var p := Story(settings, decay, now, db, before);
      ConnectionIsSession(settings, decay, now, db, before, i);
      if e.Hears? && e.connection < |settings| {
        OfferKeeps(p, NewCredits(settings[e.connection], p.conns[e.connection], e.connection, e.input));
      }
      if e.Hears? && e.connection == i {
        assert (InputsOf(i, before) + [e.input])[..|InputsOf(i, before)|] == InputsOf(i, before);
      } else {
        assert InputsOf(i, events) == InputsOf(i, before);
      }
    }
  }

  /** The accounting side of a story is a run of the accounting machine. */
  lemma {:induction false} SystemIsRun(settings: seq<Session.Settings>, decay: Decay, now: nat, db: Database, events: seq<Event>)
    ensures Story(settings, decay, now, db, events).system ==
            Accounting.Run(decay, Accounting.Start(now, db), StepsOf(settings, decay, now, db, events))
  {
    if events != [] {
      var before, e := events[..|events| - 1], events[|events| - 1];
      var p, steps := Story(settings, decay, now, db, before), StepsOf(settings, decay, now, db, before);
      SystemIsRun(settings, decay, now, db, before);
      if e.Accounts? && Receives(p, e.step) {
        RunSnoc(decay, Accounting.Start(now, db), steps, e.step);
      } else {
        assert StepsOf(settings, decay, now, db, events) == steps;
        if e.Hears? && e.connection < |settings| && e.connection < |p.conns| {
          OfferKeeps(p, NewCredits(settings[e.connection], p.conns[e.connection], e.connection, e.input));
        }
      }
    }
  }

  // ---------------------------------------------------------------- each connection's order

  function Of(connection: nat, credits: seq<Credit>): seq<Credit> {
    if credits == [] then []
    else
      var last := credits[|credits| - 1];
      Of(connection, credits[..|credits| - 1]) + (if last.connection == connection then [last] else [])
  }

  lemma {:induction false} OfConcat(connection: nat, a: seq<Credit>, b: seq<Credit>)
    ensures Of(connection, a + b) == Of(connection, a) + Of(connection, b)
  {
    if b == [] {
      assert a + b == a;
    } else {
      OfConcat(connection, a, b[..|b| - 1]);
      ConcatLast(a, b);
    }
  }

  lemma {:induction false} CreditsConcat(connection: nat, a: seq<Session.Effect>, b: seq<Session.Effect>)
    ensures CreditsIn(connection, a + b) == CreditsIn(connection, a) + CreditsIn(connection, b)
  {
    if b == [] {
      assert a + b == a;
    } else {
      CreditsConcat(connection, a, b[..|b| - 1]);
      ConcatLast(a, b);
    }
  }

  lemma {:induction false} OwnCredits(connection: nat, log: seq<Session.Effect>, other: nat)
    ensures Of(other, CreditsIn(connection, log)) == if other == connection then CreditsIn(connection, log) else []
  {
    if log != [] {
      var n := |log| - 1;
      OwnCredits(connection, log[..n], other);
      if log[n].Credited? {
        var c := Credit(connection, log[n].worker, log[n].difficulty);
        OfConcat(other, CreditsIn(connection, log[..n]), [c]);
        assert [c][..0] == [];
      } else {
        assert CreditsIn(connection, log) == CreditsIn(connection, log[..n]);
      }
    }
  }

  lemma LogGrows(s: Session.Settings, c: Session.Conn, input: Session.Input)
    ensures c.log <= Session.Step(s, c, input).log
  {
  }

  lemma StepCreditsMore(s: Session.Settings, c: Session.Conn, connection: nat, input: Session.Input)
    ensures CreditsIn(connection, Session.Step(s, c, input).log) ==
            CreditsIn(connection, c.log) + NewCredits(s, c, connection, input)
  {
    LogGrows(s, c, input);
    var after := Session.Step(s, c, input).log;
    assert after == c.log + after[|c.log|..];
    CreditsConcat(connection, c.log, after[|c.log|..]);
  }

  /** Of all shares credited, those of one connection are what its session credited, in its order. */
  lemma {:induction false} CreditedBySessions(settings: seq<Session.Settings>, decay: Decay, now: nat, db: Database,
                                              events: seq<Event>, i: nat)
    requires i < |settings|
    ensures Of(i, Story(settings, decay, now, db, events).credited) ==
            CreditsIn(i, Session.Run(settings[i], InputsOf(i, events)).log)
  {
    if events != [] {
      var before, e := events[..|events| - 1], events[|events| - 1];
      var p := Story(settings, decay, now, db, before);
      CreditedBySessions(settings, decay, now, db, before, i);
      ConnectionIsSession(settings, decay, now, db, before, i);
      ConnectionIsSession(settings, decay, now, db, events, i);
      if e.Hears? && e.connection < |settings| {
        HearingCredits(settings, decay, p, e, i);
      }
    }
  }

  lemma HearingCredits(settings: seq<Session.Settings>, decay: Decay, p: Pool, e: Event, i: nat)
    requires |p.conns| == |settings| && e.Hears? && e.connection < |settings| && i < |settings|
    requires Of(i, p.credited) == CreditsIn(i, p.conns[i].log)
    ensures var q := Happen(settings, decay, p, e); Of(i, q.credited) == CreditsIn(i, q.conns[i].log)
  {
    var k := e.connection;
    var newer := NewCredits(settings[k], p.conns[k], k, e.input);
    OfferKeeps(p, newer);
    OfConcat(i, p.credited, newer);
    StepCreditsMore(settings[k], p.conns[k], k, e.input);
    LogGrows(settings[k], p.conns[k], e.input);
    OwnCredits(k, Session.Step(settings[k], p.conns[k], e.input).log[|p.conns[k].log|..], i);
  }

  // ---------------------------------------------------------------- what the engine receives

  /** The first sequence is the second with some elements left out. */
  predicate Selects<T(==)>(part: seq<T>, all: seq<T>) {
    if all == [] then part == []
    else
      var n := |all| - 1;
      || Selects(part, all[..n])
      || (part != [] && part[|part| - 1] == all[n] && Selects(part[..|part| - 1], all[..n]))
  }

  lemma SelectsMore<T>(part: seq<T>, all: seq<T>, x: T)
    requires Selects(part, all)
    ensures Selects(part + [x], all + [x]) && Selects(part, all + [x])
  {
    assert (all + [x])[..|all|] == all && (part + [x])[..|part|] == part;
  }

  lemma OfferOne(p: Pool, credits: seq<Credit>)
    requires credits != []
    ensures var n := |credits| - 1;
            var q, r := Offer(p, credits[..n]), Offer(p, credits);
            if |q.channel| < 10_000 then r.channel == q.channel + [credits[n]] && r.dropped == q.dropped
            else r.channel == q.channel && r.dropped == q.dropped + [credits[n]]
  {
  }

  /** The channel takes the first credits there is room for, up to 10000 waiting, and drops the rest. */
  lemma {:induction false} OfferFillsRoom(p: Pool, credits: seq<Credit>, room: nat)
    requires |p.channel| + room == 10_000
    ensures var q, k := Offer(p, credits), if |credits| <= room then |credits| else room;
            q.channel == p.channel + credits[..k] && q.dropped == p.dropped + credits[k..]
  {
    if credits != [] {
      var n := |credits| - 1;
      OfferFillsRoom(p, credits[..n], room);
      OfferOne(p, credits);
      Snoc(credits, if n <= room then n else room);
    }
  }

  /** The two parts of a sequence, without and with its last element. */
  lemma Snoc<T>(s: seq<T>, k: nat)
    requires s != [] && k < |s|
    ensures s[..|s| - 1][..k] == s[..k] && s[..|s| - 1][k..] + [s[|s| - 1]] == s[k..]
    ensures s[..|s| - 1] + [s[|s| - 1]] == s && s[|s|..] == []
  {
  }

  /** What is taken or waiting is a selection of what was credited, and the channel is not overfull. */
  ghost predicate Flows(p: Pool) {
    Selects(p.taken + p.channel, p.credited) && |p.channel| <= CAPACITY
    && |p.credited| == |p.taken| + |p.channel| + |p.dropped|
  }

  lemma {:induction false} OfferFlows(p: Pool, credits: seq<Credit>)
    requires Flows(p)
    ensures Flows(Offer(p, credits))
  {
    if credits != [] {
      var n := |credits| - 1;
      var q := Offer(p, credits[..n]);
      OfferFlows(p, credits[..n]);
      SelectsMore(q.taken + q.channel, q.credited, credits[n]);
      Reassociated(q.taken, q.channel, [credits[n]]);
    }
  }

  lemma TakeFlows(p: Pool)
    requires Flows(p) && p.channel != []
    ensures Flows(p.(channel := p.channel[1..], taken := p.taken + [p.channel[0]]))
  {
    assert p.taken + [p.channel[0]] + p.channel[1..] == p.taken + p.channel;
  }

  /** What the engine took is what it received. */
  ghost predicate TakenIsReceived(p: Pool) {
    && |p.taken| == |p.system.books.received|
    && forall i :: 0 <= i < |p.taken| ==>
         && p.taken[i].worker == p.system.books.received[i].worker
         && p.taken[i].difficulty == p.system.books.received[i].difficulty
  }

  lemma StepReceives(decay: Decay, s: Accounting.System, step: Accounting.Step)
    ensures Accounting.Next(decay, s, step).books.received ==
            s.books.received + (if step.Receive? then [Share(step.worker, step.difficulty, step.now)] else [])
  {
  }

  lemma {:induction false} EveryStoryFlows(settings: seq<Session.Settings>, decay: Decay, now: nat, db: Database, events: seq<Event>)
    ensures var p := Story(settings, decay, now, db, events); Flows(p) && TakenIsReceived(p)
  {
    if events != [] {
      var before, e := events[..|events| - 1], events[|events| - 1];
      EveryStoryFlows(settings, decay, now, db, before);
      FlowStep(settings, decay, Story(settings, decay, now, db, before), e);
    }
  }

  lemma FlowStep(settings: seq<Session.Settings>, decay: Decay, p: Pool, e: Event)
    requires Flows(p) && TakenIsReceived(p)
    ensures var q := Happen(settings, decay, p, e); Flows(q) && TakenIsReceived(q)
  {
    match e
    case Hears(i, input) =>
      if i < |settings| && i < |p.conns| {
        var newer := NewCredits(settings[i], p.conns[i], i, input);
        OfferFlows(p, newer);
        OfferKeeps(p, newer);
      }
    case Accounts(step) =>
      StepReceives(decay, p.system, step);
      if step.Receive? && p.channel != [] {
        TakeFlows(p);
      }
  }

  /** The engine receives a selection of what the sessions credited, in the order they did; what it
      has not received is waiting in the channel or was dropped. */
  lemma ReceivedIsSelection(settings: seq<Session.Settings>, decay: Decay, now: nat, db: Database, events: seq<Event>)
    ensures var p := Story(settings, decay, now, db, events);
            && TakenIsReceived(p) && Selects(p.taken + p.channel, p.credited)
            && |p.credited| == |p.taken| + |p.channel| + |p.dropped|
  {
    EveryStoryFlows(settings, decay, now, db, events);
  }

  /** Nothing was dropped, so that what is taken and waiting is all that was credited, in order. */
  ghost predicate KeepsAll(p: Pool) {
    p.dropped == [] && p.taken + p.channel == p.credited
  }

  lemma KeepsAllStep(settings: seq<Session.Settings>, decay: Decay, p: Pool, e: Event)
    requires Flows(p) && KeepsAll(p) && |Happen(settings, decay, p, e).channel| < 10_000
    ensures KeepsAll(Happen(settings, decay, p, e))
  {
    match e
    case Hears(i, input) =>
      if i < |settings| && i < |p.conns| {
        var newer := NewCredits(settings[i], p.conns[i], i, input);
        OfferFillsRoom(p, newer, 10_000 - |p.channel|);
        OfferKeeps(p, newer);
        assert newer[..|newer|] == newer && newer[|newer|..] == [];
        Reassociated(p.taken, p.channel, newer);
      }
    case Accounts(step) =>
      if step.Receive? && p.channel != [] {
        assert p.taken + [p.channel[0]] + p.channel[1..] == p.taken + p.channel;
      }
  }

  /** While the channel never fills nothing is dropped, and the engine receives all that the sessions
      credit, in order. */
  lemma {:induction false} NothingDroppedUnlessFull(settings: seq<Session.Settings>, decay: Decay, now: nat, db: Database,
                                                    events: seq<Event>)
    requires forall k :: 0 <= k <= |events| ==> |Story(settings, decay, now, db, events[..k]).channel| < 10_000
    ensures KeepsAll(Story(settings, decay, now, db, events))
  {
    if events != [] {
      var n := |events| - 1;
      forall k | 0 <= k <= n ensures |Story(settings, decay, now, db, events[..n][..k]).channel| < 10_000 {
        assert events[..n][..k] == events[..k];
      }
      NothingDroppedUnlessFull(settings, decay, now, db, events[..n]);
      EveryStoryFlows(settings, decay, now, db, events[..n]);
      assert events[..|events|] == events;
      KeepsAllStep(settings, decay, Story(settings, decay, now, db, events[..n]), events[n]);
    }
  }

  /** The engine takes the share that has waited longest, at once, whenever one waits. */
  lemma EngineTakesNext(settings: seq<Session.Settings>, decay: Decay, p: Pool, at: nat)
    requires p.channel != []
    ensures var c := p.channel[0];
            var q := Happen(settings, decay, p, Accounts(Accounting.Receive(c.worker, c.difficulty, at)));
            && q.channel == p.channel[1..] && q.taken == p.taken + [c]
            && q.system.books.received == p.system.books.received + [Share(c.worker, c.difficulty, at)]
  {
    StepReceives(decay, p.system, Accounting.Receive(p.channel[0].worker, p.channel[0].difficulty, at));
  }

  // ---------------------------------------------------------------- from submit to payout

  function CreditWeight(wallet: string, credits: seq<Credit>): nat {
    if credits == [] then 0
    else
      var last := credits[|credits| - 1];
      CreditWeight(wallet, credits[..|credits| - 1]) + (if WalletOf(last.worker) == wallet then last.difficulty else 0)
  }

  lemma {:induction false} CreditWeightConcat(wallet: string, a: seq<Credit>, b: seq<Credit>)
    ensures CreditWeight(wallet, a + b) == CreditWeight(wallet, a) + CreditWeight(wallet, b)
  {
    if b == [] {
      assert a + b == a;
    } else {
      CreditWeightConcat(wallet, a, b[..|b| - 1]);
      ConcatLast(a, b);
    }
  }

  ghost predicate Weighed(p: Pool, wallet: string) {
    CreditWeight(wallet, p.credited) ==
    CreditWeight(wallet, p.taken) + CreditWeight(wallet, p.channel) + CreditWeight(wallet, p.dropped)
  }

  lemma {:induction false} OfferWeighs(p: Pool, credits: seq<Credit>, wallet: string)
    requires Weighed(p, wallet)
    ensures Weighed(Offer(p, credits), wallet)
  {
    if credits != [] {
      var n := |credits| - 1;
      var q := Offer(p, credits[..n]);
      OfferWeighs(p, credits[..n], wallet);
      CreditWeightConcat(wallet, q.credited, [credits[n]]);
      CreditWeightConcat(wallet, q.channel, [credits[n]]);
      CreditWeightConcat(wallet, q.dropped, [credits[n]]);
    }
  }

  lemma {:induction false} EveryStoryWeighs(settings: seq<Session.Settings>, decay: Decay, now: nat, db: Database,
                                            events: seq<Event>, wallet: string)
    ensures Weighed(Story(settings, decay, now, db, events), wallet)
  {
    if events != [] {
      var before, e := events[..|events| - 1], events[|events| - 1];
      var p := Story(settings, decay, now, db, before);
      EveryStoryWeighs(settings, decay, now, db, before, wallet);
      match e
      case Hears(i, input) =>
        if i < |settings| && i < |p.conns| {
          OfferWeighs(p, NewCredits(settings[i], p.conns[i], i, input), wallet);
        }
      case Accounts(step) =>
        if step.Receive? && Receives(p, step) {
          TakeWeighs(p, wallet);
        }
    }
  }

  lemma TakeWeighs(p: Pool, wallet: string)
    requires Weighed(p, wallet) && p.channel != []
    ensures Weighed(p.(channel := p.channel[1..], taken := p.taken + [p.channel[0]]), wallet)
  {
    CreditWeightConcat(wallet, p.taken, [p.channel[0]]);
    CreditWeightConcat(wallet, [p.channel[0]], p.channel[1..]);
    assert p.channel == [p.channel[0]] + p.channel[1..];
  }

  lemma {:induction false} SameWeight(wallet: string, credits: seq<Credit>, shares: seq<Share>)
    requires |credits| == |shares|
    requires forall i :: 0 <= i < |credits| ==>
               credits[i].worker == shares[i].worker && credits[i].difficulty == shares[i].difficulty
    ensures CreditWeight(wallet, credits) == SeqWeight(wallet, shares)
  {
    if credits != [] {
      var n := |credits| - 1;
      SameWeight(wallet, credits[..n], shares[..n]);
    }
  }

  /** For every wallet, in every story: the difficulty its miners were credited with, and what was read
      twice, is waiting in the channel or was dropped by it, is unflushed, queued, in the oracle's
      batch or lost, or has been paid out at the fixed rate. */
  lemma SubmitToPayout(settings: seq<Session.Settings>, decay: Decay, now: nat, db: Database, events: seq<Event>, wallet: string)
    ensures var p := Story(settings, decay, now, db, events);
            var s := p.system;
            var paid := SeqWeight(wallet, s.books.credited);
            && CreditWeight(wallet, p.credited) + SeqWeight(wallet, s.books.duplicated) ==
               CreditWeight(wallet, p.channel) + CreditWeight(wallet, p.dropped)
               + Total(wallet, Unflushed(s.workers)) + SeqWeight(wallet, s.store.buffer)
               + SeqWeight(wallet, Accounting.InFlight(s)) + paid + SeqWeight(wallet, s.books.lost)
            && YieldOf(s.db.reservoirs, wallet) - YieldOf(db.reservoirs, wallet) == paid as real * KAS_PER_DIFFICULTY
  {
    var p := Story(settings, decay, now, db, events);
    EveryStoryFlows(settings, decay, now, db, events);
    EveryStoryWeighs(settings, decay, now, db, events, wallet);
    SameWeight(wallet, p.taken, p.system.books.received);
    SystemIsRun(settings, decay, now, db, events);
    EndToEnd(decay, now, db, StepsOf(settings, decay, now, db, events), wallet);
  }
}
