/** How a session hears of jobs: it subscribes to the broadcast, reads the cached job, then takes
    jobs from its bounded queue into a slot that a timer writes out.

    The broadcast keeps the last 1024 jobs; a session further behind than that loses the oldest. */
module JobFeed {
  import opened Sequences
  import opened Options
  import opened JobTable

  const CAPACITY: nat := 1024

  /** start: jobs broadcast before the subscription; next: the queue position; fromCache: the cached
      job written out first, if any; fed: the jobs written out after it. */
  datatype Feed =
    | Unconnected
    | Subscribed(start: nat)
    | Looping(start: nat, next: nat, fromCache: Option<nat>, pending: Option<nat>, fed: seq<nat>)

  datatype World = World(table: Table, feed: Feed)

  datatype Event =
    | TableStep(action: Action)
    | Subscribe
    | ReadCache
    | Receive
    | Throttle

  const START := World(INITIAL, Unconnected)

  /** A receive: nothing when the queue is empty, the oldest job still kept when jobs were lost. */
  function Received(sent: seq<nat>, f: Feed): Feed
    requires f.Looping?
  {
    if f.next >= |sent| then f
    else if |sent| - f.next > CAPACITY then f.(next := |sent| - CAPACITY)
    else f.(next := f.next + 1, pending := Some(sent[f.next]))
  }

  function Happen(w: World, e: Event): World {
    match e
    case TableStep(action) => w.(table := Next(w.table, action))
    case Subscribe => if w.feed.Unconnected? then w.(feed := Subscribed(|w.table.sent|)) else w
    case ReadCache =>
      if w.feed.Subscribed?
      then w.(feed := Looping(w.feed.start, w.feed.start, w.table.cached, None, []))
      else w
    case Receive => if w.feed.Looping? then w.(feed := Received(w.table.sent, w.feed)) else w
    case Throttle =>
      if w.feed.Looping? && w.feed.pending.Some?
      then w.(feed := w.feed.(pending := None, fed := w.feed.fed + [w.feed.pending.value]))
      else w
  }

  function Story(events: seq<Event>): World {
    if events == [] then START else Happen(Story(events[..|events| - 1]), events[|events| - 1])
  }

  /** Everything written out to the client, in order. */
  function Delivered(f: Feed): seq<nat> {
    if !f.Looping? then [] else (if f.fromCache.Some? then [f.fromCache.value] else []) + f.fed
  }

  ghost predicate Increasing(s: seq<nat>) {
    forall i, j :: 0 <= i < j < |s| ==> s[i] < s[j]
  }

  /** The last job taken off the queue, delivered or waiting. */
  function LastTaken(f: Feed): Option<nat>
    requires f.Looping?
  {
    if f.pending.Some? then f.pending
    else if f.fed != [] then Some(f.fed[|f.fed| - 1])
    else None
  }

  ghost predicate FeedInvariant(w: World) {
    var f, sent := w.feed, w.table.sent;
    && PublishesInOrder(w.table)
    && (!f.Unconnected? ==> f.start <= |sent|)
    && (f.Looping? ==>
          && f.start <= f.next <= |sent|
          && (f.start > 0 ==> f.fromCache.Some?)
          && (f.fromCache.Some? ==> w.table.cached.Some? && f.start <= f.fromCache.value <= w.table.cached.value)
          && (f.next == f.start ==> LastTaken(f).None?)
          && (f.next > f.start ==> LastTaken(f) == Some(f.next) || f.next + CAPACITY <= |sent|)
          && Increasing(f.fed)
          && (forall i :: 0 <= i < |f.fed| ==> f.start < f.fed[i] <= f.next)
          && (f.pending.Some? ==> f.start < f.pending.value <= f.next)
          && (f.pending.Some? ==> forall i :: 0 <= i < |f.fed| ==> f.fed[i] < f.pending.value))
  }

  lemma TableStepKeeps(w: World, a: Action)
    requires FeedInvariant(w)
    ensures FeedInvariant(w.(table := Next(w.table, a)))
  {
    StepInOrder(w.table, a);
  }

  lemma ReceiveKeeps(w: World)
    requires FeedInvariant(w) && w.feed.Looping?
    ensures FeedInvariant(w.(feed := Received(w.table.sent, w.feed)))
  {
  }

  lemma ThrottleKeeps(w: World)
    requires FeedInvariant(w)
    ensures FeedInvariant(Happen(w, Throttle))
  {
  }

  lemma FeedKeeps(w: World, e: Event)
    requires FeedInvariant(w)
    ensures FeedInvariant(Happen(w, e))
  {
    match e
    case TableStep(a) => TableStepKeeps(w, a);
    case Subscribe =>
    case ReadCache =>
    case Receive => if w.feed.Looping? { ReceiveKeeps(w); }
    case Throttle => ThrottleKeeps(w);
  }

  lemma {:induction false} FeedInvariantHolds(events: seq<Event>)
    ensures FeedInvariant(Story(events))
  {
    if events != [] {
      FeedInvariantHolds(events[..|events| - 1]);
      FeedKeeps(Story(events[..|events| - 1]), events[|events| - 1]);
    }
  }

  /** No job is missed: once a session's queue and slot are empty and no publication is between the
      cache and the broadcast, the last job it was given is the newest one published, however the
      steps interleaved and however many jobs the queue lost; and it was given nothing only when
      nothing was published. */
  lemma NoMissedJob(events: seq<Event>)
    requires var w := Story(events);
             w.feed.Looping? && w.feed.next == |w.table.sent| && w.feed.pending.None? && !w.table.publishing.Cached?
    ensures var w := Story(events); var sent, out := w.table.sent, Delivered(w.feed);
            if sent == [] then out == [] else out != [] && out[|out| - 1] == sent[|sent| - 1]
  {
    FeedInvariantHolds(events);
  }

  /** The jobs given out of the queue are an increasing selection of those broadcast after the
      subscription: in order, none twice. */
  lemma QueueFedInOrder(events: seq<Event>)
    requires Story(events).feed.Looping?
    ensures var w := Story(events);
            && w.feed.start <= |w.table.sent|
            && Increasing(w.feed.fed)
            && forall i :: 0 <= i < |w.feed.fed| ==> w.feed.fed[i] in w.table.sent[w.feed.start..]
  {
    FeedInvariantHolds(events);
    var w := Story(events);
    forall i | 0 <= i < |w.feed.fed| ensures w.feed.fed[i] in w.table.sent[w.feed.start..] {
      var id := w.feed.fed[i];
      assert w.table.sent[w.feed.start..][id - 1 - w.feed.start] == id;
    }
  }

  /** With nothing published between the subscription and the cache read, the whole output is in
      order. */
  lemma QuietStartInOrder(events: seq<Event>)
    requires var f := Story(events).feed; f.Looping? && (f.fromCache.Some? ==> f.fromCache.value == f.start)
    ensures Increasing(Delivered(Story(events).feed))
  {
    FeedInvariantHolds(events);
  }

  /** Whatever happens afterwards, the client is given jobs in order and none twice. */
  ghost predicate AlwaysInOrder(events: seq<Event>) {
    forall more :: Increasing(Delivered(Story(events + more).feed))
  }

  /** A session's cached job is fixed when it reads the cache. */
  lemma {:induction false} CacheReadOnce(events: seq<Event>, more: seq<Event>)
    requires Story(events).feed.Looping?
    ensures var f, g := Story(events).feed, Story(events + more).feed;
            g.Looping? && g.start == f.start && g.fromCache == f.fromCache
  {
    if more == [] {
      assert events + more == events;
    } else {
      var n := |more| - 1;
      CacheReadOnce(events, more[..n]);
      StorySnoc(events + more[..n], more[n]);
      assert events + more == events + more[..n] + [more[n]];
    }
  }

  /** What a session does next when the job it read is newer than its place in the queue: the job
      comes a second time, or an older one comes after it. */
  function Overtaking(w: World): seq<Event>
    requires w.feed.Looping?
  {
    if w.feed.next == |w.table.sent| then [TableStep(Send), Receive, Throttle]
    else if |w.table.sent| - w.feed.next > CAPACITY then [Receive, Receive, Throttle]
    else [Receive, Throttle]
  }

  lemma StoryTwo(events: seq<Event>, a: Event, b: Event)
    ensures Story(events + [a, b]) == Happen(Happen(Story(events), a), b)
  {
    Joined(events, a, b, b);
    StorySnoc(events, a);
    StorySnoc(events + [a], b);
  }

  lemma StoryThree(events: seq<Event>, a: Event, b: Event, c: Event)
    ensures Story(events + [a, b, c]) == Happen(Happen(Happen(Story(events), a), b), c)
  {
    Joined(events, a, b, c);
    StoryTwo(events, a, b);
    StorySnoc(events + [a, b], c);
  }

  /** A session that has just read a cached job newer than its place in the queue. */
  ghost predicate Overtaken(w: World) {
    && FeedInvariant(w) && w.feed.Looping? && w.feed.next == w.feed.start && w.feed.pending.None? && w.feed.fed == []
    && w.feed.fromCache.Some? && w.table.cached == w.feed.fromCache && w.feed.start < w.feed.fromCache.value
  }

  /** The job read comes first, and one that is not newer second. */
  ghost predicate OutOfOrder(w: World, cached: nat) {
    var out := Delivered(w.feed);
    |out| == 2 && out[0] == cached && out[1] <= out[0]
  }

  /** A job cached but not yet sent is given to the client twice. */
  lemma OvertakenBySend(w: World)
    requires Overtaken(w) && w.feed.next == |w.table.sent|
    ensures OutOfOrder(Happen(Happen(Happen(w, TableStep(Send)), Receive), Throttle), w.feed.fromCache.value)
    ensures var job := w.feed.fromCache.value;
            Delivered(Happen(Happen(Happen(w, TableStep(Send)), Receive), Throttle).feed) == [job, job]
  {
  }

  lemma OvertakenAfterLoss(w: World)
    requires Overtaken(w) && |w.table.sent| - w.feed.next > CAPACITY
    ensures OutOfOrder(Happen(Happen(Happen(w, Receive), Receive), Throttle), w.feed.fromCache.value)
  {
  }

  lemma OvertakenInQueue(w: World)
    requires Overtaken(w) && 0 < |w.table.sent| - w.feed.next <= CAPACITY
    ensures OutOfOrder(Happen(Happen(w, Receive), Throttle), w.feed.fromCache.value)
  {
  }

  lemma OvertakenJob(events: seq<Event>)
    requires Overtaken(Story(events))
    ensures var w := Story(events); OutOfOrder(Story(events + Overtaking(w)), w.feed.fromCache.value)
  {
    var w := Story(events);
    var n := |w.table.sent|;
    if w.feed.next == n {
      StoryThree(events, TableStep(Send), Receive, Throttle);
      OvertakenBySend(w);
    } else if n - w.feed.next > CAPACITY {
      StoryThree(events, Receive, Receive, Throttle);
      OvertakenAfterLoss(w);
    } else {
      StoryTwo(events, Receive, Throttle);
      OvertakenInQueue(w);
    }
  }

  /** Exactly when a session's output is sure to be in order: when, at its cache read, nothing has
      been cached since it subscribed. */
  lemma InOrderIff(events: seq<Event>)
    requires Story(events).feed.Subscribed?
    ensures var w := Story(events);
            AlwaysInOrder(events + [ReadCache]) <==> w.table.cached.None? || w.table.cached.value == w.feed.start
  {
    var w, read := Story(events), events + [ReadCache];
    StorySnoc(events, ReadCache);
    FeedInvariantHolds(events);
    FeedInvariantHolds(read);
    if w.table.cached.None? || w.table.cached.value == w.feed.start {
      forall more ensures Increasing(Delivered(Story(read + more).feed)) {
        CacheReadOnce(read, more);
        QuietStartInOrder(read + more);
      }
    } else {
      OvertakenJob(read);
      var out := Delivered(Story(read + Overtaking(Story(read))).feed);
      assert !(out[0] < out[1]);
    }
  }

  // ---------------------------------------------------------------- the start

  /** The world when the session subscribed, if it has. */
  function AtSubscription(events: seq<Event>): Option<World> {
    if events == [] then None
    else
      var before := events[..|events| - 1];
      if AtSubscription(before).None? && events[|events| - 1].Subscribe? then Some(Story(before)) else AtSubscription(before)
  }

  /** The world when it read the cache, if it has. */
  function AtCacheRead(events: seq<Event>): Option<World> {
    if events == [] then None
    else
      var before := events[..|events| - 1];
      if AtSubscription(before).Some? && AtCacheRead(before).None? && events[|events| - 1].ReadCache?
      then Some(Story(before)) else AtCacheRead(before)
  }

  /** A session's queue starts behind the jobs that had been broadcast when it subscribed, and its cached
      job is the one that was cached when it read the cache. */
  lemma {:induction false} StartsWhereItSubscribed(events: seq<Event>)
    ensures var f, subscribed, read := Story(events).feed, AtSubscription(events), AtCacheRead(events);
            && (f.Unconnected? <==> subscribed.None?) && (f.Looping? <==> read.Some?)
            && (subscribed.Some? ==> f.start == |subscribed.value.table.sent|)
            && (read.Some? ==> f.fromCache == read.value.table.cached)
  {
    if events != [] {
      StartsWhereItSubscribed(events[..|events| - 1]);
    }
  }

  // ---------------------------------------------------------------- lost jobs

  /** The jobs at the queue's front when it was received from. */
  function Fronts(events: seq<Event>): seq<nat> {
    if events == [] then []
    else
      var before, e := events[..|events| - 1], events[|events| - 1];
      var w := Story(before);
      Fronts(before)
      + (if e.Receive? && w.feed.Looping? && w.feed.next < |w.table.sent| then [w.table.sent[w.feed.next]] else [])
  }

  ghost predicate NeverFarBehind(events: seq<Event>) {
    forall i :: 0 <= i <= |events| ==>
      var w := Story(events[..i]); w.feed.Looping? ==> |w.table.sent| <= w.feed.next + 1024
  }

  ghost predicate AllTaken(w: World, fronts: seq<nat>) {
    if w.feed.Looping? then
      && w.feed.start <= w.feed.next <= |w.table.sent| && fronts == w.table.sent[w.feed.start..w.feed.next]
      && (w.feed.pending.Some? ==> fronts != [] && w.feed.pending.value == fronts[|fronts| - 1])
    else fronts == [] && (w.feed.Subscribed? ==> w.feed.start <= |w.table.sent|)
  }

  lemma AllTakenStep(w: World, e: Event, fronts: seq<nat>)
    requires AllTaken(w, fronts) && PublishesInOrder(w.table)
    requires w.feed.Looping? ==> |w.table.sent| <= w.feed.next + 1024
    ensures var front := if e.Receive? && w.feed.Looping? && w.feed.next < |w.table.sent| then [w.table.sent[w.feed.next]] else [];
            AllTaken(Happen(w, e), fronts + front)
  {
    match e
    case TableStep(a) => StepInOrder(w.table, a);
    case _ =>
  }

  /** A session that never falls more than 1024 jobs behind takes every job broadcast since it
      subscribed, one by one, and holds the last one it took. */
  lemma {:induction false} NothingLost(events: seq<Event>)
    requires NeverFarBehind(events)
    ensures AllTaken(Story(events), Fronts(events))
  {
    if events != [] {
      var n := |events| - 1;
      forall i | 0 <= i <= n
        ensures var w := Story(events[..n][..i]); w.feed.Looping? ==> |w.table.sent| <= w.feed.next + 1024
      {
        assert events[..n][..i] == events[..i];
      }
      NothingLost(events[..n]);
      FeedInvariantHolds(events[..n]);
      AllTakenStep(Story(events[..n]), events[n], Fronts(events[..n]));
    }
  }

  /** One that has fallen further behind goes on with the last 1024. */
  lemma FarBehindSkips(w: World)
    requires w.feed.Looping? && |w.table.sent| > w.feed.next + 1024
    ensures var g := Happen(w, Receive).feed;
            g.next + 1024 == |w.table.sent| && g.pending == w.feed.pending && g.fed == w.feed.fed
  {
  }

  function TableSteps(actions: seq<Action>): seq<Event> {
    seq(|actions|, i requires 0 <= i < |actions| => TableStep(actions[i]))
  }

  lemma StorySnoc(events: seq<Event>, e: Event)
    ensures Story(events + [e]) == Happen(Story(events), e)
  {
    assert (events + [e])[..|events|] == events;
  }

  lemma TableStepsSnoc(actions: seq<Action>, a: Action)
    ensures TableSteps(actions + [a]) == TableSteps(actions) + [TableStep(a)]
  {
  }

  lemma {:induction false} StoryOfTable(events: seq<Event>, actions: seq<Action>)
    ensures Story(events + TableSteps(actions)) == Story(events).(table := Run(Story(events).table, actions))
  {
    if actions == [] {
      assert events + TableSteps(actions) == events;
    } else {
      var n := |actions| - 1;
      var most := events + TableSteps(actions[..n]);
      StoryOfTable(events, actions[..n]);
      StorySnoc(most, TableStep(actions[n]));
      TableStepsSnoc(actions[..n], actions[n]);
      assert actions[..n] + [actions[n]] == actions;
      assert most + [TableStep(actions[n])] == events + TableSteps(actions);
    }
  }

  lemma SecondJobCached() returns (actions: seq<Action>)
    ensures var t := Run(INITIAL, actions); t.sent == [1] && t.cached == Some(2)
  {
    var second := [Issue, InsertJob, InsertStamp(0), WriteCache];
    actions := PublishOne(0) + second;
    PublishOneEffect(INITIAL, 0);
    RunConcat(INITIAL, PublishOne(0), second);
    RunFour(Run(INITIAL, PublishOne(0)), Issue, InsertJob, InsertStamp(0), WriteCache);
  }

  lemma TakenAfterRead(w: World)
    requires w.feed == Looping(0, 0, Some(2), None, []) && w.table.sent == [1]
    ensures Delivered(Happen(Happen(w, Receive), Throttle).feed) == [2, 1]
  {
  }

  lemma SecondOvertakes(events: seq<Event>)
    requires var w := Story(events); w.feed == Subscribed(0) && w.table.sent == [1] && w.table.cached == Some(2)
    ensures Delivered(Story(events + [ReadCache] + [Receive, Throttle]).feed) == [2, 1]
  {
    StorySnoc(events, ReadCache);
    StoryTwo(events + [ReadCache], Receive, Throttle);
    TakenAfterRead(Story(events + [ReadCache]));
  }

  /** Otherwise it need not be: two jobs published after the subscription, the second one cached but
      not yet sent, and the client is given job 2, then job 1. */
  lemma CachedJobMayBeNewer() returns (events: seq<Event>)
    ensures Delivered(Story(events).feed) == [2, 1]
  {
    var actions := SecondJobCached();
    StorySnoc([], Subscribe);
    var first := [] + [Subscribe];
    StoryOfTable(first, actions);
    SecondOvertakes(first + TableSteps(actions));
    events := first + TableSteps(actions) + [ReadCache] + [Receive, Throttle];
  }

  lemma SentAfterRead(w: World)
    requires w.feed == Looping(0, 0, Some(1), None, []) && w.table.sent == [] && w.table.publishing == Cached(1)
    ensures Delivered(Happen(Happen(Happen(w, TableStep(Send)), Receive), Throttle).feed) == [1, 1]
  {
  }

  lemma CachedThenSent(events: seq<Event>)
    requires var w := Story(events);
             w.feed == Subscribed(0) && w.table.sent == [] && w.table.cached == Some(1) && w.table.publishing == Cached(1)
    ensures Delivered(Story(events + [ReadCache] + [TableStep(Send), Receive, Throttle]).feed) == [1, 1]
  {
    StorySnoc(events, ReadCache);
    StoryThree(events + [ReadCache], TableStep(Send), Receive, Throttle);
    SentAfterRead(Story(events + [ReadCache]));
  }

  /** Nor need jobs come once: a job published after the subscription, cached but not yet sent when the
      client reads the cache, is given to it twice. */
  lemma CachedJobGivenTwice() returns (events: seq<Event>)
    ensures Delivered(Story(events).feed) == [1, 1]
  {
    var actions := [Issue, InsertJob, InsertStamp(0), WriteCache];
    RunFour(INITIAL, Issue, InsertJob, InsertStamp(0), WriteCache);
    StorySnoc([], Subscribe);
    var first := [] + [Subscribe];
    StoryOfTable(first, actions);
    CachedThenSent(first + TableSteps(actions));
    events := first + TableSteps(actions) + [ReadCache] + [TableStep(Send), Receive, Throttle];
  }

  /** The table's share of the events. */
  function TableActions(events: seq<Event>): seq<Action> {
    if events == [] then []
    else
      var last := events[|events| - 1];
      TableActions(events[..|events| - 1]) + (if last.TableStep? then [last.action] else [])
  }

  lemma {:induction false} TableOfStory(events: seq<Event>)
    ensures Story(events).table == Run(INITIAL, TableActions(events))
  {
    if events != [] {
      TableOfStory(events[..|events| - 1]);
      var last := events[|events| - 1];
      if last.TableStep? {
        RunSnoc(INITIAL, TableActions(events[..|events| - 1]), last.action);
      } else {
        assert TableActions(events) == TableActions(events[..|events| - 1]);
      }
    }
  }

  /** A client that was given a job can submit against it: while jobs are well spaced, the job's id
      finds that very job until a sweep takes it out. */
  lemma DeliveredIsFound(events: seq<Event>, m: nat)
    requires WellSpaced(TableActions(events))
    requires m in Delivered(Story(events).feed)
    ensures var t := Story(events).table;
            && (m in t.sent || t.cached == Some(m))
            && (Key(m) in t.live && t.live[Key(m)] == m ==>
                  MidRemoval(t, Key(m)) || (Key(m) in t.active && t.active[Key(m)] == m))
  {
    var w := Story(events);
    FeedInvariantHolds(events);
    TableOfStory(events);
    if w.table.cached != Some(m) {
      assert 0 < m <= |w.table.sent| by {
        DeliveredRange(events, m);
      }
      assert w.table.sent[m - 1] == m;
    }
    if Key(m) in w.table.live && w.table.live[Key(m)] == m {
      AnnouncedIsFound(TableActions(events), m);
    }
  }

  lemma DeliveredRange(events: seq<Event>, m: nat)
    requires m in Delivered(Story(events).feed) && Story(events).table.cached != Some(m)
    ensures 0 < m <= |Story(events).table.sent|
  {
    FeedInvariantHolds(events);
    CachePositive(events);
    var f := Story(events).feed;
    if m !in f.fed {
      assert f.fromCache == Some(m);
    }
  }

  /** Ids start at 1. */
  lemma {:induction false} CachePositive(events: seq<Event>)
    ensures var w := Story(events); w.feed.Looping? && w.feed.fromCache.Some? ==> w.feed.fromCache.value > 0
  {
    if events != [] {
      CachePositive(events[..|events| - 1]);
      FeedInvariantHolds(events[..|events| - 1]);
    }
  }
}
