/** The job table: jobs under 16-bit keys in two maps, one task publishing, another sweeping.

    Every insert, removal, cache write and send is a step of its own, so the two tasks may
    interleave anywhere. A job is identified by the full counter value it was issued under. */
module JobTable {
  import opened Sequences
  import opened Powers
  import opened Clock
  import opened Options
  import opened Hex

  const KEYS: nat := 0x1_0000
  const MAX_AGE: nat := 120_000

  /** A job id: the low 16 bits of the counter, which miners see as four hex digits. */
  datatype JobId = JobId(low: nat) {
    function Text(): string {
      Format(low, 4)
    }
  }

  /** How far the publishing task is with its current job. */
  datatype Publishing = Idle | Issued(id: nat) | Inserted(id: nat) | Stamped(id: nat) | Cached(id: nat)

  /** How far the sweeping task is: it reads its clock, examines stamps one by one, then removes
      each stale key from both maps. halfway: the first stale key is gone from the active jobs. */
  datatype Sweeping =
    | Resting
    | Scanning(now: nat, stale: seq<JobId>)
    | Removing(now: nat, stale: seq<JobId>, halfway: bool)

  /** live: the id each key is held by, from its issue until its stamp is swept out. Nothing depends
      on it. */
  datatype Table = Table(
    counter: nat,
    active: map<JobId, nat>,
    stamps: map<JobId, nat>,
    cached: Option<nat>,
    sent: seq<nat>,
    publishing: Publishing,
    sweeping: Sweeping,
    live: map<JobId, nat>)

  datatype Action =
    | Issue
    | InsertJob
    | InsertStamp(now: nat)
    | WriteCache
    | Send
    | StartSweep(at: nat)
    | Examine(key: JobId)
    | EndScan
    | RemoveJob
    | RemoveStamp

  const INITIAL := Table(1, map[], map[], None, [], Idle, Resting, map[])

  function Key(id: nat): JobId {
    JobId(id % KEYS)
  }

  predicate IsStale(now: nat, stamp: nat) {
    Elapsed(stamp, now) > MAX_AGE
  }

  function Publish(t: Table, a: Action): Table {
    match a
    case Issue =>
      if t.publishing.Idle?
      then t.(counter := t.counter + 1, publishing := Issued(t.counter), live := t.live[Key(t.counter) := t.counter])
      else t
    case InsertJob =>
      if t.publishing.Issued?
      then t.(active := t.active[Key(t.publishing.id) := t.publishing.id], publishing := Inserted(t.publishing.id))
      else t
    case InsertStamp(now) =>
      if t.publishing.Inserted?
      then t.(stamps := t.stamps[Key(t.publishing.id) := now], publishing := Stamped(t.publishing.id))
      else t
    case WriteCache =>
      if t.publishing.Stamped?
      then t.(cached := Some(t.publishing.id), publishing := Cached(t.publishing.id))
      else t
    case Send =>
      if t.publishing.Cached? then t.(sent := t.sent + [t.publishing.id], publishing := Idle) else t
    case _ => t
  }

  function Sweep(t: Table, a: Action): Table {
    match a
    case StartSweep(at) =>
      if t.sweeping.Resting? then t.(sweeping := Scanning(at, [])) else t
    case Examine(key) =>
      if t.sweeping.Scanning? && key in t.stamps && key !in t.sweeping.stale && IsStale(t.sweeping.now, t.stamps[key])
      then t.(sweeping := Scanning(t.sweeping.now, t.sweeping.stale + [key]))
      else t
    case EndScan =>
      if t.sweeping.Scanning? then t.(sweeping := NextRemoval(t.sweeping.now, t.sweeping.stale)) else t
    case RemoveJob =>
      if t.sweeping.Removing? && t.sweeping.stale != [] && !t.sweeping.halfway
      then t.(active := t.active - {t.sweeping.stale[0]}, sweeping := Removing(t.sweeping.now, t.sweeping.stale, true))
      else t
    case RemoveStamp =>
      if t.sweeping.Removing? && t.sweeping.stale != [] && t.sweeping.halfway
      then
        var k := t.sweeping.stale[0];
        t.(stamps := t.stamps - {k},
           sweeping := NextRemoval(t.sweeping.now, t.sweeping.stale[1..]),
           live := t.live - {k})
      else t
    case _ => t
  }

  function NextRemoval(now: nat, stale: seq<JobId>): Sweeping {
    if stale == [] then Resting else Removing(now, stale, false)
  }

  /** One step of either task. A step that is not the task's turn changes nothing. */
  function Next(t: Table, a: Action): Table {
    match a
    case Issue => Publish(t, a)
    case InsertJob => Publish(t, a)
    case InsertStamp(_) => Publish(t, a)
    case WriteCache => Publish(t, a)
    case Send => Publish(t, a)
    case _ => Sweep(t, a)
  }

  function Run(t: Table, actions: seq<Action>): Table {
    if actions == [] then t else Next(Run(t, actions[..|actions| - 1]), actions[|actions| - 1])
  }

  lemma RunSnoc(t: Table, actions: seq<Action>, a: Action)
    ensures Run(t, actions + [a]) == Next(Run(t, actions), a)
  {
    assert (actions + [a])[..|actions|] == actions;
  }

  lemma {:induction false} RunConcat(t: Table, first: seq<Action>, second: seq<Action>)
    ensures Run(t, first + second) == Run(Run(t, first), second)
  {
    if second == [] {
      assert first + second == first;
    } else {
      var n := |second| - 1;
      RunConcat(t, first, second[..n]);
      RunSnoc(t, first + second[..n], second[n]);
      assert first + second == first + second[..n] + [second[n]];
    }
  }

  // ---------------------------------------------------------------- keys

  lemma TextValue(low: nat)
    requires low < 65536
    ensures AllHex(JobId(low).Text()) && Hex.Value(JobId(low).Text()) == low
  {
    ValueOfFormat(low, 4);
    assert Pow2(4 * 4) == 65536 by { Pow2Values(); }
  }

  /** Miners can tell two job ids apart exactly when the table can. */
  lemma TextIsKey(m: nat, n: nat)
    ensures Key(m).Text() == Key(n).Text() <==> Key(m) == Key(n)
    ensures |Key(m).Text()| == 4 && AllLowerHex(Key(m).Text())
    ensures AllHex(Key(m).Text()) && Hex.Value(Key(m).Text()) == m % 65536
  {
    assert Pow2(16) == KEYS by { Pow2Values(); }
    FormatSeparates(m % KEYS, n % KEYS, 4);
    TextValue(m % KEYS);
  }

  // ---------------------------------------------------------------- safety

  /** Fewer than 65536 ids have been issued since any job that is not yet swept out. */
  ghost predicate Spaced(t: Table) {
    forall k :: k in t.live ==> t.counter < t.live[k] + KEYS
  }

  /** Whenever an id is issued, the table is spaced. */
  ghost predicate WellSpaced(actions: seq<Action>) {
    forall i :: 0 <= i < |actions| && actions[i].Issue? ==> Spaced(Run(INITIAL, actions[..i]))
  }

  /** The key being issued but not yet in the active jobs. */
  predicate BeforeInsert(t: Table, k: JobId) {
    t.publishing.Issued? && Key(t.publishing.id) == k
  }

  /** The key in the active jobs but not yet stamped. */
  predicate MidInsert(t: Table, k: JobId) {
    t.publishing.Inserted? && Key(t.publishing.id) == k
  }

  /** The key gone from the active jobs but still stamped. */
  predicate MidRemoval(t: Table, k: JobId) {
    t.sweeping.Removing? && t.sweeping.halfway && t.sweeping.stale != [] && t.sweeping.stale[0] == k
  }

  /** Where the job that holds a key stands in the two maps. */
  ghost predicate Placed(t: Table, k: JobId)
    requires k in t.live
  {
    && 0 < t.live[k] < t.counter && Key(t.live[k]) == k
    && (k in t.active <==> !BeforeInsert(t, k) && !MidRemoval(t, k))
    && (k in t.active ==> t.active[k] == t.live[k])
    && (k in t.stamps <==> !BeforeInsert(t, k) && !MidInsert(t, k))
  }

  ghost predicate Distinct(keys: seq<JobId>) {
    forall i, j :: 0 <= i < j < |keys| ==> keys[i] != keys[j]
  }

  ghost predicate AllOld(keys: seq<JobId>, now: nat, stamps: map<JobId, nat>) {
    forall k :: k in keys ==> k in stamps && IsStale(now, stamps[k])
  }

  ghost predicate StaleIsOld(t: Table) {
    !t.sweeping.Resting? ==>
      Distinct(t.sweeping.stale) && AllOld(t.sweeping.stale, t.sweeping.now, t.stamps)
  }

  ghost predicate TableInvariant(t: Table) {
    && 0 < t.counter
    && (forall k :: k in t.live ==> Placed(t, k))
    && t.active.Keys <= t.live.Keys && t.stamps.Keys <= t.live.Keys
    && (t.publishing.Issued? || t.publishing.Inserted? ==>
          Key(t.publishing.id) in t.live && t.live[Key(t.publishing.id)] == t.publishing.id)
    && StaleIsOld(t)
  }

  lemma NearbyIds(m: nat, n: nat)
    requires m < n < m + KEYS
    ensures Key(m) != Key(n)
  {
  }

  lemma NewKeyIsFree(t: Table)
    requires TableInvariant(t) && Spaced(t)
    ensures Key(t.counter) !in t.live
  {
    forall k | k in t.live ensures k != Key(t.counter) {
      assert Placed(t, k);
      NearbyIds(t.live[k], t.counter);
    }
  }

  lemma IssueKeeps(t: Table)
    requires TableInvariant(t) && Spaced(t) && t.publishing.Idle?
    ensures TableInvariant(Publish(t, Issue))
  {
    NewKeyIsFree(t);
    var u := Publish(t, Issue);
    forall k | k in u.live ensures Placed(u, k) {
      if k in t.live {
        assert Placed(t, k);
      }
    }
  }

  lemma InsertJobKeeps(t: Table)
    requires TableInvariant(t) && t.publishing.Issued?
    ensures TableInvariant(Publish(t, InsertJob))
  {
    var u := Publish(t, InsertJob);
    forall k | k in u.live ensures Placed(u, k) {
      assert Placed(t, k);
    }
  }

  lemma InsertStampKeeps(t: Table, now: nat)
    requires TableInvariant(t) && t.publishing.Inserted?
    ensures TableInvariant(Publish(t, InsertStamp(now)))
  {
    var u := Publish(t, InsertStamp(now));
    assert Placed(t, Key(t.publishing.id));
    forall k | k in u.live ensures Placed(u, k) {
      assert Placed(t, k);
    }
  }

  lemma SendKeeps(t: Table, a: Action)
    requires TableInvariant(t) && (a.WriteCache? || a.Send?)
    ensures TableInvariant(Publish(t, a))
  {
    var u := Publish(t, a);
    forall k | k in u.live ensures Placed(u, k) {
      assert Placed(t, k);
    }
    assert StaleIsOld(u);
  }

  lemma ExamineKeeps(t: Table, key: JobId)
    requires TableInvariant(t)
    ensures TableInvariant(Sweep(t, Examine(key)))
  {
    var u := Sweep(t, Examine(key));
    forall k | k in u.live ensures Placed(u, k) {
      assert Placed(t, k);
    }
    assert StaleIsOld(u);
  }

  lemma ScanKeeps(t: Table, a: Action)
    requires TableInvariant(t) && (a.StartSweep? || a.EndScan?)
    ensures TableInvariant(Sweep(t, a))
  {
    var u := Sweep(t, a);
    forall k | k in u.live ensures Placed(u, k) {
      assert Placed(t, k);
    }
    assert StaleIsOld(u);
  }

  lemma RemoveJobKeeps(t: Table)
    requires TableInvariant(t)
    ensures TableInvariant(Sweep(t, RemoveJob))
  {
    var u := Sweep(t, RemoveJob);
    forall k | k in u.live ensures Placed(u, k) {
      assert Placed(t, k);
    }
  }

  lemma TailStaysOld(keys: seq<JobId>, now: nat, stamps: map<JobId, nat>)
    requires keys != [] && Distinct(keys) && AllOld(keys, now, stamps)
    ensures Distinct(keys[1..]) && AllOld(keys[1..], now, stamps - {keys[0]})
  {
    assert forall k :: k in keys[1..] ==> k in keys && k != keys[0];
  }

  lemma RemoveStampKeeps(t: Table)
    requires TableInvariant(t)
    ensures TableInvariant(Sweep(t, RemoveStamp))
  {
    var u := Sweep(t, RemoveStamp);
    if u != t {
      TailStaysOld(t.sweeping.stale, t.sweeping.now, t.stamps);
      forall k | k in u.live ensures Placed(u, k) {
        assert Placed(t, k) && k != t.sweeping.stale[0];
      }
      assert StaleIsOld(u);
    }
  }

  lemma NextKeeps(t: Table, a: Action)
    requires TableInvariant(t) && (a.Issue? ==> Spaced(t))
    ensures TableInvariant(Next(t, a))
  {
    match a
    case Issue => if t.publishing.Idle? { IssueKeeps(t); }
    case InsertJob => if t.publishing.Issued? { InsertJobKeeps(t); }
    case InsertStamp(now) => if t.publishing.Inserted? { InsertStampKeeps(t, now); }
    case WriteCache => SendKeeps(t, a);
    case Send => SendKeeps(t, a);
    case StartSweep(_) => ScanKeeps(t, a);
    case EndScan => ScanKeeps(t, a);
    case Examine(key) => ExamineKeeps(t, key);
    case RemoveJob => RemoveJobKeeps(t);
    case RemoveStamp => RemoveStampKeeps(t);
  }

  lemma {:induction false} InvariantHolds(actions: seq<Action>)
    requires WellSpaced(actions)
    ensures TableInvariant(Run(INITIAL, actions))
  {
    if actions != [] {
      var n := |actions| - 1;
      forall i | 0 <= i < n && actions[..n][i].Issue? ensures Spaced(Run(INITIAL, actions[..n][..i])) {
        assert actions[..n][..i] == actions[..i];
      }
      InvariantHolds(actions[..n]);
      NextKeeps(Run(INITIAL, actions[..n]), actions[n]);
    }
  }

  /** One task publishes: ids go out in order, and the cache holds the job being published or else
      the one sent last. */
  ghost predicate PublishesInOrder(t: Table) {
    && (forall i :: 0 <= i < |t.sent| ==> t.sent[i] == i + 1)
    && t.counter == |t.sent| + (if t.publishing.Idle? then 1 else 2)
    && (!t.publishing.Idle? ==> t.publishing.id == |t.sent| + 1)
    && t.cached == (if t.publishing.Cached? then Some(|t.sent| + 1) else if t.sent == [] then None else Some(|t.sent|))
  }

  lemma StepInOrder(t: Table, a: Action)
    requires PublishesInOrder(t)
    ensures PublishesInOrder(Next(t, a))
    ensures t.sent <= Next(t, a).sent
    ensures t.cached.Some? ==> Next(t, a).cached.Some? && t.cached.value <= Next(t, a).cached.value
  {
  }

  /** In every interleaving, spaced or not, jobs are published in order. */
  lemma {:induction false} PublicationOrder(actions: seq<Action>)
    ensures PublishesInOrder(Run(INITIAL, actions))
  {
    if actions != [] {
      PublicationOrder(actions[..|actions| - 1]);
      StepInOrder(Run(INITIAL, actions[..|actions| - 1]), actions[|actions| - 1]);
    }
  }

  /** While jobs are well spaced, in every interleaving of the two tasks: a lookup returns the job
      issued under that id; the key sets of the two maps differ only by the key being inserted and
      the key being removed; a job about to be inserted overwrites nothing; and every key about to
      be removed has been stamped for more than 120 s. */
  lemma TableSafety(actions: seq<Action>)
    requires WellSpaced(actions)
    ensures var t := Run(INITIAL, actions);
            && (forall k :: k in t.active ==> Key(t.active[k]) == k && k in t.live && t.live[k] == t.active[k])
            && (forall k :: k in t.active && k !in t.stamps ==> MidInsert(t, k))
            && (forall k :: k in t.stamps && k !in t.active ==> MidRemoval(t, k))
            && (t.publishing.Issued? ==> Key(t.publishing.id) !in t.active && Key(t.publishing.id) !in t.stamps)
            && (t.sweeping.Removing? ==>
                  forall k :: k in t.sweeping.stale ==> k in t.stamps && t.stamps[k] + 120_000 < t.sweeping.now)
  {
    var t := Run(INITIAL, actions);
    InvariantHolds(actions);
    forall k | k in t.live ensures Placed(t, k) {
    }
    if t.publishing.Issued? {
      assert Placed(t, Key(t.publishing.id));
    }
  }

  /** Every job a miner can have been told of, and that no sweep has taken out since, is found under
      its id, except in the instant between the two removals. */
  lemma AnnouncedIsFound(actions: seq<Action>, m: nat)
    requires WellSpaced(actions)
    requires var t := Run(INITIAL, actions);
             && (m in t.sent || t.cached == Some(m))
             && Key(m) in t.live && t.live[Key(m)] == m
    ensures var t := Run(INITIAL, actions);
            MidRemoval(t, Key(m)) || (Key(m) in t.active && t.active[Key(m)] == m)
  {
    InvariantHolds(actions);
    PublicationOrder(actions);
    var t := Run(INITIAL, actions);
    assert Placed(t, Key(m));
    if t.publishing.Issued? {
      assert Placed(t, Key(t.publishing.id));
    }
  }

  /** A step that takes a job out of the table is a sweep's, and the job's stamp is more than 120 s
      older than that sweep's clock. */
  lemma OnlyOldJobsRemoved(actions: seq<Action>, a: Action, k: JobId)
    requires WellSpaced(actions)
    requires var t := Run(INITIAL, actions); k in t.active && k !in Next(t, a).active
    ensures var t := Run(INITIAL, actions);
            a.RemoveJob? && t.sweeping.Removing? && k in t.stamps && t.stamps[k] + 120_000 < t.sweeping.now
  {
    InvariantHolds(actions);
    var t := Run(INITIAL, actions);
    assert a.RemoveJob? && k == t.sweeping.stale[0];
  }

  // ---------------------------------------------------------------- without spacing

  /** The newest id whose job has been put into the table. */
  function NewestInserted(t: Table): int {
    t.counter - (if t.publishing.Issued? then 2 else 1)
  }

  /** The newest id inserted under a key is the one it holds, if it holds any. */
  ghost predicate NewestHeld(t: Table) {
    && 0 < t.counter
    && (!t.publishing.Idle? ==> 0 < t.publishing.id == t.counter - 1)
    && forall k :: k in t.active ==> Key(t.active[k]) == k && 0 < t.active[k] <= NewestInserted(t) < t.active[k] + KEYS
  }

  lemma KeyAgain(m: nat)
    ensures Key(m + KEYS) == Key(m)
  {
  }

  lemma NewestKeeps(t: Table, a: Action)
    requires NewestHeld(t)
    ensures NewestHeld(Next(t, a))
  {
    var u := Next(t, a);
    if a.InsertJob? && t.publishing.Issued? {
      forall k | k in u.active ensures u.active[k] <= NewestInserted(u) < u.active[k] + KEYS {
        if k != Key(t.publishing.id) {
          KeyAgain(t.active[k]);
        }
      }
    }
  }

  lemma {:induction false} NewestHolds(actions: seq<Action>)
    ensures NewestHeld(Run(INITIAL, actions))
  {
    if actions != [] {
      NewestHolds(actions[..|actions| - 1]);
      NewestKeeps(Run(INITIAL, actions[..|actions| - 1]), actions[|actions| - 1]);
    }
  }

  lemma SameKey(m: nat, n: nat)
    requires Key(m) == Key(n) && m < n + KEYS && n < m + KEYS
    ensures m == n
  {
  }

  /** In any interleaving whatever, an id that is in the table finds its own job exactly when fewer
      than 65536 jobs have been inserted since; it finds a newer one otherwise. */
  lemma LookupIff(actions: seq<Action>, m: nat)
    requires var t := Run(INITIAL, actions); 0 < m <= NewestInserted(t) && Key(m) in t.active
    ensures var t := Run(INITIAL, actions);
            && m <= t.active[Key(m)]
            && (t.active[Key(m)] == m <==> NewestInserted(t) < m + 65536)
  {
    NewestHolds(actions);
    var t := Run(INITIAL, actions);
    var n := t.active[Key(m)];
    assert Key(n) == Key(m);
    if n < m + KEYS && m < n + KEYS {
      SameKey(m, n);
    }
  }

  /** In any interleaving, all that an insert can overwrite is the job 65536 ids back. */
  lemma OverwritesOnly(actions: seq<Action>)
    requires var t := Run(INITIAL, actions); t.publishing.Issued? && Key(t.publishing.id) in t.active
    ensures var t := Run(INITIAL, actions); t.active[Key(t.publishing.id)] == t.publishing.id - 65536
  {
    NewestHolds(actions);
    var t := Run(INITIAL, actions);
    var n := t.active[Key(t.publishing.id)];
    KeyAgain(n);
    SameKey(n + KEYS, t.publishing.id);
  }

  // ---------------------------------------------------------------- leaks, in every interleaving

  /** Some job has no stamp and is not about to get one: no sweep will examine it. */
  ghost predicate HasLeak(t: Table) {
    exists k :: k in t.active && k !in t.stamps && !MidInsert(t, k)
  }

  /** A sweep's second removal finds its key back in the active jobs, newly stamped. */
  predicate TakesNewStamp(t: Table, a: Action) {
    && a.RemoveStamp? && t.sweeping.Removing? && t.sweeping.stale != [] && t.sweeping.halfway
    && var k := t.sweeping.stale[0]; k in t.active && k in t.stamps && !MidInsert(t, k)
  }

  lemma LeakStep(t: Table, a: Action)
    requires !HasLeak(t)
    ensures HasLeak(Next(t, a)) <==> TakesNewStamp(t, a)
  {
    var u := Next(t, a);
    if TakesNewStamp(t, a) {
      assert t.sweeping.stale[0] in u.active && t.sweeping.stale[0] !in u.stamps;
    } else {
      forall k | k in u.active && k !in u.stamps ensures MidInsert(u, k) {
        assert k in t.active && k !in t.stamps ==> MidInsert(t, k);
      }
    }
  }

  lemma {:induction false} NoLeakBefore(actions: seq<Action>, i: nat)
    requires i <= |actions| && forall j :: 0 <= j < i ==> !TakesNewStamp(Run(INITIAL, actions[..j]), actions[j])
    ensures !HasLeak(Run(INITIAL, actions[..i]))
  {
    if i > 0 {
      NoLeakBefore(actions, i - 1);
      LeakStep(Run(INITIAL, actions[..i - 1]), actions[i - 1]);
      RunSnoc(INITIAL, actions[..i - 1], actions[i - 1]);
      assert actions[..i] == actions[..i - 1] + [actions[i - 1]];
    }
  }

  /** Exactly which runs never leak, spaced or not: those in which no sweep takes the stamp of a job
      that was published between its two removals. */
  lemma NeverLeaksIff(actions: seq<Action>)
    ensures (forall i :: 0 <= i <= |actions| ==> !HasLeak(Run(INITIAL, actions[..i]))) <==>
            (forall i :: 0 <= i < |actions| ==> !TakesNewStamp(Run(INITIAL, actions[..i]), actions[i]))
  {
    if forall i :: 0 <= i < |actions| ==> !TakesNewStamp(Run(INITIAL, actions[..i]), actions[i]) {
      forall i | 0 <= i <= |actions| ensures !HasLeak(Run(INITIAL, actions[..i])) {
        NoLeakBefore(actions, i);
      }
    } else if forall i :: 0 <= i <= |actions| ==> !HasLeak(Run(INITIAL, actions[..i])) {
      forall i | 0 <= i < |actions| ensures !TakesNewStamp(Run(INITIAL, actions[..i]), actions[i]) {
        LeakStep(Run(INITIAL, actions[..i]), actions[i]);
        RunSnoc(INITIAL, actions[..i], actions[i]);
        assert actions[..i + 1] == actions[..i] + [actions[i]];
      }
    }
  }

  /** Some stamp has no job and is not about to go: its job was swept before it was stamped. */
  ghost predicate HasOrphan(t: Table) {
    exists k :: k in t.stamps && k !in t.active && !MidRemoval(t, k)
  }

  /** A stamp is inserted for a job that a sweep has just taken out. */
  predicate StampsSwept(t: Table, a: Action) {
    a.InsertStamp? && t.publishing.Inserted?
    && var k := Key(t.publishing.id); k !in t.active && !MidRemoval(t, k)
  }

  lemma OrphanStep(t: Table, a: Action)
    requires !HasOrphan(t)
    ensures HasOrphan(Next(t, a)) <==> StampsSwept(t, a)
  {
    var u := Next(t, a);
    if StampsSwept(t, a) {
      assert Key(t.publishing.id) in u.stamps;
    } else {
      forall k | k in u.stamps && k !in u.active ensures MidRemoval(u, k) {
        assert k in t.stamps && k !in t.active ==> MidRemoval(t, k);
      }
    }
  }

  lemma {:induction false} NoOrphanBefore(actions: seq<Action>, i: nat)
    requires i <= |actions| && forall j :: 0 <= j < i ==> !StampsSwept(Run(INITIAL, actions[..j]), actions[j])
    ensures !HasOrphan(Run(INITIAL, actions[..i]))
  {
    if i > 0 {
      NoOrphanBefore(actions, i - 1);
      OrphanStep(Run(INITIAL, actions[..i - 1]), actions[i - 1]);
      RunSnoc(INITIAL, actions[..i - 1], actions[i - 1]);
      assert actions[..i] == actions[..i - 1] + [actions[i - 1]];
    }
  }

  /** Exactly which runs never stamp a job that is gone, spaced or not. */
  lemma NeverOrphansIff(actions: seq<Action>)
    ensures (forall i :: 0 <= i <= |actions| ==> !HasOrphan(Run(INITIAL, actions[..i]))) <==>
            (forall i :: 0 <= i < |actions| ==> !StampsSwept(Run(INITIAL, actions[..i]), actions[i]))
  {
    if forall i :: 0 <= i < |actions| ==> !StampsSwept(Run(INITIAL, actions[..i]), actions[i]) {
      forall i | 0 <= i <= |actions| ensures !HasOrphan(Run(INITIAL, actions[..i])) {
        NoOrphanBefore(actions, i);
      }
    } else if forall i :: 0 <= i <= |actions| ==> !HasOrphan(Run(INITIAL, actions[..i])) {
      forall i | 0 <= i < |actions| ensures !StampsSwept(Run(INITIAL, actions[..i]), actions[i]) {
        OrphanStep(Run(INITIAL, actions[..i]), actions[i]);
        RunSnoc(INITIAL, actions[..i], actions[i]);
        assert actions[..i + 1] == actions[..i] + [actions[i]];
      }
    }
  }

  function PublishOne(now: nat): seq<Action> {
    [Issue, InsertJob, InsertStamp(now), WriteCache, Send]
  }

  function PublishMany(n: nat, now: nat): seq<Action> {
    if n == 0 then [] else PublishMany(n - 1, now) + PublishOne(now)
  }

  /** A whole publication without interruption. */
  lemma PublishOneEffect(t: Table, now: nat)
    requires t.publishing.Idle?
    ensures var id := t.counter;
            Run(t, PublishOne(now)) ==
            t.(counter := id + 1, active := t.active[Key(id) := id], stamps := t.stamps[Key(id) := now],
               cached := Some(id), sent := t.sent + [id], live := t.live[Key(id) := id])
  {
    var ready := [Issue, InsertJob, InsertStamp(now), WriteCache];
    RunFour(t, Issue, InsertJob, InsertStamp(now), WriteCache);
    RunSnoc(t, ready, Send);
    assert ready + [Send] == PublishOne(now);
  }

  /** The table after n publications at one time and no sweep: the last 65536 jobs are in it. */
  ghost predicate Published(t: Table, n: nat, now: nat) {
    && t.counter == n + 1 && t.publishing.Idle? && t.sweeping.Resting? && |t.sent| == n && (n > 0 ==> t.sent[0] == 1)
    && forall m :: 0 < m <= n < m + KEYS ==> Holds(t, m, now)
  }

  ghost predicate Holds(t: Table, m: nat, now: nat) {
    Key(m) in t.active && t.active[Key(m)] == m && Key(m) in t.stamps && t.stamps[Key(m)] == now
  }

  lemma PublishedOneMore(t: Table, n: nat, now: nat)
    requires Published(t, n, now)
    ensures Published(Run(t, PublishOne(now)), n + 1, now)
  {
    PublishOneEffect(t, now);
    var u := Run(t, PublishOne(now));
    forall m | 0 < m <= n + 1 < m + KEYS ensures Holds(u, m, now) {
      if m <= n {
        assert Holds(t, m, now);
        NearbyIds(m, n + 1);
      }
    }
  }

  lemma {:induction false} AfterPublishing(n: nat, now: nat)
    ensures Published(Run(INITIAL, PublishMany(n, now)), n, now)
  {
    if n > 0 {
      AfterPublishing(n - 1, now);
      RunConcat(INITIAL, PublishMany(n - 1, now), PublishOne(now));
      PublishedOneMore(Run(INITIAL, PublishMany(n - 1, now)), n - 1, now);
    }
  }

  /** The spacing is needed: 65537 jobs published before any sweep, and the id announced for the
      first of them finds the last. */
  lemma WrapReturnsOtherJob()
    ensures var t := Run(INITIAL, PublishMany(KEYS + 1, 0));
            |t.sent| > 0 && t.sent[0] == 1 && Key(1) in t.active && t.active[Key(1)] == KEYS + 1
  {
    AfterPublishing(KEYS + 1, 0);
    assert Holds(Run(INITIAL, PublishMany(KEYS + 1, 0)), KEYS + 1, 0);
    assert Key(1) == Key(KEYS + 1);
  }

  /** A sweep caught halfway through the key of the job being published. */
  function SweepDuringPublish(k: JobId, at: nat): seq<Action> {
    [StartSweep(at), Examine(k), EndScan, RemoveJob, Issue, InsertJob, InsertStamp(at), RemoveStamp]
  }

  /** Job m is in the table without a stamp, nothing is about to stamp it, and no id of its key has
      been issued after it. */
  ghost predicate Leaked(t: Table, m: nat) {
    var k := Key(m);
    && k in t.active && t.active[k] == m && k !in t.stamps
    && (!t.sweeping.Resting? ==> k !in t.sweeping.stale)
    && m < t.counter <= m + KEYS
    && (t.publishing.Issued? || t.publishing.Inserted? ==> m < t.publishing.id < m + KEYS)
  }

  lemma LeakedStep(t: Table, m: nat, a: Action)
    requires Leaked(t, m) && Next(t, a).counter <= m + KEYS
    ensures Leaked(Next(t, a), m)
  {
    if t.publishing.Issued? || t.publishing.Inserted? {
      NearbyIds(m, t.publishing.id);
    }
  }

  lemma CounterGrows(t: Table, a: Action)
    ensures t.counter <= Next(t, a).counter
  {
  }

  lemma {:induction false} LeakedStays(t: Table, m: nat, more: seq<Action>)
    requires Leaked(t, m) && Run(t, more).counter <= m + KEYS
    ensures Leaked(Run(t, more), m)
  {
    if more != [] {
      CounterGrows(Run(t, more[..|more| - 1]), more[|more| - 1]);
      LeakedStays(t, m, more[..|more| - 1]);
      LeakedStep(Run(t, more[..|more| - 1]), m, more[|more| - 1]);
    }
  }

  /** Without spacing an entry can leak: after 65536 jobs, a sweep that has removed the first job but
      not yet its stamp meets the publication of the next one, and takes that one's stamp away. No
      later sweep examines the job that is left: it stays, whatever happens, until the next id of
      its key is issued. */
  lemma LeakWithoutSpacing()
    ensures var t := Run(INITIAL, PublishMany(KEYS, 0) + SweepDuringPublish(Key(1), MAX_AGE + 1));
            && t.publishing.Stamped? && t.sweeping.Resting? && t.counter == KEYS + 2
            && forall more :: Run(t, more).counter <= 2 * KEYS + 1 ==>
                 var u := Run(t, more);
                 Key(1) in u.active && u.active[Key(1)] == KEYS + 1 && Key(1) !in u.stamps
  {
    AfterPublishing(KEYS, 0);
    var t := Run(INITIAL, PublishMany(KEYS, 0));
    assert Holds(t, 1, 0);
    RunConcat(INITIAL, PublishMany(KEYS, 0), SweepDuringPublish(Key(1), MAX_AGE + 1));
    SweepDuringPublishEffect(t, Key(1), MAX_AGE + 1);
    var u := Run(t, SweepDuringPublish(Key(1), MAX_AGE + 1));
    assert Key(KEYS + 1) == Key(1);
    forall more | Run(u, more).counter <= 2 * KEYS + 1
      ensures Leaked(Run(u, more), KEYS + 1)
    {
      LeakedStays(u, KEYS + 1, more);
    }
  }

  lemma RunFour(t: Table, a: Action, b: Action, c: Action, d: Action)
    ensures Run(t, [a, b, c, d]) == Next(Next(Next(Next(t, a), b), c), d)
  {
    FourJoined(a, b, c, d);
    RunSnoc(t, [], a);
    RunSnoc(t, [a], b);
    RunSnoc(t, [a, b], c);
    RunSnoc(t, [a, b, c], d);
  }

  lemma SweptHalfway(t: Table, k: JobId, at: nat)
    requires t.sweeping.Resting? && k in t.stamps && IsStale(at, t.stamps[k])
    ensures Run(t, [StartSweep(at), Examine(k), EndScan, RemoveJob]) ==
            t.(active := t.active - {k}, sweeping := Removing(at, [k], true))
  {
    RunFour(t, StartSweep(at), Examine(k), EndScan, RemoveJob);
    assert [] + [k] == [k];
  }

  lemma PublishedHalfway(t: Table, k: JobId, at: nat, now: nat)
    requires t.publishing.Idle? && t.sweeping == Removing(at, [k], true) && Key(t.counter) == k
    ensures var u := Run(t, [Issue, InsertJob, InsertStamp(now), RemoveStamp]);
            && u.counter == t.counter + 1 && u.publishing == Stamped(t.counter) && u.sweeping.Resting?
            && u.active == t.active[k := t.counter] && k !in u.stamps
  {
    RunFour(t, Issue, InsertJob, InsertStamp(now), RemoveStamp);
  }

  lemma SweepDuringPublishEffect(t: Table, k: JobId, at: nat)
    requires t.publishing.Idle? && t.sweeping.Resting? && Key(t.counter) == k
    requires k in t.stamps && IsStale(at, t.stamps[k])
    ensures var u := Run(t, SweepDuringPublish(k, at));
            && u.counter == t.counter + 1 && u.publishing == Stamped(t.counter) && u.sweeping.Resting?
            && k in u.active && u.active[k] == t.counter && k !in u.stamps
  {
    var first := [StartSweep(at), Examine(k), EndScan, RemoveJob];
    var second := [Issue, InsertJob, InsertStamp(at), RemoveStamp];
    SweptHalfway(t, k, at);
    PublishedHalfway(Run(t, first), k, at, at);
    assert first + second == SweepDuringPublish(k, at);
    RunConcat(t, first, second);
  }
}
