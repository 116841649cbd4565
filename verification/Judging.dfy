/** Sessions and the job table together: which header a submit is judged against. */
module Judging {
  import opened Options
  import opened Session
  import opened SessionCredit
  import opened JobTable
  import opened JobFeed

  /** What a session finds in the active jobs: every job's header, under the job's printed id. */
  ghost predicate Shows(jobs: map<string, nat>, t: Table, headerOf: nat -> nat) {
    && (forall k :: k in t.active ==> k.Text() in jobs && jobs[k.Text()] == headerOf(t.active[k]))
    && (forall text :: text in jobs ==> exists k :: k in t.active && k.Text() == text)
  }

  /** A printed id finds a header exactly when its key is active. */
  lemma FoundIff(actions: seq<Action>, jobs: map<string, nat>, headerOf: nat -> nat, m: nat)
    requires Shows(jobs, JobTable.Run(INITIAL, actions), headerOf)
    ensures Key(m).Text() in jobs <==> Key(m) in JobTable.Run(INITIAL, actions).active
  {
    var t := JobTable.Run(INITIAL, actions);
    NewestHolds(actions);
    if Key(m).Text() in jobs {
      var k :| k in t.active && k.Text() == Key(m).Text();
      TextIsKey(m, t.active[k]);
    }
  }

  /** In any interleaving, a submit for an id that is in the table is judged against that very job
      when fewer than 65536 jobs have been inserted since, and against a newer one otherwise. */
  lemma SubmitJudgedAgainst(s: Settings, c: Conn, id: Id, worker: string, m: nat, suffix: string,
                            actions: seq<Action>, jobs: map<string, nat>, headerOf: nat -> nat)
    requires c.open && c.stage == 2
    requires var t := JobTable.Run(INITIAL, actions);
             Shows(jobs, t, headerOf) && 0 < m <= NewestInserted(t) && Key(m) in t.active
    ensures var t := JobTable.Run(INITIAL, actions);
            var c' := Step(s, c, Received(Request(id, "mining.submit", Some([worker, Key(m).Text(), suffix])), jobs));
            exists n :: m <= n <= NewestInserted(t) && (n == m <==> NewestInserted(t) < m + 65536)
                        && c'.log == c.log + EffectOf(s, c.diff, worker, headerOf(n), suffix) + [Sent(Reply(id))]
  {
    var t := JobTable.Run(INITIAL, actions);
    NewestHolds(actions);
    LookupIff(actions, m);
    SubmitOutcome(s, c, id, Some([worker, Key(m).Text(), suffix]), jobs);
    var n := t.active[Key(m)];
    assert jobs[Key(m).Text()] == headerOf(n);
  }

  /** A client that was given a job has its submits judged against that very job's header, until a
      sweep takes the job out, while jobs are well spaced. */
  lemma NotifiedJobJudged(s: Settings, c: Conn, id: Id, worker: string, m: nat, suffix: string,
                          events: seq<Event>, jobs: map<string, nat>, headerOf: nat -> nat)
    requires c.open && c.stage == 2
    requires WellSpaced(TableActions(events)) && m in Delivered(Story(events).feed)
    requires var t := Story(events).table;
             Shows(jobs, t, headerOf) && Key(m) in t.live && t.live[Key(m)] == m && !MidRemoval(t, Key(m))
    ensures Step(s, c, Received(Request(id, "mining.submit", Some([worker, Key(m).Text(), suffix])), jobs)).log ==
            c.log + EffectOf(s, c.diff, worker, headerOf(m), suffix) + [Sent(Reply(id))]
  {
    var t := Story(events).table;
    DeliveredIsFound(events, m);
    SubmitOutcome(s, c, id, Some([worker, Key(m).Text(), suffix]), jobs);
    assert jobs[Key(m).Text()] == headerOf(m);
  }
}
