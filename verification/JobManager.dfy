/** The job manager's two operations, each run without interruption, as steps of the job table. */
module JobManager {
  import opened Options
  import opened JobTable

  class Manager {
    var jobCounter: nat
    var activeJobs: map<JobId, nat>
    var jobTimestamps: map<JobId, nat>
    var cachedJob: Option<nat>
    var broadcast: seq<nat>
    ghost var live: map<JobId, nat>

    ghost function View(): Table
      reads this
    {
      Table(jobCounter, activeJobs, jobTimestamps, cachedJob, broadcast, Idle, Resting, live)
    }

    constructor ()
      ensures View() == INITIAL
    {
      jobCounter, activeJobs, jobTimestamps, cachedJob, broadcast, live := 1, map[], map[], None, [], map[];
    }

    /** Publishes one block: id, both maps, cache, broadcast, in that order. A block without a header
        is ignored. */
    method ProcessNewBlock(hasHeader: bool, now: nat) returns (jobId: Option<JobId>)
      modifies this
      ensures View() == Run(old(View()), if hasHeader then PublishOne(now) else [])
      ensures jobId == if hasHeader then Some(Key(old(jobCounter))) else None
      ensures hasHeader ==> jobId.value in activeJobs && activeJobs[jobId.value] == old(jobCounter)
      ensures hasHeader ==> cachedJob == Some(old(jobCounter)) && broadcast == old(broadcast) + [old(jobCounter)]
    {
      if !hasHeader {
        return None;
      }
      PublishOneEffect(View(), now);
      var uniqueId := jobCounter;
      jobCounter := jobCounter + 1;
      var key := Key(uniqueId);
      live := live[key := uniqueId];
      activeJobs := activeJobs[key := uniqueId];
      jobTimestamps := jobTimestamps[key := now];
      cachedJob := Some(uniqueId);
      broadcast := broadcast + [uniqueId];
      jobId := Some(key);
    }

    /** The first loop of a sweep: collects the stale keys, in some iteration order. */
    method ScanTimestamps(now: nat) returns (staleKeys: seq<JobId>, steps: seq<Action>)
      ensures forall k :: k in staleKeys <==> k in jobTimestamps && jobTimestamps[k] + 120_000 < now
      ensures Run(View(), steps) == View().(sweeping := NextRemoval(now, staleKeys))
    {
      var unseen := jobTimestamps.Keys;
      staleKeys, steps := [], [StartSweep(now)];
      RunSnoc(View(), [], StartSweep(now));
      assert [] + [StartSweep(now)] == steps;
      while unseen != {}
        invariant unseen <= jobTimestamps.Keys
        invariant forall k :: k in staleKeys <==> k in jobTimestamps && k !in unseen && IsStale(now, jobTimestamps[k])
        invariant Run(View(), steps) == View().(sweeping := Scanning(now, staleKeys))
        decreases |unseen|
      {
        var k :| k in unseen;
        unseen := unseen - {k};
        if IsStale(now, jobTimestamps[k]) {
          RunSnoc(View(), steps, Examine(k));
          steps := steps + [Examine(k)];
          staleKeys := staleKeys + [k];
        }
      }
      RunSnoc(View(), steps, EndScan);
      steps := steps + [EndScan];
    }

    /** One turn of the second loop: takes a key out of both maps. */
    method RemoveKey(now: nat, staleKeys: seq<JobId>)
      requires staleKeys != []
      modifies this
      ensures Run(old(View()).(sweeping := NextRemoval(now, staleKeys)), [RemoveJob, RemoveStamp]) ==
              View().(sweeping := NextRemoval(now, staleKeys[1..]))
      ensures activeJobs == old(activeJobs) - {staleKeys[0]} && jobTimestamps == old(jobTimestamps) - {staleKeys[0]}
      ensures jobCounter == old(jobCounter) && cachedJob == old(cachedJob) && broadcast == old(broadcast)
    {
      ghost var t := View().(sweeping := NextRemoval(now, staleKeys));
      var key := staleKeys[0];
      activeJobs := activeJobs - {key};
      RunSnoc(t, [], RemoveJob);
      assert [] + [RemoveJob] == [RemoveJob] && [RemoveJob] + [RemoveStamp] == [RemoveJob, RemoveStamp];
      jobTimestamps := jobTimestamps - {key};
      live := live - {key};
      RunSnoc(t, [RemoveJob], RemoveStamp);
    }

    /** One sweep at clock reading now; steps is the interleaving-level account of what it did.
        Exactly the jobs older than 120 s leave both maps. */
    method CollectGarbage(now: nat) returns (staleKeys: seq<JobId>, steps: seq<Action>)
      modifies this
      ensures View() == Run(old(View()), steps)
      ensures forall k :: k in staleKeys <==> k in old(jobTimestamps) && old(jobTimestamps)[k] + 120_000 < now
      ensures jobTimestamps == old(jobTimestamps) - (set k | k in staleKeys)
      ensures activeJobs == old(activeJobs) - (set k | k in staleKeys)
      ensures jobCounter == old(jobCounter) && cachedJob == old(cachedJob) && broadcast == old(broadcast)
    {
      ghost var t := View();
      staleKeys, steps := ScanTimestamps(now);
      var i := 0;
      while i < |staleKeys|
        invariant 0 <= i <= |staleKeys|
        invariant jobTimestamps == old(jobTimestamps) - (set k | k in staleKeys[..i])
        invariant activeJobs == old(activeJobs) - (set k | k in staleKeys[..i])
        invariant jobCounter == old(jobCounter) && cachedJob == old(cachedJob) && broadcast == old(broadcast)
        invariant Run(t, steps) == View().(sweeping := NextRemoval(now, staleKeys[i..]))
      {
        assert staleKeys[i..][1..] == staleKeys[i + 1..];
        assert staleKeys[..i + 1] == staleKeys[..i] + [staleKeys[i]];
        RunConcat(t, steps, [RemoveJob, RemoveStamp]);
        RemoveKey(now, staleKeys[i..]);
        steps := steps + [RemoveJob, RemoveStamp];
        i := i + 1;
      }
      assert staleKeys[..i] == staleKeys;
    }
  }
}
