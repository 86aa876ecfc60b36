/** The methods of `instanceCore.ts`, `lxdJobHandler.ts` and `lxdMonitorHandler.ts` on the stored
    collections, each proved to take the steps of Instances. */
module InstanceStore {
  import opened Sequences
  import opened Documents
  import opened Instances

  function ExpireEvents(ids: seq<Id>, jobIds: Id -> Id): seq<Event> { Map(ids, (id: Id) => Expire(id, jobIds(id))) }

  function MonitorEvents(ids: seq<Id>, states: Id -> Option<string>): seq<Event> {
    if ids == [] then []
    else
      (match states(ids[0]) case Some(state) => [Monitor(ids[0], state)] case None => [])
      + MonitorEvents(ids[1..], states)
  }

  function SyncEvents(ids: seq<Id>, probes: Id -> Probe): seq<Event> { Map(ids, (id: Id) => Sync(id, probes(id))) }

  function OwnedBy(instances: map<Id, Instance>, userId: string): Id -> bool {
    (id: Id) => id in instances && instances[id].userId == userId
  }

  function LiveOf(instances: map<Id, Instance>, userId: string): Id -> bool {
    (id: Id) => id in instances && instances[id].userId == userId && instances[id].status != DELETED
  }

  function ExpiredOf(instances: map<Id, Instance>, userId: string, expired: Id -> bool): Id -> bool {
    (id: Id) => LiveOf(instances, userId)(id) && expired(id)
  }

  /** The record is brought in line with LXD. */
  function InLine(instances: map<Id, Instance>, probes: Id -> Probe): Id -> bool {
    (id: Id) =>
      id in instances && if instances[id].status == DELETED then probes(id) == Exists(true) else probes(id) == Missing
  }

  /** Some port is the given one or above. */
  predicate Reached(ports: set<int>, top: int) { exists p :: p in ports && p >= top }

  ghost predicate IsNextPort(ports: set<int>, low: int, high: int, port: int) {
    && ((forall p | p in ports :: p < port) || (port == low && Reached(ports, high)))
    && (if ports == {} || Reached(ports, high) then port == low else port - 1 in ports)
    && (low <= high && (forall p | p in ports :: low <= p) ==> low <= port <= high)
    && (port in ports <==> low in ports && Reached(ports, high))
  }

  /** What a job does to the record and what it asks of LXD. */
  ghost predicate JobRun(s: State, t: State, job: Job, reply: Reply, ok: bool) {
    var id := job.instanceId;
    if id !in s.instances || (job.operation == CREATE && s.instances[id].status != PENDING)
       || (job.operation == DELETE && s.instances[id].status != DELETED)
    then !ok && t.instances == s.instances && t.commands == s.commands
    else
      && t.commands == s.commands + [Command(job.operation, id, s.instances[id].name)]
      && (job.operation != CREATE ==> ok == reply.done)
      && (job.operation in {UPDATE, START, STOP} ==> t.instances == s.instances)
      && (job.operation == DELETE ==> t.instances == if reply.done then s.instances - {id} else s.instances)
      && (job.operation == CREATE ==>
            && id in t.instances && t.instances == s.instances[id := t.instances[id]]
            && CreateEnds(s.instances[id], t.instances[id], reply.create, ok))
  }

  /** The stop job of a record that is about to run or runs. */
  function Stop(instances: map<Id, Instance>, jobIds: Id -> Id): Id -> Option<Job> {
    (id: Id) =>
      if id in instances && instances[id].status in {PENDING, STARTING, RUNNING}
      then Some(Job(jobIds(id), STOP, id, id, Queued)) else None
  }

  function StopOf(instances: map<Id, Instance>, userId: string, expired: Id -> bool, jobIds: Id -> Id)
    : Id -> Option<Job>
  {
    (id: Id) =>
      if id in instances && IsOverdue(instances[id], userId, expired(id))
      then Some(Job(jobIds(id), STOP, id, id, Queued)) else None
  }

  /** The deletion of a DELETED record that LXD has. */
  function Deletion(instances: map<Id, Instance>, probes: Id -> Probe): Id -> Option<Command> {
    (id: Id) =>
      if id in instances && instances[id].status == DELETED && probes(id).Exists?
      then Some(Command(DELETE, id, instances[id].name)) else None
  }

  function DeletionOf(instances: map<Id, Instance>, userId: string, probes: Id -> Probe): Id -> Option<Command> {
    (id: Id) =>
      if id in instances && instances[id].userId == userId && instances[id].status == DELETED && probes(id).Exists?
      then Some(Command(DELETE, id, instances[id].name)) else None
  }

  class Store {
    var instances: map<Id, Instance>
    var jobs: seq<Job>
    var commands: seq<Command>

    ghost function Now(): State
      reads this
    {
      State(instances, jobs, commands)
    }

    // ----- instanceCore.ts --------------------------------------------------

    /** Above every port in use, or the bottom of the range when none is in use or the top is reached; in the range
        if the ports in use are; free unless it came round onto a port in use. */
    method GetValidHostPort(range: PortRange) returns (port: int)
      ensures port == ValidHostPort(instances, range)
      ensures IsNextPort(Ports(instances), if range.low == 0 then 30000 else range.low,
                         if range.high == 0 then 40000 else range.high, port)
    {
      var existingPorts := Ports(instances);
      if existingPorts == {} { return range.Min(); }
      var latestPort := Greatest(existingPorts);
      return if latestPort < range.Max() then latestPort + 1 else range.Min();
    }

    method CreateJob(job: Job)
      modifies this`jobs
      ensures jobs == old(jobs) + [job]
    {
      jobs := jobs + [job];
    }

    method CreateInstance(userId: string, name: string, newId: Id, jobId: Id, range: PortRange) returns (port: int)
      modifies this
      ensures Now() == Step(old(Now()), Event.CreateInstance(userId, name, newId, jobId, range))
      ensures instances == old(instances)[newId := Instance(userId, name, PENDING, Some(port))]
      ensures jobs == old(jobs) + [Job(jobId, CREATE, newId, newId, Queued)] && commands == old(commands)
    {
      port := GetValidHostPort(range);
      instances := instances[newId := Instance(userId, name, PENDING, Some(port))];
      CreateJob(Job(jobId, CREATE, newId, newId, Queued));
    }

    method StartStopInstance(id: Id, start: bool, jobId: Id) returns (found: bool)
      modifies this
      ensures found <==> id in old(instances)
      ensures Now() == Started(old(Now()), id, start, jobId)
      ensures found ==>
                instances == old(instances)[id := old(instances)[id].(status := if start then STARTING else STOPPING)]
      ensures found ==>
                && jobs == old(jobs) + [Job(jobId, if start then START else STOP, id, id, Queued)]
                && commands == old(commands)
      ensures !found ==> Now() == old(Now())
    {
      if id !in instances { return false; }
      instances := instances[id := instances[id].(status := if start then STARTING else STOPPING)];
      CreateJob(Job(jobId, if start then START else STOP, id, id, Queued));
      return true;
    }

    method RestartInstance(id: Id, jobId: Id) returns (found: bool)
      modifies this
      ensures found <==> id in old(instances)
      ensures Now() == Step(old(Now()), Restart(id, jobId))
      ensures found ==>
                && instances == old(instances)[id := old(instances)[id].(status := STARTING)]
                && jobs == old(jobs) + [Job(jobId, START, id, id, Queued)] && commands == old(commands)
      ensures !found ==> Now() == old(Now())
    {
      if id !in instances { return false; }
      instances := instances[id := instances[id].(status := STARTING)];
      CreateJob(Job(jobId, START, id, id, Queued));
      return true;
    }

    /** The job names the instance in its metadata; its executor has the id or the name the caller gave. */
    method EditInstance(id: Id, executorId: Id, jobId: Id) returns (found: bool)
      modifies this`jobs
      ensures found <==> id in instances
      ensures Now() == Step(old(Now()), Edit(id, executorId, jobId))
      ensures jobs == old(jobs) + if found then [Job(jobId, UPDATE, id, executorId, Queued)] else []
    {
      if id !in instances { return false; }
      CreateJob(Job(jobId, UPDATE, id, executorId, Queued));
      return true;
    }

    /** Cancels every other waiting job of the instance, whether it is named in the metadata or the executor. */
    method DeleteInstance(id: Id, jobId: Id) returns (found: bool)
      modifies this
      ensures found <==> id in old(instances)
      ensures Now() == Step(old(Now()), Delete(id, jobId))
      ensures found && (forall i | 0 <= i < |old(jobs)| :: old(jobs)[i].id != jobId) ==>
                && DeleteQueued(old(Now()), Now(), id, jobId) && Doomed(Now(), id)
                && AwaitsDeletion(Now(), id, |old(jobs)|)
      ensures !found ==> Now() == old(Now())
    {
      if id !in instances { return false; }
      ghost var before := Now();
      instances := instances[id := instances[id].(status := DELETED)];
      CreateJob(Job(jobId, DELETE, id, id, Queued));
      jobs := CancelOthers(jobs, id, jobId);
      if forall i | 0 <= i < |before.jobs| :: before.jobs[i].id != jobId {
        DeleteDooms(before, id, jobId);
        DeleteQueues(before, id, jobId);
      }
      return true;
    }

    /** The lifespan check: instances that are not DELETED and have outlived their span are stopped. */
    method GetInstances(userId: string, order: seq<Id>, expired: Id -> bool, jobIds: Id -> Id)
      modifies this
      ensures Now() == Run(old(Now()), ExpireEvents(Filter(order, ExpiredOf(old(instances), userId, expired)), jobIds))
      ensures Stopped(old(Now()), Now(), userId, order, expired, jobIds)
    {
      var ids := Filter(order, ExpiredOf(instances, userId, expired));
      ghost var events := ExpireEvents(ids, jobIds);
      ghost var result := Run(Now(), events);
      assert events[0..] == events;
      NothingLeft(events);
      hide Run, Filter, Step, Started, SetStatus;
      ghost var before := Now();
      for i := 0 to |ids|
        invariant Run(Now(), events[i..]) == result
      {
        RunNext(Now(), events, i);
        var id := ids[i];
        ExpireStep(Now(), id, jobIds(id));
        if id in instances && instances[id].status != STOPPED && instances[id].status != STOPPING
          && instances[id].status != FAILED && instances[id].status != DELETED {
          var _ := StartStopInstance(id, false, jobIds(id));
        }
      }
      RunStops(before, userId, order, expired, jobIds);
    }

    // ----- lxdJobHandler.ts -------------------------------------------------

    method UpdateInstanceMetadata(id: Id, status: Status)
      modifies this`instances
      ensures Now() == SetStatus(old(Now()), id, status)
    {
      if id in instances { instances := instances[id := instances[id].(status := status)]; }
    }

    /** Waits for the new instance for a bounded number of probes. */
    method WaitUntilStopped(ready: nat -> bool) returns (stopped: bool)
      ensures stopped <==> exists i: nat :: i < PROBES && ready(i)
    {
      var attempts: nat := 0;
      while attempts < PROBES
        invariant attempts <= PROBES
        invariant forall i: nat | i < attempts :: !ready(i)
      {
        if ready(attempts) { return true; }
        attempts := attempts + 1;
      }
      return false;
    }

    method Create(id: Id, reply: CreateReply) returns (ok: bool)
      requires id in instances && instances[id].status == PENDING
      modifies this
      ensures ok == CreateOutcome(reply).1
      ensures var asked := old(Now()).(commands := old(commands) + [Command(CREATE, id, old(instances)[id].name)]);
        Now() == match CreateOutcome(reply).0 case Some(status) => SetStatus(asked, id, status) case None => asked
      ensures id in instances && CreateEnds(old(instances)[id], instances[id], reply, ok)
      ensures instances == old(instances)[id := instances[id]] && jobs == old(jobs)
      ensures commands == old(commands) + [Command(CREATE, id, old(instances)[id].name)]
    {
      commands := commands + [Command(CREATE, id, instances[id].name)];
      match reply
      case Refused =>
        UpdateInstanceMetadata(id, FAILED);
        return false;
      case NoOperation => return true;
      case Accepted(poll, ready) =>
        match poll {
          case PollDone =>
            var stopped := WaitUntilStopped(ready);
            UpdateInstanceMetadata(id, if stopped then STOPPED else FAILED);
            return stopped;
          case AlreadyExists =>
            UpdateInstanceMetadata(id, STOPPED);
            return true;
          case FatalStorage =>
            UpdateInstanceMetadata(id, FAILED);
            return false;
          case OtherPollingError => return false;
          case PollCrash =>
            UpdateInstanceMetadata(id, FAILED);
            return false;
        }
    }

    /** One waiting job run by the executor; whatever it throws, the dispatcher reports a failure. */
    method Execute(index: nat, reply: Reply) returns (ok: bool)
      requires index < |jobs| && jobs[index].state == Queued
      modifies this
      ensures Now() == Step(old(Now()), Event.Execute(index, reply))
      ensures ok == Handled(old(Now()), old(jobs)[index], reply).1
      ensures JobRun(old(Now()), Now(), old(jobs)[index], reply, ok)
      ensures jobs == old(jobs)[index := old(jobs)[index].(state := if ok then Finished else Errored)]
    {
      var job := jobs[index];
      var id := job.instanceId;
      if id !in instances {
        ok := false;
      } else if job.operation == CREATE {
        if instances[id].status != PENDING { ok := false; } else { ok := Create(id, reply.create); }
      } else if job.operation == DELETE {
        if instances[id].status != DELETED {
          ok := false;
        } else {
          commands := commands + [Command(DELETE, id, instances[id].name)];
          ok := reply.done;
          if ok { instances := instances - {id}; }
        }
      } else {
        commands := commands + [Command(job.operation, id, instances[id].name)];
        ok := reply.done;
      }
      jobs := Close(jobs, index, ok);
    }

    // ----- lxdMonitorHandler.ts ---------------------------------------------

    /** Sets the status LXD reports on the user's instances that are not DELETED. */
    method UpdateInstanceState(userId: string, order: seq<Id>, states: Id -> Option<string>)
      modifies this
      ensures Now() == Run(old(Now()), MonitorEvents(Filter(order, LiveOf(old(instances), userId)), states))
      ensures Reported(old(Now()), Now(), userId, order, states)
    {
      var ids := Filter(order, LiveOf(instances, userId));
      ghost var result := Run(Now(), MonitorEvents(ids, states));
      FilteredIds(order, LiveOf(instances, userId));
      assert forall k | 0 <= k < |ids| :: LiveOf(instances, userId)(ids[k]);
      assert ids[0..] == ids;
      ghost var before := Now();
      hide Run, MonitorEvents, Filter, StatusOf, Reported;
      for i := 0 to |ids|
        invariant Run(Now(), MonitorEvents(ids[i..], states)) == result
        invariant forall k | 0 <= k < |ids| :: ids[k] in instances && instances[ids[k]].status != DELETED
      {
        MonitorNext(Now(), ids, i, states);
        match states(ids[i])
        case None =>
        case Some(state) =>
          StatusOfIsLive(state);
          instances := instances[ids[i] := instances[ids[i]].(status := StatusOf(state))];
      }
      MonitorDone(Now(), ids, states);
      RunReports(before, userId, order, states);
    }

    /** Compares the user's records with LXD; returns how many were brought in line. */
    method SynchronizeDeletedInstances(userId: string, order: seq<Id>, probes: Id -> Probe) returns (syncCount: nat)
      requires Distinct(order)
      modifies this
      ensures Now() == Run(old(Now()), SyncEvents(Filter(order, OwnedBy(old(instances), userId)), probes))
      ensures syncCount == |Filter(Filter(order, OwnedBy(old(instances), userId)), InLine(old(instances), probes))|
      ensures Synchronized(old(Now()), Now(), userId, order, probes)
      ensures syncCount == |OutOfLine(old(Now()), userId, order, probes)|
    {
      var found := instances;
      var ids := Filter(order, OwnedBy(instances, userId));
      ghost var events := SyncEvents(ids, probes);
      ghost var result := Run(Now(), events);
      syncCount := 0;
      FilterDistinct(order, OwnedBy(instances, userId));
      FilteredIds(order, OwnedBy(instances, userId));
      assert forall k | 0 <= k < |ids| :: OwnedBy(instances, userId)(ids[k]);
      assert events[0..] == events && ids[..0] == [];
      assert |Filter([], InLine(found, probes))| == 0;
      ghost var before := Now();
      hide Run, Filter, Step, SetStatus, Synchronized, OutOfLine;
      for i := 0 to |ids|
        invariant Run(Now(), events[i..]) == result
        invariant syncCount == |Filter(ids[..i], InLine(found, probes))|
        invariant forall k | i <= k < |ids| ::
          ids[k] in found && ids[k] in instances && instances[ids[k]] == found[ids[k]]
      {
        RunNext(Now(), events, i);
        SyncStep(Now(), ids[i], probes(ids[i]));
        CountNext(ids, i, InLine(found, probes));
        var instance, probe := found[ids[i]], probes(ids[i]);
        if instance.status == DELETED {
          if probe.Exists? {
            commands := commands + [Command(DELETE, ids[i], instance.name)];
            if probe.deleted { syncCount := syncCount + 1; }
          }
        } else if probe == Missing {
          instances := instances[ids[i] := instances[ids[i]].(status := DELETED)];
          syncCount := syncCount + 1;
        }
      }
      assert events[|ids|..] == [] && ids[..|ids|] == ids;
      NoMore(Now());
      RunSynchronizes(before, userId, order, probes);
      InLineCount(before, userId, order, probes);
    }
  }

  // ----- what the passes do -------------------------------------------------

  /** The user's records at which the status is FAILED, RUNNING or STOPPED, as LXD says; no other changes. */
  ghost predicate Reported(s: State, t: State, userId: string, order: seq<Id>, states: Id -> Option<string>) {
    && t.instances.Keys == s.instances.Keys && t.jobs == s.jobs && t.commands == s.commands
    && forall id | id in s.instances ::
         var before, after := s.instances[id], t.instances[id];
         if id in order && before.userId == userId && before.status != DELETED && states(id).Some?
         then ReportedAs(before, after, states(id).value)
         else after == before
  }

  ghost predicate ReportedAs(before: Instance, after: Instance, state: string) {
    && after == before.(status := after.status)
    && (state == "Running" ==> after.status == RUNNING)
    && (state == "Stopped" ==> after.status == STOPPED)
    && (state != "Running" && state != "Stopped" ==> after.status == FAILED)
  }

  lemma StatusIsReported(before: Instance, state: string)
    ensures ReportedAs(before, before.(status := StatusOf(state)), state)
    ensures StatusOf(state) != DELETED
  {
  }

  lemma {:induction false} MonitorRun(s: State, ids: seq<Id>, states: Id -> Option<string>)
    requires forall id | id in ids :: id in s.instances && s.instances[id].status != DELETED
    ensures var t := Run(s, MonitorEvents(ids, states));
      && t.instances.Keys == s.instances.Keys && t.jobs == s.jobs && t.commands == s.commands
      && forall id | id in s.instances ::
           t.instances[id] == if id in ids && states(id).Some?
                              then s.instances[id].(status := StatusOf(states(id).value)) else s.instances[id]
    decreases |ids|
  {
    if ids == [] {
      NoMore(s);
    } else {
      assert ids[0..] == ids && ids[0] in ids;
      MonitorNext(s, ids, 0, states);
      var next := match states(ids[0]) case Some(state) => Step(s, Monitor(ids[0], state)) case None => s;
      if states(ids[0]).Some? { StatusIsReported(s.instances[ids[0]], states(ids[0]).value); }
      hide Run, MonitorEvents, StatusOf;
      MonitorRun(next, ids[1..], states);
    }
  }

  lemma RunReports(s: State, userId: string, order: seq<Id>, states: Id -> Option<string>)
    ensures var ids := Filter(order, LiveOf(s.instances, userId));
            Reported(s, Run(s, MonitorEvents(ids, states)), userId, order, states)
  {
    var ids := Filter(order, LiveOf(s.instances, userId));
    forall id ensures id in ids <==> id in order && LiveOf(s.instances, userId)(id) {
      FilterMember(order, LiveOf(s.instances, userId), id);
    }
    MonitorRun(s, ids, states);
    forall id | id in s.instances && states(id).Some?
      ensures ReportedAs(s.instances[id], s.instances[id].(status := StatusOf(states(id).value)), states(id).value)
    {
      StatusIsReported(s.instances[id], states(id).value);
    }
    hide Run, MonitorEvents, Filter, StatusOf, ReportedAs;
  }

  /** Records that are missing at LXD become DELETED, deletions are asked for again for DELETED ones that LXD has, in
      order, and nothing else changes. */
  ghost predicate Synchronized(s: State, t: State, userId: string, order: seq<Id>, probes: Id -> Probe) {
    && t.instances.Keys == s.instances.Keys && t.jobs == s.jobs
    && (forall id | id in s.instances ::
          var before := s.instances[id];
          t.instances[id] ==
          if id in order && before.userId == userId && before.status != DELETED && probes(id) == Missing
          then before.(status := DELETED) else before)
    && t.commands == s.commands + Collect(order, DeletionOf(s.instances, userId, probes))
  }

  ghost predicate AllSynced(s: State, t: State, ids: seq<Id>, probes: Id -> Probe) {
    && t.instances.Keys == s.instances.Keys && t.jobs == s.jobs
    && (forall id | id in s.instances ::
          t.instances[id] == if id in ids && s.instances[id].status != DELETED && probes(id) == Missing
                             then s.instances[id].(status := DELETED) else s.instances[id])
    && t.commands == s.commands + Collect(ids, Deletion(s.instances, probes))
  }

  lemma {:induction false} SyncRun(s: State, ids: seq<Id>, probes: Id -> Probe)
    requires Distinct(ids) && forall id | id in ids :: id in s.instances
    ensures AllSynced(s, Run(s, SyncEvents(ids, probes)), ids, probes)
    decreases |ids|
  {
    if ids == [] {
      NoMore(s);
      assert SyncEvents(ids, probes) == [];
    } else {
      var events, rest, next := SyncEvents(ids, probes), ids[1..], Step(s, Sync(ids[0], probes(ids[0])));
      assert events[0] == Sync(ids[0], probes(ids[0])) && events[1..] == SyncEvents(rest, probes);
      assert ids[0] in ids && forall id | id in rest :: id in ids;
      assert forall i | 0 <= i < |rest| :: rest[i] == ids[i + 1] && rest[i] != ids[0];
      SyncStep(s, ids[0], probes(ids[0]));
      assert ids[0] !in rest && Distinct(rest);
      hide Step, SyncEvents, AllSynced, Distinct;
      SyncRun(next, rest, probes);
      SyncedNext(s, next, Run(s, events), ids, probes);
    }
  }

  lemma SyncedNext(s: State, next: State, t: State, ids: seq<Id>, probes: Id -> Probe)
    requires ids != [] && ids[0] in s.instances && ids[0] !in ids[1..]
    requires next == Step(s, Sync(ids[0], probes(ids[0]))) && AllSynced(next, t, ids[1..], probes)
    ensures AllSynced(s, t, ids, probes)
  {
    SyncStep(s, ids[0], probes(ids[0]));
    assert ids == [ids[0]] + ids[1..];
    DeletionsNext(s, next, ids, probes);
    hide Step, Collect, Deletion;
  }

  lemma DeletionsNext(s: State, next: State, ids: seq<Id>, probes: Id -> Probe)
    requires ids != [] && ids[0] in s.instances && ids[0] !in ids[1..]
    requires next == Step(s, Sync(ids[0], probes(ids[0])))
    ensures next.commands + Collect(ids[1..], Deletion(next.instances, probes))
         == s.commands + Collect(ids, Deletion(s.instances, probes))
  {
    var f, g := Deletion(s.instances, probes), Deletion(next.instances, probes);
    SyncStep(s, ids[0], probes(ids[0]));
    CollectHead(ids, f);
    hide Step, Collect;
    var first := match f(ids[0]) case Some(command) => [command] case None => [];
    assert next.commands == s.commands + first;
    forall id | id in ids[1..] ensures g(id) == f(id) { assert id != ids[0]; }
    CollectAgrees(ids[1..], g, f);
    Associates(s.commands, first, Collect(ids[1..], f));
  }

  /** The user's records whose deletion works at last, and those that are missing at LXD and not DELETED. */
  ghost function OutOfLine(s: State, userId: string, order: seq<Id>, probes: Id -> Probe): set<Id> {
    set id | id in order && id in s.instances && s.instances[id].userId == userId
             && (if s.instances[id].status == DELETED then probes(id) == Exists(true) else probes(id) == Missing)
  }

  lemma {:induction false} DistinctSize<T>(s: seq<T>)
    requires Distinct(s)
    ensures |set x | x in s| == |s|
  {
    if s != [] {
      var rest := s[1..];
      assert forall i | 0 <= i < |rest| :: rest[i] == s[i + 1] && rest[i] != s[0];
      DistinctSize(rest);
      assert (set x | x in s) == (set x | x in rest) + {s[0]};
    }
  }

  lemma InLineCount(s: State, userId: string, order: seq<Id>, probes: Id -> Probe)
    requires Distinct(order)
    ensures |Filter(Filter(order, OwnedBy(s.instances, userId)), InLine(s.instances, probes))|
         == |OutOfLine(s, userId, order, probes)|
  {
    var owned := Filter(order, OwnedBy(s.instances, userId));
    var counted := Filter(owned, InLine(s.instances, probes));
    FilterDistinct(order, OwnedBy(s.instances, userId));
    FilterDistinct(owned, InLine(s.instances, probes));
    DistinctSize(counted);
    forall id ensures id in counted <==> id in OutOfLine(s, userId, order, probes) {
      FilterMember(order, OwnedBy(s.instances, userId), id);
      FilterMember(owned, InLine(s.instances, probes), id);
    }
    assert (set id | id in counted) == OutOfLine(s, userId, order, probes);
  }

  lemma {:induction false} CollectAgrees<T, U>(s: seq<T>, f: T -> Option<U>, g: T -> Option<U>)
    requires forall x | x in s :: f(x) == g(x)
    ensures Collect(s, f) == Collect(s, g)
  {
    if s != [] {
      assert s[0] in s;
      CollectAgrees(s[1..], f, g);
    }
  }

  /** Collecting what a filter lets pass is collecting what it would give. */
  lemma {:induction false} CollectFiltered<T, U>(s: seq<T>, p: T -> bool, f: T -> Option<U>, g: T -> Option<U>)
    requires forall x :: g(x) == if p(x) then f(x) else None
    ensures Collect(Filter(s, p), f) == Collect(s, g)
  {
    if s != [] {
      CollectFiltered(s[1..], p, f, g);
      var rest := Filter(s[1..], p);
      assert ([s[0]] + rest)[1..] == rest;
    }
  }

  lemma RunSynchronizes(s: State, userId: string, order: seq<Id>, probes: Id -> Probe)
    requires Distinct(order)
    ensures var ids := Filter(order, OwnedBy(s.instances, userId));
            Synchronized(s, Run(s, SyncEvents(ids, probes)), userId, order, probes)
  {
    var ids := Filter(order, OwnedBy(s.instances, userId));
    forall id ensures id in ids <==> id in order && OwnedBy(s.instances, userId)(id) {
      FilterMember(order, OwnedBy(s.instances, userId), id);
    }
    FilterDistinct(order, OwnedBy(s.instances, userId));
    SyncRun(s, ids, probes);
    hide Run, SyncEvents, Filter, AllSynced, Synchronized;
    OwnedAreSynced(s, Run(s, SyncEvents(ids, probes)), ids, userId, order, probes);
  }

  lemma OwnedAreSynced(s: State, t: State, ids: seq<Id>, userId: string, order: seq<Id>, probes: Id -> Probe)
    requires AllSynced(s, t, ids, probes) && ids == Filter(order, OwnedBy(s.instances, userId))
    requires forall id :: id in ids <==> id in order && OwnedBy(s.instances, userId)(id)
    ensures Synchronized(s, t, userId, order, probes)
  {
    CollectFiltered(order, OwnedBy(s.instances, userId), Deletion(s.instances, probes),
                    DeletionOf(s.instances, userId, probes));
    hide Filter, Collect, Deletion, DeletionOf;
  }

  /** The user's records that have outlived their span and are PENDING, STARTING or RUNNING are stopping, and one stop
      job is queued for each, in order; nothing else changes. */
  ghost predicate Stopped(s: State, t: State, userId: string, order: seq<Id>, expired: Id -> bool, jobIds: Id -> Id) {
    && t.instances.Keys == s.instances.Keys && t.commands == s.commands
    && (forall id | id in s.instances ::
          t.instances[id] == if id in order && IsOverdue(s.instances[id], userId, expired(id))
                             then s.instances[id].(status := STOPPING) else s.instances[id])
    && (Distinct(order) ==> t.jobs == s.jobs + Collect(order, StopOf(s.instances, userId, expired, jobIds)))
  }

  predicate IsOverdue(i: Instance, userId: string, expired: bool) {
    i.userId == userId && expired && i.status in {PENDING, STARTING, RUNNING}
  }

  ghost predicate AllStopped(s: State, t: State, ids: seq<Id>, jobIds: Id -> Id) {
    && t.instances.Keys == s.instances.Keys && t.commands == s.commands
    && (forall id | id in s.instances ::
          t.instances[id] == if id in ids && s.instances[id].status in {PENDING, STARTING, RUNNING}
                             then s.instances[id].(status := STOPPING) else s.instances[id])
    && (Distinct(ids) ==> t.jobs == s.jobs + Collect(ids, Stop(s.instances, jobIds)))
  }

  lemma {:induction false} ExpireRun(s: State, ids: seq<Id>, jobIds: Id -> Id)
    requires forall id | id in ids :: id in s.instances
    ensures AllStopped(s, Run(s, ExpireEvents(ids, jobIds)), ids, jobIds)
    decreases |ids|
  {
    if ids == [] {
      NoMore(s);
      assert ExpireEvents(ids, jobIds) == [];
    } else {
      var events, rest, next := ExpireEvents(ids, jobIds), ids[1..], Step(s, Expire(ids[0], jobIds(ids[0])));
      assert events[0] == Expire(ids[0], jobIds(ids[0])) && events[1..] == ExpireEvents(rest, jobIds);
      assert ids[0] in ids && forall id | id in rest :: id in ids;
      ExpireStep(s, ids[0], jobIds(ids[0]));
      hide Step, ExpireEvents, AllStopped;
      ExpireRun(next, rest, jobIds);
      StoppedNext(s, next, Run(s, events), ids, jobIds);
    }
  }

  lemma StoppedNext(s: State, next: State, t: State, ids: seq<Id>, jobIds: Id -> Id)
    requires ids != [] && ids[0] in s.instances
    requires next == Step(s, Expire(ids[0], jobIds(ids[0]))) && AllStopped(next, t, ids[1..], jobIds)
    ensures AllStopped(s, t, ids, jobIds)
  {
    ExpireStep(s, ids[0], jobIds(ids[0]));
    assert ids == [ids[0]] + ids[1..];
    if Distinct(ids) {
      DistinctRest(ids);
      StopsNext(s, next, ids, jobIds);
    }
    hide Step, Collect, Stop, Distinct;
  }

  lemma StopsNext(s: State, next: State, ids: seq<Id>, jobIds: Id -> Id)
    requires ids != [] && ids[0] in s.instances && ids[0] !in ids[1..]
    requires next == Step(s, Expire(ids[0], jobIds(ids[0])))
    ensures next.jobs + Collect(ids[1..], Stop(next.instances, jobIds))
         == s.jobs + Collect(ids, Stop(s.instances, jobIds))
  {
    var f, g := Stop(s.instances, jobIds), Stop(next.instances, jobIds);
    ExpireStep(s, ids[0], jobIds(ids[0]));
    CollectHead(ids, f);
    hide Step, Collect;
    var first := match f(ids[0]) case Some(job) => [job] case None => [];
    assert next.jobs == s.jobs + first;
    forall id | id in ids[1..] ensures g(id) == f(id) { assert id != ids[0]; }
    CollectAgrees(ids[1..], g, f);
    Associates(s.jobs, first, Collect(ids[1..], f));
  }

  lemma CollectHead<T, U>(s: seq<T>, f: T -> Option<U>)
    requires s != []
    ensures Collect(s, f) == (match f(s[0]) case Some(u) => [u] case None => []) + Collect(s[1..], f)
  {
  }

  lemma Associates<T>(a: seq<T>, b: seq<T>, c: seq<T>)
    ensures (a + b) + c == a + (b + c)
  {
  }

  lemma DistinctRest(ids: seq<Id>)
    requires ids != [] && Distinct(ids)
    ensures Distinct(ids[1..]) && ids[0] !in ids[1..]
  {
    assert forall i | 0 <= i < |ids[1..]| :: ids[1..][i] == ids[i + 1] && ids[1..][i] != ids[0];
  }

  lemma RunStops(s: State, userId: string, order: seq<Id>, expired: Id -> bool, jobIds: Id -> Id)
    ensures var ids := Filter(order, ExpiredOf(s.instances, userId, expired));
            Stopped(s, Run(s, ExpireEvents(ids, jobIds)), userId, order, expired, jobIds)
  {
    var p := ExpiredOf(s.instances, userId, expired);
    var ids := Filter(order, p);
    forall id ensures id in ids <==> id in order && p(id) { FilterMember(order, p, id); }
    if Distinct(order) { FilterDistinct(order, p); }
    ExpireRun(s, ids, jobIds);
    CollectFiltered(order, p, Stop(s.instances, jobIds), StopOf(s.instances, userId, expired, jobIds));
    hide Run, ExpireEvents, Filter, Collect;
  }

  /** The lifespan check of one record. */
  lemma ExpireStep(s: State, id: Id, jobId: Id)
    ensures Step(s, Expire(id, jobId)) ==
      if id in s.instances && s.instances[id].status != STOPPED && s.instances[id].status != STOPPING
         && s.instances[id].status != FAILED && s.instances[id].status != DELETED
      then Started(s, id, false, jobId) else s
  {
  }

  lemma NothingLeft(events: seq<Event>)
    ensures events[|events|..] == [] && forall s :: Run(s, events[|events|..]) == s
  {
  }

  lemma NoMore(s: State)
    ensures Run(s, []) == s
  {
  }

  /** A record in a synchronizing pass. */
  lemma SyncStep(s: State, id: Id, probe: Probe)
    requires id in s.instances
    ensures Step(s, Sync(id, probe)) ==
      if s.instances[id].status == DELETED then
        if probe.Exists? then s.(commands := s.commands + [Command(DELETE, id, s.instances[id].name)]) else s
      else if probe == Missing then s.(instances := s.instances[id := s.instances[id].(status := DELETED)])
      else s
  {
  }

  lemma CountNext(ids: seq<Id>, i: nat, p: Id -> bool)
    requires i < |ids|
    ensures |Filter(ids[..i + 1], p)| == |Filter(ids[..i], p)| + if p(ids[i]) then 1 else 0
  {
    assert ids[..i + 1] == ids[..i] + [ids[i]];
    FilterConcat(ids[..i], [ids[i]], p);
    assert [ids[i]][1..] == [];
  }

  lemma MonitorNext(s: State, ids: seq<Id>, i: nat, states: Id -> Option<string>)
    requires i < |ids|
    ensures Run(s, MonitorEvents(ids[i..], states)) ==
      Run(match states(ids[i]) case Some(state) => Step(s, Monitor(ids[i], state)) case None => s,
          MonitorEvents(ids[i + 1..], states))
  {
    assert ids[i..][0] == ids[i] && ids[i..][1..] == ids[i + 1..];
    var rest := MonitorEvents(ids[i + 1..], states);
    if states(ids[i]).Some? {
      assert ([Monitor(ids[i], states(ids[i]).value)] + rest)[1..] == rest;
    } else {
      assert [] + rest == rest;
    }
    hide Step;
  }

  lemma MonitorDone(s: State, ids: seq<Id>, states: Id -> Option<string>)
    ensures Run(s, MonitorEvents(ids[|ids|..], states)) == s
  {
    assert ids[|ids|..] == [];
  }

  lemma StatusOfIsLive(state: string)
    ensures StatusOf(state) != DELETED
  {
  }

  lemma RunNext(s: State, events: seq<Event>, i: nat)
    requires i < |events|
    ensures Run(s, events[i..]) == Run(Step(s, events[i]), events[i + 1..])
  {
    assert events[i..][0] == events[i] && events[i..][1..] == events[i + 1..];
    hide Step;
  }

  lemma FilteredIds(order: seq<Id>, p: Id -> bool)
    ensures forall k | 0 <= k < |Filter(order, p)| :: p(Filter(order, p)[k])
  {
    forall k | 0 <= k < |Filter(order, p)| ensures p(Filter(order, p)[k]) {
      FilterMember(order, p, Filter(order, p)[k]);
    }
  }
}
