/** The life of an instance record: calls of `instanceCore.ts`, jobs of `lxdJobHandler.ts` and monitor
    passes of `lxdMonitorHandler.ts` as steps. What LXD answers is an input of a step. */
module Instances {
  import opened Sequences

  type Id = string

  datatype Status = PENDING | FAILED | STARTING | STOPPING | RUNNING | STOPPED | DELETED

  datatype Instance = Instance(userId: string, name: string, status: Status, hostMapPort: Option<int>)

  datatype Operation = CREATE | UPDATE | START | STOP | DELETE

  /** PENDING, CANCELLED, FINISHED and ERROR of a job. */
  datatype JobState = Queued | Cancelled | Finished | Errored

  datatype Job = Job(id: Id, operation: Operation, instanceId: Id, executorId: Id, state: JobState)

  /** What was asked of LXD, for which record. LXD knows the instance by its name alone. */
  datatype Command = Command(operation: Operation, instanceId: Id, name: string)

  datatype State = State(instances: map<Id, Instance>, jobs: seq<Job>, commands: seq<Command>)

  // ----- ports --------------------------------------------------------------

  /** The configured range, where 0 stands for a default. */
  datatype PortRange = PortRange(low: int, high: int)
  {
    function Min(): int { if low == 0 then 30000 else low }
    function Max(): int { if high == 0 then 40000 else high }
  }

  function Ports(instances: map<Id, Instance>): set<int> {
    set id | id in instances && instances[id].hostMapPort.Some? :: instances[id].hostMapPort.value
  }

  lemma {:induction false} GreatestExists(ports: set<int>)
    requires ports != {}
    ensures exists x :: x in ports && forall y | y in ports :: y <= x
    decreases |ports|
  {
    var a := SomeMember(ports);
    var rest := ports - {a};
    if rest == {} {
      assert ports == {a};
    } else {
      GreatestExists(rest);
      var x :| x in rest && forall y | y in rest :: y <= x;
      var m := if a <= x then x else a;
      forall y | y in ports ensures y <= m { assert y == a || y in rest; }
    }
  }

  function Greatest(s: set<int>): (m: int)
    requires s != {}
    ensures m in s && forall y | y in s :: y <= m
  {
    GreatestExists(s);
    var x :| x in s && forall y | y in s :: y <= x;
    x
  }

  function ValidHostPort(instances: map<Id, Instance>, range: PortRange): int {
    var ports := Ports(instances);
    if ports == {} then range.Min()
    else if Greatest(ports) < range.Max() then Greatest(ports) + 1
    else range.Min()
  }

  /** The port is free unless the range has wrapped round onto a port in use. */
  lemma PortIsFreeIff(instances: map<Id, Instance>, range: PortRange)
    requires forall p | p in Ports(instances) :: range.Min() <= p <= range.Max()
    ensures ValidHostPort(instances, range) !in Ports(instances)
      <==> !(range.Max() in Ports(instances) && range.Min() in Ports(instances))
  {
    var ports := Ports(instances);
    if ports != {} {
      assert Greatest(ports) in ports;
    }
  }

  // ----- calls --------------------------------------------------------------

  /** updateInstanceMetadata and the other updates of a status. */
  function SetStatus(s: State, id: Id, status: Status): State {
    if id in s.instances then s.(instances := s.instances[id := s.instances[id].(status := status)]) else s
  }

  function AddJob(s: State, job: Job): State { s.(jobs := s.jobs + [job]) }

  function CancelOthers(jobs: seq<Job>, id: Id, deleteJobId: Id): seq<Job> {
    seq(|jobs|, i requires 0 <= i < |jobs| =>
      if jobs[i].state == Queued && jobs[i].id != deleteJobId && (jobs[i].instanceId == id || jobs[i].executorId == id)
      then jobs[i].(state := Cancelled) else jobs[i])
  }

  // ----- jobs ---------------------------------------------------------------

  datatype PollResult = PollDone | AlreadyExists | FatalStorage | OtherPollingError | PollCrash

  /** ready(i): at probe i no operation is running and the instance is stopped. */
  datatype CreateReply = Refused | NoOperation | Accepted(poll: PollResult, ready: nat -> bool)

  datatype Reply = Reply(create: CreateReply, done: bool)

  const PROBES: nat := 30

  /** The status a create job sets, if any, and whether it succeeds. */
  ghost function CreateOutcome(r: CreateReply): (Option<Status>, bool) {
    match r
    case Refused => (Some(FAILED), false)
    case NoOperation => (None, true)
    case Accepted(poll, ready) =>
      match poll
      case PollDone => if exists i: nat :: i < PROBES && ready(i) then (Some(STOPPED), true) else (Some(FAILED), false)
      case AlreadyExists => (Some(STOPPED), true)
      case FatalStorage => (Some(FAILED), false)
      case OtherPollingError => (None, false)
      case PollCrash => (Some(FAILED), false)
  }

  /** What a create job leaves of a PENDING record, and whether it succeeds: LXD takes the instance or not, says that it
      exists, or lets it be probed until it is stopped. */
  ghost predicate CreateEnds(before: Instance, after: Instance, r: CreateReply, ok: bool) {
    && after == before.(status := after.status)
    && (r.Refused? ==> !ok && after.status == FAILED)
    && (r.NoOperation? ==> ok && after.status == before.status)
    && (r.Accepted? ==>
          && (r.poll.PollDone? && (exists i: nat :: i < 30 && r.ready(i)) ==> ok && after.status == STOPPED)
          && (r.poll.PollDone? && (forall i: nat | i < 30 :: !r.ready(i)) ==> !ok && after.status == FAILED)
          && (r.poll.AlreadyExists? ==> ok && after.status == STOPPED)
          && (r.poll.FatalStorage? || r.poll.PollCrash? ==> !ok && after.status == FAILED)
          && (r.poll.OtherPollingError? ==> !ok && after.status == before.status))
  }

  /** The handler run on the job: the new state and whether it succeeds. */
  ghost function Handled(s: State, j: Job, r: Reply): (State, bool) {
    var id := j.instanceId;
    if id !in s.instances then (s, false)
    else
      var asked := s.(commands := s.commands + [Command(j.operation, id, s.instances[id].name)]);
      match j.operation
      case CREATE =>
        if s.instances[id].status != PENDING then (s, false)
        else
          var (status, ok) := CreateOutcome(r.create);
          (if status.Some? then SetStatus(asked, id, status.value) else asked, ok)
      case UPDATE => (asked, r.done)
      case START => (asked, r.done)
      case STOP => (asked, r.done)
      case DELETE =>
        if s.instances[id].status != DELETED then (s, false)
        else (if r.done then asked.(instances := s.instances - {id}) else asked, r.done)
  }

  function Close(jobs: seq<Job>, index: nat, ok: bool): seq<Job>
    requires index < |jobs|
  {
    jobs[index := jobs[index].(state := if ok then Finished else Errored)]
  }

  // ----- monitor passes -----------------------------------------------------

  function StatusOf(lxdState: string): Status {
    if lxdState == "Running" then RUNNING else if lxdState == "Stopped" then STOPPED else FAILED
  }

  /** What the deletion check finds: the instance exists and its deletion works or not, it is missing, or
      LXD does not say. */
  datatype Probe = Exists(deleted: bool) | Missing | Unclear

  function Synced(s: State, id: Id, probe: Probe): State {
    if id !in s.instances then s
    else if s.instances[id].status == DELETED then
      if probe.Exists? then s.(commands := s.commands + [Command(DELETE, id, s.instances[id].name)]) else s
    else if probe == Missing then SetStatus(s, id, DELETED)
    else s
  }

  // ----- steps --------------------------------------------------------------

  /** Calls on an instance, the lifespan check of getInstances for one instance, a job of the executor,
      and one instance in a monitor pass. */
  datatype Event =
    | CreateInstance(userId: string, name: string, newId: Id, jobId: Id, range: PortRange)
    | StartStop(id: Id, start: bool, jobId: Id)
    | Restart(id: Id, jobId: Id)
    | Edit(id: Id, executorId: Id, jobId: Id)
    | Delete(id: Id, jobId: Id)
    | Expire(id: Id, jobId: Id)
    | Execute(index: nat, reply: Reply)
    | Monitor(id: Id, lxdState: string)
    | Sync(id: Id, probe: Probe)

  function Started(s: State, id: Id, start: bool, jobId: Id): State {
    if id !in s.instances then s
    else
      AddJob(SetStatus(s, id, if start then STARTING else STOPPING),
             Job(jobId, if start then START else STOP, id, id, Queued))
  }

  ghost function Step(s: State, e: Event): State {
    match e
    case CreateInstance(user, name, newId, jobId, range) =>
      var i := Instance(user, name, PENDING, Some(ValidHostPort(s.instances, range)));
      AddJob(s.(instances := s.instances[newId := i]), Job(jobId, CREATE, newId, newId, Queued))
    case StartStop(id, start, jobId) => Started(s, id, start, jobId)
    case Restart(id, jobId) => Started(s, id, true, jobId)
    case Edit(id, executorId, jobId) =>
      if id in s.instances then AddJob(s, Job(jobId, UPDATE, id, executorId, Queued)) else s
    case Delete(id, jobId) =>
      if id in s.instances then
        var t := AddJob(SetStatus(s, id, DELETED), Job(jobId, DELETE, id, id, Queued));
        t.(jobs := CancelOthers(t.jobs, id, jobId))
      else s
    case Expire(id, jobId) =>
      if id in s.instances && s.instances[id].status in {PENDING, STARTING, RUNNING}
      then Started(s, id, false, jobId) else s
    case Execute(index, reply) =>
      if index < |s.jobs| && s.jobs[index].state == Queued then
        var (t, ok) := Handled(s, s.jobs[index], reply);
        t.(jobs := Close(t.jobs, index, ok))
      else s
    case Monitor(id, lxdState) =>
      if id in s.instances && s.instances[id].status != DELETED then SetStatus(s, id, StatusOf(lxdState)) else s
    case Sync(id, probe) => Synced(s, id, probe)
  }

  ghost function Run(s: State, events: seq<Event>): State
    decreases |events|
  {
    if events == [] then s else Run(Step(s, events[0]), events[1..])
  }

  // ----- deletion safety ----------------------------------------------------

  /** The event is a user's call on the instance, or would make it again. */
  predicate Touches(e: Event, id: Id) {
    match e
    case CreateInstance(_, _, newId, _, _) => newId == id
    case StartStop(x, _, _) => x == id
    case Restart(x, _) => x == id
    case Edit(x, _, _) => x == id
    case Delete(x, _) => x == id
    case _ => false
  }

  /** The record, if it is still there, is DELETED, and only deletion is waiting for it. */
  ghost predicate Doomed(s: State, id: Id) {
    && (id in s.instances ==> s.instances[id].status == DELETED)
    && forall i | 0 <= i < |s.jobs| && s.jobs[i].state == Queued && s.jobs[i].instanceId == id ::
         s.jobs[i].operation == DELETE
  }

  /** Nothing but deletion was asked for the instance since. */
  ghost predicate OnlyDeletes(s: State, t: State, id: Id) {
    && s.commands <= t.commands
    && forall i | |s.commands| <= i < |t.commands| && t.commands[i].instanceId == id ::
         t.commands[i].operation == DELETE
  }

  /** deleteInstance dooms the instance, whatever jobs were waiting for it. */
  lemma DeleteDooms(s: State, id: Id, jobId: Id)
    requires id in s.instances && forall i | 0 <= i < |s.jobs| :: s.jobs[i].id != jobId
    ensures Doomed(Step(s, Delete(id, jobId)), id)
    ensures OnlyDeletes(s, Step(s, Delete(id, jobId)), id)
  {
  }

  lemma StepStaysDoomed(s: State, e: Event, id: Id)
    requires Doomed(s, id) && !Touches(e, id)
    ensures Doomed(Step(s, e), id) && OnlyDeletes(s, Step(s, e), id)
    ensures id !in s.instances ==> id !in Step(s, e).instances
  {
  }

  /** After deleteInstance, whatever jobs, monitor passes and calls on other instances follow: the status
      stays DELETED until the record is gone, it does not come back, and only deletion is asked of LXD. */
  lemma {:induction false} DeletionSafety(s: State, events: seq<Event>, id: Id)
    requires Doomed(s, id) && forall i | 0 <= i < |events| :: !Touches(events[i], id)
    ensures Doomed(Run(s, events), id) && OnlyDeletes(s, Run(s, events), id)
    ensures id !in s.instances ==> id !in Run(s, events).instances
    decreases |events|
  {
    if events != [] {
      StepStaysDoomed(s, events[0], id);
      var t := Step(s, events[0]);
      hide Step, Doomed, Touches;
      DeletionSafety(t, events[1..], id);
    }
  }

  /** The same from the call of deleteInstance on, in any state. */
  lemma DeletedInstanceIsSafe(s: State, id: Id, jobId: Id, events: seq<Event>)
    requires id in s.instances && forall i | 0 <= i < |s.jobs| :: s.jobs[i].id != jobId
    requires forall i | 0 <= i < |events| :: !Touches(events[i], id)
    ensures var t := Run(Step(s, Delete(id, jobId)), events);
      Doomed(t, id) && OnlyDeletes(s, t, id)
  {
    DeleteDooms(s, id, jobId);
    DeletionSafety(Step(s, Delete(id, jobId)), events, id);
    hide Step, Run;
  }

  /** The record goes away only when a waiting delete job finds it DELETED and LXD did the deletion. */
  lemma RemovedByDeleteJob(s: State, e: Event, id: Id)
    requires id in s.instances && id !in Step(s, e).instances
    ensures e.Execute? && e.index < |s.jobs| && e.reply.done && s.instances[id].status == DELETED
    ensures s.jobs[e.index].state == Queued && s.jobs[e.index].operation == DELETE && s.jobs[e.index].instanceId == id
  {
  }

  /** The delete job waits until it is run: no call on another instance cancels it. */
  lemma DeleteJobWaits(s: State, e: Event, id: Id, index: nat)
    requires index < |s.jobs| && s.jobs[index].state == Queued
    requires s.jobs[index].instanceId == s.jobs[index].executorId == id
    requires !Touches(e, id) && !(e.Execute? && e.index == index)
    ensures index < |Step(s, e).jobs| && Step(s, e).jobs[index] == s.jobs[index]
  {
  }

  // ----- the delete job is run ----------------------------------------------

  /** deleteInstance marks the record, puts one delete job at the end of the queue and cancels the other jobs that wait
      for the instance; nothing else changes. */
  ghost predicate DeleteQueued(s: State, t: State, id: Id, jobId: Id)
    requires id in s.instances
  {
    && t.instances == s.instances[id := s.instances[id].(status := DELETED)] && t.commands == s.commands
    && |t.jobs| == |s.jobs| + 1 && t.jobs[|s.jobs|] == Job(jobId, DELETE, id, id, Queued)
    && forall i | 0 <= i < |s.jobs| ::
         if s.jobs[i].state == Queued && (s.jobs[i].instanceId == id || s.jobs[i].executorId == id)
         then t.jobs[i] == s.jobs[i].(state := Cancelled)
         else t.jobs[i] == s.jobs[i]
  }

  lemma DeleteQueues(s: State, id: Id, jobId: Id)
    requires id in s.instances && forall i | 0 <= i < |s.jobs| :: s.jobs[i].id != jobId
    ensures DeleteQueued(s, Step(s, Delete(id, jobId)), id, jobId)
  {
  }

  /** The one waiting job of a DELETED record is this delete job. */
  ghost predicate AwaitsDeletion(s: State, id: Id, index: nat) {
    && id in s.instances && s.instances[id].status == DELETED && index < |s.jobs|
    && s.jobs[index].operation == DELETE && s.jobs[index].instanceId == s.jobs[index].executorId == id
    && forall i | 0 <= i < |s.jobs| && s.jobs[i].instanceId == id :: s.jobs[i].state == Queued <==> i == index
  }

  lemma StepStillAwaits(s: State, e: Event, id: Id, index: nat)
    requires AwaitsDeletion(s, id, index) && !Touches(e, id) && !(e.Execute? && e.index == index)
    ensures AwaitsDeletion(Step(s, e), id, index)
    ensures Step(s, e).jobs[index] == s.jobs[index] && Step(s, e).instances[id] == s.instances[id]
  {
  }

  lemma {:induction false} RunStillAwaits(s: State, events: seq<Event>, id: Id, index: nat)
    requires AwaitsDeletion(s, id, index)
    requires forall i | 0 <= i < |events| ::
               !Touches(events[i], id) && !(events[i].Execute? && events[i].index == index)
    ensures AwaitsDeletion(Run(s, events), id, index)
    ensures Run(s, events).jobs[index] == s.jobs[index] && Run(s, events).instances[id] == s.instances[id]
    decreases |events|
  {
    if events != [] {
      StepStillAwaits(s, events[0], id, index);
      var t := Step(s, events[0]);
      hide Step, AwaitsDeletion, Touches;
      RunStillAwaits(t, events[1..], id, index);
    }
  }

  /** Running the job asks LXD for the deletion and takes the record away exactly if LXD did it. */
  ghost predicate DeletionRun(s: State, t: State, id: Id, index: nat, done: bool)
    requires id in s.instances && index < |s.jobs|
  {
    && t.commands == s.commands + [Command(DELETE, id, s.instances[id].name)]
    && t.instances == (if done then s.instances - {id} else s.instances)
    && t.jobs == s.jobs[index := s.jobs[index].(state := if done then Finished else Errored)]
  }

  /** After deleteInstance, and whatever run follows without a call on the instance and without its job being run, the
      job is there to be run, and running it takes the record away if LXD does the deletion. */
  lemma DeleteJobRemoves(s: State, id: Id, jobId: Id, events: seq<Event>, reply: Reply)
    requires id in s.instances && forall i | 0 <= i < |s.jobs| :: s.jobs[i].id != jobId
    requires forall i | 0 <= i < |events| ::
               !Touches(events[i], id) && !(events[i].Execute? && events[i].index == |s.jobs|)
    ensures var t := Run(Step(s, Delete(id, jobId)), events);
      && |s.jobs| < |t.jobs| && t.jobs[|s.jobs|] == Job(jobId, DELETE, id, id, Queued)
      && id in t.instances && DeletionRun(t, Step(t, Execute(|s.jobs|, reply)), id, |s.jobs|, reply.done)
  {
    DeleteQueues(s, id, jobId);
    var first := Step(s, Delete(id, jobId));
    assert AwaitsDeletion(first, id, |s.jobs|);
    hide Step;
    RunStillAwaits(first, events, id, |s.jobs|);
    RunsDeletion(Run(first, events), id, |s.jobs|, reply);
  }

  lemma RunsDeletion(s: State, id: Id, index: nat, reply: Reply)
    requires AwaitsDeletion(s, id, index)
    ensures DeletionRun(s, Step(s, Execute(index, reply)), id, index, reply.done)
  {
  }

  /** No job waits for the DELETED record. */
  ghost predicate LeftBehind(s: State, id: Id) {
    && id in s.instances && s.instances[id].status == DELETED
    && forall i | 0 <= i < |s.jobs| && s.jobs[i].instanceId == id :: s.jobs[i].state != Queued
  }

  lemma StepLeavesBehind(s: State, e: Event, id: Id)
    requires LeftBehind(s, id) && !Touches(e, id)
    ensures LeftBehind(Step(s, e), id)
  {
  }

  /** A deletion that LXD did not do is not tried again: the record stays for good, whatever the passes over it ask of
      LXD. */
  lemma {:induction false} FailedDeletionStays(s: State, events: seq<Event>, id: Id)
    requires LeftBehind(s, id) && forall i | 0 <= i < |events| :: !Touches(events[i], id)
    ensures LeftBehind(Run(s, events), id)
    decreases |events|
  {
    if events != [] {
      StepLeavesBehind(s, events[0], id);
      var t := Step(s, events[0]);
      hide Step, LeftBehind, Touches;
      FailedDeletionStays(t, events[1..], id);
    }
  }

  /** That is where the failing job leaves it. */
  lemma FailureLeavesBehind(s: State, id: Id, index: nat, reply: Reply)
    requires AwaitsDeletion(s, id, index) && !reply.done
    ensures LeftBehind(Step(s, Execute(index, reply)), id)
  {
  }

  // ----- names --------------------------------------------------------------

  /** The name is that of a record that is not DELETED. */
  predicate NamesLive(s: State, name: string) {
    exists id | id in s.instances :: s.instances[id].name == name && s.instances[id].status != DELETED
  }

  /** The step asks LXD to delete an instance under a name that a record not DELETED has. */
  ghost predicate HitsLive(s: State, e: Event) {
    var t := Step(s, e);
    exists i | |s.commands| <= i < |t.commands| ::
      t.commands[i].operation == DELETE && NamesLive(t, t.commands[i].name)
  }

  ghost predicate NamesDistinct(instances: map<Id, Instance>) {
    forall x, y | x in instances && y in instances && x != y :: instances[x].name != instances[y].name
  }

  predicate HasName(instances: map<Id, Instance>, name: string) {
    exists id | id in instances :: instances[id].name == name
  }

  /** A synchronizing pass over a DELETED record that finds its name at LXD deletes there an instance that is in use
      exactly if another record has the name and is not DELETED. */
  lemma SyncHitsNamesakeIff(s: State, id: Id, deleted: bool)
    requires id in s.instances && s.instances[id].status == DELETED
    ensures HitsLive(s, Sync(id, Exists(deleted)))
       <==> exists x | x in s.instances && x != id ::
              s.instances[x].name == s.instances[id].name && s.instances[x].status != DELETED
  {
    var t := Step(s, Sync(id, Exists(deleted)));
    assert t.commands[|s.commands|] == Command(DELETE, id, s.instances[id].name) && |t.commands| == |s.commands| + 1;
    assert t.instances == s.instances;
    hide Step;
  }

  lemma DistinctNamesSpare(s: State, e: Event)
    requires NamesDistinct(s.instances)
    requires e.CreateInstance? ==> e.newId !in s.instances && !HasName(s.instances, e.name)
    ensures NamesDistinct(Step(s, e).instances) && !HitsLive(s, e)
  {
  }

  /** Every creation has a new id and a name that no record has. */
  ghost predicate NewNames(s: State, events: seq<Event>)
    decreases |events|
  {
    events == []
    || ((events[0].CreateInstance? ==>
           events[0].newId !in s.instances && !HasName(s.instances, events[0].name))
        && NewNames(Step(s, events[0]), events[1..]))
  }

  /** Where no name is given twice, no deletion that is asked of LXD in a run meets an instance in use. */
  lemma {:induction false} DistinctNamesAreSafe(s: State, events: seq<Event>, k: nat)
    requires NamesDistinct(s.instances) && NewNames(s, events) && k < |events|
    ensures !HitsLive(Run(s, events[..k]), events[k])
    decreases k
  {
    var e := events[0];
    DistinctNamesSpare(s, e);
    hide Step, HitsLive, NamesDistinct;
    if k > 0 {
      DistinctNamesAreSafe(Step(s, e), events[1..], k - 1);
      assert events[..k][1..] == events[1..][..k - 1] && events[1..][k - 1] == events[k];
    } else {
      assert events[..0] == [];
    }
  }

  /** Nothing keeps a name from being given twice: an instance is deleted, another one of its name is made and runs, and
      the pass over the first record deletes it. */
  lemma NamesakeIsDeleted(range: PortRange)
    ensures var events := [CreateInstance("u", "n", "a", "ja", range), Delete("a", "da"),
                           CreateInstance("u", "n", "b", "jb", range), Monitor("b", "Running")];
      var s := Run(State(map[], [], []), events);
      "b" in s.instances && s.instances["b"].status == RUNNING && HitsLive(s, Sync("a", Exists(true)))
  {
    var s0 := State(map[], [], []);
    var a, d := CreateInstance("u", "n", "a", "ja", range), Delete("a", "da");
    var b, m := CreateInstance("u", "n", "b", "jb", range), Monitor("b", "Running");
    RunFour(s0, a, d, b, m);
    var s2 := Step(Step(s0, a), d);
    assert s2.instances["a"].status == DELETED && s2.instances["a"].name == "n";
    var s := Step(Step(s2, b), m);
    assert s.instances["a"] == s2.instances["a"] && s.instances["b"].name == "n" && s.instances["b"].status == RUNNING;
    hide Step;
    SyncHitsNamesakeIff(s, "a", true);
  }

  lemma RunFour(s: State, a: Event, b: Event, c: Event, d: Event)
    ensures Run(s, [a, b, c, d]) == Step(Step(Step(Step(s, a), b), c), d)
  {
    hide Step;
    assert [a, b, c, d][1..] == [b, c, d] && [b, c, d][1..] == [c, d] && [c, d][1..] == [d] && [d][1..] == [];
    var t := Step(Step(s, a), b);
    assert Run(s, [a, b, c, d]) == Run(Step(s, a), [b, c, d]) == Run(t, [c, d]);
    assert Run(t, [c, d]) == Run(Step(t, c), [d]) == Run(Step(Step(t, c), d), []);
  }

  // ----- ports over runs ----------------------------------------------------

  function Creations(events: seq<Event>): nat {
    if events == [] then 0 else (if events[0].CreateInstance? then 1 else 0) + Creations(events[1..])
  }

  /** New ids are unused and the configured range does not change. */
  ghost predicate Fresh(s: State, events: seq<Event>, range: PortRange)
    decreases |events|
  {
    events == []
    || ((events[0].CreateInstance? ==> events[0].newId !in s.instances && events[0].range == range)
        && Fresh(Step(s, events[0]), events[1..], range))
  }

  /** The stored ports are different and among the first n of the range. */
  ghost predicate PortsOk(instances: map<Id, Instance>, range: PortRange, n: int) {
    && (forall id | id in instances && instances[id].hostMapPort.Some? ::
          range.Min() <= instances[id].hostMapPort.value < range.Min() + n)
    && forall x, y | x in instances && y in instances && x != y && instances[x].hostMapPort.Some? ::
         instances[x].hostMapPort != instances[y].hostMapPort
  }

  lemma CreateKeepsPorts(s: State, newId: Id, user: string, name: string, jobId: Id, range: PortRange, n: int)
    requires PortsOk(s.instances, range, n) && newId !in s.instances && 0 <= n < range.Max() - range.Min() + 1
    ensures PortsOk(Step(s, CreateInstance(user, name, newId, jobId, range)).instances, range, n + 1)
  {
    var ports := Ports(s.instances);
    var port := ValidHostPort(s.instances, range);
    forall id | id in s.instances && s.instances[id].hostMapPort.Some?
      ensures s.instances[id].hostMapPort.value in ports
    {}
    assert ports != {} ==> Greatest(ports) in ports && Greatest(ports) < range.Min() + n;
    assert forall p | p in ports :: p < port;
    assert range.Min() <= port < range.Min() + n + 1;
  }

  lemma OthersKeepPorts(s: State, e: Event, range: PortRange, n: int)
    requires PortsOk(s.instances, range, n) && !e.CreateInstance?
    ensures PortsOk(Step(s, e).instances, range, n)
  {
    var t := Step(s, e).instances;
    assert forall id | id in t :: id in s.instances && t[id].hostMapPort == s.instances[id].hostMapPort;
    hide Step;
  }

  lemma {:induction false} RunKeepsPorts(s: State, events: seq<Event>, range: PortRange, n: nat)
    requires PortsOk(s.instances, range, n) && Fresh(s, events, range)
    requires n + Creations(events) <= range.Max() - range.Min() + 1
    ensures PortsOk(Run(s, events).instances, range, n + Creations(events))
    decreases |events|
  {
    if events != [] {
      var e := events[0];
      hide PortsOk;
      if e.CreateInstance? {
        CreateKeepsPorts(s, e.newId, e.userId, e.name, e.jobId, range, n);
        RunKeepsPorts(Step(s, e), events[1..], range, n + 1);
      } else {
        OthersKeepPorts(s, e, range, n);
        RunKeepsPorts(Step(s, e), events[1..], range, n);
      }
    }
  }

  /** In any run with no more creations than ports in the range, and any removals of records, the stored
      ports are pairwise different and within the range. */
  lemma PortAllocation(s: State, events: seq<Event>, range: PortRange)
    requires s.instances == map[] && Fresh(s, events, range) && Creations(events) <= range.Max() - range.Min() + 1
    ensures var t := Run(s, events).instances;
      && (forall x, y | x in t && y in t && x != y && t[x].hostMapPort.Some? :: t[x].hostMapPort != t[y].hostMapPort)
      && forall x | x in t && t[x].hostMapPort.Some? :: range.Min() <= t[x].hostMapPort.value <= range.Max()
  {
    RunKeepsPorts(s, events, range, 0);
  }

  /** A third instance in a range of two ports gets the port of the first one. */
  lemma ThirdOfTwoPortsCollides()
    ensures var two := PortRange(1, 2);
      var t := Run(State(map[], [], []), [CreateInstance("u", "k", "a", "ja", two),
                                          CreateInstance("u", "l", "b", "jb", two),
                                          CreateInstance("u", "m", "c", "jc", two)]).instances;
      "a" in t && "c" in t && t["a"].hostMapPort == t["c"].hostMapPort == Some(1)
  {
    var two, s := PortRange(1, 2), State(map[], [], []);
    var a, b := CreateInstance("u", "k", "a", "ja", two), CreateInstance("u", "l", "b", "jb", two);
    var c := CreateInstance("u", "m", "c", "jc", two);
    assert [a, b, c][1..] == [b, c] && [b, c][1..] == [c] && [c][1..] == [];
    var s1 := Step(s, a);
    var s2 := Step(s1, b);
    assert Ports(s.instances) == {};
    assert s1.instances["a"].hostMapPort == Some(1) && Ports(s1.instances) == {1};
    assert s2.instances["a"].hostMapPort == Some(1) && s2.instances["b"].hostMapPort == Some(2);
    assert s2.instances.Keys == {"a", "b"};
    assert 1 in Ports(s2.instances) && 2 in Ports(s2.instances) && Ports(s2.instances) == {1, 2};
    assert Greatest({1, 2}) == 2;
    assert Run(s, [a, b, c]) == Run(s1, [b, c]) == Run(s2, [c]) == Run(Step(s2, c), []);
  }
}
