/** The classes of `poller.ts` and `dispatcher.ts`. Handlers are what their execute does on a job. */
module Poller {
  import opened Sequences
  import opened Documents
  import opened Scheduling

  // ----- dispatcher.ts ------------------------------------------------------

  /** The promise of execute resolves with a result, resolves with nothing, or rejects. */
  datatype Execution = Resolves(successful: bool) | ResolvesEmpty | Rejects

  datatype Handler = Handler(execute: Job -> Execution)

  /** The handler a factory makes; none where its promise rejects. */
  datatype Factory = Factory(make: Option<Handler>)

  class JobDispatcher {
    var handlerCollection: map<string, Factory>
    var handlerInstances: map<string, Handler>

    constructor ()
      ensures handlerCollection == map[] && handlerInstances == map[]
    {
      handlerCollection, handlerInstances := map[], map[];
    }

    /** The handler dispatch uses: the one made before, or a new one. */
    function HandlerOf(jobType: string): Option<Handler>
      reads this
    {
      if jobType !in handlerCollection then None
      else if jobType in handlerInstances then Some(handlerInstances[jobType])
      else handlerCollection[jobType].make
    }

    /** A handler made before stays in use when its type is registered again. */
    method RegisterJobType(jobType: string, factory: Factory)
      modifies this`handlerCollection
      ensures handlerCollection == old(handlerCollection)[jobType := factory]
      ensures forall t | t != jobType :: HandlerOf(t) == old(HandlerOf(t))
      ensures HandlerOf(jobType)
           == if jobType in handlerInstances then Some(handlerInstances[jobType]) else factory.make
    {
      handlerCollection := handlerCollection[jobType := factory];
    }

    method RemoveHandler(jobType: string)
      modifies this
      ensures handlerCollection == old(handlerCollection) - {jobType}
      ensures handlerInstances == old(handlerInstances) - {jobType}
      ensures HandlerOf(jobType) == None && forall t | t != jobType :: HandlerOf(t) == old(HandlerOf(t))
    {
      handlerCollection := handlerCollection - {jobType};
      handlerInstances := handlerInstances - {jobType};
    }

    /** What dispatch does with the job: a handler's exception becomes a failed result. */
    function OutcomeOf(job: Job): Outcome
      reads this
    {
      match HandlerOf(job.jobType)
      case None => Threw
      case Some(handler) =>
        match handler.execute(job)
        case Resolves(successful) => Returned(successful)
        case ResolvesEmpty => NoResult
        case Rejects => Returned(false)
    }

    /** It throws only for want of a handler, and what it does with any job stays the same. */
    method Dispatch(job: Job) returns (r: Outcome)
      modifies this`handlerInstances
      ensures r == old(OutcomeOf(job))
      ensures r == Threw <==> old(HandlerOf(job.jobType)) == None
      ensures var handler := old(HandlerOf(job.jobType));
        handler.Some? ==>
          && (handler.value.execute(job) == Resolves(true) ==> r == Returned(true))
          && (handler.value.execute(job) in {Resolves(false), Rejects} ==> r == Returned(false))
          && (handler.value.execute(job) == ResolvesEmpty ==> r == NoResult)
      ensures forall t :: HandlerOf(t) == old(HandlerOf(t))
    {
      if job.jobType !in handlerCollection { return Threw; }
      var handler: Handler;
      if job.jobType in handlerInstances {
        handler := handlerInstances[job.jobType];
      } else {
        match handlerCollection[job.jobType].make {
          case None => return Threw;
          case Some(made) =>
            handler := made;
            handlerInstances := handlerInstances[job.jobType := handler];
        }
      }
      match handler.execute(job)
      case Resolves(successful) => return Returned(successful);
      case ResolvesEmpty => return NoResult;
      case Rejects => return Returned(false);
    }
  }

  // ----- poller.ts ----------------------------------------------------------

  /** The fields set by an update. */
  datatype SetObj = SetObj(status: Option<Status>, nextExecutionTime: Option<int>, counter: Option<int>,
                           history: Option<seq<Entry>>)
  {
    function Apply(j: Job): Job {
      j.(status := if status.Some? then status.value else j.status,
         nextExecutionTime := if nextExecutionTime.Some? then nextExecutionTime.value else j.nextExecutionTime,
         counter := if counter.Some? then counter.value else j.counter,
         history := if history.Some? then history.value else j.history)
    }
  }

  function Updating(id: string, change: SetObj): Job -> Job { (j: Job) => if j.id == id then change.Apply(j) else j }

  class JobPoller {
    var jobCollection: seq<Job>
    const config: Config

    constructor (config: Config, jobs: seq<Job>)
      ensures this.config == config && jobCollection == jobs
    {
      this.config, jobCollection := config, jobs;
    }

    /** The update of all documents with the id, of which there is at most one. */
    method UpdateOne(id: string, change: SetObj)
      modifies this`jobCollection
      ensures jobCollection == Map(old(jobCollection), Updating(id, change))
    {
      jobCollection := Map(jobCollection, Updating(id, change));
    }

    /** The next job, its next execution time already moved on if it is periodic. */
    method FindNextJob(now: int) returns (r: Option<Job>)
      requires IdsUnique(jobCollection)
      modifies this`jobCollection
      ensures match Pick(old(jobCollection), config, now)
        case None => r == None && jobCollection == old(jobCollection)
        case Some(p) =>
          && r == Some(Started(p, now)) && jobCollection == Replace(old(jobCollection), Started(p, now))
          && Started(p, now) in jobCollection && IdsUnique(jobCollection)
    {
      var availableJobs := Filter(jobCollection, Pending());
      availableJobs := Filter(availableJobs, Included(config, now));
      availableJobs := StableSort(availableJobs, Before(config));
      if availableJobs == [] { return None; }
      var job := availableJobs[0];
      PickedFacts(jobCollection, config, now);
      ReplaceKeeps(jobCollection, Started(job, now));
      StartedIsStored(jobCollection, job, now);
      hide Pick;
      if job.period != None {
        job := job.(nextExecutionTime := now + job.period.value);
        UpdateOne(job.id, SetObj(Some(PENDING), Some(job.nextExecutionTime), None, None));
      }
      return Some(job);
    }

    /** One poll: pick a job, run the action on it, and write back what came of it. */
    method CheckForJobs(dispatcher: JobDispatcher, now: int, later: int) returns (ghost tick: Tick)
      requires IdsUnique(jobCollection)
      modifies this`jobCollection, dispatcher`handlerInstances
      ensures tick.now == now && tick.later == later
      ensures match Pick(old(jobCollection), config, now)
        case None => jobCollection == old(jobCollection)
        case Some(p) => tick.outcome == old(dispatcher.OutcomeOf(Started(p, now)))
      ensures jobCollection == Next(old(jobCollection), config, tick)
      ensures Polled(old(jobCollection), jobCollection, config, tick)
      ensures IdsUnique(jobCollection)
    {
      tick := Tick(now, later, Threw);
      ghost var jobs := jobCollection;
      var found := FindNextJob(now);
      hide Polled;
      PollStores(jobs, config, tick, "");
      if found == None { return; }
      var job := found.value;
      ghost var stored := jobCollection;
      var setObj := SetObj(None, None, None, None);
      var outcome := dispatcher.Dispatch(job);
      tick := Tick(now, later, outcome);
      if outcome == Threw {
        setObj := setObj.(history := Some(job.history + [Entry(later, true)]));
      } else {
        if Repeats(job) {
          setObj := setObj.(status := Some(PENDING), nextExecutionTime := Some(later + job.period.value));
        }
        var newHistory := [];
        if outcome.Returned? {
          newHistory := [Entry(later, !outcome.successful)];
          if !outcome.successful {
            setObj := setObj.(status := Some(if Repeats(job) then PENDING else ERROR));
            if !Repeats(job) && job.counter < config.maxAttempts {
              setObj := setObj.(nextExecutionTime := Some(later + config.failedJobDelayTime));
            }
          } else {
            setObj := setObj.(status := Some(if Repeats(job) then PENDING else FINISHED));
          }
        }
        setObj := setObj.(counter := Some(job.counter + 1), history := Some(job.history + newHistory));
      }
      assert setObj.Apply(job) == Settled(job, config, later, outcome);
      ReplaceKeeps(stored, setObj.Apply(job));
      ReplacedTwice(jobs, job, setObj.Apply(job));
      UpdateOne(job.id, setObj);
      assert jobCollection == Replace(stored, setObj.Apply(job)) by { UpdatingIsReplacing(stored, job, setObj); }
      PollStores(jobs, config, tick, "");
    }
  }

  lemma UpdatingIsReplacing(jobs: seq<Job>, job: Job, change: SetObj)
    requires IdsUnique(jobs) && job in jobs
    ensures Map(jobs, Updating(job.id, change)) == Replace(jobs, change.Apply(job))
  {
    var k :| 0 <= k < |jobs| && jobs[k] == job;
    assert forall i | 0 <= i < |jobs| && jobs[i].id == job.id :: i == k;
  }

  /** The update of a periodic job on its pick; the others are left as they are. */
  lemma StartedIsStored(jobs: seq<Job>, job: Job, now: int)
    requires IdsUnique(jobs) && job in jobs && job.status == PENDING
    ensures Started(job, now) in Replace(jobs, Started(job, now))
    ensures job.period.Some? ==>
      Map(jobs, Updating(job.id, SetObj(Some(PENDING), Some(now + job.period.value), None, None)))
      == Replace(jobs, Started(job, now))
    ensures job.period == None ==> Replace(jobs, Started(job, now)) == jobs
  {
    var k :| 0 <= k < |jobs| && jobs[k] == job;
    assert Replace(jobs, Started(job, now))[k] == Started(job, now);
    assert forall i | 0 <= i < |jobs| && jobs[i].id == job.id :: i == k;
    if job.period.Some? {
      UpdatingIsReplacing(jobs, job, SetObj(Some(PENDING), Some(now + job.period.value), None, None));
    }
  }

  lemma ReplacedTwice(jobs: seq<Job>, a: Job, b: Job)
    requires a.id == b.id
    ensures Replace(Replace(jobs, a), b) == Replace(jobs, b)
  {
  }
}
