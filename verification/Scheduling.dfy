/** One poll of the job queue as a function of the collection, and what runs of polls guarantee
    (`poller.ts`). Polls do not overlap; the clock readings and the outcome of the action are inputs. */
module Scheduling {
  import opened Sequences
  import opened Documents

  datatype Status = PENDING | CANCELLED | FINISHED | INUSE | ERROR

  datatype Entry = Entry(time: int, failed: bool)

  datatype Job = Job(id: string, jobType: string, nextExecutionTime: int, period: Option<int>, priority: int,
                     history: seq<Entry>, counter: int, status: Status)

  datatype Config = Config(usePriority: bool, reExecuteFailedJobs: bool, failedJobDelayTime: int, maxAttempts: int)

  /** What the action did: it returned a result, returned nothing, or threw. */
  datatype Outcome = Returned(successful: bool) | NoResult | Threw

  function Failures(history: seq<Entry>): nat {
    if history == [] then 0
    else Failures(history[..|history| - 1]) + if history[|history| - 1].failed then 1 else 0
  }

  // ----- findNextJob --------------------------------------------------------

  function Pending(): Job -> bool { (j: Job) => j.status == PENDING }

  /** A periodic job is always included, whatever its next execution time. */
  function Included(cfg: Config, now: int): Job -> bool {
    (j: Job) =>
      j.period.Some?
      || (!(cfg.reExecuteFailedJobs && Failures(j.history) > cfg.maxAttempts) && now >= j.nextExecutionTime)
  }

  /** a is not after b: higher priority first where it counts, then the earlier time. */
  function Before(cfg: Config): (Job, Job) -> bool {
    (a: Job, b: Job) =>
      if cfg.usePriority && a.priority != b.priority then a.priority > b.priority
      else a.nextExecutionTime <= b.nextExecutionTime
  }

  function Available(jobs: seq<Job>, cfg: Config, now: int): seq<Job> {
    Filter(Filter(jobs, Pending()), Included(cfg, now))
  }

  function Pick(jobs: seq<Job>, cfg: Config, now: int): Option<Job> {
    var sorted := StableSort(Available(jobs, cfg, now), Before(cfg));
    if sorted == [] then None else Some(sorted[0])
  }

  function Started(j: Job, now: int): Job {
    if j.period.Some? then j.(nextExecutionTime := now + j.period.value, status := PENDING) else j
  }

  // ----- checkForJobs -------------------------------------------------------

  predicate Repeats(j: Job) { j.period.Some? && j.period.value != 0 }

  /** The stored job after its action. */
  function Settled(j: Job, cfg: Config, later: int, outcome: Outcome): Job {
    match outcome
    case Threw => j.(history := j.history + [Entry(later, true)])
    case NoResult =>
      if Repeats(j) then j.(status := PENDING, nextExecutionTime := later + j.period.value, counter := j.counter + 1)
      else j.(counter := j.counter + 1)
    case Returned(successful) =>
      j.(status := if Repeats(j) then PENDING else if successful then FINISHED else ERROR,
         nextExecutionTime :=
           if Repeats(j) then later + j.period.value
           else if !successful && j.counter < cfg.maxAttempts then later + cfg.failedJobDelayTime
           else j.nextExecutionTime,
         counter := j.counter + 1,
         history := j.history + [Entry(later, !successful)])
  }

  function Replacing(job: Job): Job -> Job { (j: Job) => if j.id == job.id then job else j }

  function Replace(jobs: seq<Job>, job: Job): seq<Job> { Map(jobs, Replacing(job)) }

  /** One poll. */
  function Poll(jobs: seq<Job>, cfg: Config, now: int, later: int, outcome: Outcome): seq<Job> {
    match Pick(jobs, cfg, now)
    case None => jobs
    case Some(j) => Replace(jobs, Settled(Started(j, now), cfg, later, outcome))
  }

  ghost predicate IdsUnique(jobs: seq<Job>) { forall i, j | 0 <= i < j < |jobs| :: jobs[i].id != jobs[j].id }

  // ----- what is picked -----------------------------------------------------

  lemma BeforeIsOrder(s: seq<Job>, cfg: Config)
    ensures TotalPreorderOn(s, Before(cfg))
  {
  }

  ghost predicate IsPick(available: seq<Job>, cfg: Config, p: Job) {
    exists i: nat :: IsFirstLeast(available, Before(cfg), i) && available[i] == p
  }

  /** The picked job is a pending, included one; none is ranked before it; of those ranked level it is
      the first in the collection. */
  lemma PickIsFirstLeast(jobs: seq<Job>, cfg: Config, now: int)
    ensures Pick(jobs, cfg, now) == None <==> forall j | j in jobs && j.status == PENDING :: !Included(cfg, now)(j)
    ensures Pick(jobs, cfg, now).Some? ==> IsPick(Available(jobs, cfg, now), cfg, Pick(jobs, cfg, now).value)
  {
    var s := Available(jobs, cfg, now);
    SortIsPermutation(s, Before(cfg));
    forall j
      ensures j in s <==> j in jobs && j.status == PENDING && Included(cfg, now)(j)
    {
      AvailableMember(jobs, cfg, now, j);
    }
    if s != [] {
      assert s[0] in s;
      BeforeIsOrder(s, cfg);
      var i := SortedHeadIsFirstLeast(s, Before(cfg));
    }
  }

  lemma AvailableMember(jobs: seq<Job>, cfg: Config, now: int, j: Job)
    ensures j in Available(jobs, cfg, now) <==> j in jobs && j.status == PENDING && Included(cfg, now)(j)
  {
    FilterMember(Filter(jobs, Pending()), Included(cfg, now), j);
    FilterMember(jobs, Pending(), j);
  }

  lemma PickedFacts(jobs: seq<Job>, cfg: Config, now: int)
    requires Pick(jobs, cfg, now).Some?
    ensures var p := Pick(jobs, cfg, now).value;
      && p in jobs && p.status == PENDING && Included(cfg, now)(p)
      && forall j | j in jobs && j.status == PENDING && Included(cfg, now)(j) :: Before(cfg)(p, j)
  {
    PickIsFirstLeast(jobs, cfg, now);
    var s := Available(jobs, cfg, now);
    var i: nat :| IsFirstLeast(s, Before(cfg), i) && s[i] == Pick(jobs, cfg, now).value;
    hide Pick, Available;
    AvailableMember(jobs, cfg, now, s[i]);
    forall j | j in jobs && j.status == PENDING && Included(cfg, now)(j) ensures Before(cfg)(s[i], j) {
      AvailableMember(jobs, cfg, now, j);
      var k :| 0 <= k < |s| && s[k] == j;
    }
  }

  /** What the code calls the next job. */
  predicate Ready(j: Job, cfg: Config, now: int) {
    && j.status == PENDING
    && (j.period == None ==>
          j.nextExecutionTime <= now && (cfg.reExecuteFailedJobs ==> Failures(j.history) <= cfg.maxAttempts))
  }

  /** The next job is a ready one of the highest priority, where priorities count, and the earliest of these;
      there is none only if no job is ready. */
  lemma NextJobIsBest(jobs: seq<Job>, cfg: Config, now: int)
    ensures Pick(jobs, cfg, now) == None <==> forall j | j in jobs :: !Ready(j, cfg, now)
    ensures Pick(jobs, cfg, now).Some? ==>
      var p := Pick(jobs, cfg, now).value;
      && p in jobs && Ready(p, cfg, now)
      && forall j | j in jobs && Ready(j, cfg, now) ::
           if cfg.usePriority && j.priority != p.priority then p.priority > j.priority
           else p.nextExecutionTime <= j.nextExecutionTime
  {
    PickIsFirstLeast(jobs, cfg, now);
    if Pick(jobs, cfg, now).Some? {
      PickedFacts(jobs, cfg, now);
    }
    hide Pick, Failures;
  }

  /** A ready job of higher priority is waiting. */
  ghost predicate Outranked(jobs: seq<Job>, cfg: Config, now: int, j: Job) {
    cfg.usePriority && exists k :: k in jobs && Ready(k, cfg, now) && k.priority > j.priority
  }

  /** The next job is run before its next execution time exactly when every ready job whose time has come is
      outranked; then it is a periodic one. */
  lemma RunsEarlyIff(jobs: seq<Job>, cfg: Config, now: int)
    requires Pick(jobs, cfg, now).Some?
    ensures Pick(jobs, cfg, now).value.nextExecutionTime > now
      <==> forall j | j in jobs && Ready(j, cfg, now) :: j.nextExecutionTime > now || Outranked(jobs, cfg, now, j)
    ensures Pick(jobs, cfg, now).value.nextExecutionTime > now ==> Pick(jobs, cfg, now).value.period.Some?
  {
    NextJobIsBest(jobs, cfg, now);
    hide Pick, Failures;
  }

  // ----- replacing a job ----------------------------------------------------

  lemma ReplaceKeeps(jobs: seq<Job>, job: Job)
    requires IdsUnique(jobs)
    ensures IdsUnique(Replace(jobs, job)) && |Replace(jobs, job)| == |jobs|
    ensures forall i | 0 <= i < |jobs| :: Replace(jobs, job)[i].id == jobs[i].id
  {
  }

  /** The job with the id, where there is one. */
  function Lookup(jobs: seq<Job>, id: string): (r: Option<Job>)
    ensures r.Some? ==> r.value in jobs && r.value.id == id
    ensures r.None? ==> forall j | j in jobs :: j.id != id
  {
    if jobs == [] then None else if jobs[0].id == id then Some(jobs[0]) else Lookup(jobs[1..], id)
  }

  lemma {:induction false} LookupReplaced(jobs: seq<Job>, job: Job, id: string)
    ensures Lookup(Replace(jobs, job), id)
         == if Lookup(jobs, id).Some? && id == job.id then Some(job) else Lookup(jobs, id)
  {
    if jobs != [] {
      LookupReplaced(jobs[1..], job, id);
      assert Replace(jobs, job)[1..] == Replace(jobs[1..], job);
    }
  }

  lemma {:induction false} LookupUnique(jobs: seq<Job>, j: Job)
    requires IdsUnique(jobs) && j in jobs
    ensures Lookup(jobs, j.id) == Some(j)
  {
    if jobs[0] != j {
      var k :| 0 <= k < |jobs| && jobs[k] == j;
      assert jobs[1..][k - 1] == j;
      assert IdsUnique(jobs[1..]);
      LookupUnique(jobs[1..], j);
    }
  }

  /** One poll changes the picked job only. */
  lemma PollChanges(jobs: seq<Job>, cfg: Config, now: int, later: int, outcome: Outcome, id: string)
    requires IdsUnique(jobs)
    ensures IdsUnique(Poll(jobs, cfg, now, later, outcome))
    ensures Lookup(Poll(jobs, cfg, now, later, outcome), id)
         == if Pick(jobs, cfg, now).Some? && Pick(jobs, cfg, now).value.id == id
            then Some(Settled(Started(Pick(jobs, cfg, now).value, now), cfg, later, outcome))
            else Lookup(jobs, id)
  {
    if Pick(jobs, cfg, now).Some? {
      var p := Pick(jobs, cfg, now).value;
      PickedFacts(jobs, cfg, now);
      LookupUnique(jobs, p);
      hide Pick;
      ReplaceKeeps(jobs, Settled(Started(p, now), cfg, later, outcome));
      LookupReplaced(jobs, Settled(Started(p, now), cfg, later, outcome), id);
    }
  }

  // ----- what a poll stores -------------------------------------------------

  /** The picked job p after the poll: what it is, its status, its next time, its counter and its history. */
  ghost predicate StoredAs(p: Job, q: Job, cfg: Config, t: Tick) {
    && q.id == p.id && q.jobType == p.jobType && q.period == p.period && q.priority == p.priority
    && (t.outcome == Returned(true) && (p.period == None || p.period == Some(0)) ==> q.status == FINISHED)
    && (t.outcome == Returned(false) && (p.period == None || p.period == Some(0)) ==> q.status == ERROR)
    && (!t.outcome.Returned? || (p.period.Some? && p.period != Some(0)) ==> q.status == PENDING)
    && (p.period.Some? && p.period != Some(0) ==>
          q.nextExecutionTime == (if t.outcome.Threw? then t.now else t.later) + p.period.value)
    && (p.period == None || p.period == Some(0) ==>
          q.nextExecutionTime ==
          if t.outcome == Returned(false) && p.counter < cfg.maxAttempts then t.later + cfg.failedJobDelayTime
          else if p.period == Some(0) then t.now else p.nextExecutionTime)
    && q.counter == (if t.outcome.Threw? then p.counter else p.counter + 1)
    && (t.outcome.NoResult? ==> q.history == p.history)
    && (!t.outcome.NoResult? ==> q.history == p.history + [Entry(t.later, t.outcome != Returned(true))])
  }

  /** The collections differ in the picked job only. */
  ghost predicate Polled(jobs: seq<Job>, after: seq<Job>, cfg: Config, t: Tick) {
    && |after| == |jobs|
    && forall i | 0 <= i < |jobs| ::
         if Picks(jobs, cfg, t, jobs[i].id) then jobs[i].status == PENDING && StoredAs(jobs[i], after[i], cfg, t)
         else after[i] == jobs[i]
  }

  /** A poll stores nothing but the picked job: a one-off job is FINISHED or ERROR as its action's result says, a
      periodic one stays PENDING with its next time a period later, the counter counts the actions that did not throw,
      and the history tells the result. */
  lemma PollStores(jobs: seq<Job>, cfg: Config, t: Tick, id: string)
    requires IdsUnique(jobs)
    ensures Polled(jobs, Next(jobs, cfg, t), cfg, t)
    ensures Picks(jobs, cfg, t, id) ==>
              Lookup(jobs, id).Some? && Lookup(Next(jobs, cfg, t), id).Some?
              && StoredAs(Lookup(jobs, id).value, Lookup(Next(jobs, cfg, t), id).value, cfg, t)
  {
    PollChanges(jobs, cfg, t.now, t.later, t.outcome, id);
    if Pick(jobs, cfg, t.now).Some? {
      var p := Pick(jobs, cfg, t.now).value;
      PickedFacts(jobs, cfg, t.now);
      LookupUnique(jobs, p);
      SettledIsStored(p, cfg, t);
      hide Pick, Included, Settled, Started, StoredAs, Before;
    }
  }

  lemma SettledIsStored(p: Job, cfg: Config, t: Tick)
    requires p.status == PENDING
    ensures StoredAs(p, Settled(Started(p, t.now), cfg, t.later, t.outcome), cfg, t)
  {
  }

  // ----- runs ---------------------------------------------------------------

  datatype Tick = Tick(now: int, later: int, outcome: Outcome)

  function Next(jobs: seq<Job>, cfg: Config, t: Tick): seq<Job> { Poll(jobs, cfg, t.now, t.later, t.outcome) }

  predicate Picks(jobs: seq<Job>, cfg: Config, t: Tick, id: string) {
    Pick(jobs, cfg, t.now).Some? && Pick(jobs, cfg, t.now).value.id == id
  }

  /** How often a run of polls executes the job's action. */
  function Executions(jobs: seq<Job>, cfg: Config, ticks: seq<Tick>, id: string): nat
    decreases |ticks|
  {
    if ticks == [] then 0
    else (if Picks(jobs, cfg, ticks[0], id) then 1 else 0) + Executions(Next(jobs, cfg, ticks[0]), cfg, ticks[1..], id)
  }

  /** How often such an execution ends without a result. */
  function Blanks(jobs: seq<Job>, cfg: Config, ticks: seq<Tick>, id: string): nat
    decreases |ticks|
  {
    if ticks == [] then 0
    else
      (if Picks(jobs, cfg, ticks[0], id) && ticks[0].outcome.NoResult? then 1 else 0)
      + Blanks(Next(jobs, cfg, ticks[0]), cfg, ticks[1..], id)
  }

  function After(jobs: seq<Job>, cfg: Config, ticks: seq<Tick>): seq<Job>
    decreases |ticks|
  {
    if ticks == [] then jobs else After(Next(jobs, cfg, ticks[0]), cfg, ticks[1..])
  }

  // ----- bounded retry ------------------------------------------------------

  predicate OneOff(j: Option<Job>) { j.Some? && j.value.period == None }

  /** The attempts the job has left. */
  function Budget(j: Option<Job>, cfg: Config): nat {
    if j.Some? && j.value.status == PENDING && Failures(j.value.history) <= cfg.maxAttempts then
      cfg.maxAttempts + 1 - Failures(j.value.history)
    else 0
  }

  lemma FailuresPush(h: seq<Entry>, e: Entry)
    ensures Failures(h + [e]) == Failures(h) + if e.failed then 1 else 0
  {
    assert (h + [e])[..|h|] == h;
  }

  /** One execution of a one-off job: it stays PENDING only when the action throws or gives no result, each
      throw adds one FAILED entry, and the attempts left go down unless there was no result. */
  predicate Attempted(before: Job, after: Job, cfg: Config, outcome: Outcome) {
    && before.status == PENDING && Budget(Some(before), cfg) > 0
    && before.history <= after.history
    && (after.status == PENDING <==> !outcome.Returned?)
    && Failures(after.history) == Failures(before.history) + (if outcome in {Threw, Returned(false)} then 1 else 0)
    && (!outcome.Returned? ==> Budget(Some(after), cfg) == Budget(Some(before), cfg) - if outcome.Threw? then 1 else 0)
    && (outcome.Returned? ==> Budget(Some(after), cfg) == 0)
  }

  lemma SettledIsAttempted(p: Job, cfg: Config, t: Tick)
    requires p.period == None && p.status == PENDING && Included(cfg, t.now)(p) && cfg.reExecuteFailedJobs
    ensures Attempted(p, Settled(Started(p, t.now), cfg, t.later, t.outcome), cfg, t.outcome)
  {
    FailuresPush(p.history, Entry(t.later, true));
    FailuresPush(p.history, Entry(t.later, false));
    hide Failures;
  }

  lemma OneOffStep(jobs: seq<Job>, cfg: Config, t: Tick, id: string)
    requires IdsUnique(jobs) && cfg.reExecuteFailedJobs && OneOff(Lookup(jobs, id))
    ensures OneOff(Lookup(Next(jobs, cfg, t), id)) && IdsUnique(Next(jobs, cfg, t))
    ensures !Picks(jobs, cfg, t, id) ==> Lookup(Next(jobs, cfg, t), id) == Lookup(jobs, id)
    ensures Picks(jobs, cfg, t, id) ==>
      Attempted(Lookup(jobs, id).value, Lookup(Next(jobs, cfg, t), id).value, cfg, t.outcome)
  {
    PollChanges(jobs, cfg, t.now, t.later, t.outcome, id);
    if Picks(jobs, cfg, t, id) {
      PickedFacts(jobs, cfg, t.now);
      LookupUnique(jobs, Pick(jobs, cfg, t.now).value);
      SettledIsAttempted(Lookup(jobs, id).value, cfg, t);
      hide Pick, Failures, Attempted, Lookup, IdsUnique, Included;
    }
  }

  /** A one-off job's action runs at most maxAttempts + 1 times, not counting executions without a result. */
  lemma {:induction false} BoundedRetry(jobs: seq<Job>, cfg: Config, ticks: seq<Tick>, id: string)
    requires IdsUnique(jobs) && cfg.reExecuteFailedJobs && OneOff(Lookup(jobs, id))
    ensures Executions(jobs, cfg, ticks, id) <= Budget(Lookup(jobs, id), cfg) + Blanks(jobs, cfg, ticks, id)
    ensures cfg.maxAttempts >= 0 ==>
      Executions(jobs, cfg, ticks, id) <= cfg.maxAttempts + 1 + Blanks(jobs, cfg, ticks, id)
    decreases |ticks|
  {
    if ticks != [] {
      OneOffStep(jobs, cfg, ticks[0], id);
      hide Next, Picks, Failures;
      BoundedRetry(Next(jobs, cfg, ticks[0]), cfg, ticks[1..], id);
    }
  }

  function BlankTicks(n: nat, now: int): seq<Tick> { seq(n, i => Tick(now, now, NoResult)) }

  /** The exception is needed: an action that never gives a result is executed on every poll. */
  lemma {:induction false} NoResultNeverStops(j: Job, cfg: Config, n: nat)
    requires j.status == PENDING && j.period == None && Failures(j.history) <= cfg.maxAttempts
    ensures Executions([j], cfg, BlankTicks(n, j.nextExecutionTime), j.id) == n
    decreases n
  {
    if n > 0 {
      var t := Tick(j.nextExecutionTime, j.nextExecutionTime, NoResult);
      assert BlankTicks(n, j.nextExecutionTime)[1..] == BlankTicks(n - 1, j.nextExecutionTime);
      PickAlone(j, cfg, t.now);
      var k := j.(counter := j.counter + 1);
      assert Next([j], cfg, t) == [k];
      hide Next, Picks;
      NoResultNeverStops(k, cfg, n - 1);
    }
  }

  lemma PickAlone(j: Job, cfg: Config, now: int)
    requires j.status == PENDING && Included(cfg, now)(j)
    ensures Pick([j], cfg, now) == Some(j)
  {
    assert [j][1..] == [];
    assert Filter([j], Pending()) == [j] + Filter([], Pending());
    assert Filter([j], Included(cfg, now)) == [j] + Filter([], Included(cfg, now));
    assert StableSort([j], Before(cfg)) == [j];
  }

  /** A periodic job may run before its next execution time: alone, it is picked at any time. */
  lemma PeriodicRunsEarly(j: Job, cfg: Config, now: int)
    requires j.status == PENDING && j.period.Some?
    ensures Pick([j], cfg, now) == Some(j)
  {
    PickAlone(j, cfg, now);
  }

  /** Once the action of a one-off job returned, successfully or not, it is never executed again. */
  lemma {:induction false} ReturnedIsFinal(jobs: seq<Job>, cfg: Config, ticks: seq<Tick>, id: string)
    requires IdsUnique(jobs) && Lookup(jobs, id).Some? && Lookup(jobs, id).value.status != PENDING
    ensures Executions(jobs, cfg, ticks, id) == 0
    ensures Lookup(After(jobs, cfg, ticks), id) == Lookup(jobs, id)
    decreases |ticks|
  {
    if ticks != [] {
      var t := ticks[0];
      if Pick(jobs, cfg, t.now).Some? {
        PickedFacts(jobs, cfg, t.now);
        LookupUnique(jobs, Pick(jobs, cfg, t.now).value);
      }
      PollChanges(jobs, cfg, t.now, t.later, t.outcome, id);
      hide Pick;
      ReturnedIsFinal(Next(jobs, cfg, t), cfg, ticks[1..], id);
    }
  }

  /** A one-off job whose action always returns a result runs once, even if every result is a failure. */
  lemma {:induction false} ReturningJobRunsOnce(jobs: seq<Job>, cfg: Config, ticks: seq<Tick>, id: string)
    requires IdsUnique(jobs) && OneOff(Lookup(jobs, id)) && forall i | 0 <= i < |ticks| :: ticks[i].outcome.Returned?
    ensures Executions(jobs, cfg, ticks, id) <= 1
    decreases |ticks|
  {
    if ticks != [] {
      var t, next := ticks[0], Next(jobs, cfg, ticks[0]);
      PollChanges(jobs, cfg, t.now, t.later, t.outcome, id);
      if Picks(jobs, cfg, t, id) {
        PickedFacts(jobs, cfg, t.now);
        LookupUnique(jobs, Pick(jobs, cfg, t.now).value);
        ReturnedIsFinal(next, cfg, ticks[1..], id);
      } else {
        hide Pick, Picks, Poll;
        ReturningJobRunsOnce(next, cfg, ticks[1..], id);
      }
    }
  }

  // ----- no starvation ------------------------------------------------------

  predicate IsPending(jobs: seq<Job>, id: string) { Lookup(jobs, id).Some? && Lookup(jobs, id).value.status == PENDING }

  /** Every pending job is periodic, and none has a higher priority that counts. */
  ghost predicate AllPeriodic(jobs: seq<Job>, cfg: Config) {
    && (forall j | j in jobs && j.status == PENDING :: j.period.Some? && j.period.value > 0)
    && forall i, j | i in jobs && j in jobs && i.status == PENDING && j.status == PENDING ::
         !cfg.usePriority || i.priority == j.priority
  }

  /** The polls do not overlap and the clock does not go back. */
  ghost predicate ClockRuns(ticks: seq<Tick>, start: int) {
    && (forall i | 0 <= i < |ticks| :: start <= ticks[i].now <= ticks[i].later)
    && forall i, k | 0 <= i < k < |ticks| :: ticks[i].later <= ticks[k].now
  }

  /** The pending jobs that are not after the given time. */
  function Due(id: string, time: int): Job -> bool {
    (j: Job) => j.status == PENDING && j.id != id && j.nextExecutionTime <= time
  }

  function Ahead(jobs: seq<Job>, id: string, time: int): nat { |Filter(jobs, Due(id, time))| }

  /** A job that is put behind the given time leaves the ones ahead. */
  lemma {:induction false} ReplaceAhead(jobs: seq<Job>, p: Job, q: Job, id: string, time: int)
    requires IdsUnique(jobs) && p in jobs && q.id == p.id && Due(id, time)(p) && !Due(id, time)(q)
    ensures Ahead(Replace(jobs, q), id, time) == Ahead(jobs, id, time) - 1
  {
    var rest := jobs[1..];
    assert Replace(jobs, q)[1..] == Replace(rest, q);
    assert forall i | 0 <= i < |rest| :: rest[i] == jobs[i + 1];
    if jobs[0].id == p.id {
      assert jobs[0] == p;
      assert Replace(rest, q) == rest;
    } else {
      assert p in rest;
      ReplaceAhead(rest, p, q, id, time);
    }
  }

  lemma {:induction false} AheadOfAll(jobs: seq<Job>, id: string, time: int)
    requires IdsUnique(jobs) && IsPending(jobs, id)
    ensures Ahead(jobs, id, time) + 1 <= |Filter(jobs, Pending())|
  {
    var rest := jobs[1..];
    assert forall i | 0 <= i < |rest| :: rest[i] == jobs[i + 1];
    if jobs[0].id == id {
      FilterShorter(rest, Due(id, time), Pending());
    } else {
      AheadOfAll(rest, id, time);
    }
  }

  lemma {:induction false} FilterShorter<T>(s: seq<T>, p: T -> bool, q: T -> bool)
    requires forall x | x in s && p(x) :: q(x)
    ensures |Filter(s, p)| <= |Filter(s, q)|
  {
    if s != [] {
      assert forall x | x in s[1..] :: x in s;
      FilterShorter(s[1..], p, q);
    }
  }

  /** One poll that does not pick the job picks one of those ahead and puts it behind. */
  lemma StarvationStep(jobs: seq<Job>, cfg: Config, t: Tick, id: string, time: int)
    requires IdsUnique(jobs) && AllPeriodic(jobs, cfg) && IsPending(jobs, id)
    requires Lookup(jobs, id).value.nextExecutionTime == time && time <= t.now <= t.later
    requires !Picks(jobs, cfg, t, id)
    ensures IdsUnique(Next(jobs, cfg, t)) && AllPeriodic(Next(jobs, cfg, t), cfg) && IsPending(Next(jobs, cfg, t), id)
    ensures Lookup(Next(jobs, cfg, t), id) == Lookup(jobs, id)
    ensures Ahead(Next(jobs, cfg, t), id, time) == Ahead(jobs, id, time) - 1
  {
    var j := Lookup(jobs, id).value;
    DuePicked(jobs, cfg, t.now, j);
    PollChanges(jobs, cfg, t.now, t.later, t.outcome, id);
    var p := Pick(jobs, cfg, t.now).value;
    var q := Settled(Started(p, t.now), cfg, t.later, t.outcome);
    GoesBehind(p, cfg, t);
    assert Next(jobs, cfg, t) == Replace(jobs, q);
    hide Pick, Settled, Started, Failures, Next, Poll;
    ReplaceAhead(jobs, p, q, id, time);
    ReplaceKeepsPeriodic(jobs, cfg, p, q);
  }

  /** Where a due periodic job waits, the picked job is due as well. */
  lemma DuePicked(jobs: seq<Job>, cfg: Config, now: int, j: Job)
    requires AllPeriodic(jobs, cfg) && j in jobs && j.status == PENDING
    ensures Pick(jobs, cfg, now).Some? && Pick(jobs, cfg, now).value in jobs
    ensures Pick(jobs, cfg, now).value.status == PENDING
    ensures Pick(jobs, cfg, now).value.nextExecutionTime <= j.nextExecutionTime
  {
    PickIsFirstLeast(jobs, cfg, now);
    assert Included(cfg, now)(j);
    PickedFacts(jobs, cfg, now);
    hide Pick, Failures, IsPick;
  }

  lemma GoesBehind(p: Job, cfg: Config, t: Tick)
    requires p.period.Some? && p.period.value > 0 && p.status == PENDING && t.now <= t.later
    ensures var q := Settled(Started(p, t.now), cfg, t.later, t.outcome);
      && q.id == p.id && q.status == PENDING && q.nextExecutionTime > t.now
      && q.period == p.period && q.priority == p.priority
  {
  }

  lemma ReplaceKeepsPeriodic(jobs: seq<Job>, cfg: Config, p: Job, q: Job)
    requires AllPeriodic(jobs, cfg) && p in jobs && p.status == PENDING
    requires q.period == p.period && q.priority == p.priority
    ensures AllPeriodic(Replace(jobs, q), cfg)
  {
    forall i | i in Replace(jobs, q) ensures i == q || i in jobs {
      var k :| 0 <= k < |jobs| && Replace(jobs, q)[k] == i;
    }
    hide Replace;
  }

  ghost predicate PicksWithin(jobs: seq<Job>, cfg: Config, ticks: seq<Tick>, id: string, n: nat)
    requires n <= |ticks|
  {
    exists k :: 0 <= k < n && Picks(After(jobs, cfg, ticks[..k]), cfg, ticks[k], id)
  }

  lemma {:induction false} PickedBehindAhead(jobs: seq<Job>, cfg: Config, ticks: seq<Tick>, id: string, time: int)
    returns (k: nat)
    requires IdsUnique(jobs) && AllPeriodic(jobs, cfg) && IsPending(jobs, id)
    requires Lookup(jobs, id).value.nextExecutionTime == time
    requires ClockRuns(ticks, time) && Ahead(jobs, id, time) < |ticks|
    ensures k <= Ahead(jobs, id, time) && Picks(After(jobs, cfg, ticks[..k]), cfg, ticks[k], id)
    decreases |ticks|
  {
    hide Next, Picks, AllPeriodic, Lookup, Ahead, IdsUnique;
    var t := ticks[0];
    if Picks(jobs, cfg, t, id) {
      k := 0;
      assert ticks[..0] == [];
    } else {
      StarvationStep(jobs, cfg, t, id, time);
      var rest := ticks[1..];
      assert forall i | 0 <= i < |rest| :: rest[i] == ticks[i + 1];
      var m := PickedBehindAhead(Next(jobs, cfg, t), cfg, rest, id, time);
      k := m + 1;
      assert ticks[..k][0] == t && ticks[..k][1..] == rest[..m];
    }
  }

  /** No starvation: once the clock reaches a job's next execution time, one of the next N polls picks it,
      N being the number of pending jobs, whatever the periods and whatever the actions do. */
  lemma NoStarvation(jobs: seq<Job>, cfg: Config, ticks: seq<Tick>, id: string)
    requires IdsUnique(jobs) && AllPeriodic(jobs, cfg) && IsPending(jobs, id)
    requires ClockRuns(ticks, Lookup(jobs, id).value.nextExecutionTime)
    requires |Filter(jobs, Pending())| <= |ticks|
    ensures PicksWithin(jobs, cfg, ticks, id, |Filter(jobs, Pending())|)
  {
    var time := Lookup(jobs, id).value.nextExecutionTime;
    AheadOfAll(jobs, id, time);
    var k := PickedBehindAhead(jobs, cfg, ticks, id, time);
  }
}
