/**
 JobDispatcher: a queue of timed jobs, ordered by their next time to run. Update runs every
 job that is due, and puts those that ask for it back with a later time, while it drains.
 */
module Jobs {

  /** A job's clock, with its next time to run, or none: a frequency of 0 makes the time after a run infinite. Its
      function is known by its results, its name and startDirect play no part here. */
  datatype Job = Job(time: real, never: bool, freq: real, catchUp: bool) {
    predicate Valid() {
      freq >= 0.0
    }

    function Period(): (p: real)
      requires freq != 0.0
      ensures p > 0.0 <==> freq > 0.0
      ensures p < 0.0 <==> freq < 0.0
    {
      PeriodHasSign(1000.0 / freq, freq);
      1000.0 / freq
    }

    /** UpdateTime: the next time counts from the old one for a catch-up job, from the clock for the others. */
    function Updated(now: real): Job {
      if freq == 0.0 then this.(never := true)
      else this.(time := (if catchUp then time else now) + Period())
    }

    predicate Due(now: real) {
      !never && time <= now
    }

    /** The order of the queue. */
    predicate NotAfter(j: Job) {
      j.never || (!never && time <= j.time)
    }

    /** How often the job runs in an Update at this clock, if it never asks to be dropped. */
    function Runs(now: real): (n: nat)
      requires Valid()
      ensures n > 0 <==> Due(now)
    {
      if !Due(now) then 0
      else if !catchUp || freq == 0.0 then 1
      else Nonnegative((now - time) / Period(), now - time, Period()); ((now - time) / Period()).Floor + 1
    }
  }

  lemma PeriodHasSign(p: real, freq: real)
    requires freq != 0.0 && p == 1000.0 / freq
    ensures (p > 0.0 <==> freq > 0.0) && (p < 0.0 <==> freq < 0.0)
  {
    assert p * freq == 1000.0;
    assert p >= 0.0 && freq < 0.0 ==> p * (-freq) >= 0.0;
    assert p <= 0.0 && freq > 0.0 ==> (-p) * freq >= 0.0;
  }

  lemma Nonnegative(q: real, x: real, p: real)
    requires p > 0.0 && q == x / p && x >= 0.0
    ensures q >= 0.0
  {
    assert q * p == x;
    assert q < 0.0 ==> q * p < 0.0;
  }

  lemma OnePeriodLess(x: real, p: real)
    requires p > 0.0
    ensures (x - p) / p == x / p - 1.0
  {
    var a, b := (x - p) / p, x / p - 1.0;
    assert a * p == b * p;
    assert a < b ==> (b - a) * p > 0.0;
    assert a > b ==> (a - b) * p > 0.0;
  }

  /** Each run takes one off the count, so a job cannot keep an Update going. */
  lemma RunsDecrease(j: Job, now: real)
    requires j.Valid() && j.Due(now)
    ensures j.Updated(now).Valid() && j.NotAfter(j.Updated(now)) && j.Updated(now) != j
    ensures j.Updated(now).Runs(now) == j.Runs(now) - 1
  {
    if j.catchUp && j.freq > 0.0 {
      OnePeriodLess(now - j.time, j.Period());
      assert now - j.Updated(now).time == (now - j.time) - j.Period();
      var p := j.Period();
      var q := (now - j.time) / p;
      assert q * p == now - j.time;
      if !j.Updated(now).Due(now) {
        assert q >= 1.0 ==> (q - 1.0) * p >= 0.0;
        Nonnegative(q, now - j.time, j.Period());
        assert q.Floor == 0;
      }
    }
  }

  // ---------------------------------------------------------------- the rate

  /** A thousand milliseconds hold as many steps from one time to the next as the frequency says. */
  lemma StepRate(j: Job, now: real)
    requires j.freq > 0.0
    ensures var next, base := j.Updated(now), if j.catchUp then j.time else now;
            (next.time - base) * j.freq == 1000.0 && next == j.(time := next.time)
  {
    assert j.Period() * j.freq == 1000.0;
  }

  lemma PeriodsByFrequency(x: real, p: real, freq: real)
    requires p > 0.0 && freq > 0.0 && p * freq == 1000.0
    ensures x / p == x * freq / 1000.0
  {
    var q := x / p;
    assert q * p == x;
    Regrouped(q, p, freq);
  }

  lemma Regrouped(q: real, p: real, freq: real)
    ensures q * p * freq == q * (p * freq)
  {
  }

  /** A due job runs once, or as often as it has fallen behind if it is to catch up. */
  lemma RunsRate(j: Job, now: real)
    requires j.freq > 0.0 && j.Due(now)
    ensures j.Runs(now) == if j.catchUp then ((now - j.time) * j.freq / 1000.0).Floor + 1 else 1
  {
    StepRate(j, now);
    PeriodsByFrequency(now - j.time, j.Period(), j.freq);
  }

  /** In every whole number of seconds a job with a whole frequency has that many runs a second to catch up. */
  lemma RunsInSeconds(j: Job, now: real, seconds: nat, freq: nat)
    requires j.freq == freq as real > 0.0 && j.catchUp && j.Due(now)
    ensures j.Runs(now + 1000.0 * seconds as real) == j.Runs(now) + seconds * freq
  {
    var later := now + 1000.0 * seconds as real;
    RunsRate(j, now);
    RunsRate(j, later);
    SecondsLater(now - j.time, later - j.time, seconds, freq);
  }

  lemma SecondsLater(x: real, y: real, seconds: nat, freq: nat)
    requires y == x + 1000.0 * seconds as real
    ensures (y * freq as real / 1000.0).Floor == (x * freq as real / 1000.0).Floor + seconds * freq
  {
    var f, k := freq as real, seconds as real;
    assert y * f == x * f + 1000.0 * (k * f);
    assert y * f / 1000.0 == x * f / 1000.0 + k * f;
    assert k * f == (seconds * freq) as real;
  }

  /** A job after n runs at one clock. */
  function Repeated(j: Job, now: real, n: nat): (r: Job)
    ensures r == j.(time := r.time, never := r.never)
  {
    if n == 0 then j else Repeated(j, now, n - 1).Updated(now)
  }

  lemma {:induction false} RepeatedRuns(j: Job, now: real, n: nat)
    requires j.Valid() && n <= j.Runs(now)
    ensures Repeated(j, now, n).Runs(now) == j.Runs(now) - n
  {
    if n > 0 {
      RepeatedRuns(j, now, n - 1);
      RunsDecrease(Repeated(j, now, n - 1), now);
    }
  }

  lemma {:induction false} NegativeStaysDue(j: Job, now: real, n: nat)
    requires j.freq < 0.0 && j.Due(now)
    ensures Repeated(j, now, n).Due(now)
  {
    if n > 0 {
      NegativeStaysDue(j, now, n - 1);
    }
  }

  /** A job that always asks for another run holds an Update up for ever exactly if its frequency is negative. */
  lemma EndlessExactlyIfNegative(j: Job, now: real)
    requires j.Due(now)
    ensures (forall n: nat :: Repeated(j, now, n).Due(now)) <==> j.freq < 0.0
  {
    if j.freq >= 0.0 {
      RepeatedRuns(j, now, j.Runs(now));
      assert !Repeated(j, now, j.Runs(now)).Due(now);
    } else {
      forall n: nat ensures Repeated(j, now, n).Due(now) {
        NegativeStaysDue(j, now, n);
      }
    }
  }

  // ---------------------------------------------------------------- one job on its own

  /** Whether the k-th call of a job's function, counted over its life, asks for another run. */
  type Outcomes = nat -> bool

  /** A job and how often it has run; dropped once its function has returned false. */
  datatype Fate = Queued(job: Job, runs: nat) | Dropped(runs: nat)

  /** One job alone through an Update at this clock. */
  function Alone(fate: Fate, again: Outcomes, now: real): Fate
    requires fate.Queued? ==> fate.job.Valid()
    decreases if fate.Queued? then fate.job.Runs(now) else 0
  {
    if fate.Dropped? || !fate.job.Due(now) then fate
    else if !again(fate.runs) then Dropped(fate.runs + 1)
    else
      RunsDecrease(fate.job, now);
      Alone(Queued(fate.job.Updated(now), fate.runs + 1), again, now)
  }

  predicate ValidFate(fate: Fate) {
    fate.Queued? ==> fate.job.Valid()
  }

  lemma {:induction false} AloneLeavesNothingDue(fate: Fate, again: Outcomes, now: real)
    requires ValidFate(fate)
    ensures var after := Alone(fate, again, now);
            ValidFate(after) && (after.Queued? ==> !after.job.Due(now)) && fate.runs <= after.runs
    decreases if fate.Queued? then fate.job.Runs(now) else 0
  {
    if fate.Queued? && fate.job.Due(now) && again(fate.runs) {
      RunsDecrease(fate.job, now);
      AloneLeavesNothingDue(Queued(fate.job.Updated(now), fate.runs + 1), again, now);
    }
  }

  /** A job whose function returns true at each of these runs makes exactly Runs(now) of them, and stays. */
  lemma {:induction false} AloneWithoutDrop(fate: Fate, again: Outcomes, now: real)
    requires fate.Queued? && fate.job.Valid()
    requires forall k :: fate.runs <= k < fate.runs + fate.job.Runs(now) ==> again(k)
    ensures var after := Alone(fate, again, now);
            && after.Queued? && after.runs == fate.runs + fate.job.Runs(now)
            && after.job.freq == fate.job.freq && after.job.catchUp == fate.job.catchUp
            && after.job.never == (fate.job.never || (fate.job.freq == 0.0 && fate.job.Due(now)))
            && after.job.time == (if fate.job.freq == 0.0 then fate.job.time
                                  else if fate.job.catchUp then fate.job.time + fate.job.Runs(now) as real * fate.job.Period()
                                  else if fate.job.Due(now) then now + fate.job.Period() else fate.job.time)
    decreases fate.job.Runs(now)
  {
    if fate.job.Due(now) {
      RunsDecrease(fate.job, now);
      AloneWithoutDrop(Queued(fate.job.Updated(now), fate.runs + 1), again, now);
      if fate.job.freq > 0.0 {
        OneMorePeriod(fate.job.Runs(now) - 1, fate.job.Period());
      }
    }
  }

  /** The run at which the function returns false for the first time is the last one. */
  lemma {:induction false} AloneUntilDrop(fate: Fate, again: Outcomes, now: real, n: nat)
    requires fate.Queued? && fate.job.Valid() && n < fate.job.Runs(now)
    requires (forall k :: fate.runs <= k < fate.runs + n ==> again(k)) && !again(fate.runs + n)
    ensures Alone(fate, again, now) == Dropped(fate.runs + n + 1)
    decreases n
  {
    if n > 0 {
      RunsDecrease(fate.job, now);
      AloneUntilDrop(Queued(fate.job.Updated(now), fate.runs + 1), again, now, n - 1);
    }
  }

  lemma OneMorePeriod(n: int, p: real)
    ensures n as real * p + p == (n + 1) as real * p
  {
  }

  /** The time of a catch-up job that is still waiting: one period on for every run since then, and never again after
      the first if its frequency is 0. */
  ghost predicate InStep(fate: Fate, after: Fate)
    requires ValidFate(fate)
  {
    fate.Queued? && after.Queued? ==>
      if fate.job.freq == 0.0 then after.job == fate.job.(never := fate.job.never || after.runs > fate.runs)
      else
        && after.job == fate.job.(time := after.job.time)
        && after.job.time == fate.job.time + (after.runs - fate.runs) as real * fate.job.Period()
  }

  /** Whatever its function returns, a catch-up job keeps its step through an Update, and its settings. */
  lemma {:induction false} CatchUpKeepsStep(fate: Fate, again: Outcomes, now: real)
    requires ValidFate(fate) && (fate.Queued? ==> fate.job.catchUp)
    ensures InStep(fate, Alone(fate, again, now))
    decreases if fate.Queued? then fate.job.Runs(now) else 0
  {
    if fate.Queued? && fate.job.Due(now) && again(fate.runs) {
      RunsDecrease(fate.job, now);
      var next := Queued(fate.job.Updated(now), fate.runs + 1);
      CatchUpKeepsStep(next, again, now);
      var after := Alone(fate, again, now);
      assert after == Alone(next, again, now);
      if fate.job.freq > 0.0 {
        OneMorePeriod(after.runs - fate.runs - 1, fate.job.Period());
      }
    }
  }

  /** Two Updates act on a catch-up job as one Update at the later clock does, whatever its function returns. */
  lemma {:induction false} TwoUpdatesAreOne(fate: Fate, again: Outcomes, first: real, second: real)
    requires ValidFate(fate) && (fate.Queued? ==> fate.job.catchUp)
    ensures ValidFate(Alone(fate, again, first))
    ensures Alone(Alone(fate, again, first), again, second) == Alone(fate, again, if first > second then first else second)
    decreases if fate.Queued? then fate.job.Runs(first) else 0
  {
    AloneLeavesNothingDue(fate, again, first);
    if fate.Queued? && fate.job.Due(first) && again(fate.runs) {
      RunsDecrease(fate.job, first);
      TwoUpdatesAreOne(Queued(fate.job.Updated(first), fate.runs + 1), again, first, second);
    }
  }

  /** A job through a sequence of Updates. */
  function Through(fate: Fate, again: Outcomes, clocks: seq<real>): Fate
    requires ValidFate(fate)
    decreases |clocks|
  {
    if clocks == [] then fate
    else
      AloneLeavesNothingDue(fate, again, clocks[0]);
      Through(Alone(fate, again, clocks[0]), again, clocks[1..])
  }

  function Latest(clocks: seq<real>): real
    requires clocks != []
  {
    if |clocks| == 1 then clocks[0]
    else if clocks[0] > Latest(clocks[1..]) then clocks[0] else Latest(clocks[1..])
  }

  lemma {:induction false} CatchUpStays(fate: Fate, again: Outcomes, now: real)
    requires ValidFate(fate) && (fate.Queued? ==> fate.job.catchUp)
    ensures var after := Alone(fate, again, now); after.Queued? ==> after.job.catchUp
    decreases if fate.Queued? then fate.job.Runs(now) else 0
  {
    if fate.Queued? && fate.job.Due(now) && again(fate.runs) {
      RunsDecrease(fate.job, now);
      CatchUpStays(Queued(fate.job.Updated(now), fate.runs + 1), again, now);
    }
  }

  /** After any Updates a catch-up job depends on the latest clock alone: how the time was cut up leaves no trace. */
  lemma {:induction false} CatchUpDependsOnLatestClock(fate: Fate, again: Outcomes, clocks: seq<real>)
    requires ValidFate(fate) && (fate.Queued? ==> fate.job.catchUp) && clocks != []
    ensures Through(fate, again, clocks) == Alone(fate, again, Latest(clocks))
    decreases |clocks|
  {
    var after := Alone(fate, again, clocks[0]);
    AloneLeavesNothingDue(fate, again, clocks[0]);
    CatchUpStays(fate, again, clocks[0]);
    if |clocks| == 1 {
      assert Through(after, again, clocks[1..]) == after;
    } else {
      CatchUpDependsOnLatestClock(after, again, clocks[1..]);
      TwoUpdatesAreOne(fate, again, clocks[0], Latest(clocks[1..]));
    }
  }

  /** So after any Updates its time is a whole number of periods from where it started, one for each run. */
  lemma CatchUpStaysInStep(fate: Fate, again: Outcomes, clocks: seq<real>)
    requires ValidFate(fate) && (fate.Queued? ==> fate.job.catchUp)
    ensures InStep(fate, Through(fate, again, clocks))
  {
    if clocks != [] {
      CatchUpDependsOnLatestClock(fate, again, clocks);
      CatchUpKeepsStep(fate, again, Latest(clocks));
    }
  }

  /** However the time is cut up by Updates, a catch-up job that is due and never returns false makes exactly as
      many runs a second as its whole frequency says, second for second. */
  lemma RunsAtItsFrequency(fate: Fate, again: Outcomes, clocks: seq<real>, more: seq<real>, seconds: nat, freq: nat)
    requires fate.Queued? && fate.job.catchUp && fate.job.freq == freq as real > 0.0 && forall k :: again(k)
    requires clocks != [] && fate.job.Due(Latest(clocks))
    requires Latest(clocks + more) == Latest(clocks) + 1000.0 * seconds as real
    ensures Through(fate, again, clocks + more).runs == Through(fate, again, clocks).runs + seconds * freq
  {
    var now, later := Latest(clocks), Latest(clocks + more);
    CatchUpDependsOnLatestClock(fate, again, clocks);
    CatchUpDependsOnLatestClock(fate, again, clocks + more);
    AloneWithoutDrop(fate, again, now);
    AloneWithoutDrop(fate, again, later);
    RunsInSeconds(fate.job, now, seconds, freq);
  }

  // ---------------------------------------------------------------- the queue

  ghost predicate ValidJobs(jobs: map<nat, Job>) {
    forall id :: id in jobs ==> jobs[id].Valid()
  }

  /** How many runs an Update at this clock makes, if no job asks to be dropped. */
  ghost function TotalRuns(jobs: map<nat, Job>, now: real): nat
    requires ValidJobs(jobs)
    decreases |jobs|
  {
    if jobs == map[] then 0
    else
      var id :| id in jobs;
      jobs[id].Runs(now) + TotalRuns(jobs - {id}, now)
  }

  lemma {:induction false} TotalRunsWithout(jobs: map<nat, Job>, now: real, id: nat)
    requires ValidJobs(jobs) && id in jobs
    ensures TotalRuns(jobs, now) == jobs[id].Runs(now) + TotalRuns(jobs - {id}, now)
    decreases |jobs|
  {
    var first :| first in jobs && TotalRuns(jobs, now) == jobs[first].Runs(now) + TotalRuns(jobs - {first}, now);
    if first != id {
      TotalRunsWithout(jobs - {first}, now, id);
      TotalRunsWithout(jobs - {id}, now, first);
      assert jobs - {first} - {id} == jobs - {id} - {first};
    }
  }

  lemma TotalRunsReplaced(jobs: map<nat, Job>, now: real, id: nat, j: Job)
    requires ValidJobs(jobs) && id in jobs && j.Valid()
    ensures TotalRuns(jobs[id := j], now) - j.Runs(now) == TotalRuns(jobs, now) - jobs[id].Runs(now)
  {
    TotalRunsWithout(jobs, now, id);
    TotalRunsWithout(jobs[id := j], now, id);
    assert jobs[id := j] - {id} == jobs - {id};
  }

  predicate IsTop(jobs: map<nat, Job>, id: nat) {
    id in jobs && forall k :: k in jobs ==> jobs[id].NotAfter(jobs[k])
  }

  lemma {:induction false} TopExists(jobs: map<nat, Job>)
    requires jobs != map[]
    ensures exists id :: IsTop(jobs, id)
    decreases |jobs|
  {
    var id :| id in jobs;
    var others := jobs - {id};
    assert forall k :: k in jobs && k != id ==> k in others && others[k] == jobs[k];
    if others == map[] {
      assert IsTop(jobs, id);
    } else {
      TopExists(others);
      var top :| IsTop(others, top);
      assert IsTop(jobs, if jobs[id].NotAfter(jobs[top]) then id else top);
    }
  }

  function OutcomesOf(again: (nat, nat) -> bool, id: nat): Outcomes {
    (k: nat) => again(id, k)
  }

  /** The queue's contents: the waiting jobs, and how often each job was called so far. */
  datatype Queue = Queue(jobs: map<nat, Job>, runs: map<nat, nat>) {
    ghost predicate Valid() {
      ValidJobs(jobs) && jobs.Keys <= runs.Keys
    }

    ghost function FateOf(id: nat): (fate: Fate)
      requires Valid() && id in runs
      ensures ValidFate(fate)
    {
      if id in jobs then Queued(jobs[id], runs[id]) else Dropped(runs[id])
    }

    /** The entry's job is called; it is put back later or dropped. */
    ghost function Step(id: nat, now: real, f: bool): Queue
      requires Valid() && id in jobs
    {
      Queue(if f then jobs[id := jobs[id].Updated(now)] else jobs - {id}, runs[id := runs[id] + 1])
    }

    /** Every entry still ends as it would have ended from the other state. */
    ghost predicate EndsAs(start: Queue, now: real, again: (nat, nat) -> bool)
      requires Valid() && start.Valid()
    {
      runs.Keys == start.runs.Keys && jobs.Keys <= start.jobs.Keys
      && forall id :: id in runs ==> SameEnd(start, id, now, again)
    }

    ghost predicate SameEnd(start: Queue, id: nat, now: real, again: (nat, nat) -> bool)
      requires Valid() && start.Valid() && id in runs && id in start.runs
    {
      EndOf(id, now, again) == start.EndOf(id, now, again)
    }

    ghost function EndOf(id: nat, now: real, again: (nat, nat) -> bool): Fate
      requires Valid() && id in runs
    {
      Alone(FateOf(id), OutcomesOf(again, id), now)
    }
  }

  lemma AloneStep(fate: Fate, again: Outcomes, now: real)
    requires fate.Queued? && fate.job.Valid() && fate.job.Due(now)
    ensures fate.job.Updated(now).Valid()
    ensures Alone(fate, again, now) ==
            Alone(if again(fate.runs) then Queued(fate.job.Updated(now), fate.runs + 1) else Dropped(fate.runs + 1), again, now)
  {
  }

  lemma StepFates(q: Queue, id: nat, now: real, f: bool)
    requires q.Valid() && id in q.jobs
    ensures var next := q.Step(id, now, f);
            && next.Valid() && next.runs.Keys == q.runs.Keys && next.jobs.Keys <= q.jobs.Keys
            && next.FateOf(id) == (if f then Queued(q.jobs[id].Updated(now), q.runs[id] + 1) else Dropped(q.runs[id] + 1))
            && forall k :: k in q.runs && k != id ==> next.FateOf(k) == q.FateOf(k)
  {
  }

  lemma StepSameEnd(q: Queue, id: nat, now: real, again: (nat, nat) -> bool, k: nat)
    requires q.Valid() && id in q.jobs && q.jobs[id].Due(now) && k in q.runs
    ensures var next := q.Step(id, now, again(id, q.runs[id]));
            next.Valid() && k in next.runs && next.SameEnd(q, k, now, again)
  {
    StepFates(q, id, now, again(id, q.runs[id]));
    if k == id {
      AloneStep(q.FateOf(id), OutcomesOf(again, id), now);
    }
  }

  lemma StepEndsAs(q: Queue, start: Queue, id: nat, now: real, again: (nat, nat) -> bool)
    requires q.Valid() && start.Valid() && q.EndsAs(start, now, again)
    requires id in q.jobs && q.jobs[id].Due(now)
    ensures var next := q.Step(id, now, again(id, q.runs[id])); next.Valid() && next.EndsAs(start, now, again)
  {
    var next := q.Step(id, now, again(id, q.runs[id]));
    StepFates(q, id, now, again(id, q.runs[id]));
    forall k | k in next.runs
      ensures next.SameEnd(start, k, now, again)
    {
      StepSameEnd(q, id, now, again, k);
      assert q.SameEnd(start, k, now, again);
    }
  }

  lemma AtRest(q: Queue, id: nat, now: real, again: (nat, nat) -> bool)
    requires q.Valid() && id in q.runs && NoneDue(q.jobs, now)
    ensures q.EndOf(id, now, again) == q.FateOf(id)
  {
  }

  /** n runs so far and those still to come are at most the runs due at the start, and exactly those without a drop. */
  ghost predicate Counted(n: nat, jobs: map<nat, Job>, start: map<nat, Job>, now: real)
    requires ValidJobs(jobs) && ValidJobs(start)
  {
    && jobs.Keys <= start.Keys
    && n + TotalRuns(jobs, now) <= TotalRuns(start, now)
    && (jobs.Keys == start.Keys ==> n + TotalRuns(jobs, now) == TotalRuns(start, now))
  }

  lemma StepCounted(n: nat, q: Queue, start: map<nat, Job>, id: nat, now: real, f: bool)
    requires q.Valid() && ValidJobs(start) && id in q.jobs && q.jobs[id].Due(now)
    requires Counted(n, q.jobs, start, now)
    ensures var next := q.Step(id, now, f);
            next.Valid() && TotalRuns(next.jobs, now) < TotalRuns(q.jobs, now) && Counted(n + 1, next.jobs, start, now)
  {
    RunsDecrease(q.jobs[id], now);
    TotalRunsWithout(q.jobs, now, id);
    TotalRunsReplaced(q.jobs, now, id, q.jobs[id].Updated(now));
  }

  ghost predicate NoneDue(jobs: map<nat, Job>, now: real) {
    forall id :: id in jobs ==> !jobs[id].Due(now)
  }

  lemma {:induction false} NoRunsLeft(jobs: map<nat, Job>, now: real)
    requires ValidJobs(jobs) && NoneDue(jobs, now)
    ensures TotalRuns(jobs, now) == 0
    decreases |jobs|
  {
    if jobs != map[] {
      var id :| id in jobs;
      TotalRunsWithout(jobs, now, id);
      NoRunsLeft(jobs - {id}, now);
    }
  }

  /** Once nothing is due, every entry is where it ends alone, and all runs have been made. */
  lemma NothingDue(n: nat, q: Queue, start: Queue, now: real, again: (nat, nat) -> bool)
    requires q.Valid() && start.Valid() && q.EndsAs(start, now, again) && NoneDue(q.jobs, now)
    requires Counted(n, q.jobs, start.jobs, now)
    ensures forall id :: id in q.runs ==> q.FateOf(id) == Alone(start.FateOf(id), OutcomesOf(again, id), now)
    ensures n <= TotalRuns(start.jobs, now)
    ensures q.jobs.Keys == start.jobs.Keys ==> n == TotalRuns(start.jobs, now)
  {
    NoRunsLeft(q.jobs, now);
    forall id | id in q.runs
      ensures q.FateOf(id) == Alone(start.FateOf(id), OutcomesOf(again, id), now)
    {
      AtRest(q, id, now, again);
      assert q.SameEnd(start, id, now, again);
    }
  }

  /** One run of a job: which job, and the time it was queued for. */
  datatype Run = Run(id: nat, time: real)

  /** The runs so far are in time order, and none was queued for later than what is waiting or than the clock. */
  ghost predicate Ordered(log: seq<Run>, jobs: map<nat, Job>, now: real) {
    && (forall i, k :: 0 <= i < k < |log| ==> log[i].time <= log[k].time)
    && (forall i :: 0 <= i < |log| ==> log[i].time <= now)
    && (forall i, id :: 0 <= i < |log| && id in jobs && !jobs[id].never ==> log[i].time <= jobs[id].time)
  }

  lemma StepOrdered(log: seq<Run>, q: Queue, id: nat, now: real, f: bool)
    requires q.Valid() && Ordered(log, q.jobs, now) && IsTop(q.jobs, id) && q.jobs[id].Due(now)
    ensures Ordered(log + [Run(id, q.jobs[id].time)], q.Step(id, now, f).jobs, now)
  {
    RunsDecrease(q.jobs[id], now);
  }

  /** Queue entries keep a number, by which they can be told apart; runs counts the calls of their functions. */
  class JobDispatcher {
    var jobs: map<nat, Job>
    var runs: map<nat, nat>
    var nextId: nat

    ghost function Contents(): Queue
      reads this
    {
      Queue(jobs, runs)
    }

    ghost predicate Numbered()
      reads this
    {
      jobs.Keys <= runs.Keys && forall id :: id in runs ==> id < nextId
    }

    ghost predicate Valid()
      reads this
    {
      Numbered() && ValidJobs(jobs)
    }

    constructor ()
      ensures Valid() && jobs == map[] && runs == map[]
    {
      jobs, runs, nextId := map[], map[], 0;
    }

    /** Any job may be added; the queue can be drained while no frequency is negative. */
    method AddTimedJob(j: Job) returns (id: nat)
      requires Numbered()
      modifies this
      ensures Numbered() && (old(Valid()) && j.Valid() ==> Valid())
      ensures id !in old(runs) && jobs == old(jobs)[id := j] && runs == old(runs)[id := 0]
    {
      id := nextId;
      jobs, runs, nextId := jobs[id := j], runs[id := 0], nextId + 1;
    }

    /** Pops a job, notes the call of its function, and puts it back with its new time if that returned true. */
    method Call(id: nat, now: real, f: bool)
      requires Valid() && id in jobs
      modifies this`jobs, this`runs
      ensures Valid() && Contents() == old(Contents()).Step(id, now, f)
    {
      var j := jobs[id];
      jobs := jobs - {id};
      runs := runs[id := runs[id] + 1];
      if !f {
        return;
      }
      jobs := jobs[id := j.Updated(now)];
      assert jobs == old(jobs)[id := j.Updated(now)];
    }

    /**
     Drains the queue in time order, any of the earliest entries first. Every entry ends as it would
     alone, and the log of runs is in time order. Without a drop the number of runs is TotalRuns.
     */
    method Update(now: real, again: (nat, nat) -> bool) returns (ghost log: seq<Run>)
      requires Valid()
      modifies this
      ensures Valid() && runs.Keys == old(runs.Keys) && jobs.Keys <= old(jobs.Keys)
      ensures forall id :: id in runs ==>
                Contents().FateOf(id) == Alone(old(Contents()).FateOf(id), OutcomesOf(again, id), now)
      ensures NoneDue(jobs, now)
      ensures Ordered(log, jobs, now)
      ensures |log| <= TotalRuns(old(jobs), now)
      ensures jobs.Keys == old(jobs.Keys) ==> |log| == TotalRuns(old(jobs), now)
    {
      log := [];
      ghost var start := Contents();
      while jobs != map[]
        invariant Valid() && Contents().EndsAs(start, now, again)
        invariant Ordered(log, jobs, now)
        invariant Counted(|log|, jobs, start.jobs, now)
        decreases TotalRuns(jobs, now)
      {
        TopExists(jobs);
        var id :| IsTop(jobs, id);
        var j := jobs[id];
        if !j.Due(now) {
          break;
        }
        var f := again(id, runs[id]);
        StepEndsAs(Contents(), start, id, now, again);
        StepCounted(|log|, Contents(), start.jobs, id, now, f);
        StepOrdered(log, Contents(), id, now, f);
        log := log + [Run(id, j.time)];
        Call(id, now, f);
      }
      NothingDue(|log|, Contents(), start, now, again);
    }
  }
}
