/** The queue over whole runs, under any number of schedulers: fetches of one check keep their
    distance, and no due check is passed over for long. */
module SchedulerRuns {
  import opened Counting
  import opened Scheduler

  /** `fetches` is the history: the times at which each check was fetched. */
  datatype Queue = Queue(now: int, checks: Table, fetches: map<int, seq<int>>, nextID: int)

  /** A fetch by any scheduler; also one whose caller saw an error after a durable bump. */
  datatype Step =
    | Advance(d: nat)
    | Create(interval: int)
    | Delete(c: int)
    | Fetch(limit: int, locked: set<int>, ids: seq<int>)

  predicate Enabled(q: Queue, step: Step) {
    match step
    case Advance(_) => true
    case Create(_) => true
    case Delete(c) => c in q.checks
    case Fetch(limit, locked, ids) => Fetchable(q.checks, q.now, Limit(limit), locked, ids)
  }

  function Apply(q: Queue, step: Step): Queue
    requires Enabled(q, step)
  {
    match step
    case Advance(d) => q.(now := q.now + d)
    case Create(interval) =>
      q.(checks := q.checks[q.nextID := Check(true, if interval < 0 then 0 else interval, q.now)],
         fetches := q.fetches[q.nextID := []], nextID := q.nextID + 1)
    case Delete(c) => q.(checks := q.checks - {c})
    case Fetch(_, _, ids) =>
      q.(checks := Bumped(q.checks, ids, q.now),
         fetches := map c | c in q.fetches :: if c in ids then q.fetches[c] + [q.now] else q.fetches[c])
  }

  ghost predicate Legal(q: Queue, steps: seq<Step>)
    decreases |steps|, 0
  {
    steps == [] ||
    (Legal(q, steps[..|steps| - 1]) && Enabled(Run(q, steps[..|steps| - 1]), steps[|steps| - 1]))
  }

  ghost function Run(q: Queue, steps: seq<Step>): Queue
    requires Legal(q, steps)
    decreases |steps|, 1
  {
    if steps == [] then q else Apply(Run(q, steps[..|steps| - 1]), steps[|steps| - 1])
  }

  function Init(now: int): Queue {
    Queue(now, map[], map[], 0)
  }

  /** The steps are what the calls do to the table: a new check is active, due now, its interval not
      negative; a fetch is one that the repository can make, and it is remembered. */
  lemma StepsAreCalls(q: Queue, step: Step)
    requires Enabled(q, step)
    ensures step.Create? ==>
              Apply(q, step).checks
              == q.checks[q.nextID := Check(true, if step.interval < 0 then 0 else step.interval, q.now)]
    ensures step.Fetch? ==> RightlyFetched(q.checks, Apply(q, step).checks, step.limit, q.now, step.locked, step.ids)
    ensures step.Fetch? ==>
              && Apply(q, step).fetches.Keys == q.fetches.Keys
              && forall c :: c in q.fetches ==>
                   Apply(q, step).fetches[c] == q.fetches[c] + if c in step.ids then [q.now] else []
    ensures step.Advance? ==> Apply(q, step) == q.(now := q.now + step.d)
  {
    if step.Fetch? {
      FetchedRightly(q.checks, step.limit, q.now, step.locked, step.ids);
    }
  }

  /** The last fetch of a check set its next run one interval later. */
  predicate CheckOk(c: Check, times: seq<int>, now: int) {
    && Apart(times, c.interval * SECOND)
    && (times != [] ==> times[|times| - 1] <= now && c.nextRun == times[|times| - 1] + c.interval * SECOND)
  }

  ghost predicate Inv(q: Queue) {
    && (forall c :: c in q.checks ==> c < q.nextID && c in q.fetches)
    && (forall c :: c in q.checks ==> CheckOk(q.checks[c], q.fetches[c], q.now))
  }

  lemma StepInv(q: Queue, step: Step)
    requires Inv(q) && Enabled(q, step)
    ensures Inv(Apply(q, step))
  {
    var q' := Apply(q, step);
    forall c | c in q'.checks
      ensures CheckOk(q'.checks[c], q'.fetches[c], q'.now)
    {
      if step.Fetch? && c in step.ids {
        assert CheckOk(q.checks[c], q.fetches[c], q.now) && Due(q.checks[c], q.now);
      }
    }
  }

  lemma {:induction false} RunInv(q: Queue, steps: seq<Step>)
    requires Inv(q) && Legal(q, steps)
    ensures Inv(Run(q, steps))
    decreases |steps|
  {
    if steps != [] {
      RunInv(q, steps[..|steps| - 1]);
      StepInv(Run(q, steps[..|steps| - 1]), steps[|steps| - 1]);
    }
  }

  /** Two fetches of one check are at least its interval apart, and a window of time holds at most
      1 + width/interval of them, whatever the schedulers do. */
  lemma FetchSpacing(now: int, steps: seq<Step>, c: int, from: int, width: nat)
    requires Legal(Init(now), steps) && c in Run(Init(now), steps).checks
    ensures var q := Run(Init(now), steps);
            var gap := q.checks[c].interval * 1_000_000;
            && c in q.fetches
            && (forall i, j :: 0 <= i < j < |q.fetches[c]| ==> q.fetches[c][j] - q.fetches[c][i] >= (j - i) * gap)
            && (gap > 0 ==> |InWindow(q.fetches[c], from, width)| <= 1 + width / gap)
  {
    var q := Run(Init(now), steps);
    RunInv(Init(now), steps);
    assert CheckOk(q.checks[c], q.fetches[c], q.now);
    var gap := q.checks[c].interval * SECOND;
    forall i, j | 0 <= i < j < |q.fetches[c]|
      ensures q.fetches[c][j] - q.fetches[c][i] >= (j - i) * gap
    {
      ApartSpan(q.fetches[c], gap, i, j);
    }
    if gap > 0 {
      WindowCount(q.fetches[c], gap, from, width);
    }
  }

  // ----- no starvation

  /** The other active checks that stand at or before `c` in the queue. */
  function Ahead(t: Table, c: int): set<int>
    requires c in t
  {
    set b | b in t && b != c && t[b].active && t[b].nextRun <= t[c].nextRun
  }

  /** The check is active and its next run has passed. */
  predicate Overdue(q: Queue, c: int) {
    c in q.checks && q.checks[c].active && q.checks[c].nextRun < q.now
  }

  predicate Touches(step: Step, c: int) {
    (step.Fetch? && c in step.ids) || step == Delete(c)
  }

  /** A tick that finds no row locked and asks for at least `limit` checks; without a limit of its own it
      asks for 100. */
  predicate FullTick(step: Step, limit: nat) {
    step.Fetch? && step.locked == {} && (if step.limit > 0 then step.limit else 100) >= limit
  }

  function FullTicks(steps: seq<Step>, limit: nat): nat {
    if steps == [] then 0
    else FullTicks(steps[..|steps| - 1], limit) + if FullTick(steps[|steps| - 1], limit) then 1 else 0
  }

  /** A step that leaves `c` alone puts nobody ahead of it, and a full tick takes away `limit` of
      those who were: everything bumped or created lands behind. */
  lemma StepAhead(q: Queue, step: Step, c: int, limit: nat)
    requires Inv(q) && Enabled(q, step) && Overdue(q, c) && !Touches(step, c)
    ensures var q' := Apply(q, step);
            && Overdue(q', c)
            && Ahead(q'.checks, c) <= Ahead(q.checks, c)
            && (FullTick(step, limit) ==> |Ahead(q'.checks, c)| + limit <= |Ahead(q.checks, c)|)
  {
    var q' := Apply(q, step);
    var before, after := Ahead(q.checks, c), Ahead(q'.checks, c);
    if step.Fetch? {
      forall b | b in step.ids
        ensures b !in after
      {
        assert q'.checks[b].nextRun >= q.now;
      }
      if FullTick(step, limit) {
        assert Due(q.checks[c], q.now);
        DistinctSize(step.ids);
        assert ToSet(step.ids) <= before;
        assert after <= before - ToSet(step.ids);
        SubsetSize(after, before - ToSet(step.ids));
        DifferenceSize(before, ToSet(step.ids));
      }
    }
  }

  lemma {:induction false} PassedOver(q: Queue, steps: seq<Step>, c: int, limit: nat)
    requires Inv(q) && Legal(q, steps) && Overdue(q, c)
    requires forall i :: 0 <= i < |steps| ==> !Touches(steps[i], c)
    ensures Overdue(Run(q, steps), c)
    ensures |Ahead(Run(q, steps).checks, c)| + FullTicks(steps, limit) * limit <= |Ahead(q.checks, c)|
    decreases |steps|
  {
    if steps != [] {
      var rest, last := steps[..|steps| - 1], steps[|steps| - 1];
      var mid := Run(q, rest);
      assert forall i :: 0 <= i < |rest| ==> !Touches(rest[i], c);
      PassedOver(q, rest, c, limit);
      RunInv(q, rest);
      StepAhead(mid, last, c, limit);
      SubsetSize(Ahead(Apply(mid, last).checks, c), Ahead(mid.checks, c));
      OneMore(FullTicks(rest, limit), limit);
    }
  }

  /** No starvation: an overdue check with r active checks at or before it is fetched (or deleted)
      before floor(r / L) + 1 full ticks of limit L have gone by, whatever else happens among them:
      other schedulers, skipped rows, new and deleted checks. */
  lemma NoStarvation(q: Queue, steps: seq<Step>, c: int, limit: nat)
    requires Inv(q) && Legal(q, steps) && Overdue(q, c)
    requires limit > 0 && FullTicks(steps, limit) >= |Ahead(q.checks, c)| / limit + 1
    ensures exists i :: 0 <= i < |steps| && Touches(steps[i], c)
  {
    if forall i :: 0 <= i < |steps| ==> !Touches(steps[i], c) {
      PassedOver(q, steps, c, limit);
      DivideBound(FullTicks(steps, limit), limit, |Ahead(q.checks, c)|);
      assert false;
    }
  }
}
