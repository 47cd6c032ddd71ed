/** How close together one row can be published.  Leases are spaced, but a worker may publish late:
    a bound on publishes per window of publish time does not hold, and this module says exactly
    what does. */
module OutboxSpacing {
  import opened Counting
  import opened StatusEvents
  import opened OutboxTable
  import opened OutboxProtocol
  import opened OutboxInvariant
  import opened OutboxGuarantees

  function PublishedUnder(ls: seq<int>, ts: seq<Try>, from: int, width: int): set<int> {
    set i | 0 <= i < |ts| && ts[i].ok && ts[i].lease < |ls| && from <= ls[ts[i].lease] <= from + width
  }

  /** At most 1 + width/ttl successful publishes of a row belong to leases begun within a window. */
  lemma PublishesPerLeaseWindow(cfg: Config, now: int, workers: nat, steps: seq<Step>, k: Key, from: int, width: nat)
    requires cfg.ttl > 0 && Legal(cfg, Init(now, workers), steps)
    requires k in Run(cfg, Init(now, workers), steps).rows
    ensures var s := Run(cfg, Init(now, workers), steps);
            k in s.leases && k in s.tries
            && |PublishedUnder(s.leases[k], s.tries[k], from, width)| <= 1 + width / cfg.ttl
  {
    var s := Run(cfg, Init(now, workers), steps);
    Reachable(cfg, now, workers, steps);
    PicksInWindow(cfg, now, workers, steps, k, from, width);
    assert RowOk(cfg, s.now, s.rows[k], s.leases[k], s.tries[k]);
    InjectionSize(PublishedUnder(s.leases[k], s.tries[k], from, width), LeaseOf(s.tries[k]),
                  InWindow(s.leases[k], from, width));
  }

  /** Every successful publish happened at most `delay` after the pick it belongs to. */
  predicate PublishedWithin(ls: seq<int>, ts: seq<Try>, delay: int) {
    forall i :: 0 <= i < |ts| && ts[i].ok ==> ts[i].lease < |ls| && ts[i].at <= ls[ts[i].lease] + delay
  }

  /** A publish under a later lease comes at least `gap` after one under an earlier lease. */
  predicate PublishGap(ts: seq<Try>, gap: int) {
    forall i, j :: 0 <= i < |ts| && 0 <= j < |ts| && ts[i].ok && ts[j].ok && ts[i].lease < ts[j].lease ==>
      ts[i].at + gap <= ts[j].at
  }

  ghost predicate GapGuaranteed(cfg: Config, delay: nat, gap: int) {
    forall now, workers: nat, steps, k ::
      Legal(cfg, Init(now, workers), steps) && k in Run(cfg, Init(now, workers), steps).rows ==>
        var s := Run(cfg, Init(now, workers), steps);
        k in s.leases && k in s.tries &&
        (PublishedWithin(s.leases[k], s.tries[k], delay) ==> PublishGap(s.tries[k], gap))
  }

  lemma GapHolds(cfg: Config, now: int, workers: nat, steps: seq<Step>, k: Key, delay: nat)
    requires cfg.ttl >= 0 && Legal(cfg, Init(now, workers), steps)
    requires k in Run(cfg, Init(now, workers), steps).rows
    ensures var s := Run(cfg, Init(now, workers), steps);
            k in s.leases && k in s.tries &&
            (PublishedWithin(s.leases[k], s.tries[k], delay) ==> PublishGap(s.tries[k], cfg.ttl + 1 - delay))
  {
    var s := Run(cfg, Init(now, workers), steps);
    Reachable(cfg, now, workers, steps);
    GapOfRow(cfg, s.now, s.rows[k], s.leases[k], s.tries[k], delay);
  }

  lemma GapOfRow(cfg: Config, now: int, r: Row, ls: seq<int>, ts: seq<Try>, delay: nat)
    requires cfg.ttl >= 0 && RowOk(cfg, now, r, ls, ts)
    ensures PublishedWithin(ls, ts, delay) ==> PublishGap(ts, cfg.ttl + 1 - delay)
  {
    forall i, j | PublishedWithin(ls, ts, delay) && 0 <= i < |ts| && 0 <= j < |ts|
                  && ts[i].ok && ts[j].ok && ts[i].lease < ts[j].lease
      ensures ts[i].at + (cfg.ttl + 1 - delay) <= ts[j].at
    {
      assert TryOk(cfg.attempts, now, ls, Dispatch(r.kind, r.data), ts[j]);
      LeaseGap(ls, cfg.ttl, ts[i].lease, ts[j].lease);
    }
  }

  lemma LeaseGap(ls: seq<int>, ttl: nat, a: nat, b: nat)
    requires Apart(ls, ttl + 1) && a < b < |ls|
    ensures ls[a] + ttl + 1 <= ls[b]
  {
    ApartSpan(ls, ttl + 1, a, b);
    MultiplyMonotone(1, b - a, ttl + 1);
  }

  // ----- the run that attains the bound

  /** One row in one of its states, held by whichever workers, after the given history. */
  function OneRow(k: Key, now: int, row: Row, a: Worker, b: Worker, ls: seq<int>, ts: seq<Try>,
                  broker: multiset<Delivery>): State {
    State(now, map[k := row], [a, b], map[k := ls], map[k := ts], broker)
  }

  lemma FirstEnqueued(cfg: Config, k: Key, p: Payload)
    ensures var step := Enqueue(k, KIND_STATUS_CHANGED, Marshal(p), 0);
            Enabled(cfg, Init(0, 2), step)
            && Apply(cfg, Init(0, 2), step)
               == OneRow(k, 0, Row(KIND_STATUS_CHANGED, Marshal(p), CREATED, 0, 0), Idle, Idle, [], [], multiset{})
  {
    assert Init(0, 2).workers == [Idle, Idle];
  }

  lemma PickOnly(cfg: Config, k: Key, s: State, w: nat)
    requires cfg.batch > 0 && s.rows.Keys == {k} == s.leases.Keys
    requires w < |s.workers| && s.workers[w].Idle? && Eligible(s.rows[k], s.now, cfg.ttl)
    ensures var step := Pick(w, {}, [k], true);
            Enabled(cfg, s, step)
            && Apply(cfg, s, step)
               == s.(rows := map[k := s.rows[k].(status := IN_PROGRESS, updatedAt := s.now)],
                     leases := map[k := s.leases[k] + [s.now]],
                     workers := s.workers[w := Busy([Held(ToMessage(s.rows, k), |s.leases[k]|)], 0, [])])
  {
    var step := Pick(w, {}, [k], true);
    assert Pickable(s.rows, s.now, cfg.ttl, cfg.batch, {}, [k]);
    assert Grant(s, [k]) == [Held(ToMessage(s.rows, k), |s.leases[k]|)];
    assert Apply(cfg, s, step).rows == map[k := s.rows[k].(status := IN_PROGRESS, updatedAt := s.now)];
    assert Apply(cfg, s, step).leases == map[k := s.leases[k] + [s.now]];
  }

  lemma PublishOnly(cfg: Config, k: Key, s: State, w: nat, h: Held)
    requires cfg.attempts > 0 && s.tries.Keys == {k}
    requires w < |s.workers| && s.workers[w] == Busy([h], 0, []) && h.msg.key == k
    requires Dispatch(h.msg.kind, h.msg.data).Some?
    ensures var step := Publish(w, true, 1);
            Enabled(cfg, s, step)
            && Apply(cfg, s, step).rows == s.rows && Apply(cfg, s, step).leases == s.leases
            && Apply(cfg, s, step).now == s.now
            && Apply(cfg, s, step).workers == s.workers[w := Busy([h], 1, [k])]
            && Apply(cfg, s, step).tries == map[k := s.tries[k] + [Try(h.lease, s.now, true, 1)]]
  {
    assert [] + [k] == [k];
  }

  /** A set of states that no step leaves. */
  ghost predicate Closed(cfg: Config, r: iset<State>) {
    forall s, step :: s in r && Enabled(cfg, s, step) ==> Apply(cfg, s, step) in r
  }

  /** Some run of that many workers from an empty table at time 0 ends in `s`. */
  ghost predicate Reached(cfg: Config, workers: nat, s: State) {
    exists steps :: Legal(cfg, Init(0, workers), steps) && Run(cfg, Init(0, workers), steps) == s
  }

  ghost function ReachedBy(cfg: Config, workers: nat): iset<State> {
    iset s | Reached(cfg, workers, s)
  }

  lemma ReachedByClosed(cfg: Config, workers: nat)
    ensures Init(0, workers) in ReachedBy(cfg, workers) && Closed(cfg, ReachedBy(cfg, workers))
  {
    assert Legal(cfg, Init(0, workers), []);
    forall s, step | s in ReachedBy(cfg, workers) && Enabled(cfg, s, step)
      ensures Apply(cfg, s, step) in ReachedBy(cfg, workers)
    {
      var steps :| Legal(cfg, Init(0, workers), steps) && Run(cfg, Init(0, workers), steps) == s;
      RunSnoc(cfg, Init(0, workers), steps, step);
    }
  }

  lemma PickedByFirst(cfg: Config, r: iset<State>, k: Key, p: Payload) returns (s: State)
    requires cfg.batch > 0 && Init(0, 2) in r && Closed(cfg, r)
    ensures s in r && s.now == 0 && Unmarked(s, k, p)
    ensures s.leases[k] == [0] && s.tries[k] == []
    ensures s.workers == [Busy([Held(Message(k, KIND_STATUS_CHANGED, Marshal(p)), 0)], 0, []), Idle]
  {
    var enqueue, pick := Enqueue(k, KIND_STATUS_CHANGED, Marshal(p), 0), Pick(0, {}, [k], true);
    var enqueued := OneRow(k, 0, Row(KIND_STATUS_CHANGED, Marshal(p), CREATED, 0, 0), Idle, Idle, [], [], multiset{});
    FirstEnqueued(cfg, k, p);
    PickOnly(cfg, k, enqueued, 0);
    s := Apply(cfg, enqueued, pick);
    assert [] + [0] == [0];
  }

  /** The one row is still in progress since time 0 or since the latest pick. */
  ghost predicate Unmarked(s: State, k: Key, p: Payload) {
    && s.rows.Keys == {k} == s.leases.Keys && s.tries.Keys == {k}
    && ToMessage(s.rows, k) == Message(k, KIND_STATUS_CHANGED, Marshal(p))
    && s.rows[k].status == IN_PROGRESS
    && s.leases[k] != [] && s.rows[k].updatedAt == s.leases[k][|s.leases[k]| - 1]
    && |s.workers| == 2
  }

  lemma PublishAt(cfg: Config, r: iset<State>, k: Key, p: Payload, s: State, d: nat, w: nat, lease: nat)
    returns (s': State)
    requires cfg.attempts > 0 && Closed(cfg, r) && s in r && Unmarked(s, k, p) && w < 2
    requires s.workers[w] == Busy([Held(Message(k, KIND_STATUS_CHANGED, Marshal(p)), lease)], 0, [])
    requires Dispatch(KIND_STATUS_CHANGED, Marshal(p)).Some?
    ensures s' in r && Unmarked(s', k, p)
    ensures s'.now == s.now + d && s'.leases == s.leases && s'.workers[1 - w] == s.workers[1 - w]
    ensures s'.tries[k] == s.tries[k] + [Try(lease, s.now + d, true, 1)]
  {
    var h := Held(Message(k, KIND_STATUS_CHANGED, Marshal(p)), lease);
    var waited := Apply(cfg, s, Advance(d));
    PublishOnly(cfg, k, waited, w, h);
    s' := Apply(cfg, waited, Publish(w, true, 1));
  }

  /** Worker 1 leases the row as soon as the first lease has run out. */
  lemma PickAgain(cfg: Config, r: iset<State>, k: Key, p: Payload, s: State) returns (s': State)
    requires cfg.batch > 0 && Closed(cfg, r) && s in r && Unmarked(s, k, p)
    requires s.now <= cfg.ttl + 1 && s.leases[k] == [0] && s.workers[1].Idle?
    ensures s' in r && Unmarked(s', k, p)
    ensures s'.now == cfg.ttl + 1 && s'.leases[k] == [0, cfg.ttl + 1] && s'.tries == s.tries
    ensures s'.workers == [s.workers[0], Busy([Held(Message(k, KIND_STATUS_CHANGED, Marshal(p)), 1)], 0, [])]
  {
    var wait, pick := Advance(cfg.ttl + 1 - s.now), Pick(1, {}, [k], true);
    var waited := Apply(cfg, s, wait);
    PickOnly(cfg, k, waited, 1);
    s' := Apply(cfg, waited, pick);
    assert [0] + [cfg.ttl + 1] == [0, cfg.ttl + 1];
  }

  /** Worker 0 publishes `delay` after its pick; worker 1 picks the row again as soon as the lease
      allows and publishes at once. */
  lemma FirstThenSecond(cfg: Config, r: iset<State>, k: Key, p: Payload, delay: nat) returns (s: State)
    requires cfg.batch > 0 && cfg.attempts > 0 && delay <= cfg.ttl + 1
    requires Init(0, 2) in r && Closed(cfg, r) && Dispatch(KIND_STATUS_CHANGED, Marshal(p)).Some?
    ensures s in r && Unmarked(s, k, p) && s.leases[k] == [0, cfg.ttl + 1]
    ensures s.tries[k] == [Try(0, delay, true, 1), Try(1, cfg.ttl + 1, true, 1)]
  {
    s := PickedByFirst(cfg, r, k, p);
    s := PublishAt(cfg, r, k, p, s, delay, 0, 0);
    s := PickAgain(cfg, r, k, p, s);
    s := PublishAt(cfg, r, k, p, s, 0, 1, 1);
  }

  lemma SecondThenFirst(cfg: Config, r: iset<State>, k: Key, p: Payload, delay: nat) returns (s: State)
    requires cfg.batch > 0 && cfg.attempts > 0 && 0 <= cfg.ttl + 1 < delay
    requires Init(0, 2) in r && Closed(cfg, r) && Dispatch(KIND_STATUS_CHANGED, Marshal(p)).Some?
    ensures s in r && Unmarked(s, k, p) && s.leases[k] == [0, cfg.ttl + 1]
    ensures s.tries[k] == [Try(1, cfg.ttl + 1, true, 1), Try(0, delay, true, 1)]
  {
    s := PickedByFirst(cfg, r, k, p);
    s := PickAgain(cfg, r, k, p, s);
    s := PublishAt(cfg, r, k, p, s, 0, 1, 1);
    s := PublishAt(cfg, r, k, p, s, delay - (cfg.ttl + 1), 0, 0);
  }

  /** When workers publish at most `delay` after their pick, publishes of a row under different
      leases are guaranteed to be `gap` apart exactly when `gap <= ttl + 1 - delay`.  With a delay
      of a full lease nothing is left: two publishes may coincide. */
  lemma PublishSpacing(cfg: Config, delay: nat, gap: int)
    requires cfg.batch > 0 && cfg.attempts > 0 && cfg.ttl >= 0
    ensures GapGuaranteed(cfg, delay, gap) <==> gap <= cfg.ttl + 1 - delay
  {
    if gap <= cfg.ttl + 1 - delay {
      forall now, workers: nat, steps, k
        | Legal(cfg, Init(now, workers), steps) && k in Run(cfg, Init(now, workers), steps).rows
        ensures var s := Run(cfg, Init(now, workers), steps);
                k in s.leases && k in s.tries &&
                (PublishedWithin(s.leases[k], s.tries[k], delay) ==> PublishGap(s.tries[k], gap))
      {
        GapHolds(cfg, now, workers, steps, k, delay);
      }
    } else {
      var p, k := Payload(1, false, true, 0), EventKey(1, 0);
      DispatchMarshalled(p);
      ReachedByClosed(cfg, 2);
      var early, s := delay <= cfg.ttl + 1, Init(0, 2);
      if early {
        s := FirstThenSecond(cfg, ReachedBy(cfg, 2), k, p, delay);
      } else {
        s := SecondThenFirst(cfg, ReachedBy(cfg, 2), k, p, delay);
      }
      var steps :| Legal(cfg, Init(0, 2), steps) && Run(cfg, Init(0, 2), steps) == s;
      assert PublishedWithin(s.leases[k], s.tries[k], delay);
      assert !PublishGap(s.tries[k], gap) by {
        var i := if early then 0 else 1;
        assert s.tries[k][i].lease == 0 && s.tries[k][1 - i].lease == 1;
      }
    }
  }
}
