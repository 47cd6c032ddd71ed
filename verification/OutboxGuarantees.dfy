/** What the outbox guarantees over every run: no SUCCESS without an acknowledged publish, nothing
    published that was not enqueued, how far apart the leases and the publishes of one row are, and
    when a row is published exactly once. */
module OutboxGuarantees {
  import opened Prelude
  import opened StatusEvents
  import opened Counting
  import opened OutboxTable
  import opened OutboxProtocol
  import opened OutboxInvariant

  lemma Reachable(cfg: Config, now: int, workers: nat, steps: seq<Step>)
    requires Legal(cfg, Init(now, workers), steps)
    ensures Inv(cfg, Run(cfg, Init(now, workers), steps))
  {
    InitInv(cfg, now, workers);
    RunInv(cfg, Init(now, workers), steps);
  }

  lemma {:induction false} CopiesOfTry(ts: seq<Try>, i: nat)
    requires i < |ts|
    ensures CopyCount(ts) >= ts[i].copies
  {
    if i < |ts| - 1 {
      CopiesOfTry(ts[..|ts| - 1], i);
    }
  }

  lemma SuccessInBroker(cfg: Config, s: State, k: Key)
    requires Inv(cfg, s) && k in s.rows && s.rows[k].status == SUCCESS
    ensures var msg := Dispatch(s.rows[k].kind, s.rows[k].data);
            HasOk(s.tries[k]) && msg.Some? && Delivery(k, msg.value) in s.broker
  {
    assert RowOk(cfg, s.now, s.rows[k], s.leases[k], s.tries[k]);
    var i :| 0 <= i < |s.tries[k]| && s.tries[k][i].ok;
    assert TryOk(cfg.attempts, s.now, s.leases[k], Dispatch(s.rows[k].kind, s.rows[k].data), s.tries[k][i]);
    CopiesOfTry(s.tries[k], i);
    assert Tallied(s.broker, k, Dispatch(s.rows[k].kind, s.rows[k].data), s.tries[k]);
  }

  /** A row that reads SUCCESS was handed to a handler that returned nil, and the broker holds its
      message. */
  lemma SuccessWasPublished(cfg: Config, now: int, workers: nat, steps: seq<Step>, k: Key)
    requires Legal(cfg, Init(now, workers), steps)
    requires k in Run(cfg, Init(now, workers), steps).rows
    requires Run(cfg, Init(now, workers), steps).rows[k].status == SUCCESS
    ensures var s := Run(cfg, Init(now, workers), steps);
            var msg := Dispatch(s.rows[k].kind, s.rows[k].data);
            k in s.tries && HasOk(s.tries[k]) && msg.Some? && Delivery(k, msg.value) in s.broker
  {
    Reachable(cfg, now, workers, steps);
    SuccessInBroker(cfg, Run(cfg, Init(now, workers), steps), k);
  }

  /** Everything in the broker is the message of an enqueued row. */
  lemma NothingInvented(cfg: Config, now: int, workers: nat, steps: seq<Step>, d: Delivery)
    requires Legal(cfg, Init(now, workers), steps)
    requires d in Run(cfg, Init(now, workers), steps).broker
    ensures var rows := Run(cfg, Init(now, workers), steps).rows;
            d.key in rows && Dispatch(rows[d.key].kind, rows[d.key].data) == Some(d.msg)
  {
    Reachable(cfg, now, workers, steps);
    assert Genuine(Run(cfg, Init(now, workers), steps).rows, d);
  }

  // ----- spacing

  /** On an integer clock, more than `ttl` apart is at least `ttl + 1` apart. */
  lemma StrictSpan(times: seq<int>, ttl: int, i: nat, j: nat)
    requires Apart(times, ttl + 1) && i < j < |times|
    ensures times[j] - times[i] > (j - i) * ttl
  {
    ApartSpan(times, ttl + 1, i, j);
    assert (j - i) * (ttl + 1) == (j - i) * ttl + (j - i);
  }

  /** Picks of one row are more than a lease apart, so k picks span more than k - 1 leases. */
  lemma LeaseSpan(cfg: Config, now: int, workers: nat, steps: seq<Step>, k: Key, i: nat, j: nat)
    requires Legal(cfg, Init(now, workers), steps)
    requires k in Run(cfg, Init(now, workers), steps).leases
    requires i < j < |Run(cfg, Init(now, workers), steps).leases[k]|
    ensures var ls := Run(cfg, Init(now, workers), steps).leases[k];
            ls[j] - ls[i] > (j - i) * cfg.ttl
  {
    var s := Run(cfg, Init(now, workers), steps);
    Reachable(cfg, now, workers, steps);
    assert RowOk(cfg, s.now, s.rows[k], s.leases[k], s.tries[k]);
    StrictSpan(s.leases[k], cfg.ttl, i, j);
  }

  function LeaseOf(ts: seq<Try>): map<int, int> {
    map i | 0 <= i < |ts| :: ts[i].lease
  }

  lemma DistinctBelow(ts: seq<Try>, n: nat)
    requires OncePerLease(ts) && forall i :: 0 <= i < |ts| ==> ts[i].lease < n
    ensures |ts| <= n
  {
    InjectionSize(Range(0, |ts|), LeaseOf(ts), Range(0, n));
  }

  /** The picks of a row within any window, over any run. */
  lemma PicksInWindow(cfg: Config, now: int, workers: nat, steps: seq<Step>, k: Key, from: int, width: nat)
    requires cfg.ttl > 0 && Legal(cfg, Init(now, workers), steps)
    requires k in Run(cfg, Init(now, workers), steps).leases
    ensures |InWindow(Run(cfg, Init(now, workers), steps).leases[k], from, width)| <= 1 + width / cfg.ttl
  {
    var s := Run(cfg, Init(now, workers), steps);
    Reachable(cfg, now, workers, steps);
    assert RowOk(cfg, s.now, s.rows[k], s.leases[k], s.tries[k]);
    WindowCount(s.leases[k], cfg.ttl, from, width);
  }

  /** Each pick leads to at most one handler call, and each call to at most `attempts` copies. */
  lemma CallsAndCopies(cfg: Config, now: int, workers: nat, steps: seq<Step>, k: Key)
    requires Legal(cfg, Init(now, workers), steps)
    requires k in Run(cfg, Init(now, workers), steps).rows
    ensures var s := Run(cfg, Init(now, workers), steps);
            && k in s.tries && k in s.leases
            && OncePerLease(s.tries[k]) && |s.tries[k]| <= |s.leases[k]|
            && forall m :: s.broker[Delivery(k, m)] <= cfg.attempts * |s.leases[k]|
  {
    var s := Run(cfg, Init(now, workers), steps);
    Reachable(cfg, now, workers, steps);
    var ls, ts := s.leases[k], s.tries[k];
    assert RowOk(cfg, s.now, s.rows[k], ls, ts);
    assert forall i :: 0 <= i < |ts| ==> ts[i].lease < |ls|;
    DistinctBelow(ts, |ls|);
    CopiesBounded(ts, cfg.attempts);
    MultiplyMonotone(|ts|, |ls|, cfg.attempts);
    forall m
      ensures s.broker[Delivery(k, m)] <= cfg.attempts * |ls|
    {
      if Delivery(k, m) in s.broker {
        assert Genuine(s.rows, Delivery(k, m));
        assert Tallied(s.broker, k, Some(m), ts);
      }
    }
  }

  lemma {:induction false} CopiesBounded(ts: seq<Try>, attempts: nat)
    requires forall i :: 0 <= i < |ts| ==> ts[i].copies <= attempts
    ensures CopyCount(ts) <= attempts * |ts|
  {
    if ts != [] {
      CopiesBounded(ts[..|ts| - 1], attempts);
      assert attempts * |ts| == attempts * (|ts| - 1) + attempts;
    }
  }
}
