/** How many publishes of one row can fall within a window of time, exactly, for a given number of
    workers: an upper bound over every run, and a run that attains it. */
module OutboxWindow {
  import opened Counting
  import opened StatusEvents
  import opened OutboxTable
  import opened OutboxProtocol
  import opened OutboxInvariant
  import opened OutboxGuarantees
  import opened OutboxSpacing
  import opened OutboxHands

  // ----- the bound

  /** If no publish came more than `delay` after its pick, a window holds at most
      1 + (width + delay)/(ttl + 1) of them. */
  lemma PublishesInWindow(cfg: Config, now: int, workers: nat, steps: seq<Step>, k: Key,
                          from: int, width: nat, delay: nat)
    requires cfg.ttl >= 0 && Legal(cfg, Init(now, workers), steps)
    requires k in Run(cfg, Init(now, workers), steps).rows
    ensures var s := Run(cfg, Init(now, workers), steps);
            k in s.leases && k in s.tries
            && (PublishedWithin(s.leases[k], s.tries[k], delay) ==>
                  |PublishedIn(s.tries[k], from, width)| <= 1 + (width + delay) / (cfg.ttl + 1))
  {
    var s := Run(cfg, Init(now, workers), steps);
    Reachable(cfg, now, workers, steps);
    WindowOfRow(cfg, s.now, s.rows[k], s.leases[k], s.tries[k], from, width, delay);
  }

  lemma WindowOfRow(cfg: Config, now: int, r: Row, ls: seq<int>, ts: seq<Try>, from: int, width: nat, delay: nat)
    requires cfg.ttl >= 0 && RowOk(cfg, now, r, ls, ts)
    ensures PublishedWithin(ls, ts, delay) ==>
              |PublishedIn(ts, from, width)| <= 1 + (width + delay) / (cfg.ttl + 1)
  {
    if PublishedWithin(ls, ts, delay) {
      var leases := InWindow(ls, from - delay, width + delay);
      WindowCount(ls, cfg.ttl + 1, from - delay, width + delay);
      forall i | i in PublishedIn(ts, from, width) ensures ts[i].lease in leases {
        assert TryOk(cfg.attempts, now, ls, Dispatch(r.kind, r.data), ts[i]);
      }
      InjectionSize(PublishedIn(ts, from, width), LeaseOf(ts), leases);
    }
  }

  // ----- the run that attains it

  /** When the `i`-th lease begins if each is granted as soon as the one before has run out. */
  function Begin(cfg: Config, i: nat): int {
    i * (cfg.ttl + 1)
  }

  lemma BeginNext(cfg: Config, i: nat)
    requires cfg.ttl >= 0
    ensures Begin(cfg, i + 1) == Begin(cfg, i) + cfg.ttl + 1 && Begin(cfg, i) >= 0
  {
  }

  lemma BeginOrdered(cfg: Config, i: nat, j: nat)
    requires cfg.ttl >= 0 && i <= j
    ensures 0 <= Begin(cfg, i) <= Begin(cfg, j)
  {
    MultiplyMonotone(i, j, cfg.ttl + 1);
  }

  /** The moment each worker publishes: as late as `delay`, but not before its pick. */
  function At(cfg: Config, delay: nat, i: nat): int {
    if Begin(cfg, i) <= delay then delay else Begin(cfg, i)
  }

  function Fresh(k: Key, p: Payload, i: nat): Worker {
    Busy([Held(Message(k, KIND_STATUS_CHANGED, Marshal(p)), i)], 0, [])
  }

  predicate Picks(cfg: Config, ls: seq<int>, m: nat) {
    |ls| == m && forall i :: 0 <= i < m ==> ls[i] == Begin(cfg, i)
  }

  predicate Publishes(cfg: Config, ts: seq<Try>, delay: nat, j: nat) {
    |ts| == j && forall i :: 0 <= i < j ==> ts[i] == Try(i, At(cfg, delay, i), true, 1)
  }

  predicate Hands(ws: seq<Worker>, k: Key, p: Payload, m: nat, j: nat) {
    && j <= m <= |ws|
    && (forall i :: j <= i < m ==> ws[i] == Fresh(k, p, i))
    && (forall i :: m <= i < |ws| ==> ws[i].Idle?)
  }

  predicate InLease(r: Row, p: Payload, at: int) {
    r.status == IN_PROGRESS && r.updatedAt == at && r.kind == KIND_STATUS_CHANGED && r.data == Marshal(p)
  }

  /** The first `m` workers have picked the row in turn, the first `j` of them have published it. */
  ghost predicate Stage(cfg: Config, s: State, k: Key, p: Payload, delay: nat, m: nat, j: nat) {
    && m > 0 && s.rows.Keys == {k} == s.leases.Keys && s.tries.Keys == {k}
    && InLease(s.rows[k], p, Begin(cfg, m - 1))
    && Picks(cfg, s.leases[k], m) && Publishes(cfg, s.tries[k], delay, j) && Hands(s.workers, k, p, m, j)
  }

  lemma Wait(cfg: Config, r: iset<State>, s: State, t: int) returns (s': State)
    requires Closed(cfg, r) && s in r && s.now <= t
    ensures s' in r && s' == s.(now := t)
  {
    s' := Apply(cfg, s, Advance(t - s.now));
  }

  lemma PickNext(cfg: Config, r: iset<State>, k: Key, p: Payload, delay: nat, s: State, m: nat, j: nat)
    returns (s': State)
    requires cfg.ttl >= 0 && cfg.batch > 0 && Closed(cfg, r) && s in r && Stage(cfg, s, k, p, delay, m, j)
    requires m < |s.workers| && s.now <= Begin(cfg, m)
    ensures s' in r && Stage(cfg, s', k, p, delay, m + 1, j)
    ensures s'.now == Begin(cfg, m) && |s'.workers| == |s.workers|
  {
    BeginNext(cfg, m - 1);
    var waited := Wait(cfg, r, s, Begin(cfg, m));
    PickOnly(cfg, k, waited, m);
    s' := Apply(cfg, waited, Pick(m, {}, [k], true));
    assert ToMessage(waited.rows, k) == Message(k, KIND_STATUS_CHANGED, Marshal(p));
  }

  lemma PublishNext(cfg: Config, r: iset<State>, k: Key, p: Payload, delay: nat, s: State, m: nat, j: nat)
    returns (s': State)
    requires cfg.attempts > 0 && Closed(cfg, r) && s in r && Stage(cfg, s, k, p, delay, m, j)
    requires Dispatch(KIND_STATUS_CHANGED, Marshal(p)).Some? && j < m && s.now <= At(cfg, delay, j)
    ensures s' in r && Stage(cfg, s', k, p, delay, m, j + 1)
    ensures s'.now == At(cfg, delay, j) && |s'.workers| == |s.workers|
  {
    var waited := Wait(cfg, r, s, At(cfg, delay, j));
    PublishOnly(cfg, k, waited, j, Held(Message(k, KIND_STATUS_CHANGED, Marshal(p)), j));
    s' := Apply(cfg, waited, Publish(j, true, 1));
  }

  lemma FirstPick(cfg: Config, r: iset<State>, k: Key, p: Payload, delay: nat, workers: nat) returns (s: State)
    requires cfg.batch > 0 && workers > 0 && Init(0, workers) in r && Closed(cfg, r)
    ensures s in r && Stage(cfg, s, k, p, delay, 1, 0) && s.now == 0 && |s.workers| == workers
  {
    var enqueue := Enqueue(k, KIND_STATUS_CHANGED, Marshal(p), 0);
    var enqueued := Apply(cfg, Init(0, workers), enqueue);
    assert enqueued.rows == map[k := Row(KIND_STATUS_CHANGED, Marshal(p), CREATED, 0, 0)];
    assert enqueued.leases == map[k := []] && enqueued.tries == map[k := []];
    PickOnly(cfg, k, enqueued, 0);
    s := Apply(cfg, enqueued, Pick(0, {}, [k], true));
    assert ToMessage(enqueued.rows, k) == Message(k, KIND_STATUS_CHANGED, Marshal(p));
  }

  /** As long as leases begin within the delay, the workers only pick. */
  lemma {:induction false} HoldAll(cfg: Config, r: iset<State>, k: Key, p: Payload, delay: nat, workers: nat, m: nat)
    returns (s: State)
    requires cfg.ttl >= 0 && cfg.batch > 0 && Init(0, workers) in r && Closed(cfg, r) && 0 < m <= workers
    ensures s in r && Stage(cfg, s, k, p, delay, m, 0) && s.now == Begin(cfg, m - 1) && |s.workers| == workers
  {
    if m == 1 {
      s := FirstPick(cfg, r, k, p, delay, workers);
    } else {
      s := HoldAll(cfg, r, k, p, delay, workers, m - 1);
      BeginNext(cfg, m - 2);
      s := PickNext(cfg, r, k, p, delay, s, m - 1, 0);
    }
  }

  /** Then they publish, all at the same moment. */
  lemma {:induction false} PublishHeld(cfg: Config, r: iset<State>, k: Key, p: Payload, delay: nat,
                                       s: State, m: nat, j: nat)
    returns (s': State)
    requires cfg.ttl >= 0 && cfg.attempts > 0 && Closed(cfg, r) && s in r && Stage(cfg, s, k, p, delay, m, j)
    requires Dispatch(KIND_STATUS_CHANGED, Marshal(p)).Some? && s.now <= delay && Begin(cfg, m - 1) <= delay
    requires j == m ==> s.now == delay
    ensures s' in r && Stage(cfg, s', k, p, delay, m, m) && s'.now == delay && |s'.workers| == |s.workers|
    decreases m - j
  {
    if j == m {
      s' := s;
    } else {
      BeginOrdered(cfg, j, m - 1);
      s' := PublishNext(cfg, r, k, p, delay, s, m, j);
      s' := PublishHeld(cfg, r, k, p, delay, s', m, j + 1);
    }
  }

  /** The row has been picked `n` times and published as often. */
  ghost predicate Turn(cfg: Config, s: State, k: Key, p: Payload, delay: nat, n: nat) {
    && n > 0 && s.rows.Keys == {k} == s.leases.Keys && s.tries.Keys == {k}
    && InLease(s.rows[k], p, Begin(cfg, n - 1))
    && Picks(cfg, s.leases[k], n) && Publishes(cfg, s.tries[k], delay, n)
  }

  /** Worker 0, whatever became of its batch, picks the row again as soon as it can. */
  lemma PickAlone(cfg: Config, r: iset<State>, k: Key, p: Payload, delay: nat, s: State, n: nat) returns (s': State)
    requires cfg.ttl >= 0 && cfg.batch > 0 && Closed(cfg, r) && s in r && |s.workers| > 0
    requires Turn(cfg, s, k, p, delay, n) && s.now <= Begin(cfg, n)
    ensures s' in r && s'.now == Begin(cfg, n) && |s'.workers| == |s.workers| && s'.workers[0] == Fresh(k, p, n)
    ensures s'.rows.Keys == {k} == s'.leases.Keys && s'.tries == s.tries
    ensures InLease(s'.rows[k], p, Begin(cfg, n)) && Picks(cfg, s'.leases[k], n + 1)
  {
    BeginNext(cfg, n - 1);
    var waited := Wait(cfg, r, Apply(cfg, s, Crash(0)), Begin(cfg, n));
    PickOnly(cfg, k, waited, 0);
    s' := Apply(cfg, waited, Pick(0, {}, [k], true));
    assert ToMessage(waited.rows, k) == Message(k, KIND_STATUS_CHANGED, Marshal(p));
  }

  /** And it publishes at once. */
  lemma NextTurn(cfg: Config, r: iset<State>, k: Key, p: Payload, delay: nat, s: State, n: nat) returns (s': State)
    requires cfg.ttl >= 0 && cfg.batch > 0 && cfg.attempts > 0 && Closed(cfg, r) && s in r
    requires Dispatch(KIND_STATUS_CHANGED, Marshal(p)).Some? && |s.workers| > 0
    requires Turn(cfg, s, k, p, delay, n) && s.now <= Begin(cfg, n) && delay <= Begin(cfg, n)
    ensures s' in r && Turn(cfg, s', k, p, delay, n + 1)
    ensures s'.now == Begin(cfg, n) && |s'.workers| == |s.workers|
  {
    var picked := PickAlone(cfg, r, k, p, delay, s, n);
    PublishOnly(cfg, k, picked, 0, Held(Message(k, KIND_STATUS_CHANGED, Marshal(p)), n));
    s' := Apply(cfg, picked, Publish(0, true, 1));
  }

  lemma {:induction false} MoreTurns(cfg: Config, r: iset<State>, k: Key, p: Payload, delay: nat,
                                     s: State, m: nat, n: nat)
    returns (s': State)
    requires cfg.ttl >= 0 && cfg.batch > 0 && cfg.attempts > 0 && Closed(cfg, r) && s in r
    requires Dispatch(KIND_STATUS_CHANGED, Marshal(p)).Some? && |s.workers| > 0 && m <= n
    requires Turn(cfg, s, k, p, delay, m) && (m < n ==> s.now <= Begin(cfg, m) && delay <= Begin(cfg, m))
    ensures s' in r && Turn(cfg, s', k, p, delay, n)
    decreases n - m
  {
    if m == n {
      s' := s;
    } else {
      BeginOrdered(cfg, m, m + 1);
      s' := NextTurn(cfg, r, k, p, delay, s, m);
      s' := MoreTurns(cfg, r, k, p, delay, s', m + 1, n);
    }
  }

  /** The first `m` workers pick in turn and publish together; then one of them goes on alone. */
  lemma PublishAll(cfg: Config, r: iset<State>, k: Key, p: Payload, delay: nat, workers: nat, m: nat, n: nat)
    returns (s: State)
    requires cfg.ttl >= 0 && cfg.batch > 0 && cfg.attempts > 0 && Init(0, workers) in r && Closed(cfg, r)
    requires Dispatch(KIND_STATUS_CHANGED, Marshal(p)).Some? && 0 < m <= workers && m <= n
    requires Begin(cfg, m - 1) <= delay && (m < n ==> delay <= Begin(cfg, m))
    ensures s in r && Turn(cfg, s, k, p, delay, n)
  {
    s := HoldAll(cfg, r, k, p, delay, workers, m);
    s := PublishHeld(cfg, r, k, p, delay, s, m, 0);
    s := MoreTurns(cfg, r, k, p, delay, s, m, n);
  }

  lemma AllInside(cfg: Config, ls: seq<int>, ts: seq<Try>, delay: nat, late: nat, width: nat, n: nat)
    requires cfg.ttl >= 0 && n > 0 && Picks(cfg, ls, n) && Publishes(cfg, ts, delay, n)
    requires Begin(cfg, n - 1) <= width + delay && delay <= late
    ensures PublishedWithin(ls, ts, late) && |PublishedIn(ts, delay, width)| == n
  {
    forall i | 0 <= i < n ensures 0 <= Begin(cfg, i) <= width + delay {
      BeginOrdered(cfg, i, n - 1);
    }
    assert PublishedIn(ts, delay, width) == Range(0, n);
  }

  /** How many leases begin before `delay`. */
  function Before(cfg: Config, delay: nat): nat
    requires cfg.ttl >= 0
  {
    if delay == 0 then 1 else (delay - 1) / (cfg.ttl + 1) + 1
  }

  lemma BeforeBounds(cfg: Config, delay: nat, workers: nat)
    requires cfg.ttl >= 0 && workers > 0 && delay <= workers * (cfg.ttl + 1)
    ensures 0 < Before(cfg, delay) <= workers
    ensures Begin(cfg, Before(cfg, delay) - 1) <= delay <= Begin(cfg, Before(cfg, delay))
  {
    if delay > 0 {
      DivideBelow(delay - 1, cfg.ttl + 1, workers);
    }
  }

  predicate Coinciding(ts: seq<Try>) {
    |ts| == 2 && ts[0].ok && ts[1].ok && ts[0].at == ts[1].at
  }

  /** A worker that stalls over its lease can publish at the very moment the next one does, even when
      it is itself the next one. */
  lemma StalledWorkerCoincides(cfg: Config, workers: nat)
    requires cfg.batch > 0 && cfg.attempts > 0 && cfg.ttl >= 0 && workers > 0
    ensures exists s, k :: Reached(cfg, workers, s) && k in s.tries && Coinciding(s.tries[k])
  {
    var p, k := Payload(1, false, true, 0), EventKey(1, 0);
    DispatchMarshalled(p);
    ReachedByClosed(cfg, workers);
    BeginNext(cfg, 0);
    var s := PublishAll(cfg, ReachedBy(cfg, workers), k, p, cfg.ttl + 1, workers, 1, 2);
    assert Coinciding(s.tries[k]);
  }

  // ----- exactly

  /** In every run of that many workers, no window of that width holds more than `n` successful
      publishes of a row, if none came more than `delay` after its pick. */
  ghost predicate BoundGuaranteed(cfg: Config, workers: nat, delay: nat, width: nat, n: nat) {
    forall now, steps, k ::
      Legal(cfg, Init(now, workers), steps) && k in Run(cfg, Init(now, workers), steps).rows ==>
        var s := Run(cfg, Init(now, workers), steps);
        k in s.leases && k in s.tries
        && (PublishedWithin(s.leases[k], s.tries[k], delay) ==> Bounded(s.tries[k], width, n))
  }

  ghost predicate Bounded(ts: seq<Try>, width: nat, n: nat) {
    forall from :: |PublishedIn(ts, from, width)| <= n
  }

  /** How much later than its pick a publish can usefully come: there are only so many hands to hold a
      lease in. */
  function Reach(cfg: Config, workers: nat, delay: nat): nat
    requires cfg.ttl >= 0
  {
    if delay <= workers * (cfg.ttl + 1) then delay else workers * (cfg.ttl + 1)
  }

  /** The most publishes of a row that a window can hold. */
  function Most(cfg: Config, workers: nat, delay: nat, width: nat): nat
    requires cfg.ttl >= 0
  {
    1 + (width + Reach(cfg, workers, delay)) / (cfg.ttl + 1)
  }

  /** The publishes of a row within a window are guaranteed to be at most `n` exactly when
      n >= 1 + (width + min(delay, workers * (ttl + 1)))/(ttl + 1). */
  lemma WindowBound(cfg: Config, workers: nat, delay: nat, width: nat, n: nat)
    requires cfg.batch > 0 && cfg.attempts > 0 && cfg.ttl >= 0 && workers > 0
    ensures BoundGuaranteed(cfg, workers, delay, width, n) <==> n >= Most(cfg, workers, delay, width)
  {
    if n >= Most(cfg, workers, delay, width) {
      BoundHolds(cfg, workers, delay, width, n);
    } else {
      var s, k := FullWindow(cfg, workers, delay, width);
      Exceeds(cfg, workers, s, k, Reach(cfg, workers, delay), delay, width, n);
    }
  }

  /** Whatever the number of workers, exactly when n >= 1 + (width + delay)/(ttl + 1). */
  lemma WindowBoundForAny(cfg: Config, delay: nat, width: nat, n: nat)
    requires cfg.batch > 0 && cfg.attempts > 0 && cfg.ttl >= 0
    ensures (forall workers: nat | workers > 0 :: BoundGuaranteed(cfg, workers, delay, width, n))
            <==> n >= 1 + (width + delay) / (cfg.ttl + 1)
  {
    forall workers: nat | workers > 0
      ensures n >= 1 + (width + delay) / (cfg.ttl + 1) ==> BoundGuaranteed(cfg, workers, delay, width, n)
    {
      ReachMost(cfg, workers, delay, width);
      WindowBound(cfg, workers, delay, width, n);
    }
    EnoughHands(cfg, delay);
    WindowBound(cfg, delay + 1, delay, width, n);
  }

  lemma ReachMost(cfg: Config, workers: nat, delay: nat, width: nat)
    requires cfg.ttl >= 0
    ensures Most(cfg, workers, delay, width) <= 1 + (width + delay) / (cfg.ttl + 1)
  {
    DivideOrdered(width + Reach(cfg, workers, delay), width + delay, cfg.ttl + 1);
  }

  lemma EnoughHands(cfg: Config, delay: nat)
    requires cfg.ttl >= 0
    ensures Reach(cfg, delay + 1, delay) == delay
  {
    MultiplyMonotone(1, cfg.ttl + 1, delay + 1);
  }

  lemma DivideOrdered(x: nat, y: nat, d: nat)
    requires d > 0 && x <= y
    ensures x / d <= y / d
  {
    DivideBelow(x, d, y / d + 1);
  }

  lemma BoundHolds(cfg: Config, workers: nat, delay: nat, width: nat, n: nat)
    requires cfg.ttl >= 0 && n >= Most(cfg, workers, delay, width)
    ensures BoundGuaranteed(cfg, workers, delay, width, n)
  {
    forall now, steps, k
      | Legal(cfg, Init(now, workers), steps) && k in Run(cfg, Init(now, workers), steps).rows
      ensures var s := Run(cfg, Init(now, workers), steps);
              k in s.leases && k in s.tries
              && (PublishedWithin(s.leases[k], s.tries[k], delay) ==> Bounded(s.tries[k], width, n))
    {
      RunBounded(cfg, now, workers, steps, k, delay, width, n);
    }
  }

  lemma HandsMost(cfg: Config, workers: nat, delay: nat, width: nat)
    requires cfg.ttl >= 0 && delay > workers * (cfg.ttl + 1)
    ensures Most(cfg, workers, delay, width) == workers + 1 + width / (cfg.ttl + 1)
  {
    AddMultiple(width, workers, cfg.ttl + 1);
  }

  lemma DivideAtLeast(x: nat, d: nat, q: nat)
    requires d > 0 && q * d <= x
    ensures q <= x / d
  {
    assert (x / d + 1) * d == x / d * d + d;
    if x / d < q {
      MultiplyMonotone(x / d + 1, q, d);
    }
  }

  lemma AddMultiple(x: nat, q: nat, d: nat)
    requires d > 0
    ensures (x + q * d) / d == x / d + q
  {
    var y := x + q * d;
    assert x == x / d * d + x % d;
    assert (x / d + q) * d == x / d * d + q * d;
    assert (x / d + q + 1) * d == (x / d + q) * d + d;
    DivideBelow(y, d, x / d + q + 1);
    DivideAtLeast(y, d, x / d + q);
  }

  lemma RunBounded(cfg: Config, now: int, workers: nat, steps: seq<Step>, k: Key, delay: nat, width: nat, n: nat)
    requires cfg.ttl >= 0 && n >= Most(cfg, workers, delay, width)
    requires Legal(cfg, Init(now, workers), steps) && k in Run(cfg, Init(now, workers), steps).rows
    ensures var s := Run(cfg, Init(now, workers), steps);
            k in s.leases && k in s.tries
            && (PublishedWithin(s.leases[k], s.tries[k], delay) ==> Bounded(s.tries[k], width, n))
  {
    if delay <= workers * (cfg.ttl + 1) {
      assert Reach(cfg, workers, delay) == delay;
      DelayBounded(cfg, now, workers, steps, k, delay, width, n);
    } else {
      HandsMost(cfg, workers, delay, width);
      HandsBounded(cfg, now, workers, steps, k, width, n);
    }
  }

  lemma DelayBounded(cfg: Config, now: int, workers: nat, steps: seq<Step>, k: Key, delay: nat, width: nat, n: nat)
    requires cfg.ttl >= 0 && n >= 1 + (width + delay) / (cfg.ttl + 1)
    requires Legal(cfg, Init(now, workers), steps) && k in Run(cfg, Init(now, workers), steps).rows
    ensures var s := Run(cfg, Init(now, workers), steps);
            k in s.leases && k in s.tries
            && (PublishedWithin(s.leases[k], s.tries[k], delay) ==> Bounded(s.tries[k], width, n))
  {
    var s := Run(cfg, Init(now, workers), steps);
    Reachable(cfg, now, workers, steps);
    forall from | PublishedWithin(s.leases[k], s.tries[k], delay) ensures |PublishedIn(s.tries[k], from, width)| <= n {
      WindowOfRow(cfg, s.now, s.rows[k], s.leases[k], s.tries[k], from, width, delay);
    }
  }

  lemma HandsBounded(cfg: Config, now: int, workers: nat, steps: seq<Step>, k: Key, width: nat, n: nat)
    requires cfg.ttl >= 0 && n >= workers + 1 + width / (cfg.ttl + 1)
    requires Legal(cfg, Init(now, workers), steps) && k in Run(cfg, Init(now, workers), steps).rows
    ensures var s := Run(cfg, Init(now, workers), steps);
            k in s.leases && k in s.tries && Bounded(s.tries[k], width, n)
  {
    var s := Run(cfg, Init(now, workers), steps);
    Reachable(cfg, now, workers, steps);
    forall from ensures |PublishedIn(s.tries[k], from, width)| <= n {
      PublishesByHands(cfg, now, workers, steps, k, from, width);
    }
  }

  /** The full window: a reachable state in which as many publishes of a row as can be fall within it. */
  lemma FullWindow(cfg: Config, workers: nat, delay: nat, width: nat) returns (s: State, k: Key)
    requires cfg.batch > 0 && cfg.attempts > 0 && cfg.ttl >= 0 && workers > 0
    ensures Reached(cfg, workers, s) && k in s.rows && k in s.leases && k in s.tries
    ensures PublishedWithin(s.leases[k], s.tries[k], delay)
    ensures |PublishedIn(s.tries[k], Reach(cfg, workers, delay), width)| == Most(cfg, workers, delay, width)
  {
    var p, reach, most := Payload(1, false, true, 0), Reach(cfg, workers, delay), Most(cfg, workers, delay, width);
    k := EventKey(1, 0);
    DispatchMarshalled(p);
    ReachedByClosed(cfg, workers);
    BeforeBounds(cfg, reach, workers);
    LastBegin(cfg, width + reach);
    var m := Before(cfg, reach);
    if m <= most {
      s := PublishAll(cfg, ReachedBy(cfg, workers), k, p, reach, workers, m, most);
    } else {
      BeginOrdered(cfg, most - 1, m - 1);
      s := PublishAll(cfg, ReachedBy(cfg, workers), k, p, reach, workers, most, most);
    }
    AllInside(cfg, s.leases[k], s.tries[k], reach, delay, width, most);
  }

  lemma LastBegin(cfg: Config, span: nat)
    requires cfg.ttl >= 0
    ensures Begin(cfg, span / (cfg.ttl + 1)) <= span
  {
  }

  lemma Exceeds(cfg: Config, workers: nat, s: State, k: Key, from: int, delay: nat, width: nat, n: nat)
    requires Reached(cfg, workers, s) && k in s.rows && k in s.leases && k in s.tries
    requires PublishedWithin(s.leases[k], s.tries[k], delay) && |PublishedIn(s.tries[k], from, width)| > n
    ensures !BoundGuaranteed(cfg, workers, delay, width, n)
  {
    var steps :| Legal(cfg, Init(0, workers), steps) && Run(cfg, Init(0, workers), steps) == s;
    assert !Bounded(s.tries[k], width, n);
  }

  /** Windows of every width hold at most 1 + width/ttl publishes. */
  ghost predicate CountGuaranteed(cfg: Config, workers: nat, delay: nat)
    requires cfg.ttl > 0
  {
    forall width: nat :: BoundGuaranteed(cfg, workers, delay, width, 1 + width / cfg.ttl)
  }

  /** At most 1 + T/ttl successful publishes within any T: guaranteed, however many workers there are,
      exactly when every publish comes within one clock unit of its pick. */
  lemma CountBound(cfg: Config, workers: nat, delay: nat)
    requires cfg.batch > 0 && cfg.attempts > 0 && cfg.ttl > 0 && workers > 0
    ensures CountGuaranteed(cfg, workers, delay) <==> delay <= 1
  {
    SmallReach(cfg, workers, delay);
    var reach := Reach(cfg, workers, delay);
    if delay <= 1 {
      forall width: nat ensures BoundGuaranteed(cfg, workers, delay, width, 1 + width / cfg.ttl) {
        QuotientGrows(width, cfg.ttl, reach);
        BoundHolds(cfg, workers, delay, width, 1 + width / cfg.ttl);
      }
    } else {
      var width := cfg.ttl - 1;
      TwoFit(width + reach, cfg.ttl);
      WindowBound(cfg, workers, delay, width, 1 + width / cfg.ttl);
    }
  }

  lemma SmallReach(cfg: Config, workers: nat, delay: nat)
    requires cfg.ttl > 0 && workers > 0
    ensures if delay <= 1 then Reach(cfg, workers, delay) == delay else Reach(cfg, workers, delay) >= 2
  {
    MultiplyMonotone(1, workers, cfg.ttl + 1);
  }

  lemma QuotientGrows(width: nat, ttl: nat, delay: nat)
    requires ttl > 0 && delay <= 1
    ensures (width + delay) / (ttl + 1) <= width / ttl
  {
    var q := width / ttl;
    assert width < (q + 1) * ttl;
    assert (q + 1) * ttl + 1 <= (q + 1) * (ttl + 1);
    DivideBelow(width + delay, ttl + 1, q + 1);
  }

  lemma DivideBelow(x: nat, d: nat, q: nat)
    requires d > 0 && x < q * d
    ensures x / d < q
  {
    if x / d >= q {
      MultiplyMonotone(q, x / d, d);
    }
  }

  lemma TwoFit(x: nat, ttl: nat)
    requires ttl > 0 && x >= ttl + 1
    ensures x / (ttl + 1) >= 1 && (ttl - 1) / ttl == 0
  {
  }
}
