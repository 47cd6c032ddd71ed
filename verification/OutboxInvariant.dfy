/** The inductive invariant of the outbox protocol: it ties each row to its leases and handler
    calls, each worker's hand to the rows, any two workers to each other, and the broker to the
    handler calls. */
module OutboxInvariant {
  import opened Prelude
  import opened StatusEvents
  import opened Counting
  import opened OutboxTable
  import opened OutboxProtocol

  predicate HasOk(ts: seq<Try>) {
    exists i :: 0 <= i < |ts| && ts[i].ok
  }

  predicate Tried(ts: seq<Try>, lease: nat) {
    exists i :: 0 <= i < |ts| && ts[i].lease == lease
  }

  predicate OncePerLease(ts: seq<Try>) {
    forall i, j :: 0 <= i < j < |ts| ==> ts[i].lease != ts[j].lease
  }

  function CopyCount(ts: seq<Try>): nat {
    if ts == [] then 0 else CopyCount(ts[..|ts| - 1]) + ts[|ts| - 1].copies
  }

  predicate TryOk(attempts: nat, now: int, ls: seq<int>, msg: Option<StatusChange>, t: Try) {
    && t.lease < |ls| && ls[t.lease] <= t.at <= now
    && t.copies <= attempts && (t.ok ==> t.copies > 0) && (msg.None? ==> !t.ok && t.copies == 0)
  }

  /** What holds of one row together with its history. */
  predicate RowOk(cfg: Config, now: int, r: Row, ls: seq<int>, ts: seq<Try>) {
    && (r.status == CREATED <==> ls == [])
    && (r.status == IN_PROGRESS ==> r.updatedAt == ls[|ls| - 1])
    && (r.status == SUCCESS ==> HasOk(ts))
    && Apart(ls, cfg.ttl + 1)
    && (forall i :: 0 <= i < |ls| ==> ls[i] <= now)
    && OncePerLease(ts)
    && forall i :: 0 <= i < |ts| ==> TryOk(cfg.attempts, now, ls, Dispatch(r.kind, r.data), ts[i])
  }

  ghost predicate RowsOk(cfg: Config, s: State) {
    && s.leases.Keys == s.rows.Keys && s.tries.Keys == s.rows.Keys
    && forall k :: k in s.rows ==> RowOk(cfg, s.now, s.rows[k], s.leases[k], s.tries[k])
  }

  /** A held message is a faithful copy of its row, under a lease that exists. */
  ghost predicate HeldOk(s: State, h: Held) {
    && h.msg.key in s.rows && h.msg == ToMessage(s.rows, h.msg.key)
    && h.msg.key in s.leases && h.lease < |s.leases[h.msg.key]|
  }

  ghost predicate BatchOk(s: State, batch: seq<Held>) {
    && (forall i :: 0 <= i < |batch| ==> HeldOk(s, batch[i]))
    && (forall i, j :: 0 <= i < j < |batch| ==> batch[i].msg.key != batch[j].msg.key)
  }

  ghost predicate WorkerOk(s: State, b: Worker) {
    b.Busy? ==>
      && b.pos <= |b.batch| && BatchOk(s, b.batch)
      && (forall i :: b.pos <= i < |b.batch| ==> !Tried(HistoryOf(s.tries, b.batch[i].msg.key), b.batch[i].lease))
      && (forall k :: k in b.okKeys ==> k in s.tries && HasOk(s.tries[k]))
  }

  ghost predicate WorkersOk(s: State) {
    forall w :: 0 <= w < |s.workers| ==> WorkerOk(s, s.workers[w])
  }

  predicate DisjointHands(a: Worker, b: Worker) {
    a.Busy? && b.Busy? ==>
      forall i, j :: 0 <= i < |a.batch| && 0 <= j < |b.batch| && a.batch[i].msg.key == b.batch[j].msg.key ==>
        a.batch[i].lease != b.batch[j].lease
  }

  /** No two workers hold the same lease. */
  ghost predicate Exclusive(s: State) {
    forall v, w :: 0 <= v < w < |s.workers| ==> DisjointHands(s.workers[v], s.workers[w])
  }

  /** A delivery that some row asked for. */
  predicate Genuine(rows: Table, d: Delivery) {
    d.key in rows && Dispatch(rows[d.key].kind, rows[d.key].data) == Some(d.msg)
  }

  /** The broker holds as many copies of a row's message as the row's handler calls left. */
  predicate Tallied(broker: multiset<Delivery>, k: Key, msg: Option<StatusChange>, ts: seq<Try>) {
    msg.Some? ==> broker[Delivery(k, msg.value)] == CopyCount(ts)
  }

  ghost predicate BrokerOk(s: State) {
    && s.tries.Keys == s.rows.Keys
    && (forall d :: d in s.broker ==> Genuine(s.rows, d))
    && (forall k :: k in s.rows ==> Tallied(s.broker, k, Dispatch(s.rows[k].kind, s.rows[k].data), s.tries[k]))
  }

  ghost predicate Inv(cfg: Config, s: State) {
    RowsOk(cfg, s) && WorkersOk(s) && Exclusive(s) && BrokerOk(s)
  }

  lemma InitInv(cfg: Config, now: int, workers: nat)
    ensures Inv(cfg, Init(now, workers))
  {
  }

  /** A step that keeps every row's message, only adds leases and leaves the handler calls alone
      keeps every hand consistent; hands may also be dropped. */
  lemma WorkersFrame(s: State, s': State)
    requires WorkersOk(s) && |s'.workers| == |s.workers|
    requires forall w :: 0 <= w < |s.workers| ==> s'.workers[w] == s.workers[w] || s'.workers[w].Idle?
    requires SameMessages(s, s')
    ensures WorkersOk(s')
  {
    forall w | 0 <= w < |s'.workers|
      ensures WorkerOk(s', s'.workers[w])
    {
      WorkerFrame(s, s', s.workers[w]);
    }
  }

  ghost predicate SameMessages(s: State, s': State) {
    && s.tries.Keys == s.rows.Keys == s.leases.Keys
    && (forall k :: k in s.rows ==> k in s'.rows && ToMessage(s'.rows, k) == ToMessage(s.rows, k))
    && (forall k :: k in s.leases ==> k in s'.leases && |s.leases[k]| <= |s'.leases[k]|)
    && (forall k :: k in s.tries ==> k in s'.tries && s.tries[k] == s'.tries[k])
  }

  lemma WorkerFrame(s: State, s': State, b: Worker)
    requires WorkerOk(s, b) && SameMessages(s, s')
    ensures WorkerOk(s', b)
  {
    if b.Busy? {
      forall i | 0 <= i < |b.batch|
        ensures HeldOk(s', b.batch[i])
        ensures HistoryOf(s.tries, b.batch[i].msg.key) == HistoryOf(s'.tries, b.batch[i].msg.key)
      {
        assert HeldOk(s, b.batch[i]);
      }
    }
  }

  lemma ExclusiveFrame(s: State, s': State)
    requires Exclusive(s) && |s'.workers| == |s.workers|
    requires forall w :: 0 <= w < |s.workers| ==> s'.workers[w] == s.workers[w] || s'.workers[w].Idle?
    ensures Exclusive(s')
  {
    forall v, w | 0 <= v < w < |s'.workers|
      ensures DisjointHands(s'.workers[v], s'.workers[w])
    {
      assert DisjointHands(s.workers[v], s.workers[w]);
    }
  }

  lemma BrokerFrame(s: State, s': State)
    requires BrokerOk(s) && s'.broker == s.broker && s'.tries == s.tries && s'.rows.Keys == s.rows.Keys
    requires forall k :: k in s.rows ==> ToMessage(s'.rows, k) == ToMessage(s.rows, k)
    ensures BrokerOk(s')
  {
    forall k | k in s.rows
      ensures s'.rows[k].kind == s.rows[k].kind && s'.rows[k].data == s.rows[k].data
    {
      assert ToMessage(s'.rows, k) == ToMessage(s.rows, k);
    }
    forall d | d in s'.broker
      ensures Genuine(s'.rows, d)
    {
      assert Genuine(s.rows, d);
    }
  }

  lemma AdvanceInv(cfg: Config, s: State, step: Step)
    requires Inv(cfg, s) && Enabled(cfg, s, step) && step.Advance?
    ensures Inv(cfg, Apply(cfg, s, step))
  {
    var s' := Apply(cfg, s, step);
    forall k | k in s'.rows
      ensures RowOk(cfg, s'.now, s'.rows[k], s'.leases[k], s'.tries[k])
    {
      RowAges(cfg, s.now, s'.now, s.rows[k], s.leases[k], s.tries[k]);
    }
    WorkersFrame(s, s');
    BrokerFrame(s, s');
  }

  lemma RowAges(cfg: Config, now: int, later: int, r: Row, ls: seq<int>, ts: seq<Try>)
    requires RowOk(cfg, now, r, ls, ts) && now <= later
    ensures RowOk(cfg, later, r, ls, ts)
  {
    forall i | 0 <= i < |ts|
      ensures TryOk(cfg.attempts, later, ls, Dispatch(r.kind, r.data), ts[i])
    {
      assert TryOk(cfg.attempts, now, ls, Dispatch(r.kind, r.data), ts[i]);
    }
  }

  lemma EnqueueBroker(cfg: Config, s: State, step: Step)
    requires BrokerOk(s) && Enabled(cfg, s, step) && step.Enqueue?
    ensures BrokerOk(Apply(cfg, s, step))
  {
    var s' := Apply(cfg, s, step);
    forall d | d in s'.broker
      ensures Genuine(s'.rows, d)
    {
      assert Genuine(s.rows, d);
    }
    forall k | k in s'.rows
      ensures Tallied(s'.broker, k, Dispatch(s'.rows[k].kind, s'.rows[k].data), s'.tries[k])
    {
      if k in s.rows {
        assert Tallied(s.broker, k, Dispatch(s.rows[k].kind, s.rows[k].data), s.tries[k]);
      } else {
        assert forall d :: d in s.broker ==> Genuine(s.rows, d) && d.key != k;
      }
    }
  }

  lemma EnqueueRows(cfg: Config, s: State, step: Step)
    requires RowsOk(cfg, s) && Enabled(cfg, s, step) && step.Enqueue?
    ensures RowsOk(cfg, Apply(cfg, s, step))
  {
    var s' := Apply(cfg, s, step);
    forall k | k in s'.rows
      ensures RowOk(cfg, s'.now, s'.rows[k], s'.leases[k], s'.tries[k])
    {
      assert k in s.rows ==> RowOk(cfg, s.now, s.rows[k], s.leases[k], s.tries[k]);
    }
  }

  lemma EnqueueSame(cfg: Config, s: State, step: Step)
    requires RowsOk(cfg, s) && Enabled(cfg, s, step) && step.Enqueue?
    ensures SameMessages(s, Apply(cfg, s, step))
  {
  }

  lemma EnqueueInv(cfg: Config, s: State, step: Step)
    requires Inv(cfg, s) && Enabled(cfg, s, step) && step.Enqueue?
    ensures Inv(cfg, Apply(cfg, s, step))
  {
    var s' := Apply(cfg, s, step);
    EnqueueBroker(cfg, s, step);
    EnqueueRows(cfg, s, step);
    EnqueueSame(cfg, s, step);
    WorkersFrame(s, s');
    ExclusiveFrame(s, s');
  }

  /** A pick extends the leases of an eligible row by one more than a lease length later. */
  lemma RowLeased(cfg: Config, now: int, r: Row, ls: seq<int>, ts: seq<Try>)
    requires RowOk(cfg, now, r, ls, ts) && Eligible(r, now, cfg.ttl)
    ensures RowOk(cfg, now, r.(status := IN_PROGRESS, updatedAt := now), ls + [now], ts)
  {
    forall i | 0 <= i < |ts|
      ensures TryOk(cfg.attempts, now, ls + [now], Dispatch(r.kind, r.data), ts[i])
    {
      assert TryOk(cfg.attempts, now, ls, Dispatch(r.kind, r.data), ts[i]);
    }
  }

  lemma PickRows(cfg: Config, s: State, step: Step)
    requires RowsOk(cfg, s) && Enabled(cfg, s, step) && step.Pick?
    ensures RowsOk(cfg, Apply(cfg, s, step))
  {
    var s' := Apply(cfg, s, step);
    forall k | k in s'.rows
      ensures RowOk(cfg, s'.now, s'.rows[k], s'.leases[k], s'.tries[k])
    {
      assert RowOk(cfg, s.now, s.rows[k], s.leases[k], s.tries[k]);
      if k in step.keys {
        assert Eligible(s.rows[k], s.now, cfg.ttl);
        RowLeased(cfg, s.now, s.rows[k], s.leases[k], s.tries[k]);
        assert s'.leases[k] == s.leases[k] + [s.now];
      }
    }
  }

  /** The leases just granted are new: nobody has tried them. */
  lemma PickHand(cfg: Config, s: State, step: Step)
    requires RowsOk(cfg, s) && Enabled(cfg, s, step) && step.Pick?
    ensures WorkerOk(Apply(cfg, s, step), Busy(Grant(s, step.keys), 0, []))
  {
    var s', batch := Apply(cfg, s, step), Grant(s, step.keys);
    forall i | 0 <= i < |batch|
      ensures HeldOk(s', batch[i]) && !Tried(HistoryOf(s'.tries, batch[i].msg.key), batch[i].lease)
    {
      var k := step.keys[i];
      assert k in step.keys;
      assert s'.leases[k] == s.leases[k] + [s.now];
      assert RowOk(cfg, s.now, s.rows[k], s.leases[k], s.tries[k]);
      assert forall j :: 0 <= j < |s.tries[k]| ==> s.tries[k][j].lease < |s.leases[k]|;
    }
  }

  lemma PickDisjoint(s: State, b: Worker, keys: seq<Key>)
    requires forall k :: k in keys ==> k in s.rows
    requires WorkerOk(s, b)
    ensures DisjointHands(b, Busy(Grant(s, keys), 0, []))
    ensures DisjointHands(Busy(Grant(s, keys), 0, []), b)
  {
    if b.Busy? {
      forall i | 0 <= i < |b.batch|
        ensures b.batch[i].msg.key in s.leases && b.batch[i].lease < |s.leases[b.batch[i].msg.key]|
      {
        assert HeldOk(s, b.batch[i]);
      }
    }
  }

  lemma PickSame(cfg: Config, s: State, step: Step)
    requires RowsOk(cfg, s) && Enabled(cfg, s, step) && step.Pick?
    ensures SameMessages(s, Apply(cfg, s, step))
  {
  }

  lemma PickWorkers(cfg: Config, s: State, step: Step)
    requires RowsOk(cfg, s) && WorkersOk(s) && Enabled(cfg, s, step) && step.Pick?
    ensures WorkersOk(Apply(cfg, s, step))
  {
    var s' := Apply(cfg, s, step);
    PickHand(cfg, s, step);
    PickSame(cfg, s, step);
    forall w | 0 <= w < |s'.workers|
      ensures WorkerOk(s', s'.workers[w])
    {
      WorkerFrame(s, s', s.workers[w]);
    }
  }

  lemma PickExclusive(cfg: Config, s: State, step: Step)
    requires WorkersOk(s) && Exclusive(s) && Enabled(cfg, s, step) && step.Pick?
    ensures Exclusive(Apply(cfg, s, step))
  {
    var s' := Apply(cfg, s, step);
    forall v, w | 0 <= v < w < |s'.workers|
      ensures DisjointHands(s'.workers[v], s'.workers[w])
    {
      PickDisjoint(s, s.workers[v], step.keys);
      PickDisjoint(s, s.workers[w], step.keys);
      assert DisjointHands(s.workers[v], s.workers[w]);
    }
  }

  lemma PickInv(cfg: Config, s: State, step: Step)
    requires Inv(cfg, s) && Enabled(cfg, s, step) && step.Pick?
    ensures Inv(cfg, Apply(cfg, s, step))
  {
    PickRows(cfg, s, step);
    PickWorkers(cfg, s, step);
    PickExclusive(cfg, s, step);
    PickSame(cfg, s, step);
    BrokerFrame(s, Apply(cfg, s, step));
  }

  lemma RowTried(cfg: Config, now: int, r: Row, ls: seq<int>, ts: seq<Try>, t: Try)
    requires RowOk(cfg, now, r, ls, ts) && !Tried(ts, t.lease)
    requires TryOk(cfg.attempts, now, ls, Dispatch(r.kind, r.data), t)
    ensures RowOk(cfg, now, r, ls, ts + [t])
  {
    OkStays(ts, t);
  }

  lemma PublishRows(cfg: Config, s: State, step: Step)
    requires RowsOk(cfg, s) && WorkersOk(s) && Enabled(cfg, s, step) && step.Publish?
    ensures RowsOk(cfg, Apply(cfg, s, step))
  {
    var s', h := Apply(cfg, s, step), Current(s, step.w);
    var key := h.msg.key;
    assert WorkerOk(s, s.workers[step.w]) && HeldOk(s, h);
    forall k | k in s'.rows
      ensures RowOk(cfg, s'.now, s'.rows[k], s'.leases[k], s'.tries[k])
    {
      if k == key {
        RowTried(cfg, s.now, s.rows[k], s.leases[k], s.tries[k], Try(h.lease, s.now, step.ok, step.copies));
      }
    }
  }

  lemma OkStays(ts: seq<Try>, t: Try)
    ensures HasOk(ts + [t]) <==> HasOk(ts) || t.ok
    ensures forall lease :: Tried(ts + [t], lease) <==> Tried(ts, lease) || t.lease == lease
    ensures CopyCount(ts + [t]) == CopyCount(ts) + t.copies
  {
    assert (ts + [t])[|ts|] == t;
    assert forall i :: 0 <= i < |ts| ==> (ts + [t])[i] == ts[i];
    assert (ts + [t])[..|ts|] == ts;
  }

  /** What a worker still has to publish stays untried: the call was under a lease of its own or of
      another worker. */
  lemma PublishUntried(cfg: Config, s: State, step: Step, w: nat, i: nat)
    requires RowsOk(cfg, s) && WorkersOk(s) && Exclusive(s) && Enabled(cfg, s, step) && step.Publish?
    requires w < |s.workers| && s.workers[w].Busy?
    requires Apply(cfg, s, step).workers[w].pos <= i < |s.workers[w].batch|
    ensures var h := s.workers[w].batch[i];
            !Tried(HistoryOf(Apply(cfg, s, step).tries, h.msg.key), h.lease)
  {
    var h, b := Current(s, step.w), s.workers[w];
    assert WorkerOk(s, s.workers[step.w]) && WorkerOk(s, b) && HeldOk(s, h);
    OkStays(HistoryOf(s.tries, h.msg.key), Try(h.lease, s.now, step.ok, step.copies));
    assert !Tried(HistoryOf(s.tries, b.batch[i].msg.key), b.batch[i].lease);
    if w < step.w {
      assert DisjointHands(b, s.workers[step.w]);
    } else if step.w < w {
      assert DisjointHands(s.workers[step.w], b);
    }
  }

  /** The publishing worker's hand after the call, and any other worker's. */
  lemma PublishHand(cfg: Config, s: State, step: Step, w: nat)
    requires RowsOk(cfg, s) && WorkersOk(s) && Exclusive(s) && Enabled(cfg, s, step) && step.Publish?
    requires w < |s.workers|
    ensures WorkerOk(Apply(cfg, s, step), Apply(cfg, s, step).workers[w])
  {
    var s', h, b := Apply(cfg, s, step), Current(s, step.w), s.workers[w];
    assert WorkerOk(s, s.workers[step.w]) && WorkerOk(s, b) && HeldOk(s, h);
    OkStays(HistoryOf(s.tries, h.msg.key), Try(h.lease, s.now, step.ok, step.copies));
    if b.Busy? {
      var b' := s'.workers[w];
      forall i | 0 <= i < |b.batch|
        ensures HeldOk(s', b.batch[i])
      {
        assert HeldOk(s, b.batch[i]);
      }
      forall i | b'.pos <= i < |b.batch|
        ensures !Tried(HistoryOf(s'.tries, b.batch[i].msg.key), b.batch[i].lease)
      {
        PublishUntried(cfg, s, step, w, i);
      }
      forall k | k in b'.okKeys
        ensures k in s'.tries && HasOk(s'.tries[k])
      {
        assert k == h.msg.key || HasOk(s.tries[k]);
      }
    }
  }

  lemma CopiesAdded(b: multiset<Delivery>, d: Delivery, n: nat, x: Delivery)
    ensures (b + Copies(d, n))[x] == b[x] + if x == d then n else 0
    ensures x in b + Copies(d, n) ==> x in b || x == d
  {
  }

  lemma PublishBroker(cfg: Config, s: State, step: Step)
    requires RowsOk(cfg, s) && WorkersOk(s) && BrokerOk(s) && Enabled(cfg, s, step) && step.Publish?
    ensures BrokerOk(Apply(cfg, s, step))
  {
    var s', h := Apply(cfg, s, step), Current(s, step.w);
    var t := Try(h.lease, s.now, step.ok, step.copies);
    assert WorkerOk(s, s.workers[step.w]) && HeldOk(s, h);
    BrokerTried(s, s', h.msg.key, t);
  }

  lemma BrokerTried(s: State, s': State, key: Key, t: Try)
    requires BrokerOk(s) && s'.rows == s.rows && key in s.rows
    requires s'.tries == s.tries[key := s.tries[key] + [t]]
    requires var msg := Dispatch(s.rows[key].kind, s.rows[key].data);
             s'.broker == if msg.Some? then s.broker + Copies(Delivery(key, msg.value), t.copies) else s.broker
    ensures BrokerOk(s')
  {
    var msg := Dispatch(s.rows[key].kind, s.rows[key].data);
    forall d | d in s'.broker
      ensures Genuine(s'.rows, d)
    {
      if msg.Some? {
        CopiesAdded(s.broker, Delivery(key, msg.value), t.copies, d);
      }
      assert d in s.broker ==> Genuine(s.rows, d);
    }
    forall k | k in s'.rows
      ensures Tallied(s'.broker, k, Dispatch(s'.rows[k].kind, s'.rows[k].data), s'.tries[k])
    {
      TallyTried(s.broker, key, msg, s.tries[key], t, k, Dispatch(s.rows[k].kind, s.rows[k].data), s.tries[k]);
    }
  }

  lemma TallyTried(broker: multiset<Delivery>, key: Key, msg: Option<StatusChange>, ts: seq<Try>, t: Try,
                   k: Key, m: Option<StatusChange>, us: seq<Try>)
    requires Tallied(broker, k, m, us)
    requires k == key ==> m == msg && us == ts
    ensures Tallied(if msg.Some? then broker + Copies(Delivery(key, msg.value), t.copies) else broker,
                    k, m, if k == key then ts + [t] else us)
  {
    OkStays(ts, t);
    if m.Some? && msg.Some? {
      CopiesAdded(broker, Delivery(key, msg.value), t.copies, Delivery(k, m.value));
    }
  }

  lemma PublishExclusive(cfg: Config, s: State, step: Step)
    requires Exclusive(s) && Enabled(cfg, s, step) && step.Publish?
    ensures Exclusive(Apply(cfg, s, step))
  {
    var s' := Apply(cfg, s, step);
    assert forall w :: 0 <= w < |s.workers| && s'.workers[w].Busy? ==>
             s.workers[w].Busy? && s'.workers[w].batch == s.workers[w].batch;
    forall v, w | 0 <= v < w < |s'.workers|
      ensures DisjointHands(s'.workers[v], s'.workers[w])
    {
      assert DisjointHands(s.workers[v], s.workers[w]);
    }
  }

  lemma PublishInv(cfg: Config, s: State, step: Step)
    requires Inv(cfg, s) && Enabled(cfg, s, step) && step.Publish?
    ensures Inv(cfg, Apply(cfg, s, step))
  {
    PublishRows(cfg, s, step);
    PublishBroker(cfg, s, step);
    PublishExclusive(cfg, s, step);
    forall w | 0 <= w < |s.workers|
      ensures WorkerOk(Apply(cfg, s, step), Apply(cfg, s, step).workers[w])
    {
      PublishHand(cfg, s, step, w);
    }
  }

  /** Marking relies on every key of `okKeys` having been published. */
  lemma MarkRows(cfg: Config, s: State, step: Step)
    requires RowsOk(cfg, s) && WorkersOk(s) && Enabled(cfg, s, step) && step.Mark?
    ensures RowsOk(cfg, Apply(cfg, s, step))
  {
    var s' := Apply(cfg, s, step);
    assert WorkerOk(s, s.workers[step.w]);
    forall k | k in s'.rows
      ensures RowOk(cfg, s'.now, s'.rows[k], s'.leases[k], s'.tries[k])
    {
      assert RowOk(cfg, s.now, s.rows[k], s.leases[k], s.tries[k]);
    }
  }

  lemma MarkInv(cfg: Config, s: State, step: Step)
    requires Inv(cfg, s) && Enabled(cfg, s, step) && step.Mark?
    ensures Inv(cfg, Apply(cfg, s, step))
  {
    var s' := Apply(cfg, s, step);
    MarkRows(cfg, s, step);
    WorkersFrame(s, s');
    ExclusiveFrame(s, s');
    BrokerFrame(s, s');
  }

  lemma CrashInv(cfg: Config, s: State, step: Step)
    requires Inv(cfg, s) && Enabled(cfg, s, step) && step.Crash?
    ensures Inv(cfg, Apply(cfg, s, step))
  {
    var s' := Apply(cfg, s, step);
    WorkersFrame(s, s');
    ExclusiveFrame(s, s');
    BrokerFrame(s, s');
  }

  lemma StepInv(cfg: Config, s: State, step: Step)
    requires Inv(cfg, s) && Enabled(cfg, s, step)
    ensures Inv(cfg, Apply(cfg, s, step))
  {
    match step
    case Advance(_) => AdvanceInv(cfg, s, step);
    case Enqueue(_, _, _, _) => EnqueueInv(cfg, s, step);
    case Pick(_, _, _, _) => PickInv(cfg, s, step);
    case Publish(_, _, _) => PublishInv(cfg, s, step);
    case Mark(_, _) => MarkInv(cfg, s, step);
    case Crash(_) => CrashInv(cfg, s, step);
  }

  /** Every interleaving keeps the invariant. */
  lemma {:induction false} RunInv(cfg: Config, s: State, steps: seq<Step>)
    requires Inv(cfg, s) && Legal(cfg, s, steps)
    ensures Inv(cfg, Run(cfg, s, steps))
    decreases |steps|
  {
    if steps != [] {
      RunInv(cfg, s, steps[..|steps| - 1]);
      StepInv(cfg, Run(cfg, s, steps[..|steps| - 1]), steps[|steps| - 1]);
    }
  }
}
