/** Draining by many workers at once: their picks, publishes and marks may interleave in any way. */
module OutboxTogether {
  import opened Counting
  import opened OutboxTable
  import opened OutboxProtocol
  import opened OutboxDrain

  /** A step in which nothing goes wrong, by whichever worker. */
  predicate Healthy(step: Step) {
    match step
    case Advance(_) => true
    case Pick(_, locked, _, seen) => locked == {} && seen
    case Publish(_, ok, _) => ok
    case Mark(_, durable) => durable
    case _ => false
  }

  function PickCount(steps: seq<Step>): nat {
    if steps == [] then 0
    else PickCount(steps[..|steps| - 1]) + if steps[|steps| - 1].Pick? then 1 else 0
  }

  /** The row was leased at `start` or later, and is not finished. */
  predicate Taken(r: Row, start: int) {
    r.status == IN_PROGRESS && r.updatedAt >= start
  }

  /** The rows nobody has taken up since `start`. */
  function Waiting(t: Table, start: int): set<Key> {
    set k | k in t && t[k].status != SUCCESS && !Taken(t[k], start)
  }

  ghost predicate AllIdle(s: State) {
    forall w :: 0 <= w < |s.workers| ==> s.workers[w].Idle?
  }

  /** A worker's hand: what it has published it remembers, and every row in it is taken or finished. */
  ghost predicate HandOk(t: Table, start: int, b: Worker) {
    b.Busy? ==>
      && b.pos <= |b.batch| && b.okKeys == HeldKeys(b.batch)[..b.pos]
      && forall i :: 0 <= i < |b.batch| ==> InHandOk(t, start, b.batch[i].msg.key)
  }

  predicate InHandOk(t: Table, start: int, k: Key) {
    k in t && (t[k].status == SUCCESS || Taken(t[k], start))
  }

  ghost predicate Holds(b: Worker, k: Key) {
    b.Busy? && k in HeldKeys(b.batch)
  }

  ghost predicate Held(ws: seq<Worker>, k: Key) {
    exists w :: 0 <= w < |ws| && Holds(ws[w], k)
  }

  /** Since `start` every row is waiting and due, in some worker's hand, or finished. */
  ghost predicate Sharing(cfg: Config, s: State, start: int) {
    && start <= s.now
    && (forall k :: k in Waiting(s.rows, start) ==> Eligible(s.rows[k], start, cfg.ttl))
    && (forall w :: 0 <= w < |s.workers| ==> HandOk(s.rows, start, s.workers[w]))
    && (forall k :: k in s.rows && Taken(s.rows[k], start) ==> Held(s.workers, k))
  }

  lemma SharingStarts(cfg: Config, s: State)
    requires cfg.ttl >= 0 && AllDue(cfg, s) && AllIdle(s)
    ensures Sharing(cfg, s, s.now) && Waiting(s.rows, s.now) == Unfinished(s.rows)
  {
    forall k | k in s.rows && s.rows[k].status != SUCCESS
      ensures Eligible(s.rows[k], s.now, cfg.ttl) && !Taken(s.rows[k], s.now)
    {
      assert k in Unfinished(s.rows);
    }
  }

  /** Within a lease of `start` a pick takes a full batch of the waiting rows, or all of them, and
      none that another worker has taken. */
  lemma PickTakesWaiting(cfg: Config, t: Table, now: int, start: int, keys: seq<Key>)
    requires Pickable(t, now, cfg.ttl, cfg.batch, {}, keys) && cfg.batch > 0 && start <= now <= start + cfg.ttl
    requires forall k :: k in Waiting(t, start) ==> Eligible(t[k], start, cfg.ttl)
    ensures ToSet(keys) <= Waiting(t, start)
    ensures |ToSet(keys)| == Min(cfg.batch, |Waiting(t, start)|)
  {
    var waiting := Waiting(t, start);
    DistinctSize(keys);
    forall k | k in keys ensures k in waiting {
      assert Eligible(t[k], now, cfg.ttl);
    }
    SubsetSize(ToSet(keys), waiting);
    if |keys| < cfg.batch {
      forall k | k in waiting ensures k in keys {
        assert Eligible(t[k], start, cfg.ttl);
        assert Eligible(t[k], now, cfg.ttl);
      }
      assert ToSet(keys) == waiting;
    }
  }

  lemma LeasedWaiting(t: Table, keys: seq<Key>, now: int, start: int)
    requires start <= now
    ensures Waiting(Leased(t, keys, now), start) == Waiting(t, start) - ToSet(keys)
  {
  }

  lemma HandAfterPick(t: Table, keys: seq<Key>, now: int, start: int, b: Worker)
    requires start <= now && HandOk(t, start, b)
    ensures HandOk(Leased(t, keys, now), start, b)
  {
    if b.Busy? {
      forall i | 0 <= i < |b.batch| ensures InHandOk(Leased(t, keys, now), start, b.batch[i].msg.key) {
        assert InHandOk(t, start, b.batch[i].msg.key);
      }
    }
  }

  lemma FreshHand(s: State, keys: seq<Key>, start: int)
    requires start <= s.now && forall k :: k in keys ==> k in s.rows
    ensures HandOk(Leased(s.rows, keys, s.now), start, Busy(Grant(s, keys), 0, []))
    ensures HeldKeys(Grant(s, keys)) == keys
  {
  }

  lemma StillHeld(ws: seq<Worker>, w: nat, b: Worker, k: Key)
    requires w < |ws| && Held(ws, k) && (Holds(ws[w], k) ==> Holds(b, k))
    ensures Held(ws[w := b], k)
  {
    var v :| 0 <= v < |ws| && Holds(ws[v], k);
    assert Holds(ws[w := b][v], k);
  }

  lemma NowHeld(ws: seq<Worker>, w: nat, b: Worker, k: Key)
    requires w < |ws| && Holds(b, k)
    ensures Held(ws[w := b], k)
  {
    assert Holds(ws[w := b][w], k);
  }

  lemma PickShares(cfg: Config, s: State, step: Step, start: int)
    requires Sharing(cfg, s, start) && Enabled(cfg, s, step) && step.Pick? && Healthy(step)
    requires s.now <= start + cfg.ttl
    ensures var s' := Apply(cfg, s, step);
            Sharing(cfg, s', start)
            && |Waiting(s'.rows, start)| == |Waiting(s.rows, start)| - Min(cfg.batch, |Waiting(s.rows, start)|)
  {
    var s', keys, w := Apply(cfg, s, step), step.keys, step.w;
    PickTakesWaiting(cfg, s.rows, s.now, start, keys);
    LeasedWaiting(s.rows, keys, s.now, start);
    DifferenceSize(Waiting(s.rows, start), ToSet(keys));
    FreshHand(s, keys, start);
    forall v | 0 <= v < |s'.workers| ensures HandOk(s'.rows, start, s'.workers[v]) {
      HandAfterPick(s.rows, keys, s.now, start, s.workers[v]);
    }
    forall k | k in s'.rows && Taken(s'.rows[k], start) ensures Held(s'.workers, k) {
      if k in keys {
        NowHeld(s.workers, w, Busy(Grant(s, keys), 0, []), k);
      } else {
        StillHeld(s.workers, w, Busy(Grant(s, keys), 0, []), k);
      }
    }
  }

  lemma PublishShares(cfg: Config, s: State, step: Step, start: int)
    requires Sharing(cfg, s, start) && Enabled(cfg, s, step) && step.Publish? && Healthy(step)
    ensures Sharing(cfg, Apply(cfg, s, step), start) && Apply(cfg, s, step).rows == s.rows
  {
    var s', b, w := Apply(cfg, s, step), s.workers[step.w], step.w;
    var keys := HeldKeys(b.batch);
    assert HandOk(s.rows, start, b);
    assert keys[..b.pos] + [keys[b.pos]] == keys[..b.pos + 1];
    forall v | 0 <= v < |s'.workers| ensures HandOk(s'.rows, start, s'.workers[v]) {
      assert HandOk(s.rows, start, s.workers[v]);
    }
    forall k | k in s'.rows && Taken(s'.rows[k], start) ensures Held(s'.workers, k) {
      StillHeld(s.workers, w, s'.workers[w], k);
    }
  }

  lemma MarkedWaiting(t: Table, keys: seq<Key>, now: int, start: int)
    requires forall k :: k in keys ==> InHandOk(t, start, k)
    ensures Waiting(Marked(t, keys, now), start) == Waiting(t, start)
    ensures forall k :: k in t && k !in keys ==> Marked(t, keys, now)[k] == t[k]
    ensures forall k :: k in t && k in keys ==> Marked(t, keys, now)[k].status == SUCCESS
  {
  }

  lemma MarkShares(cfg: Config, s: State, step: Step, start: int)
    requires Sharing(cfg, s, start) && Enabled(cfg, s, step) && step.Mark? && Healthy(step)
    ensures var s' := Apply(cfg, s, step);
            Sharing(cfg, s', start) && Waiting(s'.rows, start) == Waiting(s.rows, start)
  {
    var s', b, w := Apply(cfg, s, step), s.workers[step.w], step.w;
    assert HandOk(s.rows, start, b);
    assert HeldKeys(b.batch)[..|b.batch|] == HeldKeys(b.batch);
    MarkedWaiting(s.rows, b.okKeys, s.now, start);
    forall v | 0 <= v < |s'.workers| ensures HandOk(s'.rows, start, s'.workers[v]) {
      HandAfterMark(s.rows, b.okKeys, s.now, start, s.workers[v]);
    }
    forall k | k in s'.rows && Taken(s'.rows[k], start) ensures Held(s'.workers, k) {
      assert k !in b.okKeys && Taken(s.rows[k], start);
      StillHeld(s.workers, w, Idle, k);
    }
    forall k | k in Waiting(s'.rows, start) ensures Eligible(s'.rows[k], start, cfg.ttl) {
      assert k in Waiting(s.rows, start) && k !in b.okKeys;
    }
  }

  lemma HandAfterMark(t: Table, keys: seq<Key>, now: int, start: int, b: Worker)
    requires HandOk(t, start, b)
    ensures HandOk(Marked(t, keys, now), start, b)
  {
    if b.Busy? {
      forall i | 0 <= i < |b.batch| ensures InHandOk(Marked(t, keys, now), start, b.batch[i].msg.key) {
        assert InHandOk(t, start, b.batch[i].msg.key);
      }
    }
  }

  lemma StepShares(cfg: Config, s: State, step: Step, start: int)
    requires Sharing(cfg, s, start) && Enabled(cfg, s, step) && Healthy(step) && s.now <= start + cfg.ttl
    ensures var s' := Apply(cfg, s, step);
            Sharing(cfg, s', start)
            && |Waiting(s'.rows, start)|
               == |Waiting(s.rows, start)| - if step.Pick? then Min(cfg.batch, |Waiting(s.rows, start)|) else 0
  {
    match step
    case Advance(_) =>
    case Pick(_, _, _, _) => PickShares(cfg, s, step, start);
    case Publish(_, _, _) => PublishShares(cfg, s, step, start);
    case Mark(_, _) => MarkShares(cfg, s, step, start);
  }

  lemma TimePasses(cfg: Config, s: State, step: Step)
    requires Enabled(cfg, s, step)
    ensures s.now <= Apply(cfg, s, step).now
  {
  }

  /** Of `n` waiting rows so many picks have left the rest. */
  ghost predicate Left(cfg: Config, s: State, start: int, n: nat, picks: nat) {
    Sharing(cfg, s, start) && |Waiting(s.rows, start)| == n - Min(picks * cfg.batch, n)
  }

  lemma StepLeaves(cfg: Config, s: State, step: Step, start: int, n: nat, picks: nat)
    requires cfg.batch > 0 && Left(cfg, s, start, n, picks)
    requires Enabled(cfg, s, step) && Healthy(step) && s.now <= start + cfg.ttl
    ensures Left(cfg, Apply(cfg, s, step), start, n, if step.Pick? then picks + 1 else picks)
  {
    StepShares(cfg, s, step, start);
    OneBatchMore(n, picks, cfg.batch);
  }

  lemma {:induction false} RunShares(cfg: Config, s: State, steps: seq<Step>, start: int)
    requires cfg.batch > 0 && Sharing(cfg, s, start) && Legal(cfg, s, steps)
    requires forall i :: 0 <= i < |steps| ==> Healthy(steps[i])
    requires Run(cfg, s, steps).now <= start + cfg.ttl
    ensures Left(cfg, Run(cfg, s, steps), start, |Waiting(s.rows, start)|, PickCount(steps))
    decreases |steps|
  {
    if steps != [] {
      var rest, last := steps[..|steps| - 1], steps[|steps| - 1];
      LastStep(cfg, s, steps, |rest|);
      var mid := Run(cfg, s, rest);
      TimePasses(cfg, mid, last);
      assert forall i :: 0 <= i < |rest| ==> rest[i] == steps[i];
      RunShares(cfg, s, rest, start);
      StepLeaves(cfg, mid, last, start, |Waiting(s.rows, start)|, PickCount(rest));
    }
  }

  lemma OneBatchMore(n: nat, picks: nat, batch: int)
    requires batch > 0
    ensures var left := n - Min(picks * batch, n); left - Min(batch, left) == n - Min((picks + 1) * batch, n)
  {
    OneMore(picks, batch);
  }

  /** Any number of workers at once: from a state in which all are idle and every unfinished row is
      due, in a run without failures that takes no longer than a lease and ends with all idle again,
      m picks leave exactly max(0, n - m * batch) of n unfinished rows, however they interleave. */
  lemma DrainsTogether(cfg: Config, s: State, steps: seq<Step>)
    requires cfg.batch > 0 && cfg.ttl >= 0 && AllDue(cfg, s) && AllIdle(s) && Legal(cfg, s, steps)
    requires forall i :: 0 <= i < |steps| ==> Healthy(steps[i])
    requires Run(cfg, s, steps).now <= s.now + cfg.ttl && AllIdle(Run(cfg, s, steps))
    ensures var n := |Unfinished(s.rows)|;
            |Unfinished(Run(cfg, s, steps).rows)| == n - Min(PickCount(steps) * cfg.batch, n)
  {
    var s' := Run(cfg, s, steps);
    SharingStarts(cfg, s);
    RunShares(cfg, s, steps, s.now);
    NothingHeld(cfg, s', s.now);
  }

  lemma NothingHeld(cfg: Config, s: State, start: int)
    requires Sharing(cfg, s, start) && AllIdle(s)
    ensures Waiting(s.rows, start) == Unfinished(s.rows)
  {
    forall k | k in s.rows ensures !Taken(s.rows[k], start) {
      assert !Held(s.workers, k);
    }
  }
}
