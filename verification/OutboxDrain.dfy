/** Draining the outbox: once every unfinished row is due and publishes succeed, each tick finishes a
    full batch of them. */
module OutboxDrain {
  import opened Counting
  import opened OutboxTable
  import opened OutboxProtocol
  import opened OutboxInvariant

  function Unfinished(t: Table): set<Key> {
    set k | k in t && t[k].status != SUCCESS
  }

  /** Every unfinished row is fresh, or its lease has run out. */
  ghost predicate AllDue(cfg: Config, s: State) {
    forall k :: k in Unfinished(s.rows) ==> Eligible(s.rows[k], s.now, cfg.ttl)
  }

  /** Time passes or worker `w` publishes with success. */
  predicate Smooth(w: nat, step: Step) {
    step.Advance? || (step.Publish? && step.w == w && step.ok)
  }

  /** A tick of worker `w` that nothing goes wrong in: no row locked, every publish acknowledged, the
      mark durable; time may pass anywhere. */
  predicate GoodTick(w: nat, steps: seq<Step>) {
    && |steps| >= 3 && steps[0].Advance?
    && steps[1].Pick? && steps[1].w == w && steps[1].locked == {} && steps[1].seen
    && steps[|steps| - 1] == Mark(w, true)
    && forall i :: 2 <= i < |steps| - 1 ==> Smooth(w, steps[i])
  }

  function HeldKeys(batch: seq<Held>): seq<Key> {
    seq(|batch|, i requires 0 <= i < |batch| => batch[i].msg.key)
  }

  /** Worker `w` has published the first `pos` messages of the batch `keys`, all with success. */
  ghost predicate Midway(s: State, w: nat, keys: seq<Key>) {
    && w < |s.workers| && s.workers[w].Busy?
    && s.workers[w].pos <= |s.workers[w].batch|
    && HeldKeys(s.workers[w].batch) == keys
    && s.workers[w].okKeys == keys[..s.workers[w].pos]
  }

  lemma {:induction false} SmoothRun(cfg: Config, s: State, w: nat, keys: seq<Key>, steps: seq<Step>)
    requires Legal(cfg, s, steps) && Midway(s, w, keys)
    requires forall i :: 0 <= i < |steps| ==> Smooth(w, steps[i])
    ensures var s' := Run(cfg, s, steps);
            Midway(s', w, keys) && s'.rows == s.rows && s'.now >= s.now && |s'.workers| == |s.workers|
    decreases |steps|
  {
    if steps != [] {
      var steps', last := steps[..|steps| - 1], steps[|steps| - 1];
      assert Smooth(w, last);
      assert forall i :: 0 <= i < |steps'| ==> steps'[i] == steps[i];
      SmoothRun(cfg, s, w, keys, steps');
      SmoothStep(cfg, Run(cfg, s, steps'), w, keys, last);
    }
  }

  lemma SmoothStep(cfg: Config, s: State, w: nat, keys: seq<Key>, step: Step)
    requires Enabled(cfg, s, step) && Midway(s, w, keys) && Smooth(w, step)
    ensures var s' := Apply(cfg, s, step);
            Midway(s', w, keys) && s'.rows == s.rows && s'.now >= s.now && |s'.workers| == |s.workers|
  {
    if step.Publish? {
      var b := s.workers[w];
      assert HeldKeys(b.batch)[b.pos] == b.batch[b.pos].msg.key;
      assert keys[..b.pos] + [keys[b.pos]] == keys[..b.pos + 1];
    }
  }

  lemma AfterPick(cfg: Config, s: State, w: nat, keys: seq<Key>)
    requires Enabled(cfg, s, Pick(w, {}, keys, true))
    ensures Midway(Apply(cfg, s, Pick(w, {}, keys, true)), w, keys)
  {
    assert HeldKeys(Grant(s, keys)) == keys;
  }

  lemma TwoSteps(cfg: Config, s: State, a: Step, b: Step)
    requires Legal(cfg, s, [a, b])
    ensures Enabled(cfg, s, a) && Enabled(cfg, Apply(cfg, s, a), b)
    ensures Run(cfg, s, [a, b]) == Apply(cfg, Apply(cfg, s, a), b)
  {
    assert [a, b] == [a] + [b] && [a] == [] + [a];
    RunSnoc(cfg, s, [a], b);
    RunSnoc(cfg, s, [], a);
  }

  /** A good tick in its four parts: time passes, the pick, the publishes, the mark. */
  lemma GoodTickParts(cfg: Config, s: State, w: nat, steps: seq<Step>)
    requires Legal(cfg, s, steps) && GoodTick(w, steps)
    ensures var waited, mid := Apply(cfg, s, steps[0]), steps[2..|steps| - 1];
            && Enabled(cfg, waited, steps[1])
            && var picked := Apply(cfg, waited, steps[1]);
               && Legal(cfg, picked, mid)
               && var held := Run(cfg, picked, mid);
                  Enabled(cfg, held, Mark(w, true)) && Run(cfg, s, steps) == Apply(cfg, held, Mark(w, true))
  {
    var n := |steps| - 1;
    var mid := steps[2..n];
    LastStep(cfg, s, steps, n);
    assert steps[..n] == [steps[0], steps[1]] + mid;
    RunAppend(cfg, s, [steps[0], steps[1]], mid);
    TwoSteps(cfg, s, steps[0], steps[1]);
  }

  lemma PickAndPublish(cfg: Config, s: State, w: nat, pick: Step, mid: seq<Step>)
    requires Enabled(cfg, s, pick) && pick.Pick? && pick.w == w && pick.locked == {} && pick.seen
    requires Legal(cfg, Apply(cfg, s, pick), mid) && forall i :: 0 <= i < |mid| ==> Smooth(w, mid[i])
    ensures var held := Run(cfg, Apply(cfg, s, pick), mid);
            Midway(held, w, pick.keys) && held.rows == Leased(s.rows, pick.keys, s.now) && held.now >= s.now
  {
    AfterPick(cfg, s, w, pick.keys);
    SmoothRun(cfg, Apply(cfg, s, pick), w, pick.keys, mid);
  }

  lemma GoodTickHeld(cfg: Config, s: State, w: nat, steps: seq<Step>) returns (waited: State, held: State)
    requires Legal(cfg, s, steps) && GoodTick(w, steps)
    ensures waited == s.(now := s.now + steps[0].d) && cfg.batch > 0
    ensures Pickable(waited.rows, waited.now, cfg.ttl, cfg.batch, {}, steps[1].keys)
    ensures Midway(held, w, steps[1].keys) && held.rows == Leased(waited.rows, steps[1].keys, waited.now)
    ensures held.now >= waited.now
    ensures Enabled(cfg, held, Mark(w, true)) && Run(cfg, s, steps) == Apply(cfg, held, Mark(w, true))
  {
    var mid := steps[2..|steps| - 1];
    GoodTickParts(cfg, s, w, steps);
    waited := Apply(cfg, s, steps[0]);
    held := Run(cfg, Apply(cfg, waited, steps[1]), mid);
    assert forall i :: 0 <= i < |mid| ==> mid[i] == steps[i + 2];
    PickAndPublish(cfg, waited, w, steps[1], mid);
  }

  /** Exactly the named rows became SUCCESS. */
  predicate BatchFinished(t: Table, t': Table, keys: seq<Key>) {
    && t'.Keys == t.Keys
    && (forall k :: k in t && k in keys ==> t'[k].status == SUCCESS)
    && (forall k :: k in t && k !in keys ==> t'[k] == t[k])
  }

  /** What a good tick does to the table: the rows of one due batch become SUCCESS. */
  lemma GoodTickEffect(cfg: Config, s: State, w: nat, steps: seq<Step>)
    requires Legal(cfg, s, steps) && GoodTick(w, steps)
    ensures var s', keys := Run(cfg, s, steps), steps[1].keys;
            && Pickable(s.rows, s.now + steps[0].d, cfg.ttl, cfg.batch, {}, keys) && cfg.batch > 0
            && s'.now >= s.now + steps[0].d
            && BatchFinished(s.rows, s'.rows, keys)
  {
    var waited, held := GoodTickHeld(cfg, s, w, steps);
    MarkEffect(cfg, waited, steps[1].keys, held, w);
  }

  lemma MarkEffect(cfg: Config, s: State, keys: seq<Key>, held: State, w: nat)
    requires Midway(held, w, keys) && Enabled(cfg, held, Mark(w, true))
    requires held.rows == Leased(s.rows, keys, s.now)
    ensures BatchFinished(s.rows, Apply(cfg, held, Mark(w, true)).rows, keys)
    ensures Apply(cfg, held, Mark(w, true)).now == held.now
  {
    assert keys[..|keys|] == keys;
  }

  function Min(a: int, b: int): int {
    if a <= b then a else b
  }

  /** Each good tick finishes a full batch, or all that is left. */
  lemma TickDrains(cfg: Config, s: State, w: nat, steps: seq<Step>)
    requires AllDue(cfg, s) && Legal(cfg, s, steps) && GoodTick(w, steps)
    ensures var s', n := Run(cfg, s, steps), |Unfinished(s.rows)|;
            AllDue(cfg, s') && |Unfinished(s'.rows)| == n - Min(cfg.batch, n)
  {
    var s', keys, due := Run(cfg, s, steps), steps[1].keys, Unfinished(s.rows);
    GoodTickEffect(cfg, s, w, steps);
    var taken := ToSet(keys);
    assert forall k :: k in keys ==> k in due;
    assert Unfinished(s'.rows) == due - taken;
    assert |due - taken| == |due| - |taken| by {
      assert taken <= due;
      DifferenceSize(due, taken);
    }
    DistinctSize(keys);
    if |keys| < cfg.batch {
      assert due == taken by {
        forall k | k in due
          ensures k in taken
        {
          assert Eligible(s.rows[k], s.now + steps[0].d, cfg.ttl);
        }
      }
    } else {
      SubsetSize(taken, due);
    }
    forall k | k in Unfinished(s'.rows)
      ensures Eligible(s'.rows[k], s'.now, cfg.ttl)
    {
      assert k in due && Eligible(s.rows[k], s.now, cfg.ttl);
    }
  }

  /** A tick of one of the workers. */
  datatype Tick = Tick(w: nat, steps: seq<Step>)

  /** Good ticks, one after another, each of any worker. */
  ghost predicate GoodTicks(cfg: Config, s: State, ticks: seq<Tick>)
    decreases |ticks|
  {
    ticks == [] ||
    (var t := ticks[0];
     GoodTick(t.w, t.steps) && Legal(cfg, s, t.steps) && GoodTicks(cfg, Run(cfg, s, t.steps), ticks[1..]))
  }

  ghost function AfterTicks(cfg: Config, s: State, ticks: seq<Tick>): State
    requires GoodTicks(cfg, s, ticks)
    decreases |ticks|
  {
    if ticks == [] then s else AfterTicks(cfg, Run(cfg, s, ticks[0].steps), ticks[1..])
  }

  /** After m good ticks exactly max(0, n - m * batch) of n unfinished rows are left. */
  lemma {:induction false} Drains(cfg: Config, s: State, ticks: seq<Tick>)
    requires cfg.batch > 0 && AllDue(cfg, s) && GoodTicks(cfg, s, ticks)
    ensures var n := |Unfinished(s.rows)|;
            |Unfinished(AfterTicks(cfg, s, ticks).rows)| == n - Min(|ticks| * cfg.batch, n)
    decreases |ticks|
  {
    if ticks != [] {
      TickDrains(cfg, s, ticks[0].w, ticks[0].steps);
      Drains(cfg, Run(cfg, s, ticks[0].steps), ticks[1..]);
      OneMore(|ticks| - 1, cfg.batch);
    }
  }

  /** ceil(n / batch) good ticks turn n unfinished rows into SUCCESS, every one. */
  lemma DrainsCompletely(cfg: Config, s: State, ticks: seq<Tick>)
    requires cfg.batch > 0 && AllDue(cfg, s) && GoodTicks(cfg, s, ticks)
    requires |ticks| >= (|Unfinished(s.rows)| + cfg.batch - 1) / cfg.batch
    ensures AllFinished(AfterTicks(cfg, s, ticks).rows)
  {
    Drains(cfg, s, ticks);
    CeilingCovers(|Unfinished(s.rows)|, cfg.batch, |ticks|);
    NoneUnfinished(AfterTicks(cfg, s, ticks).rows);
  }

  predicate AllFinished(t: Table) {
    forall k :: k in t ==> t[k].status == SUCCESS
  }

  lemma NoneUnfinished(t: Table)
    ensures |Unfinished(t)| == 0 <==> AllFinished(t)
  {
    assert forall k :: k in Unfinished(t) <==> k in t && t[k].status != SUCCESS;
    if forall k :: k !in Unfinished(t) {
      assert Unfinished(t) == {};
    } else {
      assert Unfinished(t) != {};
    }
  }

  /** Once more than a lease has gone by in a reachable state, every unfinished row is due. */
  lemma WaitingMakesDue(cfg: Config, s: State, d: nat)
    requires Inv(cfg, s) && d > cfg.ttl
    ensures AllDue(cfg, Apply(cfg, s, Advance(d)))
  {
    forall k | k in Unfinished(s.rows) ensures Eligible(s.rows[k], s.now + d, cfg.ttl) {
      assert RowOk(cfg, s.now, s.rows[k], s.leases[k], s.tries[k]);
    }
  }

  lemma CeilingCovers(n: nat, batch: int, m: nat)
    requires batch > 0 && m >= (n + batch - 1) / batch
    ensures m * batch >= n
  {
    MultiplyMonotone((n + batch - 1) / batch, m, batch);
    assert batch * ((n + batch - 1) / batch) >= n;
  }
}
