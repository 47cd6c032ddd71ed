/** Nothing that was committed is ever out of reach: from every reachable state of detector and outbox
    together, some continuation delivers exactly the flips committed so far. */
module Liveness {
  import opened OutboxTable
  import opened EndToEnd
  import P = OutboxProtocol
  import I = OutboxInvariant
  import D = OutboxDrain
  import F = OutboxFinish

  lemma {:induction false} RunMore(cfg: P.Config, s: System, actions: seq<Action>, a: Action)
    ensures Legal(cfg, s, actions + [a]) <==> Legal(cfg, s, actions) && Possible(cfg, Run(cfg, s, actions), a)
    ensures Legal(cfg, s, actions + [a]) ==> Run(cfg, s, actions + [a]) == Next(cfg, Run(cfg, s, actions), a)
  {
    assert (actions + [a])[..|actions|] == actions;
  }

  lemma {:induction false} WorkersStay(cfg: P.Config, s: System, actions: seq<Action>)
    requires Legal(cfg, s, actions)
    ensures |Run(cfg, s, actions).ob.workers| == |s.ob.workers|
    decreases |actions|
  {
    if actions != [] {
      var n := |actions| - 1;
      WorkersStay(cfg, s, actions[..n]);
      NextWorkers(cfg, Run(cfg, s, actions[..n]), actions[n]);
    }
  }

  lemma NextWorkers(cfg: P.Config, s: System, a: Action)
    requires Possible(cfg, s, a)
    ensures |Next(cfg, s, a).ob.workers| == |s.ob.workers|
  {
  }

  /** The run can go on to where only the outbox has moved, to `ob`. */
  ghost predicate Leads(cfg: P.Config, s0: System, actions: seq<Action>, more: seq<Action>, ob: P.State)
    requires Legal(cfg, s0, actions)
  {
    Legal(cfg, s0, actions + more) && Run(cfg, s0, actions + more) == Run(cfg, s0, actions).(ob := ob)
  }

  ghost predicate Ahead(cfg: P.Config, s0: System, actions: seq<Action>, ob: P.State)
    requires Legal(cfg, s0, actions)
  {
    exists more :: Leads(cfg, s0, actions, more, ob)
  }

  lemma OutboxGoesOn(cfg: P.Config, s0: System, actions: seq<Action>, ob: P.State, step: P.Step)
    requires Legal(cfg, s0, actions) && Ahead(cfg, s0, actions, ob)
    requires P.Enabled(cfg, ob, step) && !step.Enqueue?
    ensures Ahead(cfg, s0, actions, P.Apply(cfg, ob, step))
  {
    var more :| Leads(cfg, s0, actions, more, ob);
    RunMore(cfg, s0, actions + more, Outbox(step));
    assert actions + (more + [Outbox(step)]) == actions + more + [Outbox(step)];
    assert Leads(cfg, s0, actions, more + [Outbox(step)], P.Apply(cfg, ob, step));
  }

  lemma FlipsDispatchable(s: System)
    requires IdsOk(s) && RowsAreFlips(s.ob.rows, s.flips)
    ensures AllDispatchable(s.ob.rows)
  {
    forall k | k in s.ob.rows ensures Dispatchable(s.ob.rows, k) {
      assert Covered(s.flips, k);
      var i :| 0 <= i < |s.flips| && KeyOf(s.flips[i]) == k;
      FlipDispatches(s, i);
    }
  }

  /** After `more`, with no new flip, the deliveries are exactly the flips. */
  ghost predicate Delivers(cfg: P.Config, s0: System, actions: seq<Action>, more: seq<Action>)
    requires Legal(cfg, s0, actions)
  {
    Legal(cfg, s0, actions + more) &&
    var flips, t := Run(cfg, s0, actions).flips, Run(cfg, s0, actions + more);
    t.flips == flips && D.AllFinished(t.ob.rows)
    && forall d :: d in t.ob.broker <==> exists i :: 0 <= i < |flips| && d == DeliveryOf(flips[i])
  }

  /** However many handlers, workers, commits and publishes have failed: as long as there is a worker,
      every committed flip can still be delivered, and nothing else. */
  lemma EveryFlipCanBeDelivered(cfg: P.Config, now: int, workers: nat, actions: seq<Action>)
    requires Legal(cfg, Start(now, workers), actions)
    requires workers > 0 && cfg.batch > 0 && cfg.attempts > 0
    ensures exists more :: Delivers(cfg, Start(now, workers), actions, more)
  {
    var s0 := Start(now, workers);
    var s := Run(cfg, s0, actions);
    RunInv(cfg, now, workers, actions);
    WorkersStay(cfg, s0, actions);
    FlipsDispatchable(s);
    var ob := CanFinish(cfg, s0, actions);
    var more :| Leads(cfg, s0, actions, more, ob);
    DeliveredAreTheFlips(cfg, now, workers, actions + more);
    assert Delivers(cfg, s0, actions, more);
  }

  lemma CanFinish(cfg: P.Config, s0: System, actions: seq<Action>) returns (ob: P.State)
    requires Legal(cfg, s0, actions) && cfg.batch > 0 && cfg.attempts > 0
    requires I.Inv(cfg, Run(cfg, s0, actions).ob) && AllDispatchable(Run(cfg, s0, actions).ob.rows)
    requires |Run(cfg, s0, actions).ob.workers| > 0
    ensures Ahead(cfg, s0, actions, ob) && D.AllFinished(ob.rows)
  {
    var s := Run(cfg, s0, actions);
    ghost var r := iset ob | Ahead(cfg, s0, actions, ob);
    assert actions + [] == actions;
    assert Leads(cfg, s0, actions, [], s.ob);
    forall ob, step ensures F.Leads(cfg, r, ob, step) {
      if ob in r && P.Enabled(cfg, ob, step) && !step.Enqueue? {
        OutboxGoesOn(cfg, s0, actions, ob, step);
      }
    }
    ob := F.FinishAll(cfg, r, s.ob);
  }
}
