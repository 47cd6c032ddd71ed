/** From every reachable state the outbox can still finish every row, whatever has gone wrong before:
    one worker, starting over, publishes and marks them batch by batch. */
module OutboxFinish {
  import opened Counting
  import opened StatusEvents
  import opened OutboxTable
  import opened OutboxProtocol
  import opened OutboxInvariant
  import opened OutboxGuarantees
  import opened OutboxOnce
  import opened OutboxDrain

  /** States that stay together as long as nothing new is enqueued. */
  ghost predicate Continues(cfg: Config, r: iset<State>) {
    forall s, step :: Leads(cfg, r, s, step)
  }

  ghost predicate Leads(cfg: Config, r: iset<State>, s: State, step: Step) {
    s in r && Enabled(cfg, s, step) && !step.Enqueue? ==> Apply(cfg, s, step) in r
  }

  lemma Take(cfg: Config, r: iset<State>, s: State, step: Step) returns (s': State)
    requires Continues(cfg, r) && s in r && Enabled(cfg, s, step) && !step.Enqueue? && Inv(cfg, s)
    ensures s' == Apply(cfg, s, step) && s' in r && Inv(cfg, s')
  {
    assert Leads(cfg, r, s, step);
    StepInv(cfg, s, step);
    s' := Apply(cfg, s, step);
  }

  /** The earliest created of a set of rows. */
  lemma {:induction false} Earliest(t: Table, rest: set<Key>) returns (k: Key)
    requires rest != {} && rest <= t.Keys
    ensures k in rest && forall x :: x in rest ==> t[k].createdAt <= t[x].createdAt
  {
    k :| k in rest;
    if rest != {k} {
      var other := Earliest(t, rest - {k});
      if t[other].createdAt < t[k].createdAt {
        k := other;
      }
    }
  }

  /** There is always a result the pick query can give. */
  lemma {:induction false} Candidates(t: Table, rest: set<Key>, n: nat) returns (keys: seq<Key>)
    requires rest <= t.Keys
    ensures Distinct(keys) && |keys| <= n && (forall k :: k in keys ==> k in rest)
    ensures forall k :: k in rest && k !in keys ==>
              |keys| == n && forall p :: p in keys ==> t[p].createdAt <= t[k].createdAt
    ensures n > 0 && rest != {} ==> keys != []
  {
    if n == 0 || rest == {} {
      keys := [];
    } else {
      var k := Earliest(t, rest);
      var more := Candidates(t, rest - {k}, n - 1);
      keys := [k] + more;
    }
  }

  lemma PickableExists(cfg: Config, s: State) returns (keys: seq<Key>)
    requires cfg.batch > 0 && AllDue(cfg, s)
    ensures Pickable(s.rows, s.now, cfg.ttl, cfg.batch, {}, keys)
    ensures forall k :: k in keys ==> k in Unfinished(s.rows)
    ensures Unfinished(s.rows) != {} ==> keys != []
  {
    keys := Candidates(s.rows, Unfinished(s.rows), cfg.batch);
    forall k | k in s.rows && k !in keys && Eligible(s.rows[k], s.now, cfg.ttl)
      ensures |keys| == cfg.batch && forall p :: p in keys ==> s.rows[p].createdAt <= s.rows[k].createdAt
    {
      assert k in Unfinished(s.rows);
    }
    forall k | k in keys ensures Eligible(s.rows[k], s.now, cfg.ttl) {
      assert k in Unfinished(s.rows);
    }
  }

  /** The worker publishes what is left of its batch. */
  lemma {:induction false} PublishRest(cfg: Config, r: iset<State>, s: State, w: nat, keys: seq<Key>)
    returns (s': State)
    requires cfg.attempts > 0 && Continues(cfg, r) && s in r && Inv(cfg, s) && AllDispatchable(s.rows)
    requires Midway(s, w, keys)
    ensures s' in r && Inv(cfg, s') && s'.rows == s.rows && |s'.workers| == |s.workers|
    ensures Midway(s', w, keys) && s'.workers[w].pos == |s'.workers[w].batch|
    decreases |s.workers[w].batch| - s.workers[w].pos
  {
    var b := s.workers[w];
    if b.pos == |b.batch| {
      s' := s;
    } else {
      assert WorkerOk(s, b) && HeldOk(s, b.batch[b.pos]);
      var step := Publish(w, true, 1);
      SmoothStep(cfg, s, w, keys, step);
      s' := Take(cfg, r, s, step);
      s' := PublishRest(cfg, r, s', w, keys);
    }
  }

  /** The rows are the same and ask for the same messages. */
  predicate SameAsked(t: Table, t': Table) {
    t'.Keys == t.Keys && forall k :: k in t ==> t'[k].kind == t[k].kind && t'[k].data == t[k].data
  }

  lemma StillDispatchable(t: Table, t': Table)
    requires SameAsked(t, t') && AllDispatchable(t)
    ensures AllDispatchable(t')
  {
  }

  lemma PickDue(cfg: Config, r: iset<State>, s: State, w: nat) returns (s': State, keys: seq<Key>)
    requires cfg.batch > 0 && Continues(cfg, r) && s in r && Inv(cfg, s)
    requires AllDue(cfg, s) && w < |s.workers| && s.workers[w].Idle? && Unfinished(s.rows) != {}
    ensures s' in r && Inv(cfg, s') && Midway(s', w, keys) && |s'.workers| == |s.workers|
    ensures s'.rows == Leased(s.rows, keys, s.now)
    ensures keys != [] && forall k :: k in keys ==> k in Unfinished(s.rows)
  {
    keys := PickableExists(cfg, s);
    AfterPick(cfg, s, w, keys);
    s' := Take(cfg, r, s, Pick(w, {}, keys, true));
  }

  lemma MarkHeld(cfg: Config, r: iset<State>, s: State, w: nat, keys: seq<Key>) returns (s': State)
    requires Continues(cfg, r) && s in r && Inv(cfg, s)
    requires Midway(s, w, keys) && s.workers[w].pos == |s.workers[w].batch|
    ensures s' in r && Inv(cfg, s') && w < |s'.workers| && s'.workers[w].Idle?
    ensures s'.rows == Marked(s.rows, keys, s.now)
  {
    assert keys[..|keys|] == keys;
    s' := Take(cfg, r, s, Mark(w, true));
  }

  lemma BatchTable(t: Table, keys: seq<Key>, picked: int, marked: int)
    requires keys != [] && forall k :: k in keys ==> k in Unfinished(t)
    ensures var t' := Marked(Leased(t, keys, picked), keys, marked);
            SameAsked(t, t') && SameAsked(t, Leased(t, keys, picked)) && Unfinished(t') < Unfinished(t)
  {
    assert keys[0] in Unfinished(t) && keys[0] !in Unfinished(Marked(Leased(t, keys, picked), keys, marked));
  }

  /** A whole batch, from the pick to the mark. */
  lemma OneBatch(cfg: Config, r: iset<State>, s: State, w: nat) returns (s': State)
    requires cfg.batch > 0 && cfg.attempts > 0 && Continues(cfg, r) && s in r && Inv(cfg, s)
    requires AllDispatchable(s.rows) && AllDue(cfg, s) && w < |s.workers| && s.workers[w].Idle?
    requires Unfinished(s.rows) != {}
    ensures s' in r && Inv(cfg, s') && w < |s'.workers| && s'.workers[w].Idle?
    ensures AllDispatchable(s'.rows) && Unfinished(s'.rows) < Unfinished(s.rows)
  {
    var picked, keys := PickDue(cfg, r, s, w);
    BatchTable(s.rows, keys, s.now, s.now);
    StillDispatchable(s.rows, picked.rows);
    var held := PublishRest(cfg, r, picked, w, keys);
    s' := MarkHeld(cfg, r, held, w, keys);
    BatchTable(s.rows, keys, s.now, held.now);
    StillDispatchable(s.rows, s'.rows);
  }

  lemma {:induction false} FinishIdle(cfg: Config, r: iset<State>, s: State, w: nat) returns (s': State)
    requires cfg.batch > 0 && cfg.attempts > 0 && Continues(cfg, r) && s in r && Inv(cfg, s)
    requires AllDispatchable(s.rows) && w < |s.workers| && s.workers[w].Idle?
    ensures s' in r && AllFinished(s'.rows)
    decreases Unfinished(s.rows)
  {
    if Unfinished(s.rows) == {} {
      NoneUnfinished(s.rows);
      s' := s;
    } else {
      var d: nat := if cfg.ttl < 0 then 0 else cfg.ttl + 1;
      WaitingMakesDue(cfg, s, d);
      s' := Take(cfg, r, s, Advance(d));
      s' := OneBatch(cfg, r, s', w);
      s' := FinishIdle(cfg, r, s', w);
    }
  }

  /** Whatever the workers are in the middle of: one of them gives up its batch and starts over. */
  lemma FinishAll(cfg: Config, r: iset<State>, s: State) returns (s': State)
    requires cfg.batch > 0 && cfg.attempts > 0 && Continues(cfg, r) && s in r && Inv(cfg, s)
    requires AllDispatchable(s.rows) && |s.workers| > 0
    ensures s' in r && AllFinished(s'.rows)
  {
    s' := Take(cfg, r, s, Crash(0));
    s' := FinishIdle(cfg, r, s', 0);
  }

  /** The run goes on by `more`, without a new row, to `s`. */
  ghost predicate GoesOn(cfg: Config, s0: State, steps: seq<Step>, more: seq<Step>, s: State) {
    && (forall i :: 0 <= i < |more| ==> !more[i].Enqueue?)
    && Legal(cfg, s0, steps + more) && s == Run(cfg, s0, steps + more)
  }

  ghost predicate Ahead(cfg: Config, s0: State, steps: seq<Step>, s: State) {
    exists more :: GoesOn(cfg, s0, steps, more, s)
  }

  lemma OneStepOn(cfg: Config, s0: State, steps: seq<Step>, s: State, step: Step)
    requires Ahead(cfg, s0, steps, s) && Enabled(cfg, s, step) && !step.Enqueue?
    ensures Ahead(cfg, s0, steps, Apply(cfg, s, step))
  {
    var more :| GoesOn(cfg, s0, steps, more, s);
    RunSnoc(cfg, s0, steps + more, step);
    assert steps + (more + [step]) == steps + more + [step];
    assert GoesOn(cfg, s0, steps, more + [step], Apply(cfg, s, step));
  }

  ghost predicate Finishable(cfg: Config, s0: State, steps: seq<Step>) {
    exists s :: Ahead(cfg, s0, steps, s) && AllFinished(s.rows)
  }

  /** From a reachable state the rows can all become SUCCESS, in some continuation, exactly when every
      one of them asks for a message that can be published: of known kind, with data that decodes. */
  lemma FinishableIff(cfg: Config, now: int, workers: nat, steps: seq<Step>)
    requires cfg.batch > 0 && cfg.attempts > 0 && workers > 0 && Legal(cfg, Init(now, workers), steps)
    ensures Finishable(cfg, Init(now, workers), steps)
            <==> AllDispatchable(Run(cfg, Init(now, workers), steps).rows)
  {
    var s0 := Init(now, workers);
    var s := Run(cfg, s0, steps);
    Reachable(cfg, now, workers, steps);
    if AllDispatchable(s.rows) {
      WorkersStay(cfg, s0, steps);
      var r := iset s' | Ahead(cfg, s0, steps, s');
      assert steps + [] == steps;
      assert GoesOn(cfg, s0, steps, [], s);
      forall s', step ensures Leads(cfg, r, s', step) {
        if s' in r && Enabled(cfg, s', step) && !step.Enqueue? {
          OneStepOn(cfg, s0, steps, s', step);
        }
      }
      var final := FinishAll(cfg, r, s);
    } else if Finishable(cfg, s0, steps) {
      var s' :| Ahead(cfg, s0, steps, s') && AllFinished(s'.rows);
      var more :| GoesOn(cfg, s0, steps, more, s');
      FinishedWasDispatchable(cfg, now, workers, steps, more);
    }
  }

  lemma FinishedWasDispatchable(cfg: Config, now: int, workers: nat, steps: seq<Step>, more: seq<Step>)
    requires Legal(cfg, Init(now, workers), steps) && Legal(cfg, Init(now, workers), steps + more)
    requires AllFinished(Run(cfg, Init(now, workers), steps + more).rows)
    ensures AllDispatchable(Run(cfg, Init(now, workers), steps).rows)
  {
    var s0 := Init(now, workers);
    var s, s' := Run(cfg, s0, steps), Run(cfg, s0, steps + more);
    Reachable(cfg, now, workers, steps);
    Reachable(cfg, now, workers, steps + more);
    RunAppend(cfg, s0, steps, more);
    RunAdvances(cfg, s, more);
    forall k | k in s.rows ensures Dispatchable(s.rows, k) {
      assert RowAdvanced(s.rows[k], s'.rows[k], s.leases[k], s'.leases[k], s.tries[k], s'.tries[k]);
      SuccessInBroker(cfg, s', k);
    }
  }
}
