/** Earliest first, over whole runs: who is picked before whom, by the times at which rows were enqueued. */
module OutboxOrder {
  import opened Prelude
  import opened OutboxTable
  import opened OutboxProtocol

  /** The time that the first enqueue of a key carried; later ones of the key are ignored. */
  function EnqueuedAt(steps: seq<Step>, k: Key): Option<int> {
    if steps == [] then None
    else
      var n := |steps| - 1;
      match EnqueuedAt(steps[..n], k)
      case Some(t) => Some(t)
      case None => if steps[n].Enqueue? && steps[n].key == k then Some(steps[n].createdAt) else None
  }

  /** The table knows the row exactly if it was enqueued, and since when. */
  ghost predicate Dated(rows: Table, k: Key, at: Option<int>) {
    (k in rows <==> at.Some?) && (k in rows ==> rows[k].createdAt == at.value)
  }

  lemma StepDated(cfg: Config, s: State, step: Step, k: Key, at: Option<int>)
    requires Enabled(cfg, s, step) && Dated(s.rows, k, at)
    ensures Dated(Apply(cfg, s, step).rows, k,
                  if at == None && step.Enqueue? && step.key == k then Some(step.createdAt) else at)
  {
  }

  lemma {:induction false} RunDated(cfg: Config, now: int, workers: nat, steps: seq<Step>, k: Key)
    requires Legal(cfg, Init(now, workers), steps)
    ensures Dated(Run(cfg, Init(now, workers), steps).rows, k, EnqueuedAt(steps, k))
    decreases |steps|
  {
    if steps != [] {
      var n := |steps| - 1;
      LastStep(cfg, Init(now, workers), steps, n);
      RunDated(cfg, now, workers, steps[..n], k);
      StepDated(cfg, Run(cfg, Init(now, workers), steps[..n]), steps[n], k, EnqueuedAt(steps[..n], k));
    }
  }

  /** In every run a pick takes free rows that nobody has locked, at most a batch of them; and where it
      leaves such a row behind, its batch is full of rows that were enqueued no later. */
  lemma EarliestFirst(cfg: Config, now: int, workers: nat, steps: seq<Step>, pick: Step, p: Key, k: Key)
    requires Legal(cfg, Init(now, workers), steps) && pick.Pick?
    requires Enabled(cfg, Run(cfg, Init(now, workers), steps), pick) && p in pick.keys
    ensures var s := Run(cfg, Init(now, workers), steps);
            && p in s.rows && p !in pick.locked && Free(s.rows[p], s.now, cfg.ttl) && |pick.keys| <= cfg.batch
            && EnqueuedAt(steps, p).Some? && (k in s.rows <==> EnqueuedAt(steps, k).Some?)
            && (k in s.rows && k !in pick.keys && k !in pick.locked && Free(s.rows[k], s.now, cfg.ttl) ==>
                  |pick.keys| == cfg.batch && EnqueuedAt(steps, p).value <= EnqueuedAt(steps, k).value)
  {
    RunDated(cfg, now, workers, steps, p);
    RunDated(cfg, now, workers, steps, k);
    var s := Run(cfg, Init(now, workers), steps);
    assert Eligible(s.rows[p], s.now, cfg.ttl);
    assert k in s.rows && Free(s.rows[k], s.now, cfg.ttl) ==> Eligible(s.rows[k], s.now, cfg.ttl);
  }
}
