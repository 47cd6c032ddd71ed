/** No row is lost and no status moves back; and a batch marked within its lease is published under
    that lease only. */
module OutboxOnce {
  import opened Counting
  import opened OutboxTable
  import opened OutboxProtocol
  import opened OutboxInvariant
  import opened OutboxGuarantees

  function Rank(status: Status): nat {
    match status
    case CREATED => 0
    case IN_PROGRESS => 1
    case SUCCESS => 2
  }

  /** The row keeps its identity and its status does not move back; its history only grows, and
      once it reads SUCCESS it is not picked again. */
  predicate RowAdvanced(r: Row, r': Row, ls: seq<int>, ls': seq<int>, ts: seq<Try>, ts': seq<Try>) {
    && r'.kind == r.kind && r'.data == r.data && r'.createdAt == r.createdAt
    && Rank(r.status) <= Rank(r'.status)
    && ls <= ls' && ts <= ts'
    && (r.status == SUCCESS ==> ls' == ls)
  }

  ghost predicate Advanced(s: State, s': State) {
    && s.leases.Keys == s.rows.Keys == s.tries.Keys && s'.leases.Keys == s'.rows.Keys == s'.tries.Keys
    && s.now <= s'.now && s.rows.Keys <= s'.rows.Keys && s.broker <= s'.broker
    && forall k :: k in s.rows ==>
         RowAdvanced(s.rows[k], s'.rows[k], s.leases[k], s'.leases[k], s.tries[k], s'.tries[k])
  }

  lemma PickAdvances(cfg: Config, s: State, step: Step)
    requires RowsOk(cfg, s) && Enabled(cfg, s, step) && step.Pick?
    ensures Advanced(s, Apply(cfg, s, step))
  {
    var s' := Apply(cfg, s, step);
    forall k | k in s.rows
      ensures RowAdvanced(s.rows[k], s'.rows[k], s.leases[k], s'.leases[k], s.tries[k], s'.tries[k])
    {
      if k in step.keys {
        assert Eligible(s.rows[k], s.now, cfg.ttl);
      }
    }
  }

  lemma PublishAdvances(cfg: Config, s: State, step: Step)
    requires RowsOk(cfg, s) && WorkersOk(s) && Enabled(cfg, s, step) && step.Publish?
    ensures Advanced(s, Apply(cfg, s, step))
  {
    var s', key := Apply(cfg, s, step), Current(s, step.w).msg.key;
    assert WorkerOk(s, s.workers[step.w]) && HeldOk(s, Current(s, step.w));
    forall k | k in s.rows
      ensures RowAdvanced(s.rows[k], s'.rows[k], s.leases[k], s'.leases[k], s.tries[k], s'.tries[k])
    {
      assert k != key ==> s'.tries[k] == s.tries[k];
    }
  }

  lemma MarkAdvances(cfg: Config, s: State, step: Step)
    requires RowsOk(cfg, s) && Enabled(cfg, s, step) && step.Mark?
    ensures Advanced(s, Apply(cfg, s, step))
  {
  }

  lemma OthersAdvance(cfg: Config, s: State, step: Step)
    requires RowsOk(cfg, s) && Enabled(cfg, s, step) && !step.Pick? && !step.Publish? && !step.Mark?
    ensures Advanced(s, Apply(cfg, s, step))
  {
  }

  lemma StepAdvances(cfg: Config, s: State, step: Step)
    requires Inv(cfg, s) && Enabled(cfg, s, step)
    ensures Advanced(s, Apply(cfg, s, step))
  {
    if step.Pick? {
      PickAdvances(cfg, s, step);
    } else if step.Publish? {
      PublishAdvances(cfg, s, step);
    } else if step.Mark? {
      MarkAdvances(cfg, s, step);
    } else {
      OthersAdvance(cfg, s, step);
    }
  }

  /** Over any run nothing is removed, nothing moves back and nothing published is taken back. */
  lemma {:induction false} RunAdvances(cfg: Config, s: State, steps: seq<Step>)
    requires Inv(cfg, s) && Legal(cfg, s, steps)
    ensures Advanced(s, Run(cfg, s, steps))
    decreases |steps|
  {
    if steps != [] {
      var mid := Run(cfg, s, steps[..|steps| - 1]);
      RunAdvances(cfg, s, steps[..|steps| - 1]);
      RunInv(cfg, s, steps[..|steps| - 1]);
      StepAdvances(cfg, mid, steps[|steps| - 1]);
      AdvancedTransitive(s, mid, Run(cfg, s, steps));
    } else {
      assert forall k :: k in s.rows ==>
        RowAdvanced(s.rows[k], s.rows[k], s.leases[k], s.leases[k], s.tries[k], s.tries[k]);
    }
  }

  lemma AdvancedTransitive(a: State, b: State, c: State)
    requires Advanced(a, b) && Advanced(b, c)
    ensures Advanced(a, c)
  {
    forall k | k in a.rows
      ensures RowAdvanced(a.rows[k], c.rows[k], a.leases[k], c.leases[k], a.tries[k], c.tries[k])
    {
      assert RowAdvanced(a.rows[k], b.rows[k], a.leases[k], b.leases[k], a.tries[k], b.tries[k]);
      assert RowAdvanced(b.rows[k], c.rows[k], b.leases[k], c.leases[k], b.tries[k], c.tries[k]);
    }
  }

  /** Worker `w` holds the `i`-th message of its batch, has published it, and its lease on the row
      has not run out. */
  ghost predicate PublishedInTime(cfg: Config, s: State, w: nat, i: nat) {
    && w < |s.workers| && s.workers[w].Busy? && i < |s.workers[w].batch|
    && var h := s.workers[w].batch[i];
       && h.msg.key in s.workers[w].okKeys
       && h.msg.key in s.leases && h.lease < |s.leases[h.msg.key]|
       && s.now <= s.leases[h.msg.key][h.lease] + cfg.ttl
  }

  /** A lease that is not the last has run out. */
  lemma LaterLease(ls: seq<int>, ttl: int, i: nat, now: int)
    requires Apart(ls, ttl + 1) && i < |ls| && forall j :: 0 <= j < |ls| ==> ls[j] <= now
    ensures i + 1 < |ls| ==> now > ls[i] + ttl
  {
    if i + 1 < |ls| {
      assert ls[i + 1] <= now;
    }
  }

  /** When the mark is made, nobody has picked the row since. */
  lemma StillOurs(cfg: Config, s: State, w: nat, i: nat)
    requires Inv(cfg, s) && PublishedInTime(cfg, s, w, i)
    ensures var h := s.workers[w].batch[i];
            && h.msg.key in s.rows && h.msg.key in s.leases
            && |s.leases[h.msg.key]| == h.lease + 1
            && s.rows[h.msg.key].status != CREATED
  {
    var h := s.workers[w].batch[i];
    assert WorkerOk(s, s.workers[w]) && HeldOk(s, h);
    var ls := s.leases[h.msg.key];
    assert RowOk(cfg, s.now, s.rows[h.msg.key], ls, s.tries[h.msg.key]);
    LaterLease(ls, cfg.ttl, h.lease, s.now);
  }

  lemma AfterMark(cfg: Config, s: State, w: nat, i: nat)
    requires Inv(cfg, s) && PublishedInTime(cfg, s, w, i) && Enabled(cfg, s, Mark(w, true))
    ensures var h, marked := s.workers[w].batch[i], Apply(cfg, s, Mark(w, true));
            && Inv(cfg, marked) && FinalRow(marked, h.msg.key, h.lease + 1)
  {
    StillOurs(cfg, s, w, i);
    StepInv(cfg, s, Mark(w, true));
  }

  /** The row is finished after that many picks. */
  ghost predicate FinalRow(s: State, k: Key, picks: nat) {
    k in s.rows && k in s.leases && s.rows[k].status == SUCCESS && |s.leases[k]| == picks
  }

  lemma FinalStays(s: State, s': State, k: Key, picks: nat)
    requires Advanced(s, s') && FinalRow(s, k, picks)
    ensures FinalRow(s', k, picks)
  {
    assert RowAdvanced(s.rows[k], s'.rows[k], s.leases[k], s'.leases[k], s.tries[k], s'.tries[k]);
  }

  lemma FinalOnceMarked(cfg: Config, marked: State, k: Key, picks: nat, post: seq<Step>)
    requires Inv(cfg, marked) && FinalRow(marked, k, picks) && Legal(cfg, marked, post)
    ensures Inv(cfg, Run(cfg, marked, post)) && FinalRow(Run(cfg, marked, post), k, picks)
  {
    RunAdvances(cfg, marked, post);
    RunInv(cfg, marked, post);
    FinalStays(marked, Run(cfg, marked, post), k, picks);
  }

  /** A finished row that was picked once was handled once, successfully. */
  lemma OnePickOneCall(cfg: Config, s: State, k: Key)
    requires Inv(cfg, s) && k in s.rows && s.rows[k].status == SUCCESS && |s.leases[k]| == 1
    ensures |s.tries[k]| == 1 && s.tries[k][0].ok
  {
    var ts := s.tries[k];
    assert RowOk(cfg, s.now, s.rows[k], s.leases[k], ts);
    assert forall j :: 0 <= j < |ts| ==> ts[j].lease < 1;
    DistinctBelow(ts, 1);
  }

  /** A batch marked before its lease runs out: whatever happens afterwards, no worker ever picks
      one of its published rows again; and if that pick was the row's first, the row has exactly
      one handler call in its whole life, a successful one. */
  lemma MarkedInTimeIsFinal(cfg: Config, now: int, workers: nat, pre: seq<Step>, w: nat, post: seq<Step>, i: nat)
    requires Legal(cfg, Init(now, workers), pre)
    requires Enabled(cfg, Run(cfg, Init(now, workers), pre), Mark(w, true))
    requires Legal(cfg, Apply(cfg, Run(cfg, Init(now, workers), pre), Mark(w, true)), post)
    requires PublishedInTime(cfg, Run(cfg, Init(now, workers), pre), w, i)
    ensures Legal(cfg, Init(now, workers), pre + [Mark(w, true)] + post)
    ensures var h := Run(cfg, Init(now, workers), pre).workers[w].batch[i];
            var s := Run(cfg, Init(now, workers), pre + [Mark(w, true)] + post);
            && h.msg.key in s.rows && h.msg.key in s.leases && h.msg.key in s.tries
            && s.rows[h.msg.key].status == SUCCESS
            && |s.leases[h.msg.key]| == h.lease + 1
            && (h.lease == 0 ==> |s.tries[h.msg.key]| == 1 && s.tries[h.msg.key][0].ok)
  {
    var s0, mark := Init(now, workers), Mark(w, true);
    var s1 := Run(cfg, s0, pre);
    Reachable(cfg, now, workers, pre);
    RunSnoc(cfg, s0, pre, mark);
    RunAppend(cfg, s0, pre + [mark], post);
    var h := s1.workers[w].batch[i];
    AfterMark(cfg, s1, w, i);
    FinalOnceMarked(cfg, Apply(cfg, s1, mark), h.msg.key, h.lease + 1, post);
    if h.lease == 0 {
      OnePickOneCall(cfg, Run(cfg, Apply(cfg, s1, mark), post), h.msg.key);
    }
  }
}
