/** How many publishes a given number of workers can get into a window of time: a lease begun before the
    window is in somebody's hands when it opens, and each worker holds a row under one lease at most. */
module OutboxHands {
  import opened Counting
  import opened StatusEvents
  import opened OutboxTable
  import opened OutboxProtocol
  import opened OutboxInvariant
  import opened OutboxGuarantees

  // ----- the leases in the workers' hands

  predicate HasLease(b: Worker, k: Key, lease: int) {
    b.Busy? && exists i :: 0 <= i < |b.batch| && b.batch[i].msg.key == k && b.batch[i].lease == lease
  }

  /** The lease under which the worker holds the row, if it holds it. */
  function LeaseInHand(b: Worker, k: Key): set<int> {
    if b.Busy? then set i | 0 <= i < |b.batch| && b.batch[i].msg.key == k :: b.batch[i].lease as int else {}
  }

  function LeasesInHands(ws: seq<Worker>, k: Key): set<int> {
    if ws == [] then {} else LeasesInHands(ws[..|ws| - 1], k) + LeaseInHand(ws[|ws| - 1], k)
  }

  lemma InHands(ws: seq<Worker>, k: Key, w: nat, lease: int)
    requires w < |ws| && HasLease(ws[w], k, lease)
    ensures lease in LeasesInHands(ws, k)
  {
    if w < |ws| - 1 {
      InHands(ws[..|ws| - 1], k, w, lease);
    } else {
      var i :| 0 <= i < |ws[w].batch| && ws[w].batch[i].msg.key == k && ws[w].batch[i].lease == lease;
      assert ws[w].batch[i].lease in LeaseInHand(ws[w], k);
    }
  }

  /** No row twice in one hand. */
  ghost predicate OneOfEach(b: Worker) {
    b.Busy? ==> forall i, j :: 0 <= i < j < |b.batch| ==> b.batch[i].msg.key != b.batch[j].msg.key
  }

  lemma OneInHand(b: Worker, k: Key)
    requires OneOfEach(b)
    ensures |LeaseInHand(b, k)| <= 1
  {
    if b.Busy? && exists i :: 0 <= i < |b.batch| && b.batch[i].msg.key == k {
      var i :| 0 <= i < |b.batch| && b.batch[i].msg.key == k;
      assert LeaseInHand(b, k) == {b.batch[i].lease as int};
    } else {
      assert LeaseInHand(b, k) == {};
    }
  }

  lemma {:induction false} OneInEachHand(ws: seq<Worker>, k: Key)
    requires forall w :: 0 <= w < |ws| ==> OneOfEach(ws[w])
    ensures |LeasesInHands(ws, k)| <= |ws|
  {
    if ws != [] {
      var n := |ws| - 1;
      OneInEachHand(ws[..n], k);
      OneInHand(ws[n], k);
      UnionSize(LeasesInHands(ws[..n], k), LeaseInHand(ws[n], k));
    }
  }

  lemma UnionSize(a: set<int>, b: set<int>)
    ensures |a + b| <= |a| + |b|
  {
    assert a + b == a + (b - a);
    assert |a + b| == |a| + |b - a|;
    SubsetSize(b - a, b);
  }

  // ----- what goes on from the opening of the window

  /** Since a moment at which the row had `picks` leases and the calls `before`, and the leases `held`
      were in the workers' hands: older leases are tried by their holders only, newer ones began at
      `from` or later. */
  ghost predicate Since(s: State, k: Key, from: int, picks: nat, before: seq<Try>, held: set<int>) {
    var ls, ts := HistoryOf(s.leases, k), HistoryOf(s.tries, k);
    && from <= s.now && picks <= |ls| && before <= ts
    && (forall i :: picks <= i < |ls| ==> from <= ls[i])
    && (forall w :: 0 <= w < |s.workers| ==> OldOnesHeld(s.workers[w], k, picks, held))
    && (forall j :: |before| <= j < |ts| && ts[j].lease < picks ==> ts[j].lease in held)
  }

  predicate OldOnesHeld(b: Worker, k: Key, picks: nat, held: set<int>) {
    b.Busy? ==>
      forall i :: 0 <= i < |b.batch| && b.batch[i].msg.key == k && b.batch[i].lease < picks ==> b.batch[i].lease in held
  }

  lemma SinceNow(s: State, k: Key, from: int)
    requires from <= s.now
    ensures Since(s, k, from, |HistoryOf(s.leases, k)|, HistoryOf(s.tries, k), LeasesInHands(s.workers, k))
  {
    var picks, held := |HistoryOf(s.leases, k)|, LeasesInHands(s.workers, k);
    forall w | 0 <= w < |s.workers| ensures OldOnesHeld(s.workers[w], k, picks, held) {
      if s.workers[w].Busy? {
        var b := s.workers[w];
        forall i | 0 <= i < |b.batch| && b.batch[i].msg.key == k ensures b.batch[i].lease in held {
          assert HasLease(b, k, b.batch[i].lease);
          InHands(s.workers, k, w, b.batch[i].lease);
        }
      }
    }
  }

  lemma PickSince(cfg: Config, s: State, step: Step, k: Key, from: int, picks: nat, before: seq<Try>, held: set<int>)
    requires Since(s, k, from, picks, before, held) && Enabled(cfg, s, step) && step.Pick?
    ensures Since(Apply(cfg, s, step), k, from, picks, before, held)
  {
    var s', fresh' := Apply(cfg, s, step), Busy(Grant(s, step.keys), 0, []);
    assert OldOnesHeld(fresh', k, picks, held);
    forall w | 0 <= w < |s'.workers| ensures OldOnesHeld(s'.workers[w], k, picks, held) {
      assert s'.workers[w] == s.workers[w] || s'.workers[w] == fresh';
    }
  }

  lemma PublishSince(cfg: Config, s: State, step: Step, k: Key, from: int, picks: nat, before: seq<Try>, held: set<int>)
    requires Since(s, k, from, picks, before, held) && Enabled(cfg, s, step) && step.Publish?
    ensures Since(Apply(cfg, s, step), k, from, picks, before, held)
  {
    var s', b := Apply(cfg, s, step), s.workers[step.w];
    assert OldOnesHeld(b, k, picks, held);
    forall w | 0 <= w < |s'.workers| ensures OldOnesHeld(s'.workers[w], k, picks, held) {
      assert OldOnesHeld(s.workers[w], k, picks, held);
    }
  }

  lemma OtherSince(cfg: Config, s: State, step: Step, k: Key, from: int, picks: nat, before: seq<Try>, held: set<int>)
    requires Since(s, k, from, picks, before, held) && Enabled(cfg, s, step) && !step.Pick? && !step.Publish?
    requires s.leases.Keys == s.rows.Keys == s.tries.Keys
    ensures Since(Apply(cfg, s, step), k, from, picks, before, held)
  {
    var s' := Apply(cfg, s, step);
    assert HistoryOf(s'.leases, k) == HistoryOf(s.leases, k) && HistoryOf(s'.tries, k) == HistoryOf(s.tries, k);
    forall w | 0 <= w < |s'.workers| ensures OldOnesHeld(s'.workers[w], k, picks, held) {
      assert OldOnesHeld(s.workers[w], k, picks, held);
    }
  }

  lemma {:induction false} RunSince(cfg: Config, s: State, steps: seq<Step>,
                                    k: Key, from: int, picks: nat, before: seq<Try>, held: set<int>)
    requires Since(s, k, from, picks, before, held) && Legal(cfg, s, steps) && Inv(cfg, s)
    ensures Since(Run(cfg, s, steps), k, from, picks, before, held)
    decreases |steps|
  {
    if steps != [] {
      var n := |steps| - 1;
      LastStep(cfg, s, steps, n);
      RunSince(cfg, s, steps[..n], k, from, picks, before, held);
      RunInv(cfg, s, steps[..n]);
      StepSince(cfg, Run(cfg, s, steps[..n]), steps[n], k, from, picks, before, held);
    }
  }

  lemma StepSince(cfg: Config, s: State, step: Step, k: Key, from: int, picks: nat, before: seq<Try>, held: set<int>)
    requires Since(s, k, from, picks, before, held) && Enabled(cfg, s, step) && Inv(cfg, s)
    ensures Since(Apply(cfg, s, step), k, from, picks, before, held)
  {
    if step.Pick? {
      PickSince(cfg, s, step, k, from, picks, before, held);
    } else if step.Publish? {
      PublishSince(cfg, s, step, k, from, picks, before, held);
    } else {
      OtherSince(cfg, s, step, k, from, picks, before, held);
    }
  }

  // ----- when the window opens

  ghost predicate NoneSince(s: State, k: Key, from: int) {
    forall j :: 0 <= j < |HistoryOf(s.tries, k)| ==> HistoryOf(s.tries, k)[j].at < from
  }

  lemma OpensAt(cfg: Config, s: State, step: Step, k: Key, from: int)
    requires Inv(cfg, s) && Enabled(cfg, s, step) && s.now < from <= Apply(cfg, s, step).now
    ensures NoneSince(Apply(cfg, s, step), k, from)
  {
    if k in s.rows {
      assert RowOk(cfg, s.now, s.rows[k], s.leases[k], s.tries[k]);
      forall j | 0 <= j < |s.tries[k]| ensures s.tries[k][j].at < from {
        assert TryOk(cfg.attempts, s.now, s.leases[k], Dispatch(s.rows[k].kind, s.rows[k].data), s.tries[k][j]);
      }
    }
  }

  /** A run that gets to `from` has a first part that ends when the clock gets there, with nothing yet
      published since. */
  lemma {:induction false} WindowOpens(cfg: Config, now: int, workers: nat, steps: seq<Step>, k: Key, from: int)
    returns (n: nat)
    requires Legal(cfg, Init(now, workers), steps) && from <= Run(cfg, Init(now, workers), steps).now
    ensures n <= |steps| && Legal(cfg, Init(now, workers), steps[..n])
    ensures from <= Run(cfg, Init(now, workers), steps[..n]).now
    ensures NoneSince(Run(cfg, Init(now, workers), steps[..n]), k, from)
    decreases |steps|
  {
    var s0 := Init(now, workers);
    n := |steps|;
    assert steps[..n] == steps;
    if steps != [] {
      LastStep(cfg, s0, steps, n - 1);
      if from <= Run(cfg, s0, steps[..n - 1]).now {
        n := WindowOpens(cfg, now, workers, steps[..n - 1], k, from);
        assert steps[..|steps| - 1][..n] == steps[..n];
      } else {
        Reachable(cfg, now, workers, steps[..n - 1]);
        OpensAt(cfg, Run(cfg, s0, steps[..n - 1]), steps[n - 1], k, from);
      }
    }
  }

  // ----- the count

  function PublishedIn(ts: seq<Try>, from: int, width: int): set<int> {
    set i | 0 <= i < |ts| && ts[i].ok && from <= ts[i].at <= from + width
  }

  function Under(ts: seq<Try>, all: set<int>, picks: nat, old': bool): set<int> {
    set i | i in all && 0 <= i < |ts| && (ts[i].lease < picks) == old'
  }

  lemma OldCount(ts: seq<Try>, from: int, width: nat, picks: nat, before: nat, held: set<int>)
    requires OncePerLease(ts) && before <= |ts|
    requires forall j :: 0 <= j < before ==> ts[j].at < from
    requires forall j :: before <= j < |ts| && ts[j].lease < picks ==> ts[j].lease in held
    ensures |Under(ts, PublishedIn(ts, from, width), picks, true)| <= |held|
  {
    InjectionSize(Under(ts, PublishedIn(ts, from, width), picks, true), LeaseOf(ts), held);
  }

  lemma NewCount(cfg: Config, now: int, r: Row, ls: seq<int>, ts: seq<Try>, from: int, width: nat, picks: nat)
    requires cfg.ttl >= 0 && RowOk(cfg, now, r, ls, ts)
    requires forall i :: picks <= i < |ls| ==> from <= ls[i]
    ensures |Under(ts, PublishedIn(ts, from, width), picks, false)| <= 1 + width / (cfg.ttl + 1)
  {
    var mine, leases := Under(ts, PublishedIn(ts, from, width), picks, false), InWindow(ls, from, width);
    forall i | i in mine ensures ts[i].lease in leases {
      assert TryOk(cfg.attempts, now, ls, Dispatch(r.kind, r.data), ts[i]);
    }
    InjectionSize(mine, LeaseOf(ts), leases);
    WindowCount(ls, cfg.ttl + 1, from, width);
  }

  /** The window has opened with nothing published since, and that many leases in the workers' hands. */
  ghost predicate Opened(s: State, k: Key, from: int, hands: nat) {
    exists picks: nat, before, held :: OpenedWith(s, k, from, hands, picks, before, held)
  }

  ghost predicate OpenedWith(s: State, k: Key, from: int, hands: nat, picks: nat, before: seq<Try>, held: set<int>) {
    && Since(s, k, from, picks, before, held) && |held| <= hands
    && forall j :: 0 <= j < |before| ==> before[j].at < from
  }

  /** Publishes of the window under leases from before it, and under leases begun in it. */
  lemma CountOpened(cfg: Config, s: State, k: Key, from: int, width: nat, hands: nat)
    requires cfg.ttl >= 0 && Inv(cfg, s) && k in s.rows && Opened(s, k, from, hands)
    ensures |PublishedIn(s.tries[k], from, width)| <= hands + 1 + width / (cfg.ttl + 1)
  {
    var picks: nat, before, held :| OpenedWith(s, k, from, hands, picks, before, held);
    var ls, ts := s.leases[k], s.tries[k];
    var all := PublishedIn(ts, from, width);
    OldCount(ts, from, width, picks, |before|, held);
    NewCount(cfg, s.now, s.rows[k], ls, ts, from, width, picks);
    assert all == Under(ts, all, picks, true) + Under(ts, all, picks, false);
    UnionSize(Under(ts, all, picks, true), Under(ts, all, picks, false));
  }

  lemma NotYet(cfg: Config, s: State, k: Key, from: int, width: nat)
    requires Inv(cfg, s) && k in s.rows && s.now < from
    ensures |PublishedIn(s.tries[k], from, width)| == 0
  {
    assert RowOk(cfg, s.now, s.rows[k], s.leases[k], s.tries[k]);
    forall i | 0 <= i < |s.tries[k]| ensures s.tries[k][i].at < from {
      assert TryOk(cfg.attempts, s.now, s.leases[k], Dispatch(s.rows[k].kind, s.rows[k].data), s.tries[k][i]);
    }
    assert PublishedIn(s.tries[k], from, width) == {};
  }

  /** Over any run, however late its workers publish: at most one publish of a row for each worker and
      one for each lease begun in the window. */
  lemma PublishesByHands(cfg: Config, now: int, workers: nat, steps: seq<Step>, k: Key, from: int, width: nat)
    requires cfg.ttl >= 0 && Legal(cfg, Init(now, workers), steps)
    requires k in Run(cfg, Init(now, workers), steps).rows
    ensures var s := Run(cfg, Init(now, workers), steps);
            k in s.tries && |PublishedIn(s.tries[k], from, width)| <= workers + 1 + width / (cfg.ttl + 1)
  {
    var s := Run(cfg, Init(now, workers), steps);
    Reachable(cfg, now, workers, steps);
    if from <= s.now {
      OpenWindow(cfg, now, workers, steps, k, from);
    }
    Count(cfg, s, k, from, width, workers);
  }

  lemma Count(cfg: Config, s: State, k: Key, from: int, width: nat, hands: nat)
    requires cfg.ttl >= 0 && Inv(cfg, s) && k in s.rows && (from <= s.now ==> Opened(s, k, from, hands))
    ensures k in s.tries && |PublishedIn(s.tries[k], from, width)| <= hands + 1 + width / (cfg.ttl + 1)
  {
    if from <= s.now {
      CountOpened(cfg, s, k, from, width, hands);
    } else {
      NotYet(cfg, s, k, from, width);
    }
  }

  lemma OpenWindow(cfg: Config, now: int, workers: nat, steps: seq<Step>, k: Key, from: int)
    requires Legal(cfg, Init(now, workers), steps) && from <= Run(cfg, Init(now, workers), steps).now
    ensures Opened(Run(cfg, Init(now, workers), steps), k, from, workers)
  {
    var s0 := Init(now, workers);
    var n := WindowOpens(cfg, now, workers, steps, k, from);
    Reachable(cfg, now, workers, steps[..n]);
    HandsFull(cfg, now, workers, steps[..n], k);
    assert steps == steps[..n] + steps[n..];
    RunAppend(cfg, s0, steps[..n], steps[n..]);
    OpenedRun(cfg, Run(cfg, s0, steps[..n]), steps[n..], k, from, workers);
  }

  lemma OpenedRun(cfg: Config, s: State, steps: seq<Step>, k: Key, from: int, hands: nat)
    requires Inv(cfg, s) && Legal(cfg, s, steps) && from <= s.now
    requires NoneSince(s, k, from) && |LeasesInHands(s.workers, k)| <= hands
    ensures Opened(Run(cfg, s, steps), k, from, hands)
  {
    var picks, before, held := |HistoryOf(s.leases, k)|, HistoryOf(s.tries, k), LeasesInHands(s.workers, k);
    SinceNow(s, k, from);
    RunSince(cfg, s, steps, k, from, picks, before, held);
    assert OpenedWith(Run(cfg, s, steps), k, from, hands, picks, before, held);
  }

  lemma HandsFull(cfg: Config, now: int, workers: nat, steps: seq<Step>, k: Key)
    requires Legal(cfg, Init(now, workers), steps)
    ensures |LeasesInHands(Run(cfg, Init(now, workers), steps).workers, k)| <= workers
  {
    var s := Run(cfg, Init(now, workers), steps);
    Reachable(cfg, now, workers, steps);
    WorkersStay(cfg, Init(now, workers), steps);
    forall w | 0 <= w < |s.workers| ensures OneOfEach(s.workers[w]) {
      assert WorkerOk(s, s.workers[w]);
    }
    OneInEachHand(s.workers, k);
  }
}
