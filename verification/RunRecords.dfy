/** The `runs` table beside the committed flips: as long as its check exists, every flip is on record. */
module RunRecords {
  import opened Prelude
  import opened StatusEvents
  import opened OutboxTable
  import opened Transactor
  import opened Detector
  import opened EndToEnd
  import P = OutboxProtocol

  /** How many runs of a check ended that way. */
  function RunCount(runs: seq<RunRow>, c: int, up: bool): nat {
    if runs == [] then 0
    else
      var n := |runs| - 1;
      RunCount(runs[..n], c, up) + if runs[n].checkID == c && runs[n].status == up then 1 else 0
  }

  /** How many flips of a check went that way. */
  function FlipCount(flips: seq<Flip>, c: int, up: bool): nat {
    if flips == [] then 0
    else
      var n := |flips| - 1;
      FlipCount(flips[..n], c, up) + if flips[n].checkID == c && flips[n].now == up then 1 else 0
  }

  ghost predicate OnRecord(s: System) {
    forall c, up :: c in s.checks ==> FlipCount(s.flips, c, up) <= RunCount(s.runs, c, up)
  }

  lemma {:induction false} RunsAppended(runs: seq<RunRow>, more: seq<RunRow>, c: int, up: bool)
    ensures RunCount(runs + more, c, up) == RunCount(runs, c, up) + RunCount(more, c, up)
  {
    if more == [] {
      assert runs + more == runs;
    } else {
      var n := |more| - 1;
      RunsAppended(runs, more[..n], c, up);
      assert (runs + more)[..|runs + more| - 1] == runs + more[..n];
    }
  }

  lemma OneRun(r: RunRow, c: int, up: bool)
    ensures RunCount([r], c, up) == if r.checkID == c && r.status == up then 1 else 0
  {
    assert [r][..0] == [];
  }

  lemma FlipAppended(flips: seq<Flip>, f: Flip, c: int, up: bool)
    ensures FlipCount(flips + [f], c, up) == FlipCount(flips, c, up) + if f.checkID == c && f.now == up then 1 else 0
  {
    assert (flips + [f])[..|flips|] == flips;
  }

  lemma {:induction false} OthersKeepRuns(runs: seq<RunRow>, deleted: int, c: int, up: bool)
    requires c != deleted
    ensures RunCount(RunsOfOthers(runs, deleted), c, up) == RunCount(runs, c, up)
  {
    if runs != [] {
      var n := |runs| - 1;
      OthersKeepRuns(runs[..n], deleted, c, up);
      var kept := RunsOfOthers(runs[..n], deleted);
      RunsAppended(kept, [runs[n]], c, up);
      OneRun(runs[n], c, up);
      assert kept + [] == kept;
    }
  }

  lemma {:induction false} NoFlips(flips: seq<Flip>, c: int, up: bool)
    requires forall i :: 0 <= i < |flips| ==> flips[i].checkID != c
    ensures FlipCount(flips, c, up) == 0
  {
    if flips != [] {
      NoFlips(flips[..|flips| - 1], c, up);
    }
  }

  /** The handler's runs, and its flip if it committed one. */
  lemma FinishRuns(cfg: P.Config, s: System, a: Action, c: int, up: bool)
    requires Possible(cfg, s, a) && a.Finish? && FlipCount(s.flips, c, up) <= RunCount(s.runs, c, up)
    ensures FlipCount(Next(cfg, s, a).flips, c, up) <= RunCount(Next(cfg, s, a).runs, c, up)
  {
    var s', prev := Next(cfg, s, a), s.underway[a.c];
    HandledEffect(EndToEnd.View(s), a.c, prev, a.p, a.e);
    var logged := Logged(EndToEnd.View(s), a.c, a.p, a.e).runs;
    var first := if a.e.insertFails || a.c !in s.checks then [] else [RunOf(a.c, a.p)];
    RunsAppended(s.runs, first, c, up);
    if Flips(s, a.c, a.p, a.e) {
      FlipAppended(s.flips, FlipOf(s, a.c, a.p, a.e), c, up);
      RunsAppended(logged, [RunOf(a.c, a.p)], c, up);
      OneRun(RunOf(a.c, a.p), c, up);
    }
  }

  lemma ActionRecords(cfg: P.Config, s: System, a: Action)
    requires IdsOk(s) && OnRecord(s) && Possible(cfg, s, a)
    ensures OnRecord(Next(cfg, s, a))
  {
    var s' := Next(cfg, s, a);
    forall c, up | c in s'.checks ensures FlipCount(s'.flips, c, up) <= RunCount(s'.runs, c, up) {
      match a
      case CreateCheck =>
        if c == s.nextID {
          NoFlips(s.flips, c, up);
        }
      case DeleteCheck(deleted) => OthersKeepRuns(s.runs, deleted, c, up);
      case Finish(_, _, _) =>
        ChecksKept(cfg, s, a, c);
        FinishRuns(cfg, s, a, c, up);
      case _ =>
    }
  }

  lemma ChecksKept(cfg: P.Config, s: System, a: Action, c: int)
    requires Possible(cfg, s, a) && a.Finish? && c in Next(cfg, s, a).checks
    ensures c in s.checks
  {
    HandledEffect(EndToEnd.View(s), a.c, s.underway[a.c], a.p, a.e);
  }

  lemma {:induction false} RunRecords(cfg: P.Config, now: int, workers: nat, actions: seq<Action>)
    requires Legal(cfg, Start(now, workers), actions)
    ensures OnRecord(Run(cfg, Start(now, workers), actions))
    decreases |actions|
  {
    if actions != [] {
      var n := |actions| - 1;
      RunRecords(cfg, now, workers, actions[..n]);
      RunInv(cfg, now, workers, actions[..n]);
      ActionRecords(cfg, Run(cfg, Start(now, workers), actions[..n]), actions[n]);
    }
  }

  lemma {:induction false} CountedRun(runs: seq<RunRow>, c: int, up: bool)
    requires RunCount(runs, c, up) > 0
    ensures exists i :: 0 <= i < |runs| && runs[i].checkID == c && runs[i].status == up
  {
    var n := |runs| - 1;
    if !(runs[n].checkID == c && runs[n].status == up) {
      CountedRun(runs[..n], c, up);
      var i :| 0 <= i < n && runs[..n][i].checkID == c && runs[..n][i].status == up;
      assert runs[i].checkID == c && runs[i].status == up;
    }
  }

  lemma {:induction false} CountedFlip(flips: seq<Flip>, i: nat)
    requires i < |flips|
    ensures FlipCount(flips, flips[i].checkID, flips[i].now) > 0
  {
    if i < |flips| - 1 {
      CountedFlip(flips[..|flips| - 1], i);
    }
  }

  /** In every reachable state a check that exists has at least as many runs that ended up, and as many
      that ended down, as it had flips to up and to down; so every flip of it has a run of its kind. */
  lemma FlipsAreOnRecord(cfg: P.Config, now: int, workers: nat, actions: seq<Action>, i: nat)
    requires Legal(cfg, Start(now, workers), actions)
    requires i < |Run(cfg, Start(now, workers), actions).flips|
    requires Run(cfg, Start(now, workers), actions).flips[i].checkID in Run(cfg, Start(now, workers), actions).checks
    ensures var s := Run(cfg, Start(now, workers), actions);
            var f := s.flips[i];
            && FlipCount(s.flips, f.checkID, f.now) <= RunCount(s.runs, f.checkID, f.now)
            && exists j :: 0 <= j < |s.runs| && s.runs[j].checkID == f.checkID && s.runs[j].status == f.now
  {
    var s := Run(cfg, Start(now, workers), actions);
    RunRecords(cfg, now, workers, actions);
    CountedFlip(s.flips, i);
    CountedRun(s.runs, s.flips[i].checkID, s.flips[i].now);
  }
}
