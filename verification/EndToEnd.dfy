/** The detector and the outbox together: checks come and go, handlers of different checks overlap
    each other and the outbox workers in any order, anything may fail.  Handlers of one check run
    one after another. */
module EndToEnd {
  import opened Prelude
  import opened StatusEvents
  import opened OutboxTable
  import opened Transactor
  import opened Detector
  import P = OutboxProtocol
  import I = OutboxInvariant
  import G = OutboxGuarantees

  /** A committed flip. */
  datatype Flip = Flip(checkID: int, was: bool, now: bool, at: int)

  /** `underway` holds what each handler under way has read; `flips` and `effective` are the history:
      the committed flips, and per check the probe results that took effect. */
  datatype System = System(
    ob: P.State,
    checks: map<int, Option<bool>>,
    runs: seq<RunRow>,
    underway: map<int, Option<bool>>,
    nextID: int,
    flips: seq<Flip>,
    effective: map<int, seq<bool>>)

  datatype Action =
    | Outbox(step: P.Step)
    | CreateCheck
    | DeleteCheck(c: int)
    | Read(c: int)
    | Finish(c: int, p: Probe, e: Env)
    | Abandon(c: int)

  function Start(now: int, workers: nat): System {
    System(P.Init(now, workers), map[], [], map[], 1, [], map[])
  }

  function View(s: System): Tables {
    Tables(s.checks, s.runs, s.ob.rows)
  }

  /** `checks.id` is SERIAL; a handler's clock does not repeat a reading that keyed an event of its check. */
  predicate Possible(cfg: P.Config, s: System, a: Action) {
    match a
    case Outbox(step) => !step.Enqueue? && P.Enabled(cfg, s.ob, step)
    case CreateCheck => s.nextID < 0x8000_0000
    case DeleteCheck(c) => c in s.checks
    case Read(c) => c in s.checks && c !in s.underway
    case Finish(c, _, e) =>
      c in s.underway && e.began <= s.ob.now && FreshReading(s.flips, c, e.at)
    case Abandon(c) => c in s.underway
  }

  predicate Flips(s: System, c: int, p: Probe, e: Env)
    requires c in s.underway
  {
    Reading(s.underway[c]) != p.up && Commits(View(s), c, e)
  }

  function FlipOf(s: System, c: int, p: Probe, e: Env): Flip
    requires c in s.underway
  {
    Flip(c, Reading(s.underway[c]), p.up, e.at)
  }

  function KeyOf(f: Flip): Key {
    EventKey(f.checkID, f.at)
  }

  function DataOf(f: Flip): Object {
    Marshal(Payload(f.checkID, f.was, f.now, f.at))
  }

  function MessageOf(f: Flip): StatusChange {
    StatusChange(f.checkID, f.was, f.now)
  }

  /** Deleting a check deletes its runs: the foreign key cascades. */
  function RunsOfOthers(runs: seq<RunRow>, c: int): seq<RunRow> {
    if runs == [] then []
    else
      var n := |runs| - 1;
      RunsOfOthers(runs[..n], c) + if runs[n].checkID == c then [] else [runs[n]]
  }

  function EnqueueStep(f: Flip, began: int): P.Step {
    P.Step.Enqueue(KeyOf(f), KIND_STATUS_CHANGED, DataOf(f), began)
  }

  function Next(cfg: P.Config, s: System, a: Action): System
    requires Possible(cfg, s, a)
  {
    match a
    case Outbox(step) => s.(ob := P.Apply(cfg, s.ob, step))
    case CreateCheck =>
      s.(checks := s.checks[s.nextID := None], effective := s.effective[s.nextID := []], nextID := s.nextID + 1)
    case DeleteCheck(c) => s.(checks := s.checks - {c}, runs := RunsOfOthers(s.runs, c))
    case Read(c) => s.(underway := s.underway[c := s.checks[c]])
    case Finish(c, p, e) =>
      var t := Handled(View(s), c, s.underway[c], p, e);
      var done := s.(checks := t.checks, runs := t.runs, underway := s.underway - {c},
                     effective := if Commits(View(s), c, e)
                                  then s.effective[c := (if c in s.effective then s.effective[c] else []) + [p.up]]
                                  else s.effective);
      if Flips(s, c, p, e)
      then done.(ob := P.Apply(cfg, s.ob, EnqueueStep(FlipOf(s, c, p, e), e.began)),
                 flips := s.flips + [FlipOf(s, c, p, e)])
      else done
    case Abandon(c) => s.(underway := s.underway - {c})
  }

  /** Enqueueing through the outbox protocol is what the handler's transaction does to the table. */
  lemma FinishTables(cfg: P.Config, s: System, a: Action)
    requires Possible(cfg, s, a) && a.Finish?
    ensures View(Next(cfg, s, a)) == Handled(View(s), a.c, s.underway[a.c], a.p, a.e)
  {
    HandledEffect(View(s), a.c, s.underway[a.c], a.p, a.e);
  }

  ghost predicate Legal(cfg: P.Config, s: System, actions: seq<Action>)
    decreases |actions|, 0
  {
    actions == [] ||
    (Legal(cfg, s, actions[..|actions| - 1])
     && Possible(cfg, Run(cfg, s, actions[..|actions| - 1]), actions[|actions| - 1]))
  }

  ghost function Run(cfg: P.Config, s: System, actions: seq<Action>): System
    requires Legal(cfg, s, actions)
    decreases |actions|, 1
  {
    if actions == [] then s
    else Next(cfg, Run(cfg, s, actions[..|actions| - 1]), actions[|actions| - 1])
  }

  // ----- the invariant

  /** The edges among the committed flips of one check, in order. */
  function EdgesOf(flips: seq<Flip>, c: int): seq<(bool, bool)> {
    if flips == [] then []
    else
      var f := flips[|flips| - 1];
      EdgesOf(flips[..|flips| - 1], c) + if f.checkID == c then [(f.was, f.now)] else []
  }

  ghost predicate IdsOk(s: System) {
    && 0 < s.nextID <= 0x8000_0000
    && (forall c :: c in s.checks ==> c in s.effective)
    && (forall c :: c in s.underway ==> c in s.effective)
    && (forall c :: c in s.effective ==> 0 < c < s.nextID)
    && (forall i :: 0 <= i < |s.flips| ==> s.flips[i].checkID in s.effective && s.flips[i].was != s.flips[i].now)
  }

  predicate Recorded(rows: Table, f: Flip) {
    KeyOf(f) in rows && rows[KeyOf(f)].kind == KIND_STATUS_CHANGED && rows[KeyOf(f)].data == DataOf(f)
  }

  predicate Covered(flips: seq<Flip>, k: Key) {
    exists i :: 0 <= i < |flips| && KeyOf(flips[i]) == k
  }

  predicate FreshReading(flips: seq<Flip>, c: int, at: int) {
    forall i :: 0 <= i < |flips| && flips[i].checkID == c ==> flips[i].at != at
  }

  /** The outbox rows are the committed flips, one for one; no two of one check have the same time. */
  ghost predicate RowsAreFlips(rows: Table, flips: seq<Flip>) {
    && (forall i :: 0 <= i < |flips| ==> Recorded(rows, flips[i]))
    && (forall k :: k in rows ==> Covered(flips, k))
    && (forall i, j :: 0 <= i < j < |flips| && flips[i].checkID == flips[j].checkID ==> flips[i].at != flips[j].at)
  }

  /** Per check, the flips are the edges of the results that took effect, and the stored status is
      the last of these. */
  ghost predicate ChainsOk(s: System) {
    && (forall c :: c in s.effective ==> EdgesOf(s.flips, c) == Edges(s.effective[c]))
    && (forall c :: c in s.checks && c in s.effective ==> Reading(s.checks[c]) == LastReading(s.effective[c]))
    && (forall c :: c in s.underway && c in s.checks ==> s.underway[c] == s.checks[c])
  }

  ghost predicate Inv(cfg: P.Config, s: System) {
    I.Inv(cfg, s.ob) && IdsOk(s) && RowsAreFlips(s.ob.rows, s.flips) && ChainsOk(s)
  }

  lemma KeysDiffer(s: System, i: int, j: int)
    requires RowsAreFlips(s.ob.rows, s.flips) && 0 <= i < j < |s.flips|
    ensures KeyOf(s.flips[i]) != KeyOf(s.flips[j])
  {
    var f, g := s.flips[i], s.flips[j];
    if KeyOf(f) == KeyOf(g) {
      EventKeyInjective(f.checkID, f.at, g.checkID, g.at);
    }
  }

  lemma FreshKey(rows: Table, flips: seq<Flip>, c: int, at: int)
    requires RowsAreFlips(rows, flips) && FreshReading(flips, c, at)
    ensures EventKey(c, at) !in rows
  {
    if EventKey(c, at) in rows {
      assert Covered(flips, EventKey(c, at));
      var i :| 0 <= i < |flips| && KeyOf(flips[i]) == EventKey(c, at);
      EventKeyInjective(flips[i].checkID, flips[i].at, c, at);
    }
  }

  lemma RowsFrame(rows: Table, rows': Table, flips: seq<Flip>)
    requires RowsAreFlips(rows, flips) && rows'.Keys == rows.Keys
    requires forall k :: k in rows ==> rows'[k].kind == rows[k].kind && rows'[k].data == rows[k].data
    ensures RowsAreFlips(rows', flips)
  {
    forall i | 0 <= i < |flips|
      ensures Recorded(rows', flips[i])
    {
      assert Recorded(rows, flips[i]);
    }
  }

  lemma OutboxAction(cfg: P.Config, s: System, a: Action)
    requires Inv(cfg, s) && Possible(cfg, s, a) && a.Outbox?
    ensures Inv(cfg, Next(cfg, s, a))
  {
    I.StepInv(cfg, s.ob, a.step);
    SameRows(cfg, s.ob, a.step);
    RowsFrame(s.ob.rows, P.Apply(cfg, s.ob, a.step).rows, s.flips);
  }

  lemma SameRows(cfg: P.Config, ob: P.State, step: P.Step)
    requires P.Enabled(cfg, ob, step) && !step.Enqueue?
    ensures var ob' := P.Apply(cfg, ob, step);
            ob'.rows.Keys == ob.rows.Keys
            && forall k :: k in ob.rows ==> ob'.rows[k].kind == ob.rows[k].kind && ob'.rows[k].data == ob.rows[k].data
  {
  }

  lemma CreateAction(cfg: P.Config, s: System, a: Action)
    requires IdsOk(s) && ChainsOk(s) && Possible(cfg, s, a) && a.CreateCheck?
    ensures IdsOk(Next(cfg, s, a)) && ChainsOk(Next(cfg, s, a))
  {
    NoEdges(s.flips, s.nextID);
  }

  /** A delete, a read or an abandoned handler. */
  lemma HandlerAction(cfg: P.Config, s: System, a: Action)
    requires IdsOk(s) && ChainsOk(s) && Possible(cfg, s, a) && (a.DeleteCheck? || a.Read? || a.Abandon?)
    ensures IdsOk(Next(cfg, s, a)) && ChainsOk(Next(cfg, s, a))
  {
  }

  lemma {:induction false} NoEdges(flips: seq<Flip>, c: int)
    requires forall i :: 0 <= i < |flips| ==> flips[i].checkID != c
    ensures EdgesOf(flips, c) == []
  {
    if flips != [] {
      NoEdges(flips[..|flips| - 1], c);
    }
  }

  lemma EdgesOfSnoc(flips: seq<Flip>, f: Flip, c: int)
    ensures EdgesOf(flips + [f], c) == EdgesOf(flips, c) + if f.checkID == c then [(f.was, f.now)] else []
  {
    assert (flips + [f])[..|flips|] == flips;
  }

  lemma FinishIds(cfg: P.Config, s: System, a: Action)
    requires IdsOk(s) && Possible(cfg, s, a) && a.Finish?
    ensures IdsOk(Next(cfg, s, a))
  {
    HandledEffect(View(s), a.c, s.underway[a.c], a.p, a.e);
  }

  lemma FinishRows(cfg: P.Config, s: System, a: Action)
    requires I.Inv(cfg, s.ob) && RowsAreFlips(s.ob.rows, s.flips) && Possible(cfg, s, a) && a.Finish?
    ensures RowsAreFlips(Next(cfg, s, a).ob.rows, Next(cfg, s, a).flips) && I.Inv(cfg, Next(cfg, s, a).ob)
  {
    if Flips(s, a.c, a.p, a.e) {
      var f := FlipOf(s, a.c, a.p, a.e);
      FreshKey(s.ob.rows, s.flips, a.c, a.e.at);
      I.StepInv(cfg, s.ob, EnqueueStep(f, a.e.began));
      RowAdded(s.ob.rows, s.flips, f, a.e.began);
    }
  }

  lemma RowAdded(rows: Table, flips: seq<Flip>, f: Flip, began: int)
    requires RowsAreFlips(rows, flips) && KeyOf(f) !in rows && FreshReading(flips, f.checkID, f.at)
    ensures RowsAreFlips(Enqueued(rows, KeyOf(f), KIND_STATUS_CHANGED, DataOf(f), began), flips + [f])
  {
    var rows' := Enqueued(rows, KeyOf(f), KIND_STATUS_CHANGED, DataOf(f), began);
    forall i | 0 <= i < |flips + [f]| ensures Recorded(rows', (flips + [f])[i]) {
      RecordedGrows(rows, flips, f, began, i);
    }
    forall k | k in rows' ensures Covered(flips + [f], k) {
      CoveredGrows(rows, flips, f, k);
    }
    ReadingsDiffer(rows, flips, f);
  }

  lemma ReadingsDiffer(rows: Table, flips: seq<Flip>, f: Flip)
    requires RowsAreFlips(rows, flips) && FreshReading(flips, f.checkID, f.at)
    ensures var more := flips + [f];
            forall i, j :: 0 <= i < j < |more| && more[i].checkID == more[j].checkID ==> more[i].at != more[j].at
  {
  }

  lemma RecordedGrows(rows: Table, flips: seq<Flip>, f: Flip, began: int, i: nat)
    requires RowsAreFlips(rows, flips) && KeyOf(f) !in rows && i <= |flips|
    ensures Recorded(Enqueued(rows, KeyOf(f), KIND_STATUS_CHANGED, DataOf(f), began), (flips + [f])[i])
  {
    if i < |flips| {
      assert Recorded(rows, flips[i]);
      assert (flips + [f])[i] == flips[i];
    }
  }

  lemma CoveredGrows(rows: Table, flips: seq<Flip>, f: Flip, k: Key)
    requires RowsAreFlips(rows, flips) && (k in rows || k == KeyOf(f))
    ensures Covered(flips + [f], k)
  {
    if k in rows {
      assert Covered(flips, k);
      var i :| 0 <= i < |flips| && KeyOf(flips[i]) == k;
      assert KeyOf((flips + [f])[i]) == k;
    } else {
      assert (flips + [f])[|flips|] == f;
    }
  }

  lemma FinishEdges(cfg: P.Config, s: System, a: Action, c: int)
    requires IdsOk(s) && ChainsOk(s) && Possible(cfg, s, a) && a.Finish?
    requires c in Next(cfg, s, a).effective
    ensures EdgesOf(Next(cfg, s, a).flips, c) == Edges(Next(cfg, s, a).effective[c])
  {
    assert EdgesOf(s.flips, c) == Edges(s.effective[c]);
    EdgesOfSnoc(s.flips, FlipOf(s, a.c, a.p, a.e), c);
    if Commits(View(s), a.c, a.e) {
      EdgesSnoc(s.effective[a.c], a.p.up);
    }
  }

  /** What a handler leaves of the statuses and of the history of effective results. */
  lemma FinishLeaves(cfg: P.Config, s: System, a: Action)
    requires Possible(cfg, s, a) && a.Finish?
    ensures Next(cfg, s, a).checks
            == if Flips(s, a.c, a.p, a.e) then s.checks[a.c := Some(a.p.up)] else s.checks
    ensures Next(cfg, s, a).effective
            == if Commits(View(s), a.c, a.e)
               then s.effective[a.c := (if a.c in s.effective then s.effective[a.c] else []) + [a.p.up]]
               else s.effective
  {
    HandledEffect(View(s), a.c, s.underway[a.c], a.p, a.e);
  }

  /** A committed handler leaves the status at its result, whether or not it wrote it. */
  lemma StatusFollows(status: Option<bool>, results: seq<bool>, up: bool)
    requires Reading(status) == LastReading(results)
    ensures LastReading(results + [up]) == up
    ensures Reading(if Reading(status) != up then Some(up) else status) == up
  {
  }

  lemma FinishStatus(cfg: P.Config, s: System, a: Action, c: int)
    requires IdsOk(s) && ChainsOk(s) && Possible(cfg, s, a) && a.Finish?
    requires c in Next(cfg, s, a).checks && c in Next(cfg, s, a).effective
    ensures Reading(Next(cfg, s, a).checks[c]) == LastReading(Next(cfg, s, a).effective[c])
  {
    FinishLeaves(cfg, s, a);
    if c == a.c && Commits(View(s), a.c, a.e) {
      StatusFollows(s.checks[c], s.effective[c], a.p.up);
    }
  }

  lemma FinishUnderway(cfg: P.Config, s: System, a: Action, c: int)
    requires ChainsOk(s) && Possible(cfg, s, a) && a.Finish?
    requires c in Next(cfg, s, a).underway && c in Next(cfg, s, a).checks
    ensures Next(cfg, s, a).underway[c] == Next(cfg, s, a).checks[c]
  {
    HandledEffect(View(s), a.c, s.underway[a.c], a.p, a.e);
  }

  lemma FinishChains(cfg: P.Config, s: System, a: Action)
    requires IdsOk(s) && ChainsOk(s) && Possible(cfg, s, a) && a.Finish?
    ensures ChainsOk(Next(cfg, s, a))
  {
    var s' := Next(cfg, s, a);
    forall c | c in s'.effective ensures EdgesOf(s'.flips, c) == Edges(s'.effective[c]) {
      FinishEdges(cfg, s, a, c);
    }
    forall c | c in s'.checks && c in s'.effective ensures Reading(s'.checks[c]) == LastReading(s'.effective[c]) {
      FinishStatus(cfg, s, a, c);
    }
    forall c | c in s'.underway && c in s'.checks ensures s'.underway[c] == s'.checks[c] {
      FinishUnderway(cfg, s, a, c);
    }
  }

  lemma ActionInv(cfg: P.Config, s: System, a: Action)
    requires Inv(cfg, s) && Possible(cfg, s, a)
    ensures Inv(cfg, Next(cfg, s, a))
  {
    if a.Outbox? {
      OutboxAction(cfg, s, a);
    } else if a.Finish? {
      FinishIds(cfg, s, a);
      FinishRows(cfg, s, a);
      FinishChains(cfg, s, a);
    } else if a.CreateCheck? {
      CreateAction(cfg, s, a);
    } else {
      HandlerAction(cfg, s, a);
    }
  }

  lemma {:induction false} RunInv(cfg: P.Config, now: int, workers: nat, actions: seq<Action>)
    requires Legal(cfg, Start(now, workers), actions)
    ensures Inv(cfg, Run(cfg, Start(now, workers), actions))
    decreases |actions|
  {
    if actions == [] {
      I.InitInv(cfg, now, workers);
    } else {
      RunInv(cfg, now, workers, actions[..|actions| - 1]);
      ActionInv(cfg, Run(cfg, Start(now, workers), actions[..|actions| - 1]), actions[|actions| - 1]);
    }
  }

  // ----- what it comes to

  function DeliveryOf(f: Flip): P.Delivery {
    P.Delivery(KeyOf(f), MessageOf(f))
  }

  lemma FlipDispatches(s: System, i: int)
    requires IdsOk(s) && RowsAreFlips(s.ob.rows, s.flips) && 0 <= i < |s.flips|
    ensures KeyOf(s.flips[i]) in s.ob.rows
    ensures Dispatch(s.ob.rows[KeyOf(s.flips[i])].kind, s.ob.rows[KeyOf(s.flips[i])].data)
            == Some(MessageOf(s.flips[i]))
  {
    var f := s.flips[i];
    assert Recorded(s.ob.rows, f);
    DispatchMarshalled(Payload(f.checkID, f.was, f.now, f.at));
  }

  /** Nothing invented: in every reachable state each delivery is that of a committed flip, with its
      check, old and new status intact. */
  lemma OnlyFlipsDelivered(cfg: P.Config, now: int, workers: nat, actions: seq<Action>, d: P.Delivery)
    requires Legal(cfg, Start(now, workers), actions)
    requires d in Run(cfg, Start(now, workers), actions).ob.broker
    ensures var flips := Run(cfg, Start(now, workers), actions).flips;
            exists i :: 0 <= i < |flips| && d == DeliveryOf(flips[i])
  {
    var s := Run(cfg, Start(now, workers), actions);
    RunInv(cfg, now, workers, actions);
    assert I.Genuine(s.ob.rows, d);
    assert Covered(s.flips, d.key);
    var i :| 0 <= i < |s.flips| && KeyOf(s.flips[i]) == d.key;
    FlipDispatches(s, i);
    assert d == DeliveryOf(s.flips[i]);
  }

  /** Nothing lost: a committed flip whose row reads SUCCESS has been delivered. */
  lemma SuccessDelivered(cfg: P.Config, s: System, i: int)
    requires Inv(cfg, s) && 0 <= i < |s.flips|
    requires KeyOf(s.flips[i]) in s.ob.rows && s.ob.rows[KeyOf(s.flips[i])].status == SUCCESS
    ensures DeliveryOf(s.flips[i]) in s.ob.broker
  {
    FlipDispatches(s, i);
    G.SuccessInBroker(cfg, s.ob, KeyOf(s.flips[i]));
  }

  /** The flip chain: in every reachable state the committed flips of a check are exactly the edges
      of its probe results that took effect.  They alternate, starting with a rise, and end at the
      stored status. */
  lemma FlipChain(cfg: P.Config, now: int, workers: nat, actions: seq<Action>, c: int)
    requires Legal(cfg, Start(now, workers), actions)
    requires c in Run(cfg, Start(now, workers), actions).checks
    ensures var s := Run(cfg, Start(now, workers), actions);
            && c in s.effective && EdgesOf(s.flips, c) == Edges(s.effective[c])
            && Alternating(EdgesOf(s.flips, c), Reading(s.checks[c]))
  {
    var s := Run(cfg, Start(now, workers), actions);
    RunInv(cfg, now, workers, actions);
    EdgesAlternate(s.effective[c]);
  }

  /** End to end: whenever every outbox row reads SUCCESS, the set of deliveries is exactly the set
      of committed flips, and no two flips share a delivery. */
  lemma DeliveredAreTheFlips(cfg: P.Config, now: int, workers: nat, actions: seq<Action>)
    requires Legal(cfg, Start(now, workers), actions)
    requires forall k :: k in Run(cfg, Start(now, workers), actions).ob.rows ==>
               Run(cfg, Start(now, workers), actions).ob.rows[k].status == SUCCESS
    ensures var s := Run(cfg, Start(now, workers), actions);
            && (forall d :: d in s.ob.broker <==> exists i :: 0 <= i < |s.flips| && d == DeliveryOf(s.flips[i]))
            && (forall i, j :: 0 <= i < j < |s.flips| ==> DeliveryOf(s.flips[i]) != DeliveryOf(s.flips[j]))
  {
    var s := Run(cfg, Start(now, workers), actions);
    RunInv(cfg, now, workers, actions);
    forall d | d in s.ob.broker
      ensures exists i :: 0 <= i < |s.flips| && d == DeliveryOf(s.flips[i])
    {
      OnlyFlipsDelivered(cfg, now, workers, actions, d);
    }
    forall i | 0 <= i < |s.flips|
      ensures DeliveryOf(s.flips[i]) in s.ob.broker
    {
      assert Recorded(s.ob.rows, s.flips[i]);
      SuccessDelivered(cfg, s, i);
    }
    forall i, j | 0 <= i < j < |s.flips|
      ensures DeliveryOf(s.flips[i]) != DeliveryOf(s.flips[j])
    {
      KeysDiffer(s, i, j);
    }
  }

  /** The filters of the email notifier: a positive check id and a real change. */
  predicate NotifierAccepts(m: StatusChange) {
    m.checkID > 0 && m.was != m.now
  }

  /** No delivery is dropped by the notifier's filters. */
  lemma NotifierSeesAll(cfg: P.Config, now: int, workers: nat, actions: seq<Action>, d: P.Delivery)
    requires Legal(cfg, Start(now, workers), actions)
    requires d in Run(cfg, Start(now, workers), actions).ob.broker
    ensures NotifierAccepts(d.msg)
  {
    OnlyFlipsDelivered(cfg, now, workers, actions, d);
    RunInv(cfg, now, workers, actions);
  }
}
