/** The status-change detector: `HandleCheck` reads the last status, probes, and on a flip writes the
    run, the new status and an outbox row in one transaction. */
module Detector {
  import opened Prelude
  import opened Decimal
  import opened StatusEvents
  import opened OutboxTable
  import opened Transactor

  datatype Probe = Probe(up: bool, code: int, latency: int)

  /** The environment of one handler call: the GetByID error, the error of the run inserted outside
      the transaction, the transaction's faults, and the two clock readings the outbox row gets. */
  datatype Env = Env(readFails: bool, insertFails: bool, tx: Faults, at: int, began: int)

  /** A check that was never probed counts as down. */
  function Reading(status: Option<bool>): bool {
    status == Some(true)
  }

  predicate Changed(prev: Option<bool>, up: bool) {
    match prev
    case None => up
    case Some(p) => p != up
  }

  function RunOf(checkID: int, p: Probe): RunRow {
    RunRow(checkID, p.up, p.code, p.latency)
  }

  function Event(checkID: int, prev: Option<bool>, p: Probe, at: int): Payload {
    Payload(checkID, if prev.Some? then prev.value else false, p.up, at)
  }

  /** The writes of the transaction, every one of them through `execQueryer`. */
  function FlipScript(checkID: int, prev: Option<bool>, p: Probe, e: Env): seq<Write> {
    [Write(Joined, InsertRun(RunOf(checkID, p))),
     Write(Joined, SetStatus(checkID, Some(p.up))),
     Write(Joined, Stmt.Enqueue(EventKey(checkID, e.at), KIND_STATUS_CHANGED,
                                Marshal(Event(checkID, prev, p, e.at)), e.began))]
  }

  /** The run recorded outside the transaction; its error is ignored. */
  function Logged(t: Tables, checkID: int, p: Probe, e: Env): Tables {
    if e.insertFails || !Accepted(t, InsertRun(RunOf(checkID, p))) then t
    else Exec(t, InsertRun(RunOf(checkID, p)))
  }

  /** The tables after a handler that read `prev`. */
  function Handled(t: Tables, checkID: int, prev: Option<bool>, p: Probe, e: Env): Tables {
    var logged := Logged(t, checkID, p, e);
    if Changed(prev, p.up) then AfterTx(logged, FlipScript(checkID, prev, p, e), e.tx).0 else logged
  }

  /** The handler's transaction becomes durable. */
  predicate Commits(t: Tables, checkID: int, e: Env) {
    !e.tx.beginFails && !e.tx.fails(0) && !e.tx.fails(1) && !e.tx.fails(2) && !e.tx.commitLost && checkID in t.checks
  }

  /** What a handler that read `prev` leaves, table by table: the run, once outside the transaction unless
      that insert failed and once more with a committed flip; the status; and the event, under its key
      and with its fields by name. */
  predicate RightlyHandled(before: Tables, after: Tables, checkID: int, prev: Option<bool>, p: Probe, e: Env) {
    var committed := (prev == Some(true)) != p.up && !e.tx.beginFails && !e.tx.fails(0) && !e.tx.fails(1)
                     && !e.tx.fails(2) && !e.tx.commitLost;
    var key := "status:" + FormatInt(checkID) + ":" + FormatInt(e.at);
    && before.runs <= after.runs
    && |after.runs| == |before.runs| + (if e.insertFails then 0 else 1) + (if committed then 1 else 0)
    && (forall i :: |before.runs| <= i < |after.runs| ==>
          && after.runs[i].checkID == checkID && after.runs[i].status == p.up
          && after.runs[i].code == p.code && after.runs[i].latency == p.latency)
    && after.checks == (if committed then before.checks[checkID := Some(p.up)] else before.checks)
    && after.outbox == if committed && key !in before.outbox
                       then before.outbox[key := Row(1, map["check_id" := JInt(checkID),
                                                            "old" := JBool(prev == Some(true)),
                                                            "new" := JBool(p.up), "at" := JTime(e.at)],
                                                     CREATED, e.began, e.began)]
                       else before.outbox
  }

  class Handler {
    const db: Database

    constructor (db: Database)
      ensures this.db == db
    {
      this.db := db;
    }

    method HandleCheck(checkID: int, p: Probe, e: Env) returns (err: bool)
      modifies db
      ensures err <==> checkID > 0 && (e.readFails || checkID !in old(db.durable).checks)
      ensures checkID <= 0 || err ==> db.durable == old(db.durable)
      ensures checkID > 0 && !err ==>
                db.durable == Handled(old(db.durable), checkID, old(db.durable).checks[checkID], p, e)
      ensures checkID > 0 && !err ==>
                RightlyHandled(old(db.durable), db.durable, checkID, old(db.durable).checks[checkID], p, e)
    {
      if checkID <= 0 {
        return false;
      }
      if e.readFails || checkID !in db.durable.checks {
        return true;
      }
      var prev := db.durable.checks[checkID];
      HandledRightly(db.durable, checkID, prev, p, e);
      if !e.insertFails {
        db.durable := Exec(db.durable, InsertRun(RunOf(checkID, p)));
      }
      var changed := false;
      if prev.None? && p.up {
        changed := true;
      } else if prev.Some? && prev.value != p.up {
        changed := true;
      }
      if changed {
        var wasUp := false;
        if prev.Some? {
          wasUp := prev.value;
        }
        var payload := Payload(checkID, wasUp, p.up, e.at);
        var script := [
          Write(Joined, InsertRun(RunOf(checkID, p))),
          Write(Joined, SetStatus(checkID, Some(p.up))),
          Write(Joined, Stmt.Enqueue(EventKey(checkID, e.at), KIND_STATUS_CHANGED, Marshal(payload), e.began))];
        var _ := db.WithTx(script, e.tx);
      }
      return false;
    }
  }

  /** A change is a probe that differs from the reading, a never probed check reading as down. */
  lemma ChangedReading(prev: Option<bool>, up: bool)
    ensures Changed(prev, up) <==> Reading(prev) != up
  {
  }

  lemma ExecThree(t: Tables, a: Stmt, b: Stmt, c: Stmt)
    ensures ExecAll(t, [a, b, c]) == Exec(Exec(Exec(t, a), b), c)
  {
    assert [a, b, c][..2] == [a, b];
    assert [a, b][..1] == [a];
    assert [a][..0] == [];
    assert ExecAll(t, [a]) == Exec(t, a);
    assert ExecAll(t, [a, b]) == Exec(ExecAll(t, [a]), b);
  }

  lemma ThreeRunThrough(t: Tables, checkID: int, prev: Option<bool>, p: Probe, e: Env)
    ensures RunsThrough(t, FlipScript(checkID, prev, p, e), e.tx.fails) <==>
            !e.tx.fails(0) && !e.tx.fails(1) && !e.tx.fails(2) && checkID in t.checks
  {
    var s := FlipScript(checkID, prev, p, e);
    assert s[..2][..1] == s[..1] && s[..1][..0] == [] && s == s[..2] + [s[2]];
    assert Stmts(s[..0]) == [];
    assert Stmts(s[..1]) == [s[0].stmt];
    assert RunsThrough(t, s[..0], e.tx.fails);
    assert RunsThrough(t, s[..1], e.tx.fails) <==> !e.tx.fails(0) && checkID in t.checks;
    assert RunsThrough(t, s[..2], e.tx.fails) <==> RunsThrough(t, s[..1], e.tx.fails) && !e.tx.fails(1);
  }

  /** What one handler call leaves: on a flip whose transaction commits, the new status, a second
      copy of the run and the event, all three; otherwise the statuses and the outbox untouched. */
  lemma HandledEffect(t: Tables, checkID: int, prev: Option<bool>, p: Probe, e: Env)
    ensures var t', logged := Handled(t, checkID, prev, p, e), Logged(t, checkID, p, e);
            if Reading(prev) != p.up && Commits(t, checkID, e)
            then t' == Tables(t.checks[checkID := Some(p.up)],
                              logged.runs + [RunOf(checkID, p)],
                              Enqueued(t.outbox, EventKey(checkID, e.at), KIND_STATUS_CHANGED,
                                       Marshal(Payload(checkID, Reading(prev), p.up, e.at)), e.began))
            else t' == t.(runs := logged.runs)
    ensures Logged(t, checkID, p, e).runs
            == t.runs + if e.insertFails || checkID !in t.checks then [] else [RunOf(checkID, p)]
  {
    ChangedReading(prev, p.up);
    if Changed(prev, p.up) {
      var logged, s := Logged(t, checkID, p, e), FlipScript(checkID, prev, p, e);
      AllOrNothing(logged, s, e.tx);
      ThreeRunThrough(logged, checkID, prev, p, e);
      assert Stmts(s) == [s[0].stmt, s[1].stmt, s[2].stmt];
      ExecThree(logged, s[0].stmt, s[1].stmt, s[2].stmt);
    }
  }

  lemma HandledRightly(t: Tables, checkID: int, prev: Option<bool>, p: Probe, e: Env)
    requires checkID in t.checks
    ensures RightlyHandled(t, Handled(t, checkID, prev, p, e), checkID, prev, p, e)
  {
    HandledEffect(t, checkID, prev, p, e);
    EventKeyText(checkID, e.at);
  }

  // ----- the simple form: an edge detector

  function LastReading(results: seq<bool>): bool {
    results != [] && results[|results| - 1]
  }

  /** The edges of a signal that starts low: each place where it differs from what came before. */
  function Edges(results: seq<bool>): seq<(bool, bool)> {
    if results == [] then []
    else
      var rest, up := results[..|results| - 1], results[|results| - 1];
      Edges(rest) + if LastReading(rest) != up then [(LastReading(rest), up)] else []
  }

  /** Edges alternate: the first rises, each starts where the one before ended, none is level, and
      the last ends at the signal's last value. */
  ghost predicate Alternating(edges: seq<(bool, bool)>, end: bool) {
    && (forall i :: 0 <= i < |edges| ==> edges[i].0 != edges[i].1)
    && (forall i :: 0 <= i < |edges| - 1 ==> edges[i].1 == edges[i + 1].0)
    && (edges != [] ==> !edges[0].0)
    && end == (edges != [] && edges[|edges| - 1].1)
  }

  lemma OneMoreEdge(edges: seq<(bool, bool)>, end: bool, up: bool)
    requires Alternating(edges, end)
    ensures Alternating(edges + if end != up then [(end, up)] else [], up)
  {
  }

  lemma {:induction false} EdgesAlternate(results: seq<bool>)
    ensures Alternating(Edges(results), LastReading(results))
  {
    if results != [] {
      var rest, up := results[..|results| - 1], results[|results| - 1];
      EdgesAlternate(rest);
      OneMoreEdge(Edges(rest), LastReading(rest), up);
    }
  }

  // ----- serial handler calls of one check

  datatype Call = Call(p: Probe, e: Env)

  /** The tables after one more call, which reads the status first. */
  function HandledNext(t: Tables, checkID: int, call: Call): Tables {
    if call.e.readFails || checkID !in t.checks then t
    else Handled(t, checkID, t.checks[checkID], call.p, call.e)
  }

  function HandledAll(t: Tables, checkID: int, calls: seq<Call>): Tables {
    if calls == [] then t
    else HandledNext(HandledAll(t, checkID, calls[..|calls| - 1]), checkID, calls[|calls| - 1])
  }

  /** The event a call added under `key`, if any, as its handler will publish it. */
  function Added(before: Tables, after: Tables, key: Key): seq<(bool, bool)> {
    if key !in before.outbox && key in after.outbox
    then match Dispatch(after.outbox[key].kind, after.outbox[key].data)
         case Some(m) => [(m.was, m.now)]
         case None => []
    else []
  }

  /** The events that reached the outbox, in order. */
  function Events(t: Tables, checkID: int, calls: seq<Call>): seq<(bool, bool)> {
    if calls == [] then []
    else
      var rest, last := calls[..|calls| - 1], calls[|calls| - 1];
      Events(t, checkID, rest)
      + Added(HandledAll(t, checkID, rest), HandledAll(t, checkID, calls), EventKey(checkID, last.e.at))
  }

  /** The read succeeded, and the transaction, had there been one, would have become durable. */
  predicate TakesEffect(e: Env) {
    !e.readFails && !e.tx.beginFails && !e.tx.fails(0) && !e.tx.fails(1) && !e.tx.fails(2) && !e.tx.commitLost
  }

  function Effective(calls: seq<Call>): seq<bool> {
    if calls == [] then []
    else
      var last := calls[|calls| - 1];
      Effective(calls[..|calls| - 1]) + if TakesEffect(last.e) then [last.p.up] else []
  }

  /** No two calls key their events by the same clock reading; the clock may be set back. */
  predicate ClockNeverRepeats(calls: seq<Call>) {
    forall i, j :: 0 <= i < j < |calls| ==> calls[i].e.at != calls[j].e.at
  }

  /** Before the first call the check exists, was never probed, and has no events. */
  ghost predicate NewCheck(t: Tables, checkID: int) {
    checkID in t.checks && t.checks[checkID] == None && forall at :: EventKey(checkID, at) !in t.outbox
  }

  lemma {:induction false} OwnEventsOnly(t: Tables, checkID: int, calls: seq<Call>)
    requires NewCheck(t, checkID)
    ensures checkID in HandledAll(t, checkID, calls).checks
    ensures forall at :: EventKey(checkID, at) in HandledAll(t, checkID, calls).outbox ==>
              exists i :: 0 <= i < |calls| && calls[i].e.at == at
  {
    if calls != [] {
      var n := |calls| - 1;
      var before, last := HandledAll(t, checkID, calls[..n]), calls[n];
      OwnEventsOnly(t, checkID, calls[..n]);
      HandledEffect(before, checkID, before.checks[checkID], last.p, last.e);
      forall at | EventKey(checkID, at) in HandledAll(t, checkID, calls).outbox
        ensures exists i :: 0 <= i < |calls| && calls[i].e.at == at
      {
        if EventKey(checkID, at) in before.outbox {
          var i :| 0 <= i < n && calls[..n][i].e.at == at;
          assert calls[i].e.at == at;
        } else {
          EventKeyInjective(checkID, at, checkID, last.e.at);
          assert calls[n].e.at == at;
        }
      }
    }
  }

  /** One call against one step of the edge detector. */
  lemma OneCall(t: Tables, checkID: int, call: Call)
    requires IsInt32(checkID) && checkID in t.checks && EventKey(checkID, call.e.at) !in t.outbox
    ensures var t', prev := HandledNext(t, checkID, call), Reading(t.checks[checkID]);
            && checkID in t'.checks
            && Reading(t'.checks[checkID]) == (if TakesEffect(call.e) then call.p.up else prev)
            && Added(t, t', EventKey(checkID, call.e.at))
               == if TakesEffect(call.e) && prev != call.p.up then [(prev, call.p.up)] else []
  {
    var prev := t.checks[checkID];
    HandledEffect(t, checkID, prev, call.p, call.e);
    DispatchMarshalled(Payload(checkID, Reading(prev), call.p.up, call.e.at));
  }

  /** `HandleCheck` refines the edge detector: over any calls and any failures, the events are the
      edges of the effective results, and the stored status is the last of them.  A flip whose
      transaction was lost is as if its probe had not been made. */
  lemma {:induction false} RefinesEdgeDetector(t: Tables, checkID: int, calls: seq<Call>)
    requires IsInt32(checkID) && NewCheck(t, checkID) && ClockNeverRepeats(calls)
    ensures Events(t, checkID, calls) == Edges(Effective(calls))
    ensures checkID in HandledAll(t, checkID, calls).checks
    ensures Reading(HandledAll(t, checkID, calls).checks[checkID]) == LastReading(Effective(calls))
  {
    if calls != [] {
      var n := |calls| - 1;
      var before, last := HandledAll(t, checkID, calls[..n]), calls[n];
      assert ClockNeverRepeats(calls[..n]);
      RefinesEdgeDetector(t, checkID, calls[..n]);
      FreshKey(t, checkID, calls);
      OneCall(before, checkID, last);
      EdgesSnoc(Effective(calls[..n]), last.p.up);
      if !TakesEffect(last.e) {
        assert Effective(calls) == Effective(calls[..n]);
        assert Events(t, checkID, calls) == Events(t, checkID, calls[..n]);
      }
    }
  }

  lemma FreshKey(t: Tables, checkID: int, calls: seq<Call>)
    requires NewCheck(t, checkID) && ClockNeverRepeats(calls) && calls != []
    ensures EventKey(checkID, calls[|calls| - 1].e.at) !in HandledAll(t, checkID, calls[..|calls| - 1]).outbox
  {
    var n := |calls| - 1;
    OwnEventsOnly(t, checkID, calls[..n]);
    assert forall i :: 0 <= i < n ==> calls[..n][i].e.at != calls[n].e.at;
  }

  lemma EdgesSnoc(results: seq<bool>, up: bool)
    ensures Edges(results + [up])
            == Edges(results) + if LastReading(results) != up then [(LastReading(results), up)] else []
    ensures LastReading(results + [up]) == up
  {
    assert (results + [up])[..|results|] == results;
  }

  /** With no failures at all, the events are the edges of the probe results. */
  lemma {:induction false} WithoutFailures(t: Tables, checkID: int, calls: seq<Call>)
    requires IsInt32(checkID) && NewCheck(t, checkID) && ClockNeverRepeats(calls)
    requires forall i :: 0 <= i < |calls| ==> TakesEffect(calls[i].e)
    ensures Events(t, checkID, calls) == Edges(Results(calls))
  {
    RefinesEdgeDetector(t, checkID, calls);
    AllEffective(calls);
  }

  function Results(calls: seq<Call>): seq<bool> {
    seq(|calls|, i requires 0 <= i < |calls| => calls[i].p.up)
  }

  lemma {:induction false} AllEffective(calls: seq<Call>)
    requires forall i :: 0 <= i < |calls| ==> TakesEffect(calls[i].e)
    ensures Effective(calls) == Results(calls)
  {
    if calls != [] {
      AllEffective(calls[..|calls| - 1]);
      assert Results(calls) == Results(calls[..|calls| - 1]) + [calls[|calls| - 1].p.up];
    }
  }

  /** A flip whose transaction was lost is found again: the next probe with the same result writes
      the very event that was lost, apart from its time. */
  lemma LostFlipIsRedetected(t: Tables, checkID: int, lost: Call, again: Call)
    requires IsInt32(checkID) && checkID in t.checks
    requires Reading(t.checks[checkID]) != lost.p.up && !TakesEffect(lost.e)
    requires again.p.up == lost.p.up && TakesEffect(again.e) && EventKey(checkID, again.e.at) !in t.outbox
    ensures var t1 := HandledNext(t, checkID, lost);
            && t1.checks == t.checks && t1.outbox == t.outbox
            && Added(t1, HandledNext(t1, checkID, again), EventKey(checkID, again.e.at))
               == [(Reading(t.checks[checkID]), lost.p.up)]
  {
    HandledEffect(t, checkID, t.checks[checkID], lost.p, lost.e);
    OneCall(HandledNext(t, checkID, lost), checkID, again);
  }

  /** Serial handling is needed: of two handlers of one check that read the same status, both announce
      the very same flip exactly when both transactions commit and both probes differ from what was
      read. */
  lemma OverlappingHandlersRepeat(t: Tables, checkID: int, prev: Option<bool>, a: Call, b: Call)
    requires IsInt32(checkID) && checkID in t.checks && t.checks[checkID] == prev && a.e.at != b.e.at
    requires EventKey(checkID, a.e.at) !in t.outbox && EventKey(checkID, b.e.at) !in t.outbox
    ensures var t1 := Handled(t, checkID, prev, a.p, a.e);
            var t2 := Handled(t1, checkID, prev, b.p, b.e);
            var flip := [(Reading(prev), !Reading(prev))];
            Added(t, t1, EventKey(checkID, a.e.at)) == Added(t1, t2, EventKey(checkID, b.e.at)) == flip
            <==> && Commits(t, checkID, a.e) && Commits(t, checkID, b.e)
                 && a.p.up != Reading(prev) && b.p.up != Reading(prev)
  {
    var t1 := Handled(t, checkID, prev, a.p, a.e);
    if EventKey(checkID, a.e.at) == EventKey(checkID, b.e.at) {
      EventKeyInjective(checkID, a.e.at, checkID, b.e.at);
    }
    HandledEffect(t, checkID, prev, a.p, a.e);
    HandledEffect(t1, checkID, prev, b.p, b.e);
    DispatchMarshalled(Payload(checkID, Reading(prev), a.p.up, a.e.at));
    DispatchMarshalled(Payload(checkID, Reading(prev), b.p.up, b.e.at));
  }
}
