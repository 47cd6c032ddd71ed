/** `WithTx`: running a function's writes in one database transaction.  A write joins the transaction
    when it goes through `execQueryer`; one that uses the pool directly does not. */
module Transactor {
  import opened Prelude
  import opened StatusEvents
  import opened OutboxTable

  datatype RunRow = RunRow(checkID: int, status: bool, code: int, latency: int)

  /** The durable tables the ping worker writes: last statuses by check id, runs, and the outbox. */
  datatype Tables = Tables(checks: map<int, Option<bool>>, runs: seq<RunRow>, outbox: Table)

  datatype Stmt =
    | InsertRun(run: RunRow)
    | SetStatus(checkID: int, status: Option<bool>)
    | Enqueue(key: Key, kind: int, data: Object, at: int)

  /** A run must refer to an existing check; the other statements raise no constraint. */
  predicate Accepted(t: Tables, st: Stmt) {
    st.InsertRun? ==> st.run.checkID in t.checks
  }

  function Exec(t: Tables, st: Stmt): Tables {
    match st
    case InsertRun(run) => t.(runs := t.runs + [run])
    case SetStatus(c, status) => if c in t.checks then t.(checks := t.checks[c := status]) else t
    case Enqueue(key, kind, data, at) => t.(outbox := Enqueued(t.outbox, key, kind, data, at))
  }

  function ExecAll(t: Tables, sts: seq<Stmt>): Tables {
    if sts == [] then t else Exec(ExecAll(t, sts[..|sts| - 1]), sts[|sts| - 1])
  }

  datatype Route = Joined | Pool

  datatype Write = Write(route: Route, stmt: Stmt)

  function Stmts(script: seq<Write>): seq<Stmt> {
    seq(|script|, i requires 0 <= i < |script| => script[i].stmt)
  }

  predicate AllJoined(script: seq<Write>) {
    forall i :: 0 <= i < |script| ==> script[i].route.Joined?
  }

  /** What can go wrong: begin fails, the i-th statement fails, the commit does not become durable.
      A commit that reports an error but is durable is not a loss: `WithTx` only logs the error. */
  datatype Faults = Faults(beginFails: bool, fails: nat -> bool, commitLost: bool)

  /** A transaction under way: what is durable already, what is pending, and whether the function
      has returned an error. */
  datatype Tx = Tx(durable: Tables, pending: seq<Stmt>, failed: bool)

  /** What the next write sees: a joined one also sees the pending writes. */
  function View(tx: Tx, route: Route): Tables {
    if route.Joined? then ExecAll(tx.durable, tx.pending) else tx.durable
  }

  function Perform(tx: Tx, w: Write, fails: bool): Tx {
    if tx.failed then tx
    else if fails || !Accepted(View(tx, w.route), w.stmt) then tx.(failed := true)
    else match w.route
      case Joined => tx.(pending := tx.pending + [w.stmt])
      case Pool => tx.(durable := Exec(tx.durable, w.stmt))
  }

  function PerformAll(t: Tables, script: seq<Write>, fails: nat -> bool): Tx {
    if script == [] then Tx(t, [], false)
    else
      var n := |script| - 1;
      Perform(PerformAll(t, script[..n], fails), script[n], fails(n))
  }

  /** The durable tables afterwards, and whether `WithTx` returns an error: it returns nil also when
      the commit failed. */
  function AfterTx(t: Tables, script: seq<Write>, f: Faults): (Tables, bool) {
    if f.beginFails then (t, true)
    else
      var tx := PerformAll(t, script, f.fails);
      (if tx.failed || f.commitLost then tx.durable else ExecAll(tx.durable, tx.pending), tx.failed)
  }

  class Database {
    var durable: Tables

    constructor ()
      ensures durable == Tables(map[], [], map[])
    {
      durable := Tables(map[], [], map[]);
    }

    /** `script` stands for the function: the writes it makes, in order, stopping at the first that
        fails. */
    method WithTx(script: seq<Write>, f: Faults) returns (err: bool)
      modifies this
      ensures (durable, err) == AfterTx(old(durable), script, f)
    {
      if f.beginFails {
        return true;
      }
      var pending: seq<Stmt> := [];
      var i := 0;
      while i < |script|
        invariant 0 <= i <= |script|
        invariant PerformAll(old(durable), script[..i], f.fails) == Tx(durable, pending, false)
      {
        var w := script[i];
        var seen := if w.route.Joined? then ExecAll(durable, pending) else durable;
        assert script[..i + 1][..i] == script[..i];
        if f.fails(i) || !Accepted(seen, w.stmt) {
          FailureStays(old(durable), script, f.fails, i + 1);
          return true;
        }
        if w.route.Joined? {
          pending := pending + [w.stmt];
        } else {
          durable := Exec(durable, w.stmt);
        }
        i := i + 1;
      }
      assert script[..|script|] == script;
      if !f.commitLost {
        durable := ExecAll(durable, pending);
      }
      err := false;
    }
  }

  lemma {:induction false} FailureStays(t: Tables, script: seq<Write>, fails: nat -> bool, i: nat)
    requires i <= |script| && PerformAll(t, script[..i], fails).failed
    ensures PerformAll(t, script, fails) == PerformAll(t, script[..i], fails)
    decreases |script|
  {
    var n := |script| - 1;
    if i <= n {
      assert script[..n][..i] == script[..i];
      FailureStays(t, script[..n], fails, i);
    } else {
      assert script[..i] == script;
    }
  }

  /** The function of joined writes runs through: no statement fails or breaks a constraint. */
  predicate RunsThrough(t: Tables, script: seq<Write>, fails: nat -> bool) {
    script == [] ||
    (var n := |script| - 1;
     RunsThrough(t, script[..n], fails) && !fails(n) && Accepted(ExecAll(t, Stmts(script[..n])), script[n].stmt))
  }

  lemma {:induction false} JoinedPending(t: Tables, script: seq<Write>, fails: nat -> bool)
    requires AllJoined(script)
    ensures var tx := PerformAll(t, script, fails);
            && tx.durable == t
            && (tx.failed <==> !RunsThrough(t, script, fails))
            && (!tx.failed ==> tx.pending == Stmts(script))
  {
    if script != [] {
      var n := |script| - 1;
      JoinedPending(t, script[..n], fails);
      assert Stmts(script) == Stmts(script[..n]) + [script[n].stmt];
    }
  }

  /** All or nothing: with joined writes only, the tables end up as they were, or with every write
      of the function; nothing is kept when the function failed or the commit did, and an error is
      returned exactly when begin or the function failed. */
  lemma AllOrNothing(t: Tables, script: seq<Write>, f: Faults)
    requires AllJoined(script)
    ensures var (t', err) := AfterTx(t, script, f);
            && (err <==> f.beginFails || !RunsThrough(t, script, f.fails))
            && t' == if err || f.commitLost then t else ExecAll(t, Stmts(script))
  {
    JoinedPending(t, script, f.fails);
  }

  /** A lost commit leaves no trace, whatever the tables and faults. */
  ghost predicate LeavesNoTrace(script: seq<Write>) {
    forall t, fails :: AfterTx(t, script, Faults(false, fails, true)).0 == t
  }

  /** The checks every statement of the script can refer to. */
  function Mentioned(script: seq<Write>): set<int> {
    set i | 0 <= i < |script| && script[i].stmt.InsertRun? :: script[i].stmt.run.checkID
  }

  /** Tables on which `st` certainly changes something. */
  function Sensitive(ids: set<int>, st: Stmt): Tables {
    var other := if st.SetStatus? && st.status == None then Some(true) else None;
    var known := if st.SetStatus? then ids + {st.checkID} else ids;
    Tables(map c | c in known :: other, [], map[])
  }

  lemma {:induction false} ChecksStay(t: Tables, sts: seq<Stmt>)
    ensures ExecAll(t, sts).checks.Keys == t.checks.Keys
  {
    if sts != [] {
      ChecksStay(t, sts[..|sts| - 1]);
    }
  }

  lemma SensitiveChanges(ids: set<int>, st: Stmt)
    requires st.InsertRun? ==> st.run.checkID in ids
    ensures Exec(Sensitive(ids, st), st) != Sensitive(ids, st)
  {
    var t := Sensitive(ids, st);
    match st
    case InsertRun(run) => assert |Exec(t, st).runs| == 1;
    case SetStatus(c, status) => assert Exec(t, st).checks[c] != t.checks[c];
    case Enqueue(key, _, _, _) => assert key in Exec(t, st).outbox;
  }

  /** A transaction can be undone completely exactly when every write of the function joins it. */
  lemma UndoneIffJoined(script: seq<Write>)
    ensures LeavesNoTrace(script) <==> AllJoined(script)
  {
    if AllJoined(script) {
      forall t, fails
        ensures AfterTx(t, script, Faults(false, fails, true)).0 == t
      {
        AllOrNothing(t, script, Faults(false, fails, true));
      }
    } else {
      var p := FirstPool(script);
      var t, fails := Sensitive(Mentioned(script), script[p].stmt), (i: nat) => i == p + 1;
      var before, upTo := script[..p], script[..p + 1];
      KnownChecksRun(t, before, fails);
      JoinedPending(t, before, fails);
      assert upTo[..p] == before;
      SensitiveChanges(Mentioned(script), script[p].stmt);
      assert PerformAll(t, upTo, fails).durable == Exec(t, script[p].stmt);
      StopsAt(t, script, fails, p + 1);
      assert AfterTx(t, script, Faults(false, fails, true)).0 != t;
    }
  }

  lemma {:induction false} KnownChecksRun(t: Tables, script: seq<Write>, fails: nat -> bool)
    requires forall i :: 0 <= i < |script| ==>
               !fails(i) && (script[i].stmt.InsertRun? ==> script[i].stmt.run.checkID in t.checks)
    ensures RunsThrough(t, script, fails)
  {
    if script != [] {
      var n := |script| - 1;
      KnownChecksRun(t, script[..n], fails);
      ChecksStay(t, Stmts(script[..n]));
    }
  }

  lemma FirstPool(script: seq<Write>) returns (p: nat)
    requires !AllJoined(script)
    ensures p < |script| && script[p].route.Pool? && AllJoined(script[..p])
  {
    p := 0;
    while script[p].route.Joined?
      invariant 0 <= p < |script| && AllJoined(script[..p])
      invariant !AllJoined(script)
      decreases |script| - p
    {
      p := p + 1;
    }
  }

  /** A statement that fails is the last to have an effect. */
  lemma StopsAt(t: Tables, script: seq<Write>, fails: nat -> bool, i: nat)
    requires i <= |script| && fails(i)
    ensures PerformAll(t, script, fails).durable == PerformAll(t, script[..i], fails).durable
  {
    if i == |script| {
      assert script[..i] == script;
    } else {
      assert script[..i + 1][..i] == script[..i];
      FailureStays(t, script, fails, i + 1);
    }
  }
}
