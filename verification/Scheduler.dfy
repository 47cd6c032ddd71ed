/** The scheduler queue: `FetchDue` takes the checks whose `next_run` has come, earliest first and up
    to a limit, and bumps each by its interval; `Tick` publishes one request per fetched check. */
module Scheduler {
  import opened Prelude
  import opened Counting

  /** A row of `checks`; the interval is in seconds. */
  datatype Check = Check(active: bool, interval: nat, nextRun: int)

  type Table = map<int, Check>

  /** Clock units per second. */
  const SECOND: int := 1_000_000

  const DEFAULT_LIMIT: int := 100

  function Limit(limit: int): nat {
    if limit <= 0 then DEFAULT_LIMIT else limit
  }

  predicate Due(c: Check, now: int) {
    c.active && c.nextRun <= now
  }

  /** A possible result of the due query: due unlocked checks in order of `next_run`, at most `limit`
      of them, and a due check is left behind only for a full batch of checks no later than it. */
  predicate Fetchable(t: Table, now: int, limit: nat, locked: set<int>, ids: seq<int>) {
    && Distinct(ids)
    && |ids| <= limit
    && (forall c :: c in ids ==> c in t && c !in locked && Due(t[c], now))
    && (forall i, j :: 0 <= i < j < |ids| ==> ids[i] in t && ids[j] in t && t[ids[i]].nextRun <= t[ids[j]].nextRun)
    && (forall c :: c in t && c !in locked && c !in ids && Due(t[c], now) ==>
          |ids| == limit && forall b :: b in ids ==> t[b].nextRun <= t[c].nextRun)
  }

  function Bumped(t: Table, ids: seq<int>, now: int): Table {
    map c | c in t :: if c in ids then t[c].(nextRun := now + t[c].interval * SECOND) else t[c]
  }

  /** The due checks that nobody has locked. */
  function DueNow(t: Table, now: int, locked: set<int>): set<int> {
    set c | c in t && t[c].active && t[c].nextRun <= now && c !in locked
  }

  /** As many of the due unlocked checks as were asked for, or all of them, earliest first, and none left
      behind that is earlier; a limit that is not positive asks for 100.  Each of them runs next one
      interval of seconds from now; no other check changes. */
  ghost predicate RightlyFetched(before: Table, after: Table, limit: int, now: int, locked: set<int>, ids: seq<int>) {
    var due, asked := DueNow(before, now, locked), if limit > 0 then limit else 100;
    && (forall i :: 0 <= i < |ids| ==> ids[i] in due)
    && (forall i, j :: 0 <= i < j < |ids| ==> ids[i] != ids[j] && before[ids[i]].nextRun <= before[ids[j]].nextRun)
    && |ids| == (if asked < |due| then asked else |due|)
    && (forall c, i :: c in due && c !in ids && 0 <= i < |ids| ==> before[ids[i]].nextRun <= before[c].nextRun)
    && after.Keys == before.Keys
    && (forall c :: c in before && c !in ids ==> after[c] == before[c])
    && (forall c :: c in before && c in ids ==>
          after[c] == Check(before[c].active, before[c].interval, now + before[c].interval * 1_000_000))
  }

  lemma FetchedItem(t: Table, now: int, limit: nat, locked: set<int>, ids: seq<int>, i: int)
    requires Fetchable(t, now, limit, locked, ids) && 0 <= i < |ids|
    ensures ids[i] in DueNow(t, now, locked)
    ensures forall c :: c in DueNow(t, now, locked) && c !in ids ==> t[ids[i]].nextRun <= t[c].nextRun
  {
    var b := ids[i];
    assert b in ids;
    forall c | c in DueNow(t, now, locked) && c !in ids ensures t[b].nextRun <= t[c].nextRun {
      assert Due(t[c], now);
    }
  }

  lemma FetchedRightly(t: Table, limit: int, now: int, locked: set<int>, ids: seq<int>)
    requires Fetchable(t, now, Limit(limit), locked, ids)
    ensures RightlyFetched(t, Bumped(t, ids, now), limit, now, locked, ids)
  {
    var due := DueNow(t, now, locked);
    assert forall c :: c in ids ==> c in due;
    assert ToSet(ids) <= due;
    forall i | 0 <= i < |ids|
      ensures ids[i] in due && forall c :: c in due && c !in ids ==> t[ids[i]].nextRun <= t[c].nextRun
    {
      FetchedItem(t, now, Limit(limit), locked, ids, i);
    }
    DistinctSize(ids);
    SubsetSize(ToSet(ids), due);
    if |ids| < Limit(limit) {
      forall c | c in due ensures c in ids {
        assert Due(t[c], now);
      }
      assert ToSet(ids) == due;
    }
  }

  method Earliest(t: Table, s: set<int>) returns (c: int)
    requires s != {} && s <= t.Keys
    ensures c in s && forall x :: x in s ==> t[c].nextRun <= t[x].nextRun
  {
    ghost var some := Member(s);
    c :| c in s;
    var rest := s - {c};
    while rest != {}
      invariant c in s && rest <= s
      invariant forall x :: x in s && x !in rest ==> t[c].nextRun <= t[x].nextRun
      decreases |rest|
    {
      some := Member(rest);
      var x :| x in rest;
      if t[x].nextRun < t[c].nextRun {
        c := x;
      }
      rest := rest - {x};
    }
  }

  /** ORDER BY next_run, skipping locked rows, up to the limit. */
  method SelectDue(t: Table, now: int, limit: nat, locked: set<int>) returns (ids: seq<int>)
    ensures Fetchable(t, now, limit, locked, ids)
  {
    var rest := set c | c in t && c !in locked && Due(t[c], now);
    ids := [];
    while |ids| < limit && rest != {}
      invariant |ids| <= limit && Distinct(ids) && rest <= t.Keys
      invariant forall c :: c in rest ==> c in t && c !in locked && Due(t[c], now)
      invariant forall c :: c in t && c !in locked && Due(t[c], now) ==> c in rest || c in ids
      invariant forall i :: 0 <= i < |ids| ==>
                  ids[i] in t && ids[i] !in rest && ids[i] !in locked && Due(t[ids[i]], now)
      invariant forall i, j :: 0 <= i < j < |ids| ==> t[ids[i]].nextRun <= t[ids[j]].nextRun
      invariant forall i, c :: 0 <= i < |ids| && c in rest ==> t[ids[i]].nextRun <= t[c].nextRun
      decreases |rest|
    {
      var c := Earliest(t, rest);
      ids := ids + [c];
      rest := rest - {c};
    }
  }

  class CheckRepo {
    var rows: Table

    constructor ()
      ensures rows == map[]
    {
      rows := map[];
    }

    /** A new check is due at once; a negative interval is stored as zero. */
    method Create(id: int, interval: int, now: int)
      requires id !in rows
      modifies this
      ensures rows == old(rows)[id := Check(true, if interval < 0 then 0 else interval, now)]
    {
      var seconds: int := interval;
      if seconds < 0 {
        seconds := 0;
      }
      rows := rows[id := Check(true, seconds, now)];
    }

    /** `scanFails` says at which row reading the cursor breaks, if at any. */
    method FetchDue(limit: int, now: int, locked: set<int>, scanFails: Option<nat>, outcome: Outcome)
      returns (r: Result<seq<int>, string>)
      modifies this
      ensures r.Ok? ==>
                && Fetchable(old(rows), now, Limit(limit), locked, r.value)
                && rows == Bumped(old(rows), r.value, now)
      ensures r.Ok? ==> RightlyFetched(old(rows), rows, limit, now, locked, r.value)
      ensures r.Ok? && r.value != [] ==> outcome == Durable
      ensures scanFails == None && outcome == Durable ==> r.Ok?
      ensures r.Err? ==>
                || rows == old(rows)
                || (outcome == Unknown
                    && exists ids ::
                         Fetchable(old(rows), now, Limit(limit), locked, ids) && rows == Bumped(old(rows), ids, now)
                         && RightlyFetched(old(rows), rows, limit, now, locked, ids))
    {
      var n := if limit <= 0 then DEFAULT_LIMIT else limit;
      var due := SelectDue(rows, now, n, locked);
      var out: seq<int> := [];
      var i := 0;
      while i < |due|
        invariant 0 <= i <= |due| && out == due[..i] && rows == old(rows)
      {
        if scanFails == Some(i) {
          return Err("scan check");
        }
        out := out + [due[i]];
        i := i + 1;
      }
      FetchedRightly(rows, limit, now, locked, due);
      if |out| == 0 {
        assert Bumped(rows, [], now) == rows;
        return Ok([]);
      }
      if outcome == Failed {
        return Err("commit");
      }
      rows := Bumped(rows, due, now);
      if outcome == Unknown {
        return Err("commit");
      }
      return Ok(out);
    }
  }

  lemma OneMoreAcked(acked: nat -> bool, n: nat)
    ensures |set i | 0 <= i < n + 1 && acked(i)| == |set i | 0 <= i < n && acked(i)| + if acked(n) then 1 else 0
  {
    var before, after := set i | 0 <= i < n && acked(i), set i | 0 <= i < n + 1 && acked(i);
    assert after == before + if acked(n) then {n} else {};
  }

  /** The ids whose publish was acknowledged, no other. */
  ghost predicate PublishedOf(published: seq<int>, ids: seq<int>, acked: nat -> bool) {
    forall c :: c in published <==> exists i :: 0 <= i < |ids| && ids[i] == c && acked(i)
  }

  lemma OneMorePublished(published: seq<int>, ids: seq<int>, acked: nat -> bool, i: nat)
    requires i < |ids| && PublishedOf(published, ids[..i], acked)
    ensures PublishedOf(if acked(i) then published + [ids[i]] else published, ids[..i + 1], acked)
  {
    var after := if acked(i) then published + [ids[i]] else published;
    forall c ensures c in after <==> exists j :: 0 <= j < i + 1 && ids[..i + 1][j] == c && acked(j) {
      assert c in published <==> exists j :: 0 <= j < i && ids[..i][j] == c && acked(j);
      if c in published {
        var j :| 0 <= j < i && ids[..i][j] == c && acked(j);
        assert ids[..i + 1][j] == c;
      }
      if j: nat :| j < i + 1 && ids[..i + 1][j] == c && acked(j) {
        assert j < i ==> ids[..i][j] == c;
      }
      assert ids[..i + 1][i] == ids[i];
    }
  }

  class Usecase {
    const repo: CheckRepo

    constructor (repo: CheckRepo)
      ensures this.repo == repo
    {
      this.repo := repo;
    }

    /** One publish attempt per fetched check; `acked` says which succeed.  The counts add up, and
        what is not published is not put back. */
    method Tick(limit: int, now: int, locked: set<int>, scanFails: Option<nat>, outcome: Outcome, acked: nat -> bool)
      returns (fetched: nat, sent: nat, errs: nat, err: bool, published: seq<int>)
      modifies repo
      ensures !err ==> fetched == sent + errs && sent == |published| == |set i | 0 <= i < fetched && acked(i)|
      ensures !err ==> exists ids :: RightlyFetched(old(repo.rows), repo.rows, limit, now, locked, ids)
                                     && |ids| == fetched && PublishedOf(published, ids, acked)
      ensures err ==> fetched == sent == 0 && errs == 1 && published == []
      ensures err ==>
                || repo.rows == old(repo.rows)
                || (outcome == Unknown
                    && exists ids :: RightlyFetched(old(repo.rows), repo.rows, limit, now, locked, ids))
      ensures scanFails == None && outcome == Durable ==> !err
    {
      published := [];
      var r := repo.FetchDue(limit, now, locked, scanFails, outcome);
      if r.Err? {
        return 0, 0, 1, true, [];
      }
      var due := r.value;
      ghost var after := repo.rows;
      assert RightlyFetched(old(repo.rows), after, limit, now, locked, due);
      sent, errs := 0, 0;
      var i := 0;
      while i < |due|
        invariant 0 <= i <= |due|
        invariant sent == |published| == |set j | 0 <= j < i && acked(j)| && sent + errs == i
        invariant PublishedOf(published, due[..i], acked) && repo.rows == after
      {
        OneMoreAcked(acked, i);
        OneMorePublished(published, due, acked, i);
        if !acked(i) {
          errs := errs + 1;
        } else {
          sent := sent + 1;
          published := published + [due[i]];
        }
        i := i + 1;
      }
      assert due[..|due|] == due;
      assert PublishedOf(published, due, acked);
      return |due|, sent, errs, false, published;
    }
  }
}
