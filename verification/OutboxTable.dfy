/** The `outbox` table and its three statements.  A pick is one atomic transaction on the database
    clock; rows that other transactions hold locked at that moment are the parameter `locked`. */
module OutboxTable {
  import opened Prelude
  import opened Counting
  import opened StatusEvents

  type Key = string

  datatype Status = CREATED | IN_PROGRESS | SUCCESS

  datatype Row = Row(kind: int, data: Object, status: Status, createdAt: int, updatedAt: int)

  type Table = map<Key, Row>

  datatype Message = Message(key: Key, kind: int, data: Object)

  predicate Eligible(r: Row, now: int, ttl: int) {
    r.status == CREATED || (r.status == IN_PROGRESS && r.updatedAt < now - ttl)
  }

  /** `keys` is a possible result of the pick query: eligible unlocked rows, at most `batch` of
      them, and a row is left behind only for a full batch of rows created no later.  The order
      of `keys` is free, because the outer SELECT has no ORDER BY. */
  predicate Pickable(t: Table, now: int, ttl: int, batch: int, locked: set<Key>, keys: seq<Key>) {
    && Distinct(keys)
    && |keys| <= batch
    && (forall k :: k in keys ==> k in t && k !in locked && Eligible(t[k], now, ttl))
    && (forall k :: k in t && k !in locked && k !in keys && Eligible(t[k], now, ttl) ==>
          |keys| == batch && forall p :: p in keys ==> t[p].createdAt <= t[k].createdAt)
  }

  function Enqueued(t: Table, key: Key, kind: int, data: Object, now: int): Table {
    if key in t then t else t[key := Row(kind, data, CREATED, now, now)]
  }

  function Leased(t: Table, keys: seq<Key>, now: int): Table {
    map k | k in t :: if k in keys then t[k].(status := IN_PROGRESS, updatedAt := now) else t[k]
  }

  function Marked(t: Table, keys: seq<Key>, now: int): Table {
    map k | k in t ::
      if k in keys && t[k].status == IN_PROGRESS then t[k].(status := SUCCESS, updatedAt := now) else t[k]
  }

  function ToMessage(t: Table, k: Key): Message
    requires k in t
  {
    Message(k, t[k].kind, t[k].data)
  }

  /** Every row asks for a message that can be published. */
  ghost predicate AllDispatchable(t: Table) {
    forall k :: k in t ==> Dispatchable(t, k)
  }

  predicate Dispatchable(t: Table, k: Key)
    requires k in t
  {
    Dispatch(t[k].kind, t[k].data).Some?
  }

  function Keys(messages: seq<Message>): seq<Key> {
    seq(|messages|, i requires 0 <= i < |messages| => messages[i].key)
  }

  /** A row that may be picked: new, or leased more than a lease ago. */
  predicate Free(r: Row, now: int, ttl: int) {
    r.status == CREATED || (r.status == IN_PROGRESS && r.updatedAt < now - ttl)
  }

  /** The messages are those of at most `batch` free unlocked rows, each of which is leased from now on and
      otherwise unchanged; a free unlocked row is left behind only for a full batch of rows no younger. */
  ghost predicate RightlyPicked(before: Table, after: Table, now: int, ttl: int, batch: int, locked: set<Key>,
                                ms: seq<Message>) {
    && |ms| <= batch && (forall i, j :: 0 <= i < j < |ms| ==> ms[i].key != ms[j].key)
    && (forall i :: 0 <= i < |ms| ==>
          && ms[i].key in before && ms[i].key !in locked && Free(before[ms[i].key], now, ttl)
          && ms[i].kind == before[ms[i].key].kind && ms[i].data == before[ms[i].key].data)
    && after.Keys == before.Keys
    && (forall i :: 0 <= i < |ms| ==>
          after[ms[i].key] == Row(ms[i].kind, ms[i].data, IN_PROGRESS, before[ms[i].key].createdAt, now))
    && (forall k :: k in before && (forall i :: 0 <= i < |ms| ==> ms[i].key != k) ==>
          && after[k] == before[k]
          && (k !in locked && Free(before[k], now, ttl) ==>
                |ms| == batch && forall i :: 0 <= i < |ms| ==> before[ms[i].key].createdAt <= before[k].createdAt))
  }

  lemma PickedRightly(t: Table, now: int, ttl: int, batch: int, locked: set<Key>, ms: seq<Message>)
    requires Pickable(t, now, ttl, batch, locked, Keys(ms))
    requires forall i :: 0 <= i < |ms| ==> ms[i].key in t && ms[i] == ToMessage(Leased(t, Keys(ms), now), ms[i].key)
    ensures RightlyPicked(t, Leased(t, Keys(ms), now), now, ttl, batch, locked, ms)
  {
    var keys := Keys(ms);
    assert forall i :: 0 <= i < |ms| ==> keys[i] == ms[i].key && keys[i] in keys;
    forall k | k in t && forall i :: 0 <= i < |ms| ==> ms[i].key != k ensures k !in keys {
    }
  }

  /** The earliest created of a set of rows. */
  method Oldest(t: Table, s: set<Key>) returns (k: Key)
    requires s != {} && s <= t.Keys
    ensures k in s && forall x :: x in s ==> t[k].createdAt <= t[x].createdAt
  {
    k :| k in s;
    var rest := s - {k};
    while rest != {}
      invariant k in s && rest <= s
      invariant forall x :: x in s && x !in rest ==> t[k].createdAt <= t[x].createdAt
      decreases |rest|
    {
      var x :| x in rest;
      if t[x].createdAt < t[k].createdAt {
        k := x;
      }
      rest := rest - {x};
    }
  }

  /** ORDER BY created_at, skipping locked rows, up to the limit: one result the query may give. */
  method SelectCandidates(t: Table, now: int, ttl: int, batch: nat, locked: set<Key>) returns (keys: seq<Key>)
    ensures Pickable(t, now, ttl, batch, locked, keys)
  {
    var rest := set k | k in t && k !in locked && Eligible(t[k], now, ttl);
    keys := [];
    while |keys| < batch && rest != {}
      invariant |keys| <= batch && Distinct(keys) && rest <= t.Keys
      invariant forall k :: k in keys ==> k !in rest
      invariant forall k :: k in keys || k in rest <==> k in t && k !in locked && Eligible(t[k], now, ttl)
      invariant forall p, k :: p in keys && k in rest ==> t[p].createdAt <= t[k].createdAt
      decreases |rest|
    {
      var k := Oldest(t, rest);
      keys := keys + [k];
      rest := rest - {k};
    }
  }

  class OutboxRepo {
    var rows: Table

    constructor ()
      ensures rows == map[]
    {
      rows := map[];
    }

    method Enqueue(key: Key, kind: int, data: Object, now: int, outcome: Outcome) returns (err: bool)
      modifies this
      ensures err <==> outcome != Durable
      ensures rows == if outcome == Failed then old(rows) else Enqueued(old(rows), key, kind, data, now)
      ensures outcome == Failed || key in old(rows) ==> rows == old(rows)
      ensures outcome != Failed && key !in old(rows) ==>
                && rows.Keys == old(rows).Keys + {key} && (forall k :: k in old(rows) ==> rows[k] == old(rows)[k])
                && rows[key].status == CREATED && rows[key].kind == kind && rows[key].data == data
                && rows[key].createdAt == now && rows[key].updatedAt == now
    {
      if outcome != Failed && key !in rows {
        rows := rows[key := Row(kind, data, CREATED, now, now)];
      }
      err := outcome != Durable;
    }

    /** Leases up to `batch` rows.  `scanFails` says at which row reading the cursor breaks, if at
        any; the transaction is then rolled back. */
    method PickBatch(batch: int, ttl: int, now: int, locked: set<Key>, scanFails: Option<nat>, outcome: Outcome)
      returns (r: Result<seq<Message>, string>)
      modifies this
      ensures batch <= 0 ==> r.Err?
      ensures batch > 0 && scanFails == None && outcome == Durable ==> r.Ok?
      ensures r.Ok? ==>
                && outcome == Durable
                && Pickable(old(rows), now, ttl, batch, locked, Keys(r.value))
                && rows == Leased(old(rows), Keys(r.value), now)
                && RightlyPicked(old(rows), rows, now, ttl, batch, locked, r.value)
                && forall i :: 0 <= i < |r.value| ==>
                     r.value[i].key in rows && r.value[i] == ToMessage(rows, r.value[i].key)
      ensures r.Err? ==>
                || rows == old(rows)
                || (outcome == Unknown
                    && exists keys ::
                         Pickable(old(rows), now, ttl, batch, locked, keys) && rows == Leased(old(rows), keys, now))
    {
      if batch <= 0 {
        return Err("batch must be > 0");
      }
      var keys := SelectCandidates(rows, now, ttl, batch, locked);
      var updated := Leased(rows, keys, now);
      var out: seq<Message> := [];
      var i := 0;
      while i < |keys|
        invariant 0 <= i <= |keys| && |out| == i
        invariant rows == old(rows)
        invariant forall j :: 0 <= j < i ==> out[j] == ToMessage(updated, keys[j])
      {
        if scanFails == Some(i) {
          return Err("outbox scan");
        }
        out := out + [ToMessage(updated, keys[i])];
        i := i + 1;
      }
      if outcome == Failed {
        return Err("commit");
      }
      rows := updated;
      if outcome == Unknown {
        return Err("commit");
      }
      assert Keys(out) == keys;
      PickedRightly(old(rows), now, ttl, batch, locked, out);
      return Ok(out);
    }

    method MarkSuccess(keys: seq<Key>, now: int, outcome: Outcome) returns (err: bool)
      modifies this
      ensures err <==> keys != [] && outcome != Durable
      ensures rows == if outcome == Failed then old(rows) else Marked(old(rows), keys, now)
      ensures rows.Keys == old(rows).Keys
      ensures forall k :: k in rows ==>
                rows[k] == if outcome != Failed && k in keys && old(rows)[k].status == IN_PROGRESS
                           then Row(old(rows)[k].kind, old(rows)[k].data, SUCCESS, old(rows)[k].createdAt, now)
                           else old(rows)[k]
    {
      if |keys| == 0 {
        assert Marked(rows, keys, now) == rows;
        return false;
      }
      if outcome != Failed {
        rows := Marked(rows, keys, now);
      }
      err := outcome != Durable;
    }
  }
}
