/** The status-changed event: its JSON object in the outbox row, its idempotency key, and the
    message `MakeGlobalOutboxHandler` publishes for it.  The `data` column is JSONB, so a row holds
    the object rather than its text. */
module StatusEvents {
  import opened Prelude
  import opened Decimal
  import opened Strings

  datatype Json = JInt(i: int) | JBool(b: bool) | JTime(nanos: int)

  type Object = map<string, Json>

  datatype Payload = Payload(checkID: int, was: bool, now: bool, at: int)

  /** The protobuf message on the status topic; `checkID` is an int32 there. */
  datatype StatusChange = StatusChange(checkID: int, was: bool, now: bool)

  const KIND_STATUS_CHANGED: int := 1

  function Marshal(p: Payload): Object {
    map["check_id" := JInt(p.checkID), "old" := JBool(p.was), "new" := JBool(p.now), "at" := JTime(p.at)]
  }

  /** A missing field keeps its zero value; a field of the wrong type or out of range is an error. */
  function Unmarshal(o: Object): Option<Payload> {
    var id := if "check_id" in o then o["check_id"] else JInt(0);
    var was := if "old" in o then o["old"] else JBool(false);
    var now := if "new" in o then o["new"] else JBool(false);
    var at := if "at" in o then o["at"] else JTime(0);
    if id.JInt? && IsInt64(id.i) && was.JBool? && now.JBool? && at.JTime?
    then Some(Payload(id.i, was.b, now.b, at.nanos))
    else None
  }

  predicate IsInt32(n: int) {
    -0x8000_0000 <= n < 0x8000_0000
  }

  /** Go's `int32(n)`: the low 32 bits, read as two's complement. */
  function Narrow32(n: int): int {
    (n + 0x8000_0000) % 0x1_0000_0000 - 0x8000_0000
  }

  /** The message an outbox row asks to publish, or None when the row can never be handled: an
      unknown kind has no handler, and undecodable data makes the handler fail every time. */
  function Dispatch(kind: int, data: Object): Option<StatusChange> {
    if kind != KIND_STATUS_CHANGED then None
    else match Unmarshal(data)
      case None => None
      case Some(p) => Some(StatusChange(Narrow32(p.checkID), p.was, p.now))
  }

  /** The event that was marshalled is the event that is published, exactly when the check id fits
      the int32 field of the message; `checks.id` is SERIAL, so every stored id does. */
  lemma DispatchMarshalled(p: Payload)
    requires IsInt64(p.checkID)
    ensures Unmarshal(Marshal(p)) == Some(p)
    ensures Dispatch(KIND_STATUS_CHANGED, Marshal(p)) == Some(StatusChange(p.checkID, p.was, p.now))
            <==> IsInt32(p.checkID)
  {
    assert Unmarshal(Marshal(p)) == Some(p);
    assert Narrow32(p.checkID) == p.checkID <==> IsInt32(p.checkID);
  }

  /** `status:<check id>:<unix nanoseconds>` */
  function EventKey(checkID: int, at: int): string {
    "status:" + FormatInt(checkID) + ":" + FormatInt(at)
  }

  /** Two events share an idempotency key only if they are of one check at one nanosecond. */
  lemma EventKeyInjective(c1: int, t1: int, c2: int, t2: int)
    requires EventKey(c1, t1) == EventKey(c2, t2)
    ensures c1 == c2 && t1 == t2
  {
    EventKeyParts(FormatInt(c1), FormatInt(t1), FormatInt(c2), FormatInt(t2));
    FormatAlphabet(c1);
    FormatAlphabet(c2);
    SeparatorInjective(FormatInt(c1), FormatInt(c2), FormatInt(t1), FormatInt(t2), ':');
    FormatInjective(c1, c2);
    FormatInjective(t1, t2);
  }

  lemma EventKeyParts(a: string, x: string, b: string, y: string)
    requires "status:" + a + ":" + x == "status:" + b + ":" + y
    ensures a + [':'] + x == b + [':'] + y
  {
    assert ("status:" + a + ":" + x)[7..] == a + [':'] + x;
    assert ("status:" + b + ":" + y)[7..] == b + [':'] + y;
  }

  // ----- names and numbers as others see them

  /** The fields of the event under their JSON names, and nothing else. */
  lemma MarshalFields(p: Payload)
    ensures Marshal(p).Keys == {"check_id", "old", "new", "at"}
    ensures Marshal(p)["check_id"] == JInt(p.checkID) && Marshal(p)["at"] == JTime(p.at)
    ensures Marshal(p)["old"] == JBool(p.was) && Marshal(p)["new"] == JBool(p.now)
  {
  }

  predicate FieldIs(o: Object, name: string, value: Json, zero: Json) {
    if name in o then o[name] == value else value == zero
  }

  /** What a row is dispatched as: it must be of kind 1 and its fields, where present, of the right type
      and range; a missing field counts as zero; the check id keeps its low 32 bits. */
  lemma DispatchIff(kind: int, data: Object, m: StatusChange)
    ensures Dispatch(kind, data) == Some(m) <==>
              kind == 1 && exists id, at ::
                && FieldIs(data, "check_id", JInt(id), JInt(0)) && FieldIs(data, "at", JTime(at), JTime(0))
                && FieldIs(data, "old", JBool(m.was), JBool(false)) && FieldIs(data, "new", JBool(m.now), JBool(false))
                && -0x8000_0000_0000_0000 <= id < 0x8000_0000_0000_0000
                && -0x8000_0000 <= m.checkID < 0x8000_0000 && (id - m.checkID) % 0x1_0000_0000 == 0
  {
    if Dispatch(kind, data) == Some(m) {
      var p := Unmarshal(data).value;
      NarrowExact(p.checkID, m.checkID);
      assert FieldIs(data, "check_id", JInt(p.checkID), JInt(0)) && FieldIs(data, "at", JTime(p.at), JTime(0));
    }
    forall id, at | kind == 1
                    && FieldIs(data, "check_id", JInt(id), JInt(0)) && FieldIs(data, "at", JTime(at), JTime(0))
                    && FieldIs(data, "old", JBool(m.was), JBool(false))
                    && FieldIs(data, "new", JBool(m.now), JBool(false))
                    && IsInt64(id) && IsInt32(m.checkID) && (id - m.checkID) % 0x1_0000_0000 == 0
      ensures Dispatch(kind, data) == Some(m)
    {
      NarrowExact(id, m.checkID);
      assert Unmarshal(data) == Some(Payload(id, m.was, m.now, at));
    }
  }

  lemma NarrowExact(n: int, m: int)
    ensures Narrow32(n) == m <==> -0x8000_0000 <= m < 0x8000_0000 && (n - m) % 0x1_0000_0000 == 0
  {
  }

  /** The idempotency key of an event, as text. */
  lemma EventKeyText(checkID: int, at: int)
    ensures EventKey(checkID, at) == "status:" + FormatInt(checkID) + ":" + FormatInt(at)
    ensures EventKey(7, 12) == "status:7:12"
  {
    FormatGrows(0, 7);
    FormatGrows(0, 1);
    FormatGrows(1, 2);
  }
}
