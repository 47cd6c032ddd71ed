/** The Kafka consumer: one endless loop that fetches, handles and commits, over any run of fetch
    errors, handler errors, commit failures and restarts.  Times are in milliseconds. */
module Consumer {
  import opened Prelude
  import opened Counting
  import opened Retry

  const INITIAL_BACKOFF: nat := 200
  const MAX_BACKOFF: nat := 5000

  /** One partition.  `joined` is the offset at which the group first attached, `base` the one where
      it last attached without finding a committed offset; `position` is the next offset to fetch.
      `handed` holds the offsets given to the handler, `handled` those it returned no error for. */
  datatype Partition = Partition(
    end: nat, committed: Option<nat>, position: nat, joined: nat, base: nat,
    handed: set<nat>, handled: set<nat>)

  datatype State = State(parts: seq<Partition>, backoff: nat)

  /** What one turn of the loop meets.  `arrivals` is what producers appended meanwhile, `cancelled`
      whether the context was done when an error was seen. */
  datatype Event =
    | FetchFails(arrivals: seq<nat>, cancelled: bool)
    | Fetched(arrivals: seq<nat>, p: nat, handlerFails: bool, commit: Outcome, cancelled: bool)
    | Restarted(arrivals: seq<nat>)

  // ----- partitions

  /** Where the group starts in a partition nobody committed in. */
  function StartOffset(end: nat, fromBeginning: bool): nat {
    if fromBeginning then 0 else end
  }

  function Fresh(end: nat, fromBeginning: bool): Partition {
    var start := StartOffset(end, fromBeginning);
    Partition(end, None, start, start, start, {}, {})
  }

  /** A new reader goes on from the committed offset. */
  function Reattached(q: Partition, fromBeginning: bool): Partition {
    match q.committed
    case Some(c) => q.(position := c)
    case None => var start := StartOffset(q.end, fromBeginning); q.(position := start, base := start)
  }

  function Grown(q: Partition, arrived: nat): Partition {
    q.(end := q.end + arrived)
  }

  function AllGrown(parts: seq<Partition>, arrivals: seq<nat>): seq<Partition> {
    seq(|parts|, i requires 0 <= i < |parts| => Grown(parts[i], if i < |arrivals| then arrivals[i] else 0))
  }

  function AllReattached(parts: seq<Partition>, fromBeginning: bool): seq<Partition> {
    seq(|parts|, i requires 0 <= i < |parts| => Reattached(parts[i], fromBeginning))
  }

  /** The reader blocks until there is a message at its position. */
  function Awaited(q: Partition): Partition {
    if q.position < q.end then q else q.(end := q.position + 1)
  }

  function Advanced(q: Partition): Partition {
    q.(position := q.position + 1)
  }

  /** The handler was given the message at `offset`. */
  function Handed(q: Partition, offset: nat, fails: bool): Partition {
    q.(handed := q.handed + {offset}, handled := if fails then q.handled else q.handled + {offset})
  }

  function Committed(q: Partition, offset: nat, commit: Outcome): Partition {
    if commit.Failed? then q else q.(committed := Some(offset + 1))
  }

  /** Fetching the next message, handling it and, if the handler had no error, committing it. */
  function Taken(q: Partition, handlerFails: bool, commit: Outcome): Partition {
    var out := Handed(Advanced(Awaited(q)), q.position, handlerFails);
    if handlerFails then out else Committed(out, q.position, commit)
  }

  function Raised(backoff: nat): nat {
    var b := if backoff < MAX_BACKOFF then backoff * 2 else backoff;
    if b > MAX_BACKOFF then MAX_BACKOFF else b
  }

  predicate Enabled(s: State, e: Event) {
    e.Fetched? ==> e.p < |s.parts|
  }

  function Apply(s: State, e: Event, fromBeginning: bool): State
    requires Enabled(s, e)
  {
    var parts := AllGrown(s.parts, e.arrivals);
    match e
    case FetchFails(_, cancelled) => State(parts, if cancelled then s.backoff else Raised(s.backoff))
    case Fetched(_, p, handlerFails, commit, _) =>
      State(parts[p := Taken(parts[p], handlerFails, commit)], INITIAL_BACKOFF)
    case Restarted(_) => State(AllReattached(parts, fromBeginning), INITIAL_BACKOFF)
  }

  ghost predicate Follows(s: State, e: Event, t: State, fromBeginning: bool) {
    Enabled(s, e) && t == Apply(s, e, fromBeginning)
  }

  /** `states` are the states before, between and after the events. */
  ghost predicate Trace(states: seq<State>, events: seq<Event>, fromBeginning: bool) {
    |states| == |events| + 1 &&
    forall i :: 0 <= i < |events| ==> Follows(states[i], events[i], states[i + 1], fromBeginning)
  }

  /** A whole run: the group attaches to partitions that already hold messages. */
  ghost predicate Run(states: seq<State>, events: seq<Event>, fromBeginning: bool) {
    Trace(states, events, fromBeginning) && states[0].backoff == INITIAL_BACKOFF &&
    forall p :: 0 <= p < |states[0].parts| ==> states[0].parts[p] == Fresh(states[0].parts[p].end, fromBeginning)
  }

  // ----- the loop

  /** The waits of a stretch of the loop: one for every failed fetch that did not end it. */
  ghost function Waits(states: seq<State>, events: seq<Event>): seq<nat>
    requires |events| <= |states|
  {
    if events == [] then []
    else
      var n := |events| - 1;
      Waits(states[..n], events[..n]) + WaitOf(events[n], states[n].backoff)
  }

  function WaitOf(e: Event, backoff: nat): seq<nat> {
    if e.FetchFails? && !e.cancelled then [backoff] else []
  }

  function Arrived(e: Event, i: nat): nat {
    if i < |e.arrivals| then e.arrivals[i] else 0
  }

  function AtLeast(x: nat, least: nat): nat {
    if x < least then least else x
  }

  /** Nothing but the end of the log and the position differs. */
  predicate OnlyMoved(a: Partition, b: Partition) {
    b == a.(end := b.end, position := b.position)
  }

  class Reader {
    var parts: seq<Partition>

    /** A reader for partitions that other members of the group may have read before. */
    constructor (parts: seq<Partition>, fromBeginning: bool)
      ensures this.parts == AllReattached(parts, fromBeginning)
      ensures |this.parts| == |parts|
      ensures forall i :: 0 <= i < |parts| ==>
                && this.parts[i] == parts[i].(position := this.parts[i].position, base := this.parts[i].base)
                && this.parts[i].position == (if parts[i].committed.Some? then parts[i].committed.value
                                              else if fromBeginning then 0 else parts[i].end)
                && this.parts[i].base == if parts[i].committed.Some? then parts[i].base else this.parts[i].position
    {
      this.parts := AllReattached(parts, fromBeginning);
    }

    /** Takes the message at the position of partition `e.p`, waiting until there is one; otherwise
        only what producers append changes. */
    method FetchMessage(e: Event) returns (offset: Option<nat>)
      requires e.Fetched? ==> e.p < |parts|
      modifies this
      ensures |parts| == |old(parts)|
      ensures forall i :: 0 <= i < |parts| ==> OnlyMoved(old(parts)[i], parts[i])
      ensures forall i :: 0 <= i < |parts| && !(e.Fetched? && i == e.p) ==>
                parts[i].position == old(parts)[i].position && parts[i].end == old(parts)[i].end + Arrived(e, i)
      ensures e.Fetched? ==>
                && offset == Some(old(parts)[e.p].position)
                && parts[e.p].position == offset.value + 1
                && parts[e.p].end == AtLeast(old(parts)[e.p].end + Arrived(e, e.p), offset.value + 1)
      ensures !e.Fetched? ==> offset == None
    {
      parts := AllGrown(parts, e.arrivals);
      if !e.Fetched? {
        return None;
      }
      offset := Some(parts[e.p].position);
      parts := parts[e.p := Advanced(Awaited(parts[e.p]))];
    }

    /** Committing a message makes the next one the place to go on from; no other partition and
        nothing else of this one changes. */
    method CommitMessages(p: nat, offset: nat, commit: Outcome) returns (failed: bool)
      requires p < |parts|
      modifies this
      ensures |parts| == |old(parts)|
      ensures forall i :: 0 <= i < |parts| && i != p ==> parts[i] == old(parts)[i]
      ensures parts[p] == old(parts)[p].(committed := parts[p].committed)
      ensures parts[p].committed == if commit.Failed? then old(parts)[p].committed else Some(offset + 1)
      ensures failed == !commit.Durable?
    {
      parts := parts[p := Committed(parts[p], offset, commit)];
      failed := !commit.Durable?;
    }
  }

  class Loop {
    const reader: Reader
    var waits: seq<nat>

    constructor (reader: Reader)
      ensures this.reader == reader && waits == []
    {
      this.reader := reader;
      waits := [];
    }

    /** The handler, which the partition keeps a record of. */
    method Handle(p: nat, offset: nat, fails: bool)
      requires p < |reader.parts|
      modifies reader
      ensures reader.parts == old(reader.parts)[p := Handed(old(reader.parts)[p], offset, fails)]
      ensures reader.parts[p].handed == old(reader.parts)[p].handed + {offset}
      ensures reader.parts[p].handled == old(reader.parts)[p].handled + if fails then {} else {offset}
      ensures reader.parts[p].position == old(reader.parts)[p].position
              && reader.parts[p].committed == old(reader.parts)[p].committed
    {
      reader.parts := reader.parts[p := Handed(reader.parts[p], offset, fails)];
    }

    /** One turn. */
    method Turn(turn: Event, backoff: nat, ghost fromBeginning: bool) returns (next: nat, stop: bool)
      requires !turn.Restarted? && (turn.Fetched? ==> turn.p < |reader.parts|)
      modifies this, reader
      ensures State(reader.parts, next) == Apply(State(old(reader.parts), backoff), turn, fromBeginning)
      ensures Follows(State(old(reader.parts), backoff), turn, State(reader.parts, next), fromBeginning)
      ensures waits == old(waits) + WaitOf(turn, backoff)
      ensures waits == if turn.FetchFails? && !turn.cancelled then old(waits) + [backoff] else old(waits)
      ensures turn.Fetched? ==> next == 200
      ensures turn.FetchFails? && !turn.cancelled && backoff <= 5000 ==>
                next == if backoff * 2 < 5000 then backoff * 2 else 5000
      ensures stop <==> turn.cancelled && (turn.FetchFails? || (!turn.handlerFails && turn.commit != Durable))
    {
      next := backoff;
      var offset := reader.FetchMessage(turn);
      if offset.None? {
        if turn.cancelled {
          return next, true;
        }
        waits := waits + [next];
        if next < MAX_BACKOFF {
          next := next * 2;
        }
        if next > MAX_BACKOFF {
          next := MAX_BACKOFF;
        }
        return next, false;
      }
      next := INITIAL_BACKOFF;
      Handle(turn.p, offset.value, turn.handlerFails);
      if turn.handlerFails {
        return next, false;
      }
      var failed := reader.CommitMessages(turn.p, offset.value, turn.commit);
      stop := failed && turn.cancelled;
    }

    /** The loop: after `taken` turns, either all of them or one that saw an error on a cancelled
        context. */
    method RunTurns(turns: seq<Event>, ghost fromBeginning: bool) returns (taken: nat, ghost states: seq<State>)
      requires forall i :: 0 <= i < |turns| ==>
        !turns[i].Restarted? && (turns[i].Fetched? ==> turns[i].p < |reader.parts|)
      modifies this, reader
      ensures taken <= |turns| && Trace(states, turns[..taken], fromBeginning)
      ensures taken < |turns| ==> taken > 0 && turns[taken - 1].cancelled
      ensures states[0] == State(old(reader.parts), INITIAL_BACKOFF)
      ensures reader.parts == states[taken].parts
      ensures waits == old(waits) + Waits(states, turns[..taken])
    {
      var backoff: nat := INITIAL_BACKOFF;
      states := [State(reader.parts, backoff)];
      taken := 0;
      while taken < |turns|
        invariant taken <= |turns| && Trace(states, turns[..taken], fromBeginning)
        invariant states[0] == State(old(reader.parts), INITIAL_BACKOFF)
        invariant states[taken] == State(reader.parts, backoff)
        invariant |reader.parts| == old(|reader.parts|)
        invariant waits == old(waits) + Waits(states, turns[..taken])
      {
        var stop;
        backoff, stop := Turn(turns[taken], backoff, fromBeginning);
        TraceExtends(states, turns, taken, State(reader.parts, backoff), fromBeginning);
        states := states + [State(reader.parts, backoff)];
        taken := taken + 1;
        if stop {
          return;
        }
      }
    }

    /** Runs until the context is done.  If nothing can be fetched at all, it waits 0.2, 0.4, 0.8, 1.6 and
        3.2 s, and 5 s from then on. */
    method Consume(turns: seq<Event>, ghost fromBeginning: bool) returns (taken: nat, ghost states: seq<State>)
      requires forall i :: 0 <= i < |turns| ==>
        !turns[i].Restarted? && (turns[i].Fetched? ==> turns[i].p < |reader.parts|)
      modifies this, reader
      ensures taken <= |turns| && Trace(states, turns[..taken], fromBeginning)
      ensures taken < |turns| ==> taken > 0 && turns[taken - 1].cancelled
      ensures states[0] == State(old(reader.parts), INITIAL_BACKOFF)
      ensures reader.parts == states[taken].parts
      ensures waits == old(waits) + Waits(states, turns[..taken])
      ensures NothingFetched(turns) ==> taken == |turns| && waits == old(waits) + FirstWaits(|turns|)
    {
      taken, states := RunTurns(turns, fromBeginning);
      if taken == |turns| {
        assert turns[..taken] == turns;
        WaitsOfFailures(states, turns, fromBeginning);
      }
    }
  }

  lemma TraceExtends(states: seq<State>, turns: seq<Event>, n: nat, t: State, fromBeginning: bool)
    requires n < |turns| && Trace(states, turns[..n], fromBeginning)
    requires Follows(states[n], turns[n], t, fromBeginning)
    ensures Trace(states + [t], turns[..n + 1], fromBeginning)
    ensures Waits(states + [t], turns[..n + 1])
            == Waits(states, turns[..n]) + WaitOf(turns[n], states[n].backoff)
  {
    var longer, more := states + [t], turns[..n + 1];
    forall i | 0 <= i < n + 1 ensures Follows(longer[i], more[i], longer[i + 1], fromBeginning) {
      if i < n {
        assert Follows(states[i], turns[..n][i], states[i + 1], fromBeginning);
      }
    }
    assert more[..n] == turns[..n];
    WaitsPrefix(longer[..n], states, turns[..n]);
  }

  lemma {:induction false} WaitsPrefix(a: seq<State>, b: seq<State>, events: seq<Event>)
    requires |events| <= |a| && |events| <= |b|
    requires a[..|events|] == b[..|events|]
    ensures Waits(a, events) == Waits(b, events)
  {
    if events != [] {
      var n := |events| - 1;
      assert a[..|events|][n] == b[..|events|][n];
      assert a[..n] == a[..|events|][..n] == b[..n];
    }
  }

  // ----- backoff

  /** How many fetches failed in a row right before event `n`. */
  function Streak(events: seq<Event>, n: nat): nat
    requires n <= |events|
  {
    if n == 0 then 0
    else if events[n - 1].FetchFails? then Streak(events, n - 1) + (if events[n - 1].cancelled then 0 else 1)
    else 0
  }

  function BackoffAfter(k: nat): nat {
    if INITIAL_BACKOFF * Pow2(k) < MAX_BACKOFF then INITIAL_BACKOFF * Pow2(k) else MAX_BACKOFF
  }

  /** The wait after so many failures in a row, in milliseconds. */
  function Wait(k: nat): nat {
    if k < 5 then [200, 400, 800, 1600, 3200][k] else 5000
  }

  function FirstWaits(n: nat): seq<nat> {
    seq(n, i requires 0 <= i < n => Wait(i))
  }

  /** Every fetch fails and the context stays alive. */
  ghost predicate NothingFetched(events: seq<Event>) {
    forall i :: 0 <= i < |events| ==> events[i].FetchFails? && !events[i].cancelled
  }

  lemma {:induction false} WaitIsCapped(k: nat)
    ensures BackoffAfter(k) == Wait(k)
    ensures k >= 5 ==> Pow2(k) >= 32
  {
    if k >= 5 {
      if k == 5 {
        assert Pow2(2) == 4 && Pow2(5) == 8 * Pow2(2);
      } else {
        WaitIsCapped(k - 1);
      }
    } else {
      assert Pow2(0) == 1 && Pow2(1) == 2 && Pow2(2) == 4 && Pow2(3) == 8 && Pow2(4) == 16;
    }
  }

  lemma {:induction false} AllFailures(events: seq<Event>, n: nat)
    requires n <= |events| && forall i :: 0 <= i < |events| ==> events[i].FetchFails? && !events[i].cancelled
    ensures Streak(events, n) == n
  {
    if n > 0 {
      AllFailures(events, n - 1);
    }
  }

  lemma {:induction false} WaitsOfAll(states: seq<State>, events: seq<Event>)
    requires |events| <= |states| && forall i :: 0 <= i < |events| ==> events[i].FetchFails? && !events[i].cancelled
    ensures |Waits(states, events)| == |events|
    ensures forall i :: 0 <= i < |events| ==> Waits(states, events)[i] == states[i].backoff
  {
    if events != [] {
      WaitsOfAll(states[..|events| - 1], events[..|events| - 1]);
    }
  }

  /** The waits of failures in a row: 0.2 s, doubling up to 3.2 s, and 5 s from then on. */
  lemma WaitsOfFailures(states: seq<State>, events: seq<Event>, fromBeginning: bool)
    requires Trace(states, events, fromBeginning) && states[0].backoff == INITIAL_BACKOFF
    ensures NothingFetched(events) ==> Waits(states, events) == FirstWaits(|events|)
  {
    if NothingFetched(events) {
      WaitsOfAll(states, events);
      forall i | 0 <= i < |events| ensures states[i].backoff == Wait(i) {
        BackoffDoubles(states, events, fromBeginning, i);
        AllFailures(events, i);
      }
    }
  }

  /** After `k` failures in a row the backoff is min(5 s, 200 ms * 2^k). */
  lemma {:induction false} BackoffDoubles(states: seq<State>, events: seq<Event>, fromBeginning: bool, n: nat)
    requires Trace(states, events, fromBeginning) && n <= |events| && states[0].backoff == INITIAL_BACKOFF
    ensures states[n].backoff == BackoffAfter(Streak(events, n)) == Wait(Streak(events, n))
  {
    WaitIsCapped(Streak(events, n));
    if n > 0 {
      BackoffDoubles(states, events, fromBeginning, n - 1);
      assert Follows(states[n - 1], events[n - 1], states[n - 1 + 1], fromBeginning);
    }
  }

  // ----- what every run keeps

  /** Everything from `base` up to the position has been handed out, the position is never behind the
      committed offset, and the message right below that was handled without an error. */
  ghost predicate PartInv(q: Partition, fromBeginning: bool) {
    q.joined <= q.base <= q.position <= q.end &&
    (fromBeginning ==> q.base == 0) &&
    (forall o :: q.base <= o < q.position ==> o in q.handed) &&
    (forall o :: o in q.handed ==> q.joined <= o < q.end) &&
    q.handled <= q.handed &&
    (q.committed.Some? ==> q.base < q.committed.value <= q.position && q.committed.value - 1 in q.handled)
  }

  /** What may change in a partition: it grows, the committed offset never goes back, nothing handed
      out is forgotten. */
  ghost predicate Later(a: Partition, b: Partition) {
    a.end <= b.end && a.joined == b.joined && a.base <= b.base && a.handed <= b.handed && a.handled <= b.handled &&
    (a.committed.Some? ==> b.committed.Some? && a.committed.value <= b.committed.value && a.base == b.base)
  }

  lemma ReattachedKept(q: Partition, arrived: nat, fromBeginning: bool)
    requires PartInv(q, fromBeginning)
    ensures var t := Reattached(Grown(q, arrived), fromBeginning); PartInv(t, fromBeginning) && Later(q, t)
  {
  }

  lemma TakenKept(q: Partition, arrived: nat, fromBeginning: bool, handlerFails: bool, commit: Outcome)
    requires PartInv(q, fromBeginning)
    ensures var t := Taken(Grown(q, arrived), handlerFails, commit); PartInv(t, fromBeginning) && Later(q, t)
  {
  }

  ghost predicate AllInv(parts: seq<Partition>, fromBeginning: bool) {
    forall p :: 0 <= p < |parts| ==> PartInv(parts[p], fromBeginning)
  }

  ghost predicate AllLater(a: seq<Partition>, b: seq<Partition>) {
    |a| == |b| && forall p :: 0 <= p < |a| ==> Later(a[p], b[p])
  }

  /** What an event does to partition `i`. */
  function PartAfter(q: Partition, i: nat, e: Event, fromBeginning: bool): Partition {
    var g := Grown(q, Arrived(e, i));
    match e
    case FetchFails(_, _) => g
    case Fetched(_, p, handlerFails, commit, _) => if i == p then Taken(g, handlerFails, commit) else g
    case Restarted(_) => Reattached(g, fromBeginning)
  }

  lemma ApplyAt(s: State, e: Event, fromBeginning: bool, i: nat)
    requires Enabled(s, e) && i < |s.parts|
    ensures |Apply(s, e, fromBeginning).parts| == |s.parts|
    ensures Apply(s, e, fromBeginning).parts[i] == PartAfter(s.parts[i], i, e, fromBeginning)
  {
  }

  lemma PartKept(q: Partition, i: nat, e: Event, fromBeginning: bool)
    requires PartInv(q, fromBeginning)
    ensures PartInv(PartAfter(q, i, e, fromBeginning), fromBeginning) && Later(q, PartAfter(q, i, e, fromBeginning))
  {
    var arrived := Arrived(e, i);
    match e
    case FetchFails(_, _) =>
    case Fetched(_, _, handlerFails, commit, _) => TakenKept(q, arrived, fromBeginning, handlerFails, commit);
    case Restarted(_) => ReattachedKept(q, arrived, fromBeginning);
  }

  lemma StepKeeps(s: State, e: Event, fromBeginning: bool)
    requires AllInv(s.parts, fromBeginning) && Enabled(s, e)
    ensures AllInv(Apply(s, e, fromBeginning).parts, fromBeginning)
    ensures AllLater(s.parts, Apply(s, e, fromBeginning).parts)
  {
    var t := Apply(s, e, fromBeginning).parts;
    assert |t| == |s.parts|;
    forall i | 0 <= i < |s.parts| ensures PartInv(t[i], fromBeginning) && Later(s.parts[i], t[i]) {
      ApplyAt(s, e, fromBeginning, i);
      PartKept(s.parts[i], i, e, fromBeginning);
    }
  }

  lemma {:induction false} RunInv(states: seq<State>, events: seq<Event>, fromBeginning: bool, n: nat)
    requires Run(states, events, fromBeginning) && n <= |events|
    ensures AllInv(states[n].parts, fromBeginning)
  {
    if n > 0 {
      RunInv(states, events, fromBeginning, n - 1);
      assert Follows(states[n - 1], events[n - 1], states[n - 1 + 1], fromBeginning);
      StepKeeps(states[n - 1], events[n - 1], fromBeginning);
    }
  }

  lemma StepLater(states: seq<State>, events: seq<Event>, fromBeginning: bool, k: nat)
    requires Run(states, events, fromBeginning) && k < |events|
    ensures AllLater(states[k].parts, states[k + 1].parts)
  {
    RunInv(states, events, fromBeginning, k);
    assert Follows(states[k], events[k], states[k + 1], fromBeginning);
    StepKeeps(states[k], events[k], fromBeginning);
  }

  /** Over any run the committed offset of a partition never decreases, and neither does the set of
      messages handed to the handler. */
  lemma {:induction false} NeverBack(states: seq<State>, events: seq<Event>, fromBeginning: bool, i: nat, j: nat)
    requires Run(states, events, fromBeginning) && i <= j <= |events|
    ensures AllLater(states[i].parts, states[j].parts)
  {
    if i < j {
      NeverBack(states, events, fromBeginning, i, j - 1);
      StepLater(states, events, fromBeginning, j - 1);
      LaterTransitive(states[i].parts, states[j - 1].parts, states[j].parts);
    }
  }

  lemma LaterTransitive(a: seq<Partition>, b: seq<Partition>, c: seq<Partition>)
    requires AllLater(a, b) && AllLater(b, c)
    ensures AllLater(a, c)
  {
    forall p | 0 <= p < |a| ensures Later(a[p], c[p]) {
      assert Later(a[p], b[p]) && Later(b[p], c[p]);
    }
  }

  // ----- when the committed offset moves

  /** A message of partition `p` was handled and its commit reached the broker. */
  predicate Commits(e: Event, p: nat) {
    e.Fetched? && e.p == p && !e.handlerFails && !e.commit.Failed?
  }

  ghost predicate CommitsBetween(events: seq<Event>, p: nat, i: nat, j: nat)
    requires j <= |events|
  {
    exists k :: i <= k < j && Commits(events[k], p)
  }

  lemma CommitMoves(q: Partition, i: nat, e: Event, fromBeginning: bool)
    requires PartInv(q, fromBeginning)
    ensures PartAfter(q, i, e, fromBeginning).committed != q.committed <==> Commits(e, i)
  {
  }

  lemma EventCommits(states: seq<State>, events: seq<Event>, fromBeginning: bool, k: nat, p: nat)
    requires Run(states, events, fromBeginning) && k < |events| && p < |states[k].parts|
    ensures p < |states[k + 1].parts|
    ensures states[k + 1].parts[p].committed != states[k].parts[p].committed <==> Commits(events[k], p)
  {
    RunInv(states, events, fromBeginning, k);
    assert Follows(states[k], events[k], states[k + 1], fromBeginning);
    ApplyAt(states[k], events[k], fromBeginning, p);
    CommitMoves(states[k].parts[p], p, events[k], fromBeginning);
  }

  /** Over any stretch of a run the committed offset of a partition has moved exactly if a message of
      it was handled and its commit reached the broker in that stretch.  Nothing else moves it: a
      commit that failed is not repeated by the loop or by a restart. */
  lemma {:induction false} CommittedMovesIff(
      states: seq<State>, events: seq<Event>, fromBeginning: bool, i: nat, j: nat, p: nat)
    requires Run(states, events, fromBeginning) && i <= j <= |events| && p < |states[i].parts|
    ensures p < |states[j].parts|
    ensures states[j].parts[p].committed != states[i].parts[p].committed <==> CommitsBetween(events, p, i, j)
  {
    if i < j {
      CommittedMovesIff(states, events, fromBeginning, i, j - 1, p);
      LaterAt(states, events, fromBeginning, i, j - 1, p);
      OneMove(states, events, fromBeginning, j - 1, p);
      MovedStaysMoved(states[i].parts[p], states[j - 1].parts[p], states[j].parts[p]);
      CommitsLater(events, p, i, j);
    }
  }

  lemma OneMove(states: seq<State>, events: seq<Event>, fromBeginning: bool, n: nat, p: nat)
    requires Run(states, events, fromBeginning) && n < |events| && p < |states[n].parts|
    ensures p < |states[n + 1].parts| && Later(states[n].parts[p], states[n + 1].parts[p])
    ensures states[n + 1].parts[p].committed != states[n].parts[p].committed <==> Commits(events[n], p)
  {
    EventCommits(states, events, fromBeginning, n, p);
    LaterAt(states, events, fromBeginning, n, n + 1, p);
  }

  lemma CommitsLater(events: seq<Event>, p: nat, i: nat, j: nat)
    requires i < j <= |events|
    ensures CommitsBetween(events, p, i, j) <==> CommitsBetween(events, p, i, j - 1) || Commits(events[j - 1], p)
  {
  }

  lemma LaterAt(states: seq<State>, events: seq<Event>, fromBeginning: bool, i: nat, j: nat, p: nat)
    requires Run(states, events, fromBeginning) && i <= j <= |events| && p < |states[i].parts|
    ensures p < |states[j].parts| && Later(states[i].parts[p], states[j].parts[p])
  {
    NeverBack(states, events, fromBeginning, i, j);
  }

  lemma MovedStaysMoved(a: Partition, b: Partition, c: Partition)
    requires Later(a, b) && Later(b, c)
    ensures c.committed != a.committed <==> b.committed != a.committed || c.committed != b.committed
  {
  }

  // ----- nothing below the committed offset was skipped

  /** Every message from `from` up to the committed offset has been handed to the handler. */
  ghost predicate CommittedWereHanded(q: Partition, from: nat) {
    q.committed.Some? ==> forall o :: from <= o < q.committed.value ==> o in q.handed
  }

  /** A group that starts from the beginning never commits past a message it was not handed, whatever
      fails and however often it restarts; and what it was not handed is still ahead of it. */
  lemma NothingSkipped(states: seq<State>, events: seq<Event>, n: nat, p: nat)
    requires Run(states, events, true) && n <= |events| && p < |states[n].parts|
    ensures CommittedWereHanded(states[n].parts[p], 0)
    ensures forall o :: 0 <= o < states[n].parts[p].end && o !in states[n].parts[p].handed ==>
              states[n].parts[p].position <= o
    ensures states[n].parts[p].committed.Some? ==> states[n].parts[p].committed.value - 1 in states[n].parts[p].handled
  {
    RunInv(states, events, true, n);
  }

  /** A group that starts at the end has the same guarantee from where it first attached, as long as
      it does not restart before its first commit. */
  lemma {:induction false} NothingSkippedAfterCommit(states: seq<State>, events: seq<Event>, n: nat, p: nat)
    requires Run(states, events, false) && n <= |events| && p < |states[0].parts|
    requires forall i :: 0 <= i < n && events[i].Restarted? ==>
               p < |states[i].parts| && states[i].parts[p].committed.Some?
    ensures p < |states[n].parts| && states[n].parts[p].base == states[n].parts[p].joined
    ensures CommittedWereHanded(states[n].parts[p], states[n].parts[p].joined)
  {
    if n > 0 {
      NothingSkippedAfterCommit(states, events, n - 1, p);
      assert Follows(states[n - 1], events[n - 1], states[n - 1 + 1], false);
    }
    RunInv(states, events, false, n);
  }

  /** In every run and at every point of it, each partition is read without a gap from where the
      group first attached. */
  ghost predicate Gapless(fromBeginning: bool) {
    forall states: seq<State>, events: seq<Event>, p: nat ::
      Run(states, events, fromBeginning) && p < |states[|events|].parts| ==>
        CommittedWereHanded(states[|events|].parts[p], states[|events|].parts[p].joined)
  }

  /** One message arrives, the consumer restarts before it fetches it, another arrives and is handled
      and committed. */
  function SkippingEvents(): seq<Event> {
    [Restarted([1]), Fetched([1], 0, false, Durable, false)]
  }

  function SkippingStates(): seq<State> {
    [State([Fresh(0, false)], INITIAL_BACKOFF),
     State([Partition(1, None, 1, 0, 1, {}, {})], INITIAL_BACKOFF),
     State([Partition(2, Some(2), 2, 0, 1, {1}, {1})], INITIAL_BACKOFF)]
  }

  lemma SinglePartition(q: Partition, e: Event, fromBeginning: bool)
    requires e.Fetched? ==> e.p == 0
    ensures Enabled(State([q], INITIAL_BACKOFF), e)
    ensures Apply(State([q], INITIAL_BACKOFF), e, fromBeginning).parts == [PartAfter(q, 0, e, fromBeginning)]
  {
    ApplyAt(State([q], INITIAL_BACKOFF), e, fromBeginning, 0);
  }

  lemma SkippingStep(k: nat)
    requires k < 2
    ensures Follows(SkippingStates()[k], SkippingEvents()[k], SkippingStates()[k + 1], false)
  {
    var q, r, e := SkippingStates()[k].parts[0], SkippingStates()[k + 1].parts[0], SkippingEvents()[k];
    SinglePartition(q, e, false);
    var after := PartAfter(q, 0, e, false);
    assert after.handed == r.handed && after.handled == r.handled;
    assert after == r;
  }

  lemma RestartSkips()
    ensures Run(SkippingStates(), SkippingEvents(), false)
    ensures var q := SkippingStates()[2].parts[0]; q.joined == 0 && q.committed == Some(2) && 0 !in q.handed
  {
    SkippingStep(0);
    SkippingStep(1);
  }

  /** Committing never passes an unhanded message exactly when the group starts from the beginning. */
  lemma GaplessIff(fromBeginning: bool)
    ensures Gapless(fromBeginning) <==> fromBeginning
  {
    if fromBeginning {
      forall states: seq<State>, events: seq<Event>, p: nat | Run(states, events, true) && p < |states[|events|].parts|
        ensures CommittedWereHanded(states[|events|].parts[p], states[|events|].parts[p].joined)
      {
        NothingSkipped(states, events, |events|, p);
      }
    } else {
      RestartSkips();
      var states, events := SkippingStates(), SkippingEvents();
      assert !CommittedWereHanded(states[|events|].parts[0], states[|events|].parts[0].joined);
    }
  }

  // ----- which messages come back

  /** Some continuation from `s` fetches offset `o` of partition `p`. */
  ghost predicate FetchesAgain(s: State, p: nat, o: nat, fromBeginning: bool) {
    exists states, events :: Refetches(states, events, s, p, o, fromBeginning)
  }

  ghost predicate Refetches(states: seq<State>, events: seq<Event>, s: State, p: nat, o: nat, fromBeginning: bool) {
    Trace(states, events, fromBeginning) && states[0] == s && events != [] &&
    var n := |events| - 1;
    events[n].Fetched? && events[n].p == p && p < |states[n].parts| && states[n].parts[p].position == o
  }

  /** Nothing has been committed past `o`, and a restart would not start behind it. */
  predicate CanReturn(q: Partition, o: nat, fromBeginning: bool) {
    match q.committed
    case None => fromBeginning
    case Some(c) => c <= o
  }

  predicate Gone(q: Partition, o: nat, fromBeginning: bool) {
    o < q.position && !CanReturn(q, o, fromBeginning)
  }

  lemma GoneStays(q: Partition, i: nat, e: Event, o: nat, fromBeginning: bool)
    requires PartInv(q, fromBeginning) && Gone(q, o, fromBeginning)
    ensures Gone(PartAfter(q, i, e, fromBeginning), o, fromBeginning)
  {
  }

  ghost predicate GoneIn(s: State, p: nat, o: nat, fromBeginning: bool) {
    AllInv(s.parts, fromBeginning) && p < |s.parts| && Gone(s.parts[p], o, fromBeginning)
  }

  lemma GoneForever(states: seq<State>, events: seq<Event>, fromBeginning: bool, p: nat, o: nat, n: nat)
    requires Trace(states, events, fromBeginning) && n <= |events| && GoneIn(states[0], p, o, fromBeginning)
    ensures GoneIn(states[n], p, o, fromBeginning)
  {
    ghost var gone := (s: State) => GoneIn(s, p, o, fromBeginning);
    forall k | 0 <= k < n && gone(states[k]) ensures gone(states[k + 1]) {
      assert Follows(states[k], events[k], states[k + 1], fromBeginning);
      StepKeeps(states[k], events[k], fromBeginning);
      ApplyAt(states[k], events[k], fromBeginning, p);
      GoneStays(states[k].parts[p], p, events[k], o, fromBeginning);
    }
    Persists(gone, states, 0, n);
  }

  lemma OneMoreEvent(s: State, e: Event, p: nat, o: nat, fromBeginning: bool)
    requires Enabled(s, e) && FetchesAgain(Apply(s, e, fromBeginning), p, o, fromBeginning)
    ensures FetchesAgain(s, p, o, fromBeginning)
  {
    var states, events :| Refetches(states, events, Apply(s, e, fromBeginning), p, o, fromBeginning);
    var longer, more := [s] + states, [e] + events;
    forall i | 0 <= i < |more| ensures Follows(longer[i], more[i], longer[i + 1], fromBeginning) {
      if i > 0 {
        assert Follows(states[i - 1], events[i - 1], states[i - 1 + 1], fromBeginning);
      }
    }
    assert longer[|more| - 1] == states[|events| - 1];
    assert Refetches(longer, more, s, p, o, fromBeginning);
  }

  /** Fetching one message after another reaches every offset from the position on. */
  lemma {:induction false} Reaches(s: State, p: nat, o: nat, fromBeginning: bool)
    requires p < |s.parts| && s.parts[p].position <= o
    ensures FetchesAgain(s, p, o, fromBeginning)
    decreases o - s.parts[p].position
  {
    var e := Fetched([], p, true, Durable, false);
    ApplyAt(s, e, fromBeginning, p);
    var t := Apply(s, e, fromBeginning);
    if s.parts[p].position == o {
      assert Follows(s, e, [s, t][1], fromBeginning);
      assert Refetches([s, t], [e], s, p, o, fromBeginning);
    } else {
      Reaches(t, p, o, fromBeginning);
      OneMoreEvent(s, e, p, o, fromBeginning);
    }
  }

  /** In every reachable state, a message handed out before is fetched again in some continuation
      exactly when nothing was committed past it and, while nothing is committed at all, the group
      starts from the beginning.  So a message whose handler failed is lost with the next commit of
      its partition: no restart brings it back. */
  lemma ComesBackIff(states: seq<State>, events: seq<Event>, fromBeginning: bool, n: nat, p: nat, o: nat)
    requires Run(states, events, fromBeginning) && n <= |events| && p < |states[n].parts|
    requires o < states[n].parts[p].position
    ensures FetchesAgain(states[n], p, o, fromBeginning) <==> CanReturn(states[n].parts[p], o, fromBeginning)
  {
    var s := states[n];
    RunInv(states, events, fromBeginning, n);
    if CanReturn(s.parts[p], o, fromBeginning) {
      var e := Restarted([]);
      ApplyAt(s, e, fromBeginning, p);
      Reaches(Apply(s, e, fromBeginning), p, o, fromBeginning);
      OneMoreEvent(s, e, p, o, fromBeginning);
    } else if FetchesAgain(s, p, o, fromBeginning) {
      var later, more :| Refetches(later, more, s, p, o, fromBeginning);
      GoneForever(later, more, fromBeginning, p, o, |more| - 1);
    }
  }

  /** From the commit of an offset on, the position of every later state is past all messages below
      it. */
  lemma CommittedStaysBehind(states: seq<State>, events: seq<Event>, fromBeginning: bool,
                             i: nat, j: nat, p: nat, o: nat)
    requires Run(states, events, fromBeginning) && i <= j <= |events| && p < |states[i].parts|
    requires states[i].parts[p].committed.Some? && o < states[i].parts[p].committed.value
    ensures p < |states[j].parts| && o < states[j].parts[p].position
    ensures j < |events| && events[j].Fetched? && events[j].p == p ==> states[j].parts[p].position != o
  {
    NeverBack(states, events, fromBeginning, i, j);
    RunInv(states, events, fromBeginning, j);
    assert Later(states[i].parts[p], states[j].parts[p]);
  }
}
