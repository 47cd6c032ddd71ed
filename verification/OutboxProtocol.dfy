/** Any number of outbox workers over one table, as a state machine.  A step carries everything the
    environment decides: which rows a pick gets, whether a publish is acknowledged, whether a commit
    is durable.  `leases`, `tries` and `broker` are the history of the run. */
module OutboxProtocol {
  import opened StatusEvents
  import opened OutboxTable

  /** Batch limit, lease length, and how often one handler call may write to the broker. */
  datatype Config = Config(batch: int, ttl: int, attempts: nat)

  /** A message in a worker's hands; `lease` numbers the pick of its row that handed it out. */
  datatype Held = Held(msg: Message, lease: nat)

  datatype Worker = Idle | Busy(batch: seq<Held>, pos: nat, okKeys: seq<Key>)

  /** One handler call: under which lease, when, whether it returned nil, and how many copies of the
      message its attempts left in the broker. */
  datatype Try = Try(lease: nat, at: int, ok: bool, copies: nat)

  datatype Delivery = Delivery(key: Key, msg: StatusChange)

  datatype State = State(
    now: int,
    rows: Table,
    workers: seq<Worker>,
    leases: map<Key, seq<int>>,
    tries: map<Key, seq<Try>>,
    broker: multiset<Delivery>)

  datatype Step =
    | Advance(d: nat)
    | Enqueue(key: Key, kind: int, data: Object, createdAt: int)
    | Pick(w: nat, locked: set<Key>, keys: seq<Key>, seen: bool)
    | Publish(w: nat, ok: bool, copies: nat)
    | Mark(w: nat, durable: bool)
    | Crash(w: nat)

  function Init(now: int, workers: nat): State {
    State(now, map[], seq(workers, _ => Idle), map[], map[], multiset{})
  }

  predicate Enabled(cfg: Config, s: State, step: Step) {
    match step
    case Advance(_) => true
    case Enqueue(_, _, _, createdAt) => createdAt <= s.now
    case Pick(w, locked, keys, _) =>
      && w < |s.workers| && s.workers[w].Idle? && cfg.batch > 0
      && Pickable(s.rows, s.now, cfg.ttl, cfg.batch, locked, keys)
    case Publish(w, ok, copies) =>
      && w < |s.workers| && s.workers[w].Busy? && s.workers[w].pos < |s.workers[w].batch|
      && copies <= cfg.attempts
      && (ok ==> copies > 0)
      && (Dispatch(Current(s, w).msg.kind, Current(s, w).msg.data).None? ==> !ok && copies == 0)
    case Mark(w, _) =>
      w < |s.workers| && s.workers[w].Busy? && s.workers[w].pos == |s.workers[w].batch|
    case Crash(w) => w < |s.workers|
  }

  function Current(s: State, w: nat): Held
    requires w < |s.workers| && s.workers[w].Busy? && s.workers[w].pos < |s.workers[w].batch|
  {
    s.workers[w].batch[s.workers[w].pos]
  }

  function HistoryOf<T>(m: map<Key, seq<T>>, k: Key): seq<T> {
    if k in m then m[k] else []
  }

  function Grant(s: State, keys: seq<Key>): seq<Held>
    requires forall k :: k in keys ==> k in s.rows
  {
    seq(|keys|, i requires 0 <= i < |keys| => Held(ToMessage(s.rows, keys[i]), |HistoryOf(s.leases, keys[i])|))
  }

  function Apply(cfg: Config, s: State, step: Step): State
    requires Enabled(cfg, s, step)
  {
    match step
    case Advance(d) => s.(now := s.now + d)
    case Enqueue(key, kind, data, createdAt) =>
      if key in s.rows then s
      else s.(rows := Enqueued(s.rows, key, kind, data, createdAt),
              leases := s.leases[key := []], tries := s.tries[key := []])
    case Pick(w, _, keys, seen) =>
      s.(rows := Leased(s.rows, keys, s.now),
         leases := map k | k in s.leases :: if k in keys then s.leases[k] + [s.now] else s.leases[k],
         workers := if seen then s.workers[w := Busy(Grant(s, keys), 0, [])] else s.workers)
    case Publish(w, ok, copies) =>
      var b, h := s.workers[w], Current(s, w);
      var msg := Dispatch(h.msg.kind, h.msg.data);
      s.(workers := s.workers[w := Busy(b.batch, b.pos + 1, if ok then b.okKeys + [h.msg.key] else b.okKeys)],
         tries := s.tries[h.msg.key := HistoryOf(s.tries, h.msg.key) + [Try(h.lease, s.now, ok, copies)]],
         broker := if msg.Some? then s.broker + Copies(Delivery(h.msg.key, msg.value), copies) else s.broker)
    case Mark(w, durable) =>
      s.(rows := if durable then Marked(s.rows, s.workers[w].okKeys, s.now) else s.rows,
         workers := s.workers[w := Idle])
    case Crash(w) => s.(workers := s.workers[w := Idle])
  }

  function Copies(d: Delivery, n: nat): multiset<Delivery> {
    multiset{}[d := n]
  }

  ghost predicate Legal(cfg: Config, s: State, steps: seq<Step>)
    decreases |steps|, 0
  {
    steps == [] ||
    (Legal(cfg, s, steps[..|steps| - 1])
     && Enabled(cfg, Run(cfg, s, steps[..|steps| - 1]), steps[|steps| - 1]))
  }

  /** The state after a run, whatever the interleaving in it. */
  ghost function Run(cfg: Config, s: State, steps: seq<Step>): State
    requires Legal(cfg, s, steps)
    decreases |steps|, 1
  {
    if steps == [] then s
    else Apply(cfg, Run(cfg, s, steps[..|steps| - 1]), steps[|steps| - 1])
  }

  lemma {:induction false} RunSnoc(cfg: Config, s: State, steps: seq<Step>, step: Step)
    ensures Legal(cfg, s, steps + [step]) <==> Legal(cfg, s, steps) && Enabled(cfg, Run(cfg, s, steps), step)
    ensures Legal(cfg, s, steps + [step]) ==>
              Run(cfg, s, steps + [step]) == Apply(cfg, Run(cfg, s, steps), step)
  {
    assert (steps + [step])[..|steps|] == steps;
  }

  /** A run in two parts is a run of the first and then a run of the second. */
  lemma {:induction false} RunAppend(cfg: Config, s: State, a: seq<Step>, b: seq<Step>)
    ensures Legal(cfg, s, a + b) <==> Legal(cfg, s, a) && Legal(cfg, Run(cfg, s, a), b)
    ensures Legal(cfg, s, a + b) ==> Run(cfg, s, a + b) == Run(cfg, Run(cfg, s, a), b)
    decreases |b|
  {
    if b == [] {
      assert a + b == a;
    } else {
      var b', last := b[..|b| - 1], b[|b| - 1];
      assert b == b' + [last] && a + b == (a + b') + [last];
      RunAppend(cfg, s, a, b');
      RunSnoc(cfg, s, a + b', last);
      if Legal(cfg, s, a) {
        RunSnoc(cfg, Run(cfg, s, a), b', last);
      }
    }
  }

  lemma LastStep(cfg: Config, s: State, steps: seq<Step>, n: nat)
    requires Legal(cfg, s, steps) && |steps| == n + 1
    ensures Legal(cfg, s, steps[..n]) && Enabled(cfg, Run(cfg, s, steps[..n]), steps[n])
    ensures Run(cfg, s, steps) == Apply(cfg, Run(cfg, s, steps[..n]), steps[n])
  {
  }

  lemma StepWorkers(cfg: Config, s: State, step: Step)
    requires Enabled(cfg, s, step)
    ensures |Apply(cfg, s, step).workers| == |s.workers|
  {
  }

  lemma {:induction false} WorkersStay(cfg: Config, s: State, steps: seq<Step>)
    requires Legal(cfg, s, steps)
    ensures |Run(cfg, s, steps).workers| == |s.workers|
    decreases |steps|
  {
    if steps != [] {
      LastStep(cfg, s, steps, |steps| - 1);
      WorkersStay(cfg, s, steps[..|steps| - 1]);
      StepWorkers(cfg, Run(cfg, s, steps[..|steps| - 1]), steps[|steps| - 1]);
    }
  }
}
