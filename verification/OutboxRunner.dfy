/** The worker loop of the outbox runner, one tick of it, run among other workers.  Between any two
    of its actions the others may take steps of their own.  The method is proved to be a run of the
    protocol, so everything shown about runs holds of it. */
module OutboxRunner {
  import opened Prelude
  import opened StatusEvents
  import opened OutboxTable
  import opened OutboxProtocol
  import opened OutboxDrain

  /** How one handler call ends: whether it returns nil, and the copies it leaves in the broker. */
  datatype Call = Call(ok: bool, copies: nat)

  predicate Possible(cfg: Config, c: Call) {
    c.copies <= cfg.attempts && (c.ok ==> c.copies > 0)
  }

  predicate ActedBy(w: nat, step: Step) {
    match step
    case Pick(v, _, _, _) => v == w
    case Publish(v, _, _) => v == w
    case Mark(v, _) => v == w
    case Crash(v) => v == w
    case _ => false
  }

  /** The key of the message, if its handler exists and its call returned nil. */
  function Acked(m: Message, call: Call): seq<Key> {
    if Dispatch(m.kind, m.data).Some? && call.ok then [m.key] else []
  }

  /** The keys of the messages whose handler call returned nil, in order. */
  function Acknowledged(ms: seq<Message>, calls: nat -> Call): seq<Key> {
    if ms == [] then []
    else
      var n := |ms| - 1;
      Acknowledged(ms[..n], calls) + Acked(ms[n], calls(n))
  }

  /** The worker's own steps among those of a run. */
  function Own(w: nat, trace: seq<Step>): seq<Step> {
    if trace == [] then []
    else
      var n := |trace| - 1;
      Own(w, trace[..n]) + if ActedBy(w, trace[n]) then [trace[n]] else []
  }

  /** What handling the `i`-th message amounts to: a message of unknown kind or undecodable data is
      never published. */
  function Handling(w: nat, m: Message, call: Call): Step {
    var handled := Dispatch(m.kind, m.data).Some?;
    Publish(w, handled && call.ok, if handled then call.copies else 0)
  }

  /** One handler call for each message, in order. */
  function Handlings(w: nat, ms: seq<Message>, calls: nat -> Call): seq<Step> {
    seq(|ms|, i requires 0 <= i < |ms| => Handling(w, ms[i], calls(i)))
  }

  /** What a worker does in a tick: a pick whose rows it gets, every message of it handled once, and
      the mark; or, when picking failed, at most a pick it did not see the rows of. */
  ghost predicate OwnTick(w: nat, picked: bool, locked: set<Key>, messages: seq<Message>, calls: nat -> Call,
                          pickOutcome: Outcome, markOutcome: Outcome, own: seq<Step>) {
    if picked then
      pickOutcome == Durable
      && own == [Pick(w, locked, Keys(messages), true)]
                + Handlings(w, messages, calls) + [Mark(w, markOutcome != Failed)]
    else
      messages == []
      && (own == [] || (pickOutcome == Unknown && exists keys :: own == [Pick(w, locked, keys, false)]))
  }

  /** A lease was taken that the worker does not know of. */
  ghost predicate Unseen(w: nat, locked: set<Key>, log: Log, log': Log) {
    exists keys :: log' == Took(log, Pick(w, locked, keys, false))
  }

  /** Rows stay and keep what they ask to publish. */
  predicate KeepsMessages(t: Table, t': Table) {
    forall k :: k in t ==> k in t' && ToMessage(t', k) == ToMessage(t, k)
  }

  lemma StepKeepsMessages(cfg: Config, s: State, step: Step)
    requires Enabled(cfg, s, step)
    ensures KeepsMessages(s.rows, Apply(cfg, s, step).rows)
  {
  }

  lemma KeepsTransitive(a: Table, b: Table, c: Table)
    requires KeepsMessages(a, b) && KeepsMessages(b, c)
    ensures KeepsMessages(a, c)
  {
    forall k | k in a ensures k in c && ToMessage(c, k) == ToMessage(a, k) {
      assert k in b && ToMessage(b, k) == ToMessage(a, k);
    }
  }

  /** The messages are those of rows of the table. */
  predicate FromTable(ms: seq<Message>, t: Table) {
    forall i :: 0 <= i < |ms| ==> ms[i].key in t && ms[i] == ToMessage(t, ms[i].key)
  }

  lemma StillFromTable(ms: seq<Message>, t: Table, t': Table)
    requires FromTable(ms, t) && KeepsMessages(t, t')
    ensures FromTable(ms, t')
  {
  }

  /** What a run is asked for, in order: steps of the worker itself, and steps that others would take. */
  datatype Event = Mine(step: Step) | Offered(step: Step)

  /** What has happened so far, what of it the worker did, and what it came from. */
  datatype Log = Log(trace: seq<Step>, own: seq<Step>, script: seq<Event>)

  const NOTHING: Log := Log([], [], [])

  function Took(log: Log, step: Step): Log {
    Log(log.trace + [step], log.own + [step], log.script + [Mine(step)])
  }

  /** A step of another worker, the clock or an enqueue that is possible. */
  predicate CanAct(cfg: Config, w: nat, s: State, step: Step) {
    !ActedBy(w, step) && Enabled(cfg, s, step)
  }

  function Met(cfg: Config, w: nat, log: Log, s: State, step: Step): Log {
    Log(if CanAct(cfg, w, s, step) then log.trace + [step] else log.trace, log.own, log.script + [Offered(step)])
  }

  function Acted(cfg: Config, w: nat, s: State, step: Step): State {
    if CanAct(cfg, w, s, step) then Apply(cfg, s, step) else s
  }

  /** What becomes of a script: the worker's own steps are taken, and of those offered the ones that
      are possible when their turn comes. */
  ghost function Played(cfg: Config, w: nat, s0: State, script: seq<Event>): (seq<Step>, State) {
    if script == [] then ([], s0)
    else
      var (t, s) := Played(cfg, w, s0, script[..|script| - 1]);
      match script[|script| - 1]
      case Mine(step) => if Enabled(cfg, s, step) then (t + [step], Apply(cfg, s, step)) else (t, s)
      case Offered(step) => (if CanAct(cfg, w, s, step) then t + [step] else t, Acted(cfg, w, s, step))
  }

  /** Possible logs, each with the state it leads to. */
  type Runs = iset<(Log, State)>

  /** Whatever is done or offered next extends what has been. */
  ghost predicate Extendable(cfg: Config, w: nat, r: Runs) {
    forall log, s, step :: Extends(cfg, w, r, log, s, step)
  }

  ghost predicate Extends(cfg: Config, w: nat, r: Runs, log: Log, s: State, step: Step) {
    (log, s) in r ==>
      && (ActedBy(w, step) && Enabled(cfg, s, step) ==> (Took(log, step), Apply(cfg, s, step)) in r)
      && (Met(cfg, w, log, s, step), Acted(cfg, w, s, step)) in r
  }

  ghost predicate IsRun(cfg: Config, w: nat, s0: State, log: Log, s: State) {
    && Legal(cfg, s0, log.trace) && s == Run(cfg, s0, log.trace) && log.own == Own(w, log.trace)
    && Played(cfg, w, s0, log.script) == (log.trace, s)
  }

  ghost function RunsFrom(cfg: Config, w: nat, s0: State): Runs {
    iset log, s | IsRun(cfg, w, s0, log, s) :: (log, s)
  }

  lemma OwnSnoc(w: nat, trace: seq<Step>, step: Step)
    ensures Own(w, trace + [step]) == Own(w, trace) + if ActedBy(w, step) then [step] else []
  {
    assert (trace + [step])[..|trace|] == trace;
  }

  lemma TookIsRun(cfg: Config, w: nat, s0: State, log: Log, s: State, step: Step)
    requires IsRun(cfg, w, s0, log, s) && ActedBy(w, step) && Enabled(cfg, s, step)
    ensures IsRun(cfg, w, s0, Took(log, step), Apply(cfg, s, step))
  {
    RunSnoc(cfg, s0, log.trace, step);
    OwnSnoc(w, log.trace, step);
    assert Took(log, step).script[..|log.script|] == log.script;
  }

  lemma MetIsRun(cfg: Config, w: nat, s0: State, log: Log, s: State, step: Step)
    requires IsRun(cfg, w, s0, log, s)
    ensures IsRun(cfg, w, s0, Met(cfg, w, log, s, step), Acted(cfg, w, s, step))
  {
    assert Met(cfg, w, log, s, step).script[..|log.script|] == log.script;
    if CanAct(cfg, w, s, step) {
      RunSnoc(cfg, s0, log.trace, step);
      OwnSnoc(w, log.trace, step);
    }
  }

  lemma RunsExtendable(cfg: Config, w: nat, s0: State)
    ensures (NOTHING, s0) in RunsFrom(cfg, w, s0) && Extendable(cfg, w, RunsFrom(cfg, w, s0))
  {
    assert IsRun(cfg, w, s0, NOTHING, s0);
    forall log, s, step
      ensures Extends(cfg, w, RunsFrom(cfg, w, s0), log, s, step)
    {
      if IsRun(cfg, w, s0, log, s) {
        MetIsRun(cfg, w, s0, log, s, step);
        if ActedBy(w, step) && Enabled(cfg, s, step) {
          TookIsRun(cfg, w, s0, log, s, step);
        }
      }
    }
  }

  function Offers(steps: seq<Step>): seq<Event> {
    seq(|steps|, i requires 0 <= i < |steps| => Offered(steps[i]))
  }

  /** The dispatch loop: before each message others get their turn. */
  function LoopScript(w: nat, ms: seq<Message>, calls: nat -> Call, others: nat -> seq<Step>): seq<Event> {
    if ms == [] then []
    else
      var n := |ms| - 1;
      LoopScript(w, ms[..n], calls, others) + Offers(others(n + 1)) + [Mine(Handling(w, ms[n], calls(n)))]
  }

  function RestScript(w: nat, ms: seq<Message>, calls: nat -> Call, others: nat -> seq<Step>, markOutcome: Outcome)
    : seq<Event>
  {
    LoopScript(w, ms, calls, others) + Offers(others(|ms| + 1)) + [Mine(Mark(w, markOutcome != Failed))]
  }

  /** What happens around a tick, others' turns included; `own` is what the worker did. */
  ghost predicate TickScript(w: nat, picked: bool, ms: seq<Message>, calls: nat -> Call, others: nat -> seq<Step>,
                             markOutcome: Outcome, own: seq<Step>, script: seq<Event>) {
    if picked then
      own != [] && script == Offers(others(0)) + [Mine(own[0])] + RestScript(w, ms, calls, others, markOutcome)
    else
      script == Offers(others(0)) + if own == [] then [] else [Mine(own[0])]
  }

  /** Nobody else acts and every handler call that is made succeeds. */
  ghost predicate Undisturbed(calls: nat -> Call, others: nat -> seq<Step>) {
    forall i :: others(i) == [] && calls(i).ok
  }

  predicate AllHandled(messages: seq<Message>) {
    forall i :: 0 <= i < |messages| ==> Dispatch(messages[i].kind, messages[i].data).Some?
  }

  class Runner {
    const cfg: Config
    const w: nat
    const repo: OutboxRepo
    var now: int
    var workers: seq<Worker>
    var leases: map<Key, seq<int>>
    var tries: map<Key, seq<Try>>
    var broker: multiset<Delivery>

    constructor (cfg: Config, w: nat, workers: nat, now: int)
      requires w < workers
      ensures this.cfg == cfg && this.w == w && fresh(repo) && World() == Init(now, workers)
    {
      this.cfg, this.w := cfg, w;
      repo := new OutboxRepo();
      this.now := now;
      this.workers := seq(workers, _ => Idle);
      leases, tries, broker := map[], map[], multiset{};
    }

    /** The shared table together with everything else the protocol speaks of. */
    function World(): State
      reads this, repo
    {
      State(now, repo.rows, workers, leases, tries, broker)
    }

    /** Takes a step of the worker's own and logs it. */
    method Perform(step: Step, ghost r: Runs, ghost log: Log)
      requires Enabled(cfg, World(), step) && ActedBy(w, step)
      requires Extendable(cfg, w, r) && (log, World()) in r
      modifies this, repo
      ensures World() == Apply(cfg, old(World()), step)
      ensures (Took(log, step), World()) in r
    {
      assert Extends(cfg, w, r, log, World(), step);
      var s := Apply(cfg, World(), step);
      repo.rows := s.rows;
      now, workers, leases, tries, broker := s.now, s.workers, s.leases, s.tries, s.broker;
    }

    /** Another worker, the clock or an enqueue acts, if it can. */
    method Other(step: Step, ghost r: Runs, ghost log: Log) returns (ghost log': Log)
      requires w < |workers|
      requires Extendable(cfg, w, r) && (log, World()) in r
      modifies this, repo
      ensures (log', World()) in r && log.trace <= log'.trace && log'.own == log.own
      ensures log'.script == log.script + [Offered(step)]
      ensures w < |workers| == |old(workers)| && workers[w] == old(workers[w])
      ensures KeepsMessages(old(repo.rows), repo.rows)
    {
      assert Extends(cfg, w, r, log, World(), step);
      log' := Met(cfg, w, log, World(), step);
      if CanAct(cfg, w, World(), step) {
        StepKeepsMessages(cfg, World(), step);
        OthersKeepHand(cfg, World(), step, w);
        var s := Apply(cfg, World(), step);
        repo.rows := s.rows;
        now, workers, leases, tries, broker := s.now, s.workers, s.leases, s.tries, s.broker;
      }
    }

    /** Others act, one after another, between two actions of this worker. */
    method Interfere(steps: seq<Step>, ghost r: Runs, ghost log: Log) returns (ghost log': Log)
      requires w < |workers|
      requires Extendable(cfg, w, r) && (log, World()) in r
      modifies this, repo
      ensures (log', World()) in r && log.trace <= log'.trace && log'.own == log.own
      ensures log'.script == log.script + Offers(steps)
      ensures w < |workers| == |old(workers)| && workers[w] == old(workers[w])
      ensures KeepsMessages(old(repo.rows), repo.rows)
      ensures steps == [] ==> log' == log && World() == old(World())
    {
      log' := log;
      var i := 0;
      while i < |steps|
        invariant 0 <= i <= |steps|
        invariant (log', World()) in r && log.trace <= log'.trace && log'.own == log.own
        invariant log'.script == log.script + Offers(steps[..i])
        invariant w < |workers| == |old(workers)| && workers[w] == old(workers[w])
        invariant KeepsMessages(old(repo.rows), repo.rows)
        invariant steps == [] ==> log' == log && World() == old(World())
      {
        ghost var rows := repo.rows;
        log' := Other(steps[i], r, log');
        KeepsTransitive(old(repo.rows), rows, repo.rows);
        assert Offers(steps[..i + 1]) == Offers(steps[..i]) + [Offered(steps[i])];
        i := i + 1;
      }
      assert steps[..|steps|] == steps;
    }

    /** PickBatch, seen as a step of the protocol: on success the worker holds what it returned. */
    method Pick(locked: set<Key>, scanFails: Option<nat>, outcome: Outcome, ghost r: Runs, ghost log: Log)
      returns (res: Result<seq<Message>, string>, ghost log': Log)
      requires w < |workers| && workers[w].Idle?
      requires Extendable(cfg, w, r) && (log, World()) in r
      modifies this, repo
      ensures (log', World()) in r
      ensures w < |workers|
      ensures res.Ok? ==> log' == Took(log, Step.Pick(w, locked, Keys(res.value), true))
      ensures res.Ok? ==> Holding(res.value, 0, []) && FromTable(res.value, repo.rows)
      ensures res.Ok? && AllDispatchable(old(repo.rows)) ==> AllHandled(res.value)
      ensures res.Err? ==> workers[w].Idle? && (log' == log || (outcome == Unknown && Unseen(w, locked, log, log')))
      ensures res.Ok? ==> outcome == Durable
      ensures cfg.batch > 0 && scanFails == None && outcome == Durable ==> res.Ok?
    {
      var before := World();
      res := repo.PickBatch(cfg.batch, cfg.ttl, now, locked, scanFails, outcome);
      log' := log;
      if res.Ok? {
        log' := Record(before, Keys(res.value), locked, true, r, log);
      } else if repo.rows != before.rows {
        var keys :|
          Pickable(before.rows, now, cfg.ttl, cfg.batch, locked, keys) && repo.rows == Leased(before.rows, keys, now);
        log' := Record(before, keys, locked, false, r, log);
      }
    }

    /** Brings the bookkeeping in line with a pick that the table has just seen. */
    method Record(before: State, keys: seq<Key>, locked: set<Key>, seen: bool, ghost r: Runs, ghost log: Log)
      returns (ghost log': Log)
      requires World() == before.(rows := repo.rows) && Enabled(cfg, before, Step.Pick(w, locked, keys, seen))
      requires repo.rows == Leased(before.rows, keys, now)
      requires Extendable(cfg, w, r) && (log, before) in r
      modifies this
      ensures log' == Took(log, Step.Pick(w, locked, keys, seen))
      ensures (log', World()) in r
      ensures workers == if seen then before.workers[w := Busy(Grant(before, keys), 0, [])] else before.workers
    {
      var step := Step.Pick(w, locked, keys, seen);
      assert Extends(cfg, w, r, log, before, step);
      var after := Apply(cfg, before, step);
      log' := Took(log, step);
      leases, workers := after.leases, after.workers;
    }

    /** The worker's entry in the protocol state agrees with the loop's local variables. */
    ghost predicate Holding(messages: seq<Message>, i: nat, okKeys: seq<Key>)
      reads this
    {
      && w < |workers| && workers[w].Busy?
      && workers[w].pos == i && workers[w].okKeys == okKeys
      && |workers[w].batch| == |messages|
      && forall j :: 0 <= j < |messages| ==> workers[w].batch[j].msg == messages[j]
    }

    /** Dispatches the `i`-th message and, if its handler returns nil, remembers its key. */
    method Deliver(messages: seq<Message>, i: nat, okKeys: seq<Key>, call: Call, ghost r: Runs, ghost log: Log)
      returns (okKeys': seq<Key>)
      requires i < |messages| && Holding(messages, i, okKeys) && Possible(cfg, call)
      requires Extendable(cfg, w, r) && (log, World()) in r
      modifies this, repo
      ensures (Took(log, Handling(w, messages[i], call)), World()) in r
      ensures KeepsMessages(old(repo.rows), repo.rows)
      ensures okKeys' == okKeys + Acked(messages[i], call)
      ensures Holding(messages, i + 1, okKeys')
    {
      var handled := Dispatch(messages[i].kind, messages[i].data).Some?;
      var ok := handled && call.ok;
      var step := Publish(w, ok, if handled then call.copies else 0);
      StepKeepsMessages(cfg, World(), step);
      Perform(step, r, log);
      okKeys' := if ok then okKeys + [messages[i].key] else okKeys;
    }

    /** Others act, then the `i`-th message is dispatched. */
    method DeliverNext(messages: seq<Message>, i: nat, okKeys: seq<Key>, call: Call, between: seq<Step>,
                       ghost r: Runs, ghost log: Log)
      returns (okKeys': seq<Key>, ghost log': Log)
      requires i < |messages| && Holding(messages, i, okKeys) && Possible(cfg, call)
      requires Extendable(cfg, w, r) && (log, World()) in r
      modifies this, repo
      ensures (log', World()) in r && log.trace <= log'.trace && log'.own == log.own + [Handling(w, messages[i], call)]
      ensures log'.script == log.script + Offers(between) + [Mine(Handling(w, messages[i], call))]
      ensures between == [] ==> log'.trace == log.trace + [Handling(w, messages[i], call)]
      ensures KeepsMessages(old(repo.rows), repo.rows)
      ensures okKeys' == okKeys + Acked(messages[i], call)
      ensures Holding(messages, i + 1, okKeys')
    {
      log' := Interfere(between, r, log);
      ghost var rows := repo.rows;
      okKeys' := Deliver(messages, i, okKeys, call, r, log');
      log' := Took(log', Handling(w, messages[i], call));
      KeepsTransitive(old(repo.rows), rows, repo.rows);
    }

    /** The dispatch loop over one batch: every message is handled once, in order. */
    method DeliverAll(messages: seq<Message>, calls: nat -> Call, others: nat -> seq<Step>,
                      ghost r: Runs, ghost log: Log)
      returns (okKeys: seq<Key>, ghost log': Log)
      requires Holding(messages, 0, []) && forall i :: Possible(cfg, calls(i))
      requires Extendable(cfg, w, r) && (log, World()) in r
      modifies this, repo
      ensures (log', World()) in r && log.trace <= log'.trace
      ensures log'.own == log.own + Handlings(w, messages, calls)
      ensures log'.script == log.script + LoopScript(w, messages, calls, others)
      ensures okKeys == Acknowledged(messages, calls) && Holding(messages, |messages|, okKeys)
      ensures KeepsMessages(old(repo.rows), repo.rows)
      ensures AllHandled(messages) && Undisturbed(calls, others) ==> SmoothAfter(w, log.trace, log'.trace)
    {
      okKeys, log' := [], log;
      var i := 0;
      while i < |messages|
        invariant 0 <= i <= |messages|
        invariant (log', World()) in r && log.trace <= log'.trace
        invariant log'.own == log.own + Handlings(w, messages[..i], calls)
        invariant log'.script == log.script + LoopScript(w, messages[..i], calls, others)
        invariant okKeys == Acknowledged(messages[..i], calls) && Holding(messages, i, okKeys)
        invariant KeepsMessages(old(repo.rows), repo.rows)
        invariant AllHandled(messages) && Undisturbed(calls, others) ==> SmoothAfter(w, log.trace, log'.trace)
      {
        ghost var before, rows := log', repo.rows;
        okKeys, log' := DeliverNext(messages, i, okKeys, calls(i), others(i + 1), r, log');
        KeepsTransitive(old(repo.rows), rows, repo.rows);
        OneHandled(w, log, before, log', messages, i, calls, others);
        i := i + 1;
      }
      assert messages[..|messages|] == messages;
    }

    method Mark(messages: seq<Message>, okKeys: seq<Key>, outcome: Outcome, ghost r: Runs, ghost log: Log)
      requires Holding(messages, |messages|, okKeys)
      requires Extendable(cfg, w, r) && (log, World()) in r
      modifies this, repo
      ensures (Took(log, Step.Mark(w, outcome != Failed)), World()) in r
      ensures w < |workers| && workers[w].Idle?
      ensures KeepsMessages(old(repo.rows), repo.rows)
    {
      ghost var before := World();
      ghost var step := Step.Mark(w, outcome != Failed);
      assert Extends(cfg, w, r, log, before, step);
      var err := repo.MarkSuccess(okKeys, now, outcome);
      workers := workers[w := Idle];
      assert World() == Apply(cfg, before, step);
    }

    /** The rest of a tick, once the batch is picked. */
    method Process(messages: seq<Message>, calls: nat -> Call, markOutcome: Outcome, others: nat -> seq<Step>,
                   ghost r: Runs, ghost log: Log)
      returns (okKeys: seq<Key>, ghost log': Log)
      requires Holding(messages, 0, []) && FromTable(messages, repo.rows) && forall i :: Possible(cfg, calls(i))
      requires Extendable(cfg, w, r) && (log, World()) in r
      modifies this, repo
      ensures (log', World()) in r
      ensures w < |workers| && workers[w].Idle?
      ensures log'.own == log.own + Handlings(w, messages, calls) + [Step.Mark(w, markOutcome != Failed)]
      ensures log'.script == log.script + RestScript(w, messages, calls, others, markOutcome)
      ensures okKeys == Acknowledged(messages, calls) && FromTable(messages, repo.rows)
      ensures AllHandled(messages) && Undisturbed(calls, others) && markOutcome == Durable ==>
                Finishes(w, log.trace, log'.trace)
    {
      okKeys, log' := DeliverAll(messages, calls, others, r, log);
      ghost var rows1 := repo.rows;
      log' := Interfere(others(|messages| + 1), r, log');
      ghost var rows2 := repo.rows;
      KeepsTransitive(old(repo.rows), rows1, rows2);
      Mark(messages, okKeys, markOutcome, r, log');
      ghost var marked := log';
      log' := Took(marked, Step.Mark(w, markOutcome != Failed));
      Rest(w, log, marked, messages, calls, others, markOutcome);
      KeepsTransitive(old(repo.rows), rows2, repo.rows);
      StillFromTable(messages, old(repo.rows), repo.rows);
    }

    method TickIn(locked: set<Key>, scanFails: Option<nat>, pickOutcome: Outcome, calls: nat -> Call,
                  markOutcome: Outcome, others: nat -> seq<Step>, ghost r: Runs)
      returns (picked: bool, messages: seq<Message>, okKeys: seq<Key>, ghost log: Log)
      requires w < |workers| && workers[w].Idle? && forall i :: Possible(cfg, calls(i))
      requires Extendable(cfg, w, r) && (NOTHING, World()) in r
      modifies this, repo
      ensures (log, World()) in r
      ensures w < |workers| && workers[w].Idle?
      ensures OwnTick(w, picked, locked, messages, calls, pickOutcome, markOutcome, log.own)
      ensures TickScript(w, picked, messages, calls, others, markOutcome, log.own, log.script)
      ensures okKeys == Acknowledged(messages, calls) && FromTable(messages, repo.rows)
      ensures cfg.batch > 0 && scanFails == None && pickOutcome == Durable ==> picked
      ensures picked && locked == {} && markOutcome == Durable
              && Undisturbed(calls, others) && AllDispatchable(old(repo.rows))
              ==> GoodTick(w, [Advance(0)] + log.trace)
    {
      messages, okKeys := [], [];
      log := Interfere(others(0), r, NOTHING);
      ghost var log0 := log;
      var batch;
      batch, log := Pick(locked, scanFails, pickOutcome, r, log);
      picked := batch.Ok?;
      if batch.Err? {
        FailedTick(w, log0, log, locked, calls, others, pickOutcome, markOutcome);
        return;
      }
      messages := batch.value;
      ghost var log1 := log;
      okKeys, log := Process(messages, calls, markOutcome, others, r, log);
      WholeTick(w, log0, log1, log, locked, messages, calls, others, pickOutcome, markOutcome);
    }

    /** One tick: pick a batch, hand every message to its handler, mark those that succeeded.  What
        happens is a run of the protocol in which the worker's own steps are exactly these and others
        take every step they can of those offered in between; in quiet surroundings it is a good
        tick. */
    method Tick(locked: set<Key>, scanFails: Option<nat>, pickOutcome: Outcome, calls: nat -> Call,
                markOutcome: Outcome, others: nat -> seq<Step>)
      returns (picked: bool, messages: seq<Message>, okKeys: seq<Key>, ghost trace: seq<Step>, ghost script: seq<Event>)
      requires w < |workers| && workers[w].Idle? && forall i :: Possible(cfg, calls(i))
      modifies this, repo
      ensures Legal(cfg, old(World()), trace) && World() == Run(cfg, old(World()), trace)
      ensures TickScript(w, picked, messages, calls, others, markOutcome, Own(w, trace), script)
      ensures Played(cfg, w, old(World()), script) == (trace, World())
      ensures w < |workers| && workers[w].Idle?
      ensures OwnTick(w, picked, locked, messages, calls, pickOutcome, markOutcome, Own(w, trace))
      ensures okKeys == Acknowledged(messages, calls) && FromTable(messages, repo.rows)
      ensures cfg.batch > 0 && scanFails == None && pickOutcome == Durable ==> picked
      ensures picked && locked == {} && markOutcome == Durable
              && Undisturbed(calls, others) && AllDispatchable(old(repo.rows))
              ==> GoodTick(w, [Advance(0)] + trace)
    {
      ghost var s0 := World();
      RunsExtendable(cfg, w, s0);
      ghost var log;
      picked, messages, okKeys, log :=
        TickIn(locked, scanFails, pickOutcome, calls, markOutcome, others, RunsFrom(cfg, w, s0));
      assert IsRun(cfg, w, s0, log, World());
      trace, script := log.trace, log.script;
    }
  }

  /** The run goes on smoothly. */
  predicate SmoothAfter(w: nat, trace: seq<Step>, trace': seq<Step>) {
    trace <= trace' && forall j :: |trace| <= j < |trace'| ==> Smooth(w, trace'[j])
  }

  /** The run goes on smoothly, and then the batch is marked. */
  predicate Finishes(w: nat, trace: seq<Step>, trace': seq<Step>) {
    && trace < trace' && trace'[|trace'| - 1] == Mark(w, true)
    && forall j :: |trace| <= j < |trace'| - 1 ==> Smooth(w, trace'[j])
  }

  lemma OneHandled(w: nat, log: Log, before: Log, after: Log, ms: seq<Message>, i: nat, calls: nat -> Call,
                   others: nat -> seq<Step>)
    requires i < |ms| && before.own == log.own + Handlings(w, ms[..i], calls)
    requires after.own == before.own + [Handling(w, ms[i], calls(i))]
    requires before.script == log.script + LoopScript(w, ms[..i], calls, others)
    requires after.script == before.script + Offers(others(i + 1)) + [Mine(Handling(w, ms[i], calls(i)))]
    requires others(i + 1) == [] ==> after.trace == before.trace + [Handling(w, ms[i], calls(i))]
    ensures after.own == log.own + Handlings(w, ms[..i + 1], calls)
    ensures after.script == log.script + LoopScript(w, ms[..i + 1], calls, others)
    ensures Acknowledged(ms[..i + 1], calls) == Acknowledged(ms[..i], calls) + Acked(ms[i], calls(i))
    ensures AllHandled(ms) && Undisturbed(calls, others) && SmoothAfter(w, log.trace, before.trace) ==>
              SmoothAfter(w, log.trace, after.trace)
  {
    assert Handlings(w, ms[..i + 1], calls) == Handlings(w, ms[..i], calls) + [Handling(w, ms[i], calls(i))];
    assert ms[..i + 1][..i] == ms[..i];
  }

  lemma Rest(w: nat, log: Log, before: Log, ms: seq<Message>, calls: nat -> Call, others: nat -> seq<Step>,
             markOutcome: Outcome)
    requires before.script == log.script + LoopScript(w, ms, calls, others) + Offers(others(|ms| + 1))
    ensures Took(before, Mark(w, markOutcome != Failed)).script
            == log.script + RestScript(w, ms, calls, others, markOutcome)
  {
  }

  lemma FailedTick(w: nat, log0: Log, log: Log, locked: set<Key>, calls: nat -> Call, others: nat -> seq<Step>,
                   pickOutcome: Outcome, markOutcome: Outcome)
    requires log0.own == [] && log0.script == Offers(others(0))
    requires log == log0 || (pickOutcome == Unknown && Unseen(w, locked, log0, log))
    ensures OwnTick(w, false, locked, [], calls, pickOutcome, markOutcome, log.own)
    ensures TickScript(w, false, [], calls, others, markOutcome, log.own, log.script)
  {
    if log != log0 {
      var keys :| log == Took(log0, Pick(w, locked, keys, false));
      assert log.own == [Pick(w, locked, keys, false)];
    }
  }

  lemma WholeTick(w: nat, log0: Log, log1: Log, log2: Log, locked: set<Key>, ms: seq<Message>,
                  calls: nat -> Call, others: nat -> seq<Step>, pickOutcome: Outcome, markOutcome: Outcome)
    requires log0.own == [] && log0.script == Offers(others(0)) && pickOutcome == Durable
    requires log1 == Took(log0, Pick(w, locked, Keys(ms), true))
    requires log2.own == log1.own + Handlings(w, ms, calls) + [Mark(w, markOutcome != Failed)]
    requires log2.script == log1.script + RestScript(w, ms, calls, others, markOutcome)
    ensures OwnTick(w, true, locked, ms, calls, pickOutcome, markOutcome, log2.own)
    ensures TickScript(w, true, ms, calls, others, markOutcome, log2.own, log2.script)
    ensures log0.trace == [] && locked == {} && Finishes(w, log1.trace, log2.trace) ==>
              GoodTick(w, [Advance(0)] + log2.trace)
  {
    assert log2.own[0] == Pick(w, locked, Keys(ms), true);
    if log0.trace == [] && locked == {} && Finishes(w, log1.trace, log2.trace) {
      FinishedTick(w, Pick(w, locked, Keys(ms), true), log2.trace);
    }
  }

  lemma FinishedTick(w: nat, pick: Step, t: seq<Step>)
    requires pick.Pick? && pick.w == w && pick.locked == {} && pick.seen && Finishes(w, [pick], t)
    ensures GoodTick(w, [Advance(0)] + t)
  {
    var steps := [Advance(0)] + t;
    assert steps[1] == t[0] == pick;
    forall i | 2 <= i < |steps| - 1 ensures Smooth(w, steps[i]) {
      assert steps[i] == t[i - 1];
    }
  }

  lemma OthersKeepHand(cfg: Config, s: State, step: Step, w: nat)
    requires Enabled(cfg, s, step) && w < |s.workers| && !ActedBy(w, step)
    ensures var s' := Apply(cfg, s, step);
            |s'.workers| == |s.workers| && s'.workers[w] == s.workers[w]
  {
  }
}
