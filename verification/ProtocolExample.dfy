/** A run in which a handler fails transiently, its record is delivered again, and nothing is handled. */
module ProtocolExample {
  import opened Options
  import opened Events
  import opened Protocol

  lemma Extend(cfg: Config, trace: seq<State>, a: Action) returns (longer: seq<State>)
    requires Run(cfg, trace) && Enabled(cfg, trace[|trace| - 1], a)
    ensures longer == trace + [Apply(cfg, trace[|trace| - 1], a)] && Run(cfg, longer)
  {
    hide Enabled, Apply;
    var last := trace[|trace| - 1];
    longer := trace + [Apply(cfg, last, a)];
    forall i | 0 <= i < |longer| - 1 ensures StepAt(cfg, longer, i) {
      if i < |trace| - 1 {
        assert StepAt(cfg, trace, i);
      } else {
        assert Enabled(cfg, longer[i], a) && longer[i + 1] == Apply(cfg, longer[i], a);
      }
    }
  }

  /** The record at one program counter of its first delivery. */
  function Delivery(body: string, env: Option<Envelope>, pc: Pc): Worker {
    Worker(0, Record("m", body), env, pc, None)
  }

  /** After the message is published and received, and the container has ensured the index. */
  function Ready(body: string): State {
    Init().(
      sent := map["m" := body], queue := {"m"}, indexed := true, latched := {0},
      batches := [Batch(0, Active, 0, 1)], workers := [Delivery(body, None, Received)])
  }

  lemma Booting(cfg: Config, body: string) returns (trace: seq<State>)
    ensures Run(cfg, trace) && trace[|trace| - 1] == Ready(body)
  {
    trace := Extend(cfg, [Init()], Publish("m", body));
    trace := Extend(cfg, trace, Receive(0, [Record("m", body)]));
    assert trace[|trace| - 1].workers == [Delivery(body, None, Received)];
    trace := Extend(cfg, trace, Boot(0));
    assert trace[|trace| - 1].batches == Ready(body).batches;
    assert trace[|trace| - 1].sent == Ready(body).sent;
  }

  /** The stored document, after these statuses. */
  function Stored(env: Envelope, status: Status, error: Option<string>): Document {
    var begun := Transitioned(Seed(env), InProgress, None);
    if status == Status.Failed then Transitioned(begun, Status.Failed, error) else begun
  }

  /** The handler has been called and has failed. */
  function Thrown(body: string, env: Envelope): State {
    Ready(body).(
      workers := [Delivery(body, Some(env), HandlerThrew(true, "unreachable"))],
      docs := map[env.eventId := Stored(env, InProgress, None)], owner := map[env.eventId := 0], inserted := {0},
      transitions := [(0, env.eventId)], dispatches := [Dispatch(0, env)])
  }

  lemma Inserting(cfg: Config, body: string, env: Envelope) returns (trace: seq<State>)
    requires cfg.parse(body) == Some(env) && env.kind in cfg.handled
    ensures Run(cfg, trace)
    ensures trace[|trace| - 1] == Ready(body).(
              workers := [Delivery(body, Some(env), Persisted)], docs := map[env.eventId := Seed(env)],
              owner := map[env.eventId := 0], inserted := {0})
  {
    hide Seed;
    trace := Booting(cfg, body);
    trace := Extend(cfg, trace, Parse(0));
    assert trace[|trace| - 1] == Ready(body).(workers := [Delivery(body, Some(env), Pc.Inserting)]);
    trace := Extend(cfg, trace, InsertReturns(0));
    SeedHasId(env);
    assert trace[|trace| - 1].workers == [Delivery(body, Some(env), Persisted)];
  }

  lemma SeedHasId(env: Envelope)
    ensures Seed(env).eventId == env.eventId
  {
  }

  lemma Throwing(cfg: Config, body: string, env: Envelope) returns (trace: seq<State>)
    requires cfg.parse(body) == Some(env) && env.kind in cfg.handled
    ensures Run(cfg, trace) && trace[|trace| - 1] == Thrown(body, env)
  {
    hide Seed, Transitioned;
    trace := Inserting(cfg, body, env);
    trace := Extend(cfg, trace, TransitionReturns(0));
    assert trace[|trace| - 1].workers == [Delivery(body, Some(env), Running)];
    assert trace[|trace| - 1].docs == map[env.eventId := Stored(env, InProgress, None)];
    trace := Extend(cfg, trace, CallHandler(0));
    assert trace[|trace| - 1].workers == [Delivery(body, Some(env), Dispatched)];
    trace := Extend(cfg, trace, HandlerFails(0, true, "unreachable"));
    assert trace[|trace| - 1].workers == Thrown(body, env).workers;
  }

  /** The failure is stored. */
  function Failed(body: string, env: Envelope): State {
    Thrown(body, env).(
      workers := [Delivery(body, Some(env), Settled(Failure(true, true)))],
      docs := map[env.eventId := Stored(env, Status.Failed, Some("unreachable"))],
      transitions := [(0, env.eventId), (0, env.eventId)])
  }

  lemma Failing(cfg: Config, body: string, env: Envelope) returns (trace: seq<State>)
    requires cfg.parse(body) == Some(env) && env.kind in cfg.handled
    ensures Run(cfg, trace) && trace[|trace| - 1] == Failed(body, env)
  {
    hide Seed, Transitioned;
    trace := Throwing(cfg, body, env);
    trace := Extend(cfg, trace, TransitionReturns(0));
    var s := trace[|trace| - 1];
    assert s.workers == Failed(body, env).workers && s.docs == Failed(body, env).docs;
  }

  /** The batch has returned the record's id, and the message is still queued. */
  function Reported(body: string, env: Envelope): State {
    Failed(body, env).(batches := [Batch(0, Returned(["m"]), 0, 1)])
  }

  lemma Reporting(cfg: Config, body: string, env: Envelope) returns (trace: seq<State>)
    requires cfg.parse(body) == Some(env) && env.kind in cfg.handled
    ensures Run(cfg, trace) && trace[|trace| - 1] == Reported(body, env)
  {
    hide Seed, Transitioned;
    trace := Failing(cfg, body, env);
    var s := trace[|trace| - 1];
    assert WorkersOf(s, 0) == s.workers && Failures(s.workers[1..]) == [];
    assert Failures(s.workers) == ["m"];
    trace := Extend(cfg, trace, Return(0));
    assert trace[|trace| - 1].queue == {"m"};
    assert trace[|trace| - 1].batches == Reported(body, env).batches;
  }

  /** The record again, in a second batch. */
  function Again(body: string, env: Option<Envelope>, pc: Pc): Worker {
    Worker(1, Record("m", body), env, pc, None)
  }

  lemma Redelivering(cfg: Config, body: string, env: Envelope, before: seq<State>) returns (trace: seq<State>)
    requires cfg.parse(body) == Some(env) && Run(cfg, before) && before[|before| - 1] == Reported(body, env)
    ensures Run(cfg, trace) && before <= trace
    ensures trace[|trace| - 1] == Reported(body, env).(
              workers := Reported(body, env).workers + [Again(body, Some(env), Settled(Skipped))],
              batches := Reported(body, env).batches + [Batch(0, Active, 1, 1)])
  {
    hide Stored;
    var s := Reported(body, env);
    trace := Extend(cfg, before, Receive(0, [Record("m", body)]));
    assert trace[|trace| - 1].workers == s.workers + [Again(body, None, Received)];
    trace := Extend(cfg, trace, Boot(1));
    assert trace[|trace| - 1].batches == s.batches + [Batch(0, Active, 1, 1)];
    trace := Extend(cfg, trace, Parse(1));
    assert trace[|trace| - 1].workers == s.workers + [Again(body, Some(env), Pc.Inserting)];
    trace := Extend(cfg, trace, InsertDuplicate(1));
    assert trace[|trace| - 1].workers == s.workers + [Again(body, Some(env), Settled(Skipped))];
  }

  /**
   * The branch is real: for every event with a handler there is a run in which the handler fails transiently, the
   * failure is stored and the record reported, and the record delivered again is skipped as a duplicate and acked,
   * the event handled once and failed for good.
   */
  lemma RedeliveryIsSkipped(cfg: Config, body: string, env: Envelope) returns (trace: seq<State>, n: nat)
    requires cfg.parse(body) == Some(env) && env.kind in cfg.handled
    ensures Run(cfg, trace) && n < |trace|
    ensures var s := trace[n];
            && |s.workers| == |s.batches| == 1 && env.eventId in s.docs
            && s.workers[0].pc == Settled(Failure(true, true)) && s.batches[0].phase == Returned(["m"])
            && "m" in s.queue && s.docs[env.eventId].status == Status.Failed
    ensures var s := trace[|trace| - 1];
            && |s.workers| == |s.batches| == 2
            && s.workers[1].record == s.workers[0].record == Record("m", body) && s.workers[1].pc == Settled(Skipped)
            && s.batches[1].phase == Returned([]) && "m" !in s.queue
            && s.dispatches == trace[n].dispatches && |s.dispatches| == 1 && s.docs == trace[n].docs
  {
    trace := Reporting(cfg, body, env);
    n := |trace| - 1;
    ghost var before := trace;
    trace := Redelivering(cfg, body, env, trace);
    assert trace[n] == before[n];
    var s := trace[|trace| - 1];
    var again := Again(body, Some(env), Settled(Skipped));
    assert WorkersOf(s, 1) == [again] && [again][1..] == [] && Failures([again]) == [];
    trace := Extend(cfg, trace, Return(1));
    assert again in [again];
  }
}
