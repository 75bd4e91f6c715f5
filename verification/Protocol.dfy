/**
 * The delivery protocol as interleaved steps: SQS, the unique-indexed collection, the DLQ and one
 * worker per delivered record. Every await of the pipeline is one step, so any schedule of
 * concurrent records, batches and Lambda containers is a sequence of actions.
 */
module Protocol {
  import opened Options
  import opened Events

  /** What the code is given: the envelope parser and the event types that have a handler. */
  datatype Config = Config(parse: string -> Option<Envelope>, handled: set<string>)

  datatype Record = Record(messageId: string, body: string)

  datatype Write =
    | InsertDoc(doc: Document)
    | Transition(eventId: string, status: Status, error: Option<string>)

  /** How one record ended. `Threw` is a transition that threw out of `processRecord`. */
  datatype Verdict =
    | Invalid
    | Skipped
    | Succeeded
    | Failure(transient: bool, persisted: bool)
    | Threw
    | Rejected

  /** The await a record's promise is suspended at. */
  datatype Pc =
    | Received
    | Refused
    | Inserting
    | InsertRefused
    | Persisted
    | Running
    | Dispatched
    | HandlerOk
    | HandlerThrew(transient: bool, reason: string)
    | Settled(verdict: Verdict)
    | Dead

  /** `inFlight` is a write that was sent but never acknowledged: it may still land, or never. */
  datatype Worker = Worker(batch: nat, record: Record, env: Option<Envelope>, pc: Pc, inFlight: Option<Write>)

  datatype Phase = Booting | Active | Returned(failures: seq<string>) | Crashed

  datatype Batch = Batch(container: nat, phase: Phase, first: nat, count: nat)

  datatype Dispatch = Dispatch(worker: nat, env: Envelope)

  datatype Copy = Copy(record: Record, landed: bool)

  datatype State = State(
    sent: map<string, string>,
    queue: set<string>,
    redriven: set<string>,
    docs: map<string, Document>,
    indexed: bool,
    latched: set<nat>,
    batches: seq<Batch>,
    workers: seq<Worker>,
    // What each port was asked to do, in order.
    owner: map<string, nat>,
    inserted: set<nat>,
    dispatches: seq<Dispatch>,
    transitions: seq<(nat, string)>,
    copies: set<Copy>,
    dlq: multiset<string>)

  datatype Action =
    | Publish(messageId: string, body: string)
    | Redrive(messageId: string)
    | Receive(container: nat, records: seq<Record>)
    | Boot(batch: nat)
    | Abort(batch: nat, indexLanded: bool)
    | Return(batch: nat)
    | Crash(batch: nat)
    | Land(worker: nat)
    | Parse(worker: nat)
    | Quarantine(worker: nat, landed: bool)
    | InsertReturns(worker: nat)
    | InsertDuplicate(worker: nat)
    | InsertThrows(worker: nat, transient: bool)
    | TransitionReturns(worker: nat)
    | TransitionThrows(worker: nat)
    | CallHandler(worker: nat)
    | HandlerReturns(worker: nat)
    | HandlerFails(worker: nat, transient: bool, reason: string)
    | Reject(worker: nat)

  const UNKNOWN_TYPE := "Unknown event type"

  function Init(): State {
    State(map[], {}, {}, map[], false, {}, [], [], map[], {}, [], [], {}, multiset{})
  }

  /** The write a worker is about to await at its program counter. */
  function NextWrite(cfg: Config, w: Worker): Option<Write> {
    if w.env.None? then None else
    var env := w.env.value;
    match w.pc
    case Inserting => Some(InsertDoc(Seed(env)))
    case Persisted =>
      if env.kind in cfg.handled then Some(Transition(env.eventId, InProgress, None))
      else Some(Transition(env.eventId, Status.Failed, Some(UNKNOWN_TYPE)))
    case HandlerOk => Some(Transition(env.eventId, Completed, None))
    case HandlerThrew(_, reason) => Some(Transition(env.eventId, Status.Failed, Some(reason)))
    case _ => None
  }

  /** Where a returned transition leads. */
  function AfterTransition(cfg: Config, w: Worker): Pc
    requires w.env.Some?
  {
    match w.pc
    case Persisted => if w.env.value.kind in cfg.handled then Running else Settled(Failure(false, true))
    case HandlerThrew(transient, _) => Settled(Failure(transient, true))
    case _ => Settled(Succeeded)
  }

  /** updateOne on the unique event_id; insertOne under the unique index. */
  function Written(docs: map<string, Document>, write: Write): map<string, Document> {
    match write
    case InsertDoc(doc) => if doc.eventId in docs then docs else docs[doc.eventId := doc]
    case Transition(id, status, error) =>
      if id in docs then docs[id := Transitioned(docs[id], status, error)] else docs
  }

  /** processRecordSafely resolves true exactly for a transient failure or a thrown transition. */
  predicate Retried(pc: Pc) {
    pc == Settled(Threw) || pc == Settled(Rejected) ||
    (pc.Settled? && pc.verdict.Failure? && pc.verdict.transient)
  }

  /** The ids `processBatch` reports, in record order. */
  function Failures(workers: seq<Worker>): (ids: seq<string>) {
    if workers == [] then []
    else (if Retried(workers[0].pc) then [workers[0].record.messageId] else []) + Failures(workers[1..])
  }

  predicate IsBatch(s: State, b: nat) {
    b < |s.batches| && s.batches[b].first + s.batches[b].count <= |s.workers|
  }

  function WorkersOf(s: State, b: nat): seq<Worker>
    requires IsBatch(s, b)
  {
    s.workers[s.batches[b].first..s.batches[b].first + s.batches[b].count]
  }

  predicate Live(s: State, r: nat) {
    && r < |s.workers|
    && s.workers[r].batch < |s.batches|
    && s.batches[s.workers[r].batch].phase == Active
  }

  predicate At(s: State, r: nat, pc: Pc) {
    Live(s, r) && s.workers[r].pc == pc
  }

  predicate Sending(cfg: Config, s: State, r: nat) {
    Live(s, r) && NextWrite(cfg, s.workers[r]).Some?
  }

  predicate Inserts(cfg: Config, s: State, r: nat) {
    Sending(cfg, s, r) && s.workers[r].pc == Inserting
  }

  predicate Transits(cfg: Config, s: State, r: nat) {
    Sending(cfg, s, r) && s.workers[r].pc != Inserting
  }

  predicate Duplicate(s: State, r: nat) {
    r < |s.workers| && s.workers[r].env.Some? && s.workers[r].env.value.eventId in s.docs
  }

  /** When an action may happen. Everything but the pipeline's own code is adversarial. */
  predicate Enabled(cfg: Config, s: State, a: Action) {
    match a
    case Publish(m, body) => m !in s.sent
    case Redrive(m) => m in s.queue
    // At-least-once: any published message, any number of times, even after its deletion.
    case Receive(c, records) => forall r :: r in records ==> r.messageId in s.sent && s.sent[r.messageId] == r.body
    case Boot(b) => IsBatch(s, b) && s.batches[b].phase == Booting
    case Abort(b, _) => IsBatch(s, b) && s.batches[b].phase == Booting
    case Return(b) =>
      && IsBatch(s, b) && s.batches[b].phase == Active
      && forall w :: w in WorkersOf(s, b) ==> w.pc.Settled?
    case Crash(b) => IsBatch(s, b) && (s.batches[b].phase == Active || s.batches[b].phase == Booting)
    case Land(r) => r < |s.workers| && s.workers[r].inFlight.Some?
    case Parse(r) => At(s, r, Received)
    case Quarantine(r, _) => At(s, r, Refused) || At(s, r, InsertRefused)
    case InsertReturns(r) => Inserts(cfg, s, r) && !(s.indexed && Duplicate(s, r))
    case InsertDuplicate(r) => Inserts(cfg, s, r) && s.indexed && Duplicate(s, r)
    case InsertThrows(r, _) => Inserts(cfg, s, r)
    case TransitionReturns(r) => Transits(cfg, s, r)
    case TransitionThrows(r) => Transits(cfg, s, r)
    case CallHandler(r) => At(s, r, Running) && s.workers[r].env.Some?
    case HandlerReturns(r) => At(s, r, Dispatched)
    case HandlerFails(r, _, _) => At(s, r, Dispatched)
    case Reject(r) => Live(s, r) && !s.workers[r].pc.Settled?
  }

  function SetPc(s: State, r: nat, pc: Pc): State
    requires r < |s.workers|
  {
    s.(workers := s.workers[r := s.workers[r].(pc := pc)])
  }

  function Lose(cfg: Config, s: State, r: nat, pc: Pc): State
    requires r < |s.workers|
  {
    s.(workers := s.workers[r := s.workers[r].(pc := pc, inFlight := NextWrite(cfg, s.workers[r]))])
  }

  function SetPhase(s: State, b: nat, phase: Phase): State
    requires b < |s.batches|
  {
    s.(batches := s.batches[b := s.batches[b].(phase := phase)])
  }

  /** A write that creates the document makes its sender the document's owner. */
  function Perform(s: State, r: nat, write: Write): State {
    s.(docs := Written(s.docs, write),
       owner := if write.InsertDoc? && write.doc.eventId !in s.docs then s.owner[write.doc.eventId := r] else s.owner)
  }

  function Delivered(s: State, records: seq<Record>): seq<Worker> {
    seq(|records|, i requires 0 <= i < |records| => Worker(|s.batches|, records[i], None, Received, None))
  }

  function MessageIds(workers: seq<Worker>): seq<string> {
    seq(|workers|, i requires 0 <= i < |workers| => workers[i].record.messageId)
  }

  function Redriven(s: State, m: string): State {
    s.(queue := s.queue - {m}, redriven := s.redriven + {m},
       dlq := if m in s.sent then s.dlq + multiset{s.sent[m]} else s.dlq)
  }

  function Invoked(s: State, container: nat, records: seq<Record>): State {
    s.(batches := s.batches + [Batch(container, Booting, |s.workers|, |records|)],
       workers := s.workers + Delivered(s, records))
  }

  /** The latch: the index is ensured unless this container already saw it ensured. */
  function Booted(s: State, b: nat): State
    requires IsBatch(s, b)
  {
    SetPhase(s, b, Active).(
      indexed := s.indexed || s.batches[b].container !in s.latched,
      latched := s.latched + {s.batches[b].container})
  }

  /** Bootstrap failed: every record is reported, whether or not the index was created. */
  function Aborted(s: State, b: nat, indexLanded: bool): State
    requires IsBatch(s, b)
  {
    SetPhase(s, b, Returned(MessageIds(WorkersOf(s, b)))).(indexed := s.indexed || indexLanded)
  }

  /** The response reaches SQS, which deletes every delivered message not reported. */
  function Answered(s: State, b: nat): State
    requires IsBatch(s, b)
  {
    var ids := Failures(WorkersOf(s, b));
    SetPhase(s, b, Returned(ids)).(
      queue := s.queue - (set w | w in WorkersOf(s, b) && w.record.messageId !in ids :: w.record.messageId))
  }

  function Landed(s: State, r: nat): State
    requires r < |s.workers| && s.workers[r].inFlight.Some?
  {
    Perform(s.(workers := s.workers[r := s.workers[r].(inFlight := None)]), r, s.workers[r].inFlight.value)
  }

  function Parsed(cfg: Config, s: State, r: nat): State
    requires r < |s.workers|
  {
    var env := cfg.parse(s.workers[r].record.body);
    s.(workers := s.workers[r := s.workers[r].(env := env, pc := if env.None? then Refused else Inserting)])
  }

  /** A copy of the raw body is sent to the DLQ; whether it lands never changes the verdict. */
  function Quarantined(s: State, r: nat, landed: bool): State
    requires r < |s.workers|
  {
    var w := s.workers[r];
    SetPc(s, r, Settled(if w.pc == Refused then Invalid else Failure(false, false))).(
      copies := s.copies + {Copy(w.record, landed)},
      dlq := if landed then s.dlq + multiset{w.record.body} else s.dlq)
  }

  function Inserted(cfg: Config, s: State, r: nat): State
    requires Inserts(cfg, s, r)
  {
    Perform(SetPc(s, r, Persisted), r, NextWrite(cfg, s.workers[r]).value).(inserted := s.inserted + {r})
  }

  function InsertLostAt(cfg: Config, s: State, r: nat, transient: bool): State
    requires r < |s.workers|
  {
    Lose(cfg, s, r, if transient then Settled(Failure(true, false)) else InsertRefused)
  }

  function Transited(cfg: Config, s: State, r: nat): State
    requires Transits(cfg, s, r)
  {
    var write := NextWrite(cfg, s.workers[r]).value;
    Perform(SetPc(s, r, AfterTransition(cfg, s.workers[r])), r, write).(
      transitions := s.transitions + [(r, write.eventId)])
  }

  function TransitLost(cfg: Config, s: State, r: nat): State
    requires Transits(cfg, s, r)
  {
    Lose(cfg, s, r, Settled(Threw)).(
      transitions := s.transitions + [(r, NextWrite(cfg, s.workers[r]).value.eventId)])
  }

  function Called(s: State, r: nat): State
    requires r < |s.workers| && s.workers[r].env.Some?
  {
    SetPc(s, r, Dispatched).(dispatches := s.dispatches + [Dispatch(r, s.workers[r].env.value)])
  }

  function Stop(cfg: Config, w: Worker, pc: Pc): Worker {
    w.(pc := pc, inFlight := if w.inFlight.Some? then w.inFlight else NextWrite(cfg, w))
  }

  function RejectedAt(cfg: Config, s: State, r: nat): State
    requires r < |s.workers|
  {
    s.(workers := s.workers[r := Stop(cfg, s.workers[r], Settled(Rejected))])
  }

  /** The Lambda dies: every one of its promises is abandoned. */
  function Killed(cfg: Config, s: State, b: nat): State
    requires b < |s.batches|
  {
    SetPhase(s, b, Crashed).(workers := seq(|s.workers|, r requires 0 <= r < |s.workers| =>
      if s.workers[r].batch == b then Stop(cfg, s.workers[r], Dead) else s.workers[r]))
  }

  /** The state after an action. */
  function Apply(cfg: Config, s: State, a: Action): State
    requires Enabled(cfg, s, a)
  {
    match a
    case Publish(m, body) => s.(sent := s.sent[m := body], queue := s.queue + {m})
    case Redrive(m) => Redriven(s, m)
    case Receive(c, records) => Invoked(s, c, records)
    case Boot(b) => Booted(s, b)
    case Abort(b, indexLanded) => Aborted(s, b, indexLanded)
    case Return(b) => Answered(s, b)
    case Crash(b) => Killed(cfg, s, b)
    case Land(r) => Landed(s, r)
    case Parse(r) => Parsed(cfg, s, r)
    case Quarantine(r, landed) => Quarantined(s, r, landed)
    case InsertReturns(r) => Inserted(cfg, s, r)
    case InsertDuplicate(r) => SetPc(s, r, Settled(Skipped))
    case InsertThrows(r, transient) => InsertLostAt(cfg, s, r, transient)
    case TransitionReturns(r) => Transited(cfg, s, r)
    case TransitionThrows(r) => TransitLost(cfg, s, r)
    case CallHandler(r) => Called(s, r)
    case HandlerReturns(r) => SetPc(s, r, HandlerOk)
    case HandlerFails(r, transient, reason) => SetPc(s, r, HandlerThrew(transient, reason))
    case Reject(r) => RejectedAt(cfg, s, r)
  }

  ghost predicate Step(cfg: Config, s: State, s': State) {
    exists a :: Enabled(cfg, s, a) && s' == Apply(cfg, s, a)
  }

  ghost predicate StepAt(cfg: Config, trace: seq<State>, i: nat)
    requires i + 1 < |trace|
  {
    Step(cfg, trace[i], trace[i + 1])
  }

  ghost predicate Run(cfg: Config, trace: seq<State>) {
    && |trace| > 0 && trace[0] == Init()
    && forall i :: 0 <= i < |trace| - 1 ==> StepAt(cfg, trace, i)
  }
}
