/**
 * The consumer's own code, in its own order, running over the protocol. Before each await any
 * number of other steps may happen (`Interfere`); the await itself is one protocol action. So every
 * execution of these methods extends a run, and inherits everything proved about runs.
 */
module Pipeline {
  import opened Options
  import opened Events
  import opened Protocol
  import opened ProtocolInvariant
  import opened ProtocolSteps
  import opened ProtocolSystem
  import opened ProtocolSafety
  import opened ProtocolOutcomes

  /** `ProcessRecordResult`, or the exception of a transition that threw. */
  datatype Outcome = Ok | NotOk(transient: bool, persisted: bool) | Exception

  datatype InsertOutcome = Resolved | DuplicateError | OtherError(transient: bool)

  datatype HandlerOutcome = Returns | Throws(transient: bool, reason: string)

  predicate IsWorkerAction(a: Action) {
    !(a.Publish? || a.Redrive? || a.Receive? || a.Boot? || a.Abort? || a.Return? || a.Crash? || a.Land?)
  }

  /** How many more awaits a record can take. */
  function Rank(pc: Pc): nat {
    match pc
    case Received => 9
    case Refused => 1
    case Inserting => 8
    case InsertRefused => 1
    case Persisted => 7
    case Running => 6
    case Dispatched => 5
    case HandlerOk => 4
    case HandlerThrew(_, _) => 4
    case Dead => 1
    case _ => 0
  }

  function Work(ws: seq<Worker>): nat {
    if ws == [] then 0 else Rank(ws[0].pc) + Work(ws[1..])
  }

  lemma WorkDrops(ws: seq<Worker>, ws': seq<Worker>, k: nat)
    requires k < |ws| == |ws'| && Rank(ws'[k].pc) < Rank(ws[k].pc)
    requires forall i :: 0 <= i < |ws| && i != k ==> ws'[i] == ws[i]
    ensures Work(ws') < Work(ws)
  {
    if k > 0 {
      WorkDrops(ws[1..], ws'[1..], k - 1);
    } else {
      assert ws'[1..] == ws[1..];
    }
  }

  /** A record's own step always brings it closer to its verdict. */
  lemma WorkerActionAdvances(cfg: Config, s: State, a: Action)
    requires Enabled(cfg, s, a) && IsWorkerAction(a)
    requires a.TransitionReturns? ==> s.workers[a.worker].env.Some?
    ensures var s' := Apply(cfg, s, a);
            && |s'.workers| == |s.workers| && s'.batches == s.batches && a.worker < |s.workers|
            && Rank(s'.workers[a.worker].pc) < Rank(s.workers[a.worker].pc)
            && forall x :: 0 <= x < |s.workers| && x != a.worker ==> s'.workers[x] == s.workers[x]
  {
  }

  lemma FailuresAppend(ws: seq<Worker>, w: Worker)
    ensures Failures(ws + [w]) == Failures(ws) + (if Retried(w.pc) then [w.record.messageId] else [])
  {
    if ws == [] {
      assert ws + [w] == [w] && [w][1..] == [];
    } else {
      assert (ws + [w])[1..] == ws[1..] + [w];
      FailuresAppend(ws[1..], w);
    }
  }

  /** The loop that assembles `batchItemFailures` from the settled outcomes. */
  method BatchItemFailures(ws: seq<Worker>) returns (failures: seq<string>)
    ensures failures == Failures(ws)
  {
    failures := [];
    for index := 0 to |ws|
      invariant failures == Failures(ws[..index])
    {
      FailuresAppend(ws[..index], ws[index]);
      assert ws[..index + 1] == ws[..index] + [ws[index]];
      if ws[index].pc == Settled(Rejected) {
        failures := failures + [ws[index].record.messageId];
        continue;
      }
      if Retried(ws[index].pc) {
        failures := failures + [ws[index].record.messageId];
      }
    }
    assert ws[..|ws|] == ws;
  }

  /** Where a record stands when its lifecycle ends with this result. */
  function EndsAt(result: Outcome, duplicate: bool): Pc {
    match result
    case Ok => Settled(Succeeded)
    case Exception => Settled(Threw)
    case NotOk(transient, persisted) =>
      if duplicate then Settled(Skipped)
      else if !transient && !persisted then InsertRefused
      else Settled(Failure(transient, persisted))
  }

  /** Ok: the document is COMPLETED; persisted: it is FAILED; else this record changed the status of none. */
  ghost predicate Told(s: State, r: nat, id: string, result: Outcome) {
    && (result == Ok ==> id in s.docs && s.docs[id].status == Completed && id in s.owner && s.owner[id] == r)
    && (result.NotOk? && result.persisted ==>
          id in s.docs && s.docs[id].status == Status.Failed && id in s.owner && s.owner[id] == r)
    && (result.NotOk? && !result.persisted ==> forall k :: 0 <= k < |s.transitions| ==> s.transitions[k].0 != r)
  }

  /**
   * Why: a returned handler, an unknown type, or the failure of the insert or of the handler, transient exactly as the
   * result says and stored with its reason.
   */
  ghost predicate Explained(cfg: Config, trace: seq<State>, r: nat, result: Outcome, duplicate: bool)
    requires |trace| > 0 && r < |trace[|trace| - 1].workers|
  {
    var n := |trace| - 1;
    var w := trace[n].workers[r];
    && (result == Ok ==> Earlier(cfg, trace, n, HandlerReturns(r)))
    && (result == Exception ==> Earlier(cfg, trace, n, TransitionThrows(r)))
    && (duplicate ==> Earlier(cfg, trace, n, InsertDuplicate(r)))
    && (result.NotOk? && !result.persisted && !duplicate ==> Earlier(cfg, trace, n, InsertThrows(r, result.transient)))
    && (result.NotOk? && result.persisted ==>
          || (exists reason ::
                HandlerFailed(cfg, trace, n, r, result.transient, reason) && FailedFor(trace[n], w, reason))
          || (!result.transient && w.env.Some? && w.env.value.kind !in cfg.handled &&
              FailedFor(trace[n], w, "Unknown event type")))
    && (forall transient, reason :: HandlerFailed(cfg, trace, n, r, transient, reason) ==>
          result == Exception || result == NotOk(transient, true))
  }

  class Consumer {
    const cfg: Config
    var st: State
    ghost var trace: seq<State>

    ghost predicate Valid()
      reads this
    {
      Run(cfg, trace) && trace[|trace| - 1] == st
    }

    constructor (cfg: Config)
      ensures Valid() && this.cfg == cfg && st == Init()
    {
      this.cfg := cfg;
      st := Init();
      trace := [Init()];
    }

    lemma Reached()
      requires Valid()
      ensures Inv(cfg, st)
    {
      RunKeepsInvariant(cfg, trace, |trace| - 1);
    }

    method Await(a: Action)
      requires Valid() && Enabled(cfg, st, a)
      modifies this
      ensures Valid() && st == Apply(cfg, old(st), a) && trace == old(trace) + [st]
    {
      ghost var before := trace;
      ghost var from := st;
      st := Apply(cfg, st, a);
      trace := trace + [st];
      assert Step(cfg, from, st);
      forall i | 0 <= i < |trace| - 1 ensures StepAt(cfg, trace, i) {
        if i < |before| - 1 { assert StepAt(cfg, before, i); }
      }
    }

    /** While worker `r` is suspended anything else may run: other records, containers, SQS. */
    method Interfere(r: nat)
      requires Valid() && Live(st, r)
      modifies this
      ensures Valid() && old(trace) <= trace
      ensures Live(st, r) && st.workers[r] == old(st.workers[r])
    {
      var steps: int :| 0 <= steps;
      for i := 0 to steps
        invariant Valid() && old(trace) <= trace
        invariant Live(st, r) && st.workers[r] == old(st.workers[r])
      {
        var a: Action := *;
        if Enabled(cfg, st, a) {
          var next := Apply(cfg, st, a);
          if Live(next, r) && next.workers[r] == st.workers[r] {
            Await(a);
          }
        }
      }
    }

    /** The repository's insertOne under the unique index, as `observe` reports it. */
    method InsertStarted(r: nat) returns (outcome: InsertOutcome)
      requires Valid() && At(st, r, Inserting) && st.workers[r].env.Some?
      modifies this
      ensures Valid() && old(trace) <= trace && Live(st, r)
      ensures st.workers[r].(pc := Inserting, inFlight := None) == old(st.workers[r]).(inFlight := None)
      ensures st.workers[r].pc ==
                match outcome
                case Resolved => Persisted
                case DuplicateError => Settled(Skipped)
                case OtherError(transient) => if transient then Settled(Failure(true, false)) else InsertRefused
    {
      Interfere(r);
      var throws, transient := *, *;
      if throws {
        Await(InsertThrows(r, transient));
        return OtherError(transient);
      } else if st.indexed && Duplicate(st, r) {
        Await(InsertDuplicate(r));
        return DuplicateError;
      } else {
        Await(InsertReturns(r));
        return Resolved;
      }
    }

    /** The repository's updateOne; false is an exception. */
    method TransitionTo(r: nat, status: Status, error: Option<string>) returns (ok: bool)
      requires Valid() && Live(st, r) && st.workers[r].env.Some?
      requires NextWrite(cfg, st.workers[r]) == Some(Transition(st.workers[r].env.value.eventId, status, error))
      modifies this
      ensures Valid() && old(trace) <= trace && Live(st, r)
      ensures st.workers[r].record == old(st.workers[r].record) && st.workers[r].env == old(st.workers[r].env)
      ensures st.workers[r].pc == if ok then AfterTransition(cfg, old(st.workers[r])) else Settled(Threw)
    {
      Interfere(r);
      ok := *;
      if ok {
        Await(TransitionReturns(r));
      } else {
        Await(TransitionThrows(r));
      }
    }

    method RunHandler(r: nat) returns (outcome: HandlerOutcome)
      requires Valid() && At(st, r, Running) && st.workers[r].env.Some?
      modifies this
      ensures Valid() && old(trace) <= trace && Live(st, r)
      ensures st.workers[r].record == old(st.workers[r].record) && st.workers[r].env == old(st.workers[r].env)
      ensures st.workers[r].pc ==
                match outcome
                case Returns => HandlerOk
                case Throws(transient, reason) => HandlerThrew(transient, reason)
    {
      Interfere(r);
      Await(CallHandler(r));
      Interfere(r);
      var throws, transient, reason := *, *, *;
      if throws {
        Await(HandlerFails(r, transient, reason));
        return Throws(transient, reason);
      }
      Await(HandlerReturns(r));
      return Returns;
    }

    /** One record's lifecycle: persist, look the handler up, mark, dispatch, mark again. */
    method ProcessRecord(r: nat) returns (result: Outcome, duplicate: bool)
      requires Valid() && At(st, r, Inserting) && st.workers[r].env.Some?
      modifies this
      ensures Valid() && old(trace) <= trace && Live(st, r)
      ensures st.workers[r].record == old(st.workers[r].record) && st.workers[r].env == old(st.workers[r].env)
      ensures st.workers[r].pc == EndsAt(result, duplicate)
      ensures duplicate ==> result == NotOk(false, false)
      ensures Told(st, r, old(st.workers[r].env.value.eventId), result)
      ensures Explained(cfg, trace, r, result, duplicate)
      ensures duplicate ==> old(st.workers[r].env.value.eventId) in st.docs
    {
      hide Valid, Told, Explained;
      var env := st.workers[r].env.value;
      result, duplicate := Exception, false;
      var inserted := InsertStarted(r);
      if inserted == Resolved {
        if env.kind !in cfg.handled {
          var ok := TransitionTo(r, Status.Failed, Some(UNKNOWN_TYPE));
          if ok { result := NotOk(false, true); }
        } else {
          var ok := TransitionTo(r, InProgress, None);
          if ok {
            var handled := RunHandler(r);
            if handled.Throws? {
              ok := TransitionTo(r, Status.Failed, Some(handled.reason));
              if ok { result := NotOk(handled.transient, true); }
            } else {
              ok := TransitionTo(r, Completed, None);
              if ok { result := Ok; }
            }
          }
        }
      } else {
        duplicate := inserted.DuplicateError?;
        result := NotOk(inserted.OtherError? && inserted.transient, false);
      }
      SettledRecord(r, result, duplicate);
      ExplainedRecord(r, result, duplicate);
    }

    lemma TraceEndsHere()
      requires Valid()
      ensures |trace| > 0 && trace[|trace| - 1] == st && Run(cfg, trace)
    {
    }

    lemma ExplainedRecord(r: nat, result: Outcome, duplicate: bool)
      requires Valid() && Live(st, r) && st.workers[r].pc == EndsAt(result, duplicate)
      requires duplicate ==> result == NotOk(false, false)
      ensures |trace| > 0 && trace[|trace| - 1] == st && Explained(cfg, trace, r, result, duplicate)
    {
      hide Run, Did, FailedFor;
      TraceEndsHere();
      var n := |trace| - 1;
      EveryEndHasItsCause(cfg, trace, n, r);
      forall transient, reason | HandlerFailed(cfg, trace, n, r, transient, reason)
        ensures result == Exception || result == NotOk(transient, true)
      {
        var i :| 0 <= i < n && Did(cfg, trace, i, HandlerFails(r, transient, reason));
        HandlerFailureDecides(cfg, trace, i, n, r, transient, reason);
        DeadIsOver(cfg, trace, n, r);
      }
    }

    /** What the protocol's invariant says about a record at the end of `ProcessRecord`. */
    lemma SettledRecord(r: nat, result: Outcome, duplicate: bool)
      requires Valid() && Live(st, r) && st.workers[r].env.Some? && st.workers[r].pc == EndsAt(result, duplicate)
      requires duplicate ==> result == NotOk(false, false)
      ensures Told(st, r, st.workers[r].env.value.eventId, result)
      ensures duplicate ==> st.workers[r].env.value.eventId in st.docs
    {
      hide Run, SeededFrom, InFlightOk, Accounted, BatchOk, DispatchOk, Valid;
      Reached();
      InvIsLocal(cfg, st, r);
      var id := st.workers[r].env.value.eventId;
      if r in st.inserted { assert DocOk(st, id); }
      forall k | 0 <= k < |st.transitions| && st.transitions[k].0 == r ensures r in st.inserted {
        assert TransitionOk(st, k);
      }
    }

    /** Copies the raw body to the DLQ. Never fails the record: whether the copy landed changes nothing. */
    method Quarantine(r: nat) returns (landed: bool)
      requires Valid() && (At(st, r, Refused) || At(st, r, InsertRefused))
      modifies this
      ensures Valid() && old(trace) <= trace && Live(st, r)
      ensures st.workers[r].record == old(st.workers[r].record)
      ensures st.workers[r].pc == Settled(if old(st.workers[r].pc) == Refused then Invalid else Failure(false, false))
      ensures Copy(st.workers[r].record, landed) in st.copies
    {
      Interfere(r);
      landed := *;
      Await(Action.Quarantine(r, landed));
    }

    /** True asks SQS to redeliver; false acknowledges. */
    method ProcessOneRecord(r: nat) returns (retry: bool)
      requires Valid() && At(st, r, Inserting) && st.workers[r].env.Some?
      modifies this
      ensures Valid() && old(trace) <= trace && Live(st, r)
      ensures st.workers[r].record == old(st.workers[r].record)
      ensures st.workers[r].pc.Settled? && retry == Retried(st.workers[r].pc)
      ensures |trace| > 0 && (retry <==> MayRecover(cfg, trace, |trace| - 1, r))
      ensures !retry ==> AckedSafely(r)
    {
      hide Told, Explained, MayRecover, Valid, AckedSafely, Inv, Local;
      var result, duplicate := ProcessRecord(r);
      TraceEndsHere();
      if result == Exception {
        RetriedExactly(cfg, trace, |trace| - 1, r);
        return true;
      }
      if result == Ok || duplicate {
        retry := false;
      } else {
        if !result.transient && !result.persisted {
          var _ := Quarantine(r);
        }
        retry := result.transient;
      }
      TraceEndsHere();
      RetriedExactly(cfg, trace, |trace| - 1, r);
      if !retry { AckIsSafe(r); }
    }

    /** An acknowledged record has a document for its event or was copied verbatim. */
    ghost predicate AckedSafely(r: nat)
      requires r < |st.workers|
      reads this
    {
      var record := st.workers[r].record;
      || Copied(st, record)
      || (cfg.parse(record.body).Some? && cfg.parse(record.body).value.eventId in st.docs)
    }

    lemma AckIsSafe(r: nat)
      requires Valid() && Live(st, r) && st.workers[r].pc.Settled? && !Retried(st.workers[r].pc)
      ensures AckedSafely(r)
    {
      Reached();
      InvIsLocal(cfg, st, r);
    }

    /** Parse, refuse and copy what cannot be parsed, else process. */
    method ProcessRecordSafely(r: nat) returns (retry: bool)
      requires Valid() && At(st, r, Received)
      modifies this
      ensures Valid() && old(trace) <= trace && Live(st, r)
      ensures st.workers[r].record == old(st.workers[r].record)
      ensures st.workers[r].pc.Settled? && retry == Retried(st.workers[r].pc)
      ensures |trace| > 0 && (retry <==> MayRecover(cfg, trace, |trace| - 1, r))
      ensures cfg.parse(st.workers[r].record.body).None? ==> !retry && Copied(st, st.workers[r].record)
      ensures !retry ==> AckedSafely(r)
    {
      hide Valid, MayRecover, AckedSafely;
      Await(Parse(r));
      if st.workers[r].env.None? {
        var _ := Quarantine(r);
        TraceEndsHere();
        RetriedExactly(cfg, trace, |trace| - 1, r);
        AckIsSafe(r);
        return false;
      }
      retry := ProcessOneRecord(r);
    }

    /** Steps outside a running batch: other invocations, SQS, writes that land late elsewhere. */
    method Elsewhere(b: nat)
      requires Valid() && IsBatch(st, b)
      modifies this
      ensures Valid() && old(trace) <= trace
      ensures IsBatch(st, b) && st.batches[b] == old(st.batches[b]) && WorkersOf(st, b) == old(WorkersOf(st, b))
    {
      var steps: int :| 0 <= steps;
      for i := 0 to steps
        invariant Valid() && old(trace) <= trace
        invariant IsBatch(st, b) && st.batches[b] == old(st.batches[b]) && WorkersOf(st, b) == old(WorkersOf(st, b))
      {
        var a: Action := *;
        if Enabled(cfg, st, a) {
          var next := Apply(cfg, st, a);
          if IsBatch(next, b) && next.batches[b] == st.batches[b] && WorkersOf(next, b) == WorkersOf(st, b) {
            Await(a);
          }
        }
      }
    }

    /** Bootstrap: connect and, unless this container already did, ensure the unique index. */
    method EnsureIndexes(b: nat) returns (ok: bool)
      requires Valid() && IsBatch(st, b) && st.batches[b].phase == Booting
      modifies this
      ensures Valid() && old(trace) <= trace && IsBatch(st, b) && WorkersOf(st, b) == old(WorkersOf(st, b))
      ensures st.batches[b] ==
              old(st.batches[b]).(phase := if ok then Active else Returned(MessageIds(WorkersOf(st, b))))
    {
      var indexLanded;
      ok, indexLanded := *, *;
      if ok {
        Await(Boot(b));
      } else {
        Await(Abort(b, indexLanded));
      }
    }

    /** Promise.allSettled over the records, in any interleaving, then the failures in record order. */
    method Settle(b: nat) returns (failures: seq<string>)
      requires Valid() && IsBatch(st, b) && st.batches[b].phase == Active
      modifies this
      ensures Valid() && old(trace) <= trace && IsBatch(st, b)
      ensures st.batches[b] == old(st.batches[b]).(phase := Returned(failures))
    {
      AllSettled(b);
      failures := BatchItemFailures(WorkersOf(st, b));
      Await(Return(b));
    }

    /** One invocation. */
    method ProcessBatch(container: nat, records: seq<Record>) returns (failures: seq<string>)
      requires Valid() && Enabled(cfg, st, Receive(container, records))
      modifies this
      ensures Valid() && old(trace) <= trace
      ensures IsBatch(st, |old(st.batches)|) && st.batches[|old(st.batches)|].phase == Returned(failures)
      ensures Verdicts(WorkersOf(st, |old(st.batches)|), failures)
    {
      var b := |st.batches|;
      Await(Receive(container, records));
      Elsewhere(b);
      var ok := EnsureIndexes(b);
      if ok {
        failures := Settle(b);
      } else {
        failures := MessageIds(WorkersOf(st, b));
      }
      ReturnedVerdicts(b);
    }

    lemma ReturnedVerdicts(b: nat)
      requires Valid() && b < |st.batches| && st.batches[b].phase.Returned?
      ensures IsBatch(st, b) && Verdicts(WorkersOf(st, b), st.batches[b].phase.failures)
    {
      Reached();
      assert BatchOk(st, b);
    }

    /** One await of one record, whichever its program counter allows. */
    method Turn(r: nat)
      requires Valid() && Live(st, r) && !st.workers[r].pc.Settled?
      requires InsertReturned(st.workers[r].pc) ==> st.workers[r].env.Some?
      modifies this
      ensures Valid() && old(trace) <= trace && st.batches == old(st.batches) && |st.workers| == |old(st.workers)|
      ensures Rank(st.workers[r].pc) < Rank(old(st.workers[r].pc))
      ensures forall x :: 0 <= x < |st.workers| && x != r ==> st.workers[x] == old(st.workers[x])
    {
      assert Enabled(cfg, st, Reject(r));
      var a :| Enabled(cfg, st, a) && IsWorkerAction(a) && a.worker == r;
      WorkerActionAdvances(cfg, st, a);
      Await(a);
    }

    method Advance(b: nat, i: nat)
      requires Valid() && IsBatch(st, b) && st.batches[b].phase == Active
      requires i < |WorkersOf(st, b)| && !WorkersOf(st, b)[i].pc.Settled?
      modifies this
      ensures Valid() && old(trace) <= trace && IsBatch(st, b) && st.batches[b] == old(st.batches[b])
      ensures Work(WorkersOf(st, b)) < old(Work(WorkersOf(st, b)))
    {
      ghost var before := WorkersOf(st, b);
      RecordIsLive(b, i);
      Turn(st.batches[b].first + i);
      WorkDrops(before, WorkersOf(st, b), i);
    }

    lemma RecordIsLive(b: nat, i: nat)
      requires Valid() && IsBatch(st, b) && st.batches[b].phase == Active && i < st.batches[b].count
      ensures Live(st, st.batches[b].first + i)
      ensures InsertReturned(st.workers[st.batches[b].first + i].pc) ==> st.workers[st.batches[b].first + i].env.Some?
    {
      Reached();
      assert BatchOk(st, b);
      assert WorkerOk(cfg, st, st.batches[b].first + i);
    }

    /** Whatever the interleaving, every record of a batch reaches a verdict. */
    method AllSettled(b: nat)
      requires Valid() && IsBatch(st, b) && st.batches[b].phase == Active
      modifies this
      ensures Valid() && old(trace) <= trace && IsBatch(st, b) && st.batches[b] == old(st.batches[b])
      ensures forall w :: w in WorkersOf(st, b) ==> w.pc.Settled?
    {
      while exists i :: 0 <= i < |WorkersOf(st, b)| && !WorkersOf(st, b)[i].pc.Settled?
        invariant Valid() && old(trace) <= trace && IsBatch(st, b) && st.batches[b] == old(st.batches[b])
        decreases Work(WorkersOf(st, b))
      {
        Elsewhere(b);
        var i :| 0 <= i < |WorkersOf(st, b)| && !WorkersOf(st, b)[i].pc.Settled?;
        Advance(b, i);
      }
    }
  }
}
