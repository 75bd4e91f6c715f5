/** What decides how a record ends: the answers its own awaits got, and nothing else. */
module ProtocolOutcomes {
  import opened Options
  import opened Events
  import opened Protocol
  import opened ProtocolInvariant
  import opened ProtocolSteps
  import opened ProtocolSystem
  import opened ProtocolSafety

  /** Step i of the run is this action. */
  ghost predicate Did(cfg: Config, trace: seq<State>, i: nat, a: Action) {
    i + 1 < |trace| && Enabled(cfg, trace[i], a) && trace[i + 1] == Apply(cfg, trace[i], a)
  }

  // ----- one step -----

  /** Where an action of its own takes a record, written out. */
  predicate Course(cfg: Config, w: Worker, r: nat, a: Action, pc: Pc) {
    match w.pc
    case Received => a == Parse(r) && (pc == Refused || pc == Inserting)
    case Refused => a.Quarantine? && pc == Settled(Invalid)
    case Inserting =>
      || (a == InsertReturns(r) && pc == Persisted)
      || (a == InsertDuplicate(r) && pc == Settled(Skipped))
      || (a == InsertThrows(r, true) && pc == Settled(Failure(true, false)))
      || (a == InsertThrows(r, false) && pc == InsertRefused)
    case InsertRefused => a.Quarantine? && pc == Settled(Failure(false, false))
    case Persisted =>
      || (a == TransitionThrows(r) && pc == Settled(Threw))
      || (a == TransitionReturns(r) && w.env.Some? &&
          pc == if w.env.value.kind in cfg.handled then Running else Settled(Failure(false, true)))
    case Running => a == CallHandler(r) && pc == Dispatched
    case Dispatched =>
      || (a == HandlerReturns(r) && pc == HandlerOk)
      || (a.HandlerFails? && a.worker == r && pc == HandlerThrew(a.transient, a.reason))
    case HandlerOk =>
      || (a == TransitionThrows(r) && pc == Settled(Threw))
      || (a == TransitionReturns(r) && pc == Settled(Succeeded))
    case HandlerThrew(transient, _) =>
      || (a == TransitionThrows(r) && pc == Settled(Threw))
      || (a == TransitionReturns(r) && pc == Settled(Failure(transient, true)))
    case Settled(_) => false
    case Dead => false
  }

  lemma StepTakesCourse(cfg: Config, s: State, a: Action, r: nat)
    requires Enabled(cfg, s, a) && r < |s.workers|
    ensures var s' := Apply(cfg, s, a);
            && r < |s'.workers|
            && var pc := s'.workers[r].pc;
            || pc == s.workers[r].pc || (a.Crash? && pc == Dead) || (a == Reject(r) && pc == Settled(Rejected))
            || Course(cfg, s.workers[r], r, a, pc)
  {
    hide Duplicate, Written, Failures;
  }

  /** A transition that returns writes what its record was about to write. */
  lemma TransitionWrites(cfg: Config, s: State, r: nat)
    requires Inv(cfg, s) && Enabled(cfg, s, TransitionReturns(r))
    ensures var s', w := Apply(cfg, s, TransitionReturns(r)), s.workers[r];
            && w.env.Some? && s'.workers[r].env == w.env && w.env.value.eventId in s.docs
            && w.env.value.eventId in s'.docs
            && var d := s'.docs[w.env.value.eventId];
            && (w.pc.HandlerThrew? ==> d.status == Status.Failed && d.error == Some(w.pc.reason))
            && (w.pc == Persisted && w.env.value.kind !in cfg.handled ==>
                  d.status == Status.Failed && d.error == Some("Unknown event type"))
            && (w.pc == HandlerOk ==> d.status == Completed)
  {
    hide Inv, WorkerOk, DocOk, LogsOk, Consistent, SeededFrom, CanFollow, Statuses;
    InvIsLocal(cfg, s, r);
    NextTransitionFollows(cfg, s, r);
  }

  lemma StepBetween(cfg: Config, trace: seq<State>, i: nat) returns (a: Action)
    requires Run(cfg, trace) && i + 1 < |trace|
    ensures Did(cfg, trace, i, a) && Inv(cfg, trace[i])
  {
    assert StepAt(cfg, trace, i);
    RunKeepsInvariant(cfg, trace, i);
    a :| Enabled(cfg, trace[i], a) && trace[i + 1] == Apply(cfg, trace[i], a);
  }

  // ----- backwards: every end has its cause -----

  ghost predicate Earlier(cfg: Config, trace: seq<State>, j: nat, a: Action) {
    exists i :: 0 <= i < j && Did(cfg, trace, i, a)
  }

  ghost predicate HandlerFailed(cfg: Config, trace: seq<State>, j: nat, r: nat, transient: bool, reason: string) {
    Earlier(cfg, trace, j, HandlerFails(r, transient, reason))
  }

  /** The document of the record's event says FAILED, for this reason. */
  predicate FailedFor(s: State, w: Worker, reason: string) {
    && w.env.Some? && w.env.value.eventId in s.docs
    && s.docs[w.env.value.eventId].status == Status.Failed && s.docs[w.env.value.eventId].error == Some(reason)
  }

  ghost predicate HasCause(cfg: Config, trace: seq<State>, j: nat, r: nat)
    requires j < |trace| && r < |trace[j].workers|
  {
    var w := trace[j].workers[r];
    match w.pc
    case HandlerThrew(transient, reason) => HandlerFailed(cfg, trace, j, r, transient, reason)
    case HandlerOk => Earlier(cfg, trace, j, HandlerReturns(r))
    case InsertRefused => Earlier(cfg, trace, j, InsertThrows(r, false))
    case Settled(Succeeded) => Earlier(cfg, trace, j, HandlerReturns(r))
    case Settled(Skipped) => Earlier(cfg, trace, j, InsertDuplicate(r))
    case Settled(Threw) => Earlier(cfg, trace, j, TransitionThrows(r))
    case Settled(Rejected) => Earlier(cfg, trace, j, Reject(r))
    case Settled(Failure(transient, false)) => Earlier(cfg, trace, j, InsertThrows(r, transient))
    case Settled(Failure(transient, true)) =>
      || (exists reason :: HandlerFailed(cfg, trace, j, r, transient, reason) && FailedFor(trace[j], w, reason))
      || (!transient && w.env.Some? && w.env.value.kind !in cfg.handled && FailedFor(trace[j], w, "Unknown event type"))
    case _ => true
  }

  lemma LaterStill(cfg: Config, trace: seq<State>, i: nat, j: nat, a: Action)
    requires i <= j && Earlier(cfg, trace, i, a)
    ensures Earlier(cfg, trace, j, a)
  {
    hide Did;
  }

  lemma JustNow(cfg: Config, trace: seq<State>, i: nat, a: Action)
    requires Did(cfg, trace, i, a)
    ensures Earlier(cfg, trace, i + 1, a)
  {
    hide Did;
  }

  /** A document's final word stays, and so does the envelope of the record that was behind it. */
  lemma FailedForStays(cfg: Config, trace: seq<State>, i: nat, r: nat, reason: string)
    requires Run(cfg, trace) && i + 1 < |trace| && r < |trace[i].workers| && r < |trace[i + 1].workers|
    requires FailedFor(trace[i], trace[i].workers[r], reason) && trace[i + 1].workers[r].env == trace[i].workers[r].env
    ensures FailedFor(trace[i + 1], trace[i + 1].workers[r], reason)
  {
    RunStepGrows(cfg, trace, i);
  }

  /** Once it is past its parse, a record's envelope never changes. */
  lemma EnvelopeStays(cfg: Config, s: State, a: Action, r: nat)
    requires Enabled(cfg, s, a) && r < |s.workers| && s.workers[r].pc != Received
    ensures r < |Apply(cfg, s, a).workers| && Apply(cfg, s, a).workers[r].env == s.workers[r].env
  {
    hide Duplicate, Written, Failures;
  }

  lemma CauseStays(cfg: Config, trace: seq<State>, j: nat, r: nat)
    requires Run(cfg, trace) && j + 1 < |trace| && r < |trace[j].workers| && r < |trace[j + 1].workers|
    requires HasCause(cfg, trace, j, r) && trace[j + 1].workers[r].pc == trace[j].workers[r].pc
    requires trace[j].workers[r].pc != Received ==> trace[j + 1].workers[r].env == trace[j].workers[r].env
    ensures HasCause(cfg, trace, j + 1, r)
  {
    hide Run, Did, FailedFor;
    var w := trace[j].workers[r];
    forall a | Earlier(cfg, trace, j, a) ensures Earlier(cfg, trace, j + 1, a) { LaterStill(cfg, trace, j, j + 1, a); }
    if w.pc.Settled? && w.pc.verdict.Failure? && w.pc.verdict.persisted {
      forall reason | FailedFor(trace[j], w, reason) ensures FailedFor(trace[j + 1], trace[j + 1].workers[r], reason) {
        FailedForStays(cfg, trace, j, r, reason);
      }
    }
  }

  lemma CauseIsMade(cfg: Config, trace: seq<State>, j: nat, r: nat, a: Action)
    requires Did(cfg, trace, j, a) && Inv(cfg, trace[j]) && r < |trace[j].workers| && r < |trace[j + 1].workers|
    requires HasCause(cfg, trace, j, r) && Course(cfg, trace[j].workers[r], r, a, trace[j + 1].workers[r].pc)
    ensures HasCause(cfg, trace, j + 1, r)
  {
    hide Inv, Apply, Enabled, FailedFor;
    JustNow(cfg, trace, j, a);
    forall b | Earlier(cfg, trace, j, b) ensures Earlier(cfg, trace, j + 1, b) { LaterStill(cfg, trace, j, j + 1, b); }
    if a == TransitionReturns(r) { FailureIsStored(cfg, trace[j], r); }
  }

  lemma FailureIsStored(cfg: Config, s: State, r: nat)
    requires Inv(cfg, s) && Enabled(cfg, s, TransitionReturns(r))
    ensures var s', pc := Apply(cfg, s, TransitionReturns(r)), s.workers[r].pc;
            && r < |s'.workers| && s'.workers[r].env == s.workers[r].env && s.workers[r].env.Some?
            && (pc.HandlerThrew? ==> FailedFor(s', s'.workers[r], pc.reason))
            && (pc == Persisted && s.workers[r].env.value.kind !in cfg.handled ==>
                  FailedFor(s', s'.workers[r], "Unknown event type"))
  {
    hide Inv;
    TransitionWrites(cfg, s, r);
    EnvelopeStays(cfg, s, TransitionReturns(r), r);
  }

  lemma NewRecordIsReceived(cfg: Config, s: State, a: Action, r: nat)
    requires Enabled(cfg, s, a) && |s.workers| <= r < |Apply(cfg, s, a).workers|
    ensures Apply(cfg, s, a).workers[r].pc == Received
  {
    hide Duplicate, Written, Failures;
  }

  /** In every reachable state, where a record has got to is explained by the answers its awaits got. */
  lemma {:induction false} EveryEndHasItsCause(cfg: Config, trace: seq<State>, j: nat, r: nat)
    requires Run(cfg, trace) && j < |trace| && r < |trace[j].workers|
    ensures HasCause(cfg, trace, j, r)
  {
    hide Inv, Run, Apply, Enabled, HasCause, Course;
    StartIsEmpty(cfg, trace);
    if j > 0 {
      var a := StepBetween(cfg, trace, j - 1);
      if r < |trace[j - 1].workers| {
        EveryEndHasItsCause(cfg, trace, j - 1, r);
        StepTakesCourse(cfg, trace[j - 1], a, r);
        CauseStep(cfg, trace, j - 1, r, a);
      } else {
        NewRecordIsReceived(cfg, trace[j - 1], a, r);
        ReceivedNeedsNone(cfg, trace, j, r);
      }
    }
  }

  lemma StartIsEmpty(cfg: Config, trace: seq<State>)
    requires Run(cfg, trace)
    ensures trace[0].workers == []
  {
  }

  lemma ReceivedNeedsNone(cfg: Config, trace: seq<State>, j: nat, r: nat)
    requires j < |trace| && r < |trace[j].workers|
    requires trace[j].workers[r].pc == Received || trace[j].workers[r].pc == Dead
    ensures HasCause(cfg, trace, j, r)
  {
  }

  lemma CauseStep(cfg: Config, trace: seq<State>, j: nat, r: nat, a: Action)
    requires Run(cfg, trace) && Did(cfg, trace, j, a) && Inv(cfg, trace[j])
    requires r < |trace[j].workers| && r < |trace[j + 1].workers| && HasCause(cfg, trace, j, r)
    requires var pc := trace[j + 1].workers[r].pc;
             || pc == trace[j].workers[r].pc || (a.Crash? && pc == Dead) || (a == Reject(r) && pc == Settled(Rejected))
             || Course(cfg, trace[j].workers[r], r, a, pc)
    ensures HasCause(cfg, trace, j + 1, r)
  {
    hide Inv, Run, Apply, Enabled, HasCause, Course;
    var pc := trace[j + 1].workers[r].pc;
    if pc == trace[j].workers[r].pc {
      if pc != Received { EnvelopeStays(cfg, trace[j], a, r); }
      CauseStays(cfg, trace, j, r);
    } else if pc == Dead {
      ReceivedNeedsNone(cfg, trace, j + 1, r);
    } else if a == Reject(r) && pc == Settled(Rejected) {
      JustNow(cfg, trace, j, a);
      RejectionIsItsCause(cfg, trace, j + 1, r);
    } else {
      CauseIsMade(cfg, trace, j, r, a);
    }
  }

  lemma RejectionIsItsCause(cfg: Config, trace: seq<State>, j: nat, r: nat)
    requires j < |trace| && r < |trace[j].workers| && trace[j].workers[r].pc == Settled(Rejected)
    requires Earlier(cfg, trace, j, Reject(r))
    ensures HasCause(cfg, trace, j, r)
  {
    hide Earlier;
  }

  // ----- a dead record stays dead -----

  predicate IsOver(s: State, r: nat) {
    && r < |s.workers| && s.workers[r].batch < |s.batches|
    && (s.workers[r].pc == Dead ==> s.batches[s.workers[r].batch].phase == Crashed)
  }

  lemma OverStep(cfg: Config, s: State, a: Action, r: nat)
    requires Enabled(cfg, s, a) && IsOver(s, r)
    ensures IsOver(Apply(cfg, s, a), r)
  {
    hide Duplicate, Written, Failures;
  }

  lemma {:induction false} DeadIsOver(cfg: Config, trace: seq<State>, j: nat, r: nat)
    requires Run(cfg, trace) && j < |trace| && r < |trace[j].workers|
    ensures IsOver(trace[j], r)
  {
    hide Inv, Run, Apply, Enabled, IsOver;
    StartIsEmpty(cfg, trace);
    if j > 0 {
      var a := StepBetween(cfg, trace, j - 1);
      if r < |trace[j - 1].workers| {
        DeadIsOver(cfg, trace, j - 1, r);
        OverStep(cfg, trace[j - 1], a, r);
      } else {
        NewRecordIsReceived(cfg, trace[j - 1], a, r);
        RunKeepsInvariant(cfg, trace, j);
        AliveIsOver(cfg, trace[j], r);
      }
    }
  }

  lemma AliveIsOver(cfg: Config, s: State, r: nat)
    requires Inv(cfg, s) && r < |s.workers| && s.workers[r].pc != Dead
    ensures IsOver(s, r)
  {
    assert WorkerOk(cfg, s, r);
  }

  /** Only a record that is neither settled nor dead is rejected. */
  lemma RejectNeedsUnsettled(cfg: Config, s: State, r: nat)
    requires Enabled(cfg, s, Reject(r)) && IsOver(s, r)
    ensures !s.workers[r].pc.Settled? && s.workers[r].pc != Dead
  {
  }

  // ----- forwards: an answer decides the end -----

  /** Where a record may be once its handler has failed this way. */
  predicate FailedOn(s: State, r: nat, transient: bool, reason: string) {
    && r < |s.workers|
    && var w := s.workers[r];
    || w.pc == HandlerThrew(transient, reason) || w.pc == Settled(Threw) || w.pc == Settled(Rejected) || w.pc == Dead
    || (w.pc == Settled(Failure(transient, true)) && FailedFor(s, w, reason))
  }

  predicate ReturnedOn(s: State, r: nat) {
    && r < |s.workers|
    && var pc := s.workers[r].pc;
    pc == HandlerOk || pc == Settled(Succeeded) || pc == Settled(Threw) || pc == Settled(Rejected) || pc == Dead
  }

  predicate InsertFailedOn(s: State, r: nat, transient: bool) {
    && r < |s.workers|
    && var pc := s.workers[r].pc;
    || pc == Settled(Failure(transient, false)) || pc == Dead
    || (!transient && (pc == InsertRefused || pc == Settled(Rejected)))
  }

  predicate EndedOn(s: State, r: nat, verdict: Verdict) {
    r < |s.workers| && (s.workers[r].pc == Settled(verdict) || s.workers[r].pc == Dead)
  }

  lemma FailedStep(cfg: Config, trace: seq<State>, i: nat, r: nat, transient: bool, reason: string)
    requires Run(cfg, trace) && i + 1 < |trace| && FailedOn(trace[i], r, transient, reason)
    ensures FailedOn(trace[i + 1], r, transient, reason)
  {
    hide Inv, Run, Apply, Enabled, FailedFor;
    var a := StepBetween(cfg, trace, i);
    StepTakesCourse(cfg, trace[i], a, r);
    EnvelopeStays(cfg, trace[i], a, r);
    if trace[i].workers[r].pc == HandlerThrew(transient, reason) && a == TransitionReturns(r) {
      FailureIsStored(cfg, trace[i], r);
    } else if trace[i].workers[r].pc == Settled(Failure(transient, true)) {
      FailedForStays(cfg, trace, i, r, reason);
    }
  }

  /** A handler's failure decides: retried exactly as it was transient, and stored with its reason. */
  lemma {:induction false} HandlerFailureDecides(
    cfg: Config, trace: seq<State>, i: nat, j: nat, r: nat, transient: bool, reason: string)
    requires Run(cfg, trace) && i < j < |trace| && Did(cfg, trace, i, HandlerFails(r, transient, reason))
    ensures FailedOn(trace[j], r, transient, reason)
  {
    if j > i + 1 {
      HandlerFailureDecides(cfg, trace, i, j - 1, r, transient, reason);
      FailedStep(cfg, trace, j - 1, r, transient, reason);
    }
  }

  lemma ReturnedStep(cfg: Config, trace: seq<State>, i: nat, r: nat)
    requires Run(cfg, trace) && i + 1 < |trace| && ReturnedOn(trace[i], r)
    ensures ReturnedOn(trace[i + 1], r)
  {
    hide Inv, Run, Apply, Enabled;
    var a := StepBetween(cfg, trace, i);
    StepTakesCourse(cfg, trace[i], a, r);
  }

  /** A handler that returned is never followed by a failure. */
  lemma {:induction false} HandlerReturnDecides(cfg: Config, trace: seq<State>, i: nat, j: nat, r: nat)
    requires Run(cfg, trace) && i < j < |trace| && Did(cfg, trace, i, HandlerReturns(r))
    ensures ReturnedOn(trace[j], r)
  {
    if j > i + 1 {
      HandlerReturnDecides(cfg, trace, i, j - 1, r);
      ReturnedStep(cfg, trace, j - 1, r);
    }
  }

  lemma InsertFailedStep(cfg: Config, trace: seq<State>, i: nat, r: nat, transient: bool)
    requires Run(cfg, trace) && i + 1 < |trace| && InsertFailedOn(trace[i], r, transient)
    ensures InsertFailedOn(trace[i + 1], r, transient)
  {
    hide Inv, Run, Apply, Enabled, IsOver;
    var a := StepBetween(cfg, trace, i);
    StepTakesCourse(cfg, trace[i], a, r);
    DeadIsOver(cfg, trace, i, r);
    if a == Reject(r) { RejectNeedsUnsettled(cfg, trace[i], r); }
  }

  /** An insert's failure decides: at once if transient, after quarantine if not. */
  lemma {:induction false} InsertFailureDecides(
    cfg: Config, trace: seq<State>, i: nat, j: nat, r: nat, transient: bool)
    requires Run(cfg, trace) && i < j < |trace| && Did(cfg, trace, i, InsertThrows(r, transient))
    ensures InsertFailedOn(trace[j], r, transient)
  {
    if j > i + 1 {
      InsertFailureDecides(cfg, trace, i, j - 1, r, transient);
      InsertFailedStep(cfg, trace, j - 1, r, transient);
    }
  }

  lemma EndedStep(cfg: Config, trace: seq<State>, i: nat, r: nat, verdict: Verdict)
    requires Run(cfg, trace) && i + 1 < |trace| && EndedOn(trace[i], r, verdict)
    ensures EndedOn(trace[i + 1], r, verdict)
  {
    hide Inv, Run, Apply, Enabled, IsOver;
    var a := StepBetween(cfg, trace, i);
    StepTakesCourse(cfg, trace[i], a, r);
    DeadIsOver(cfg, trace, i, r);
    if a == Reject(r) { RejectNeedsUnsettled(cfg, trace[i], r); }
  }

  /** A transition that threw, and a promise that was rejected, are how their record ended. */
  lemma {:induction false} ThrowDecides(cfg: Config, trace: seq<State>, i: nat, j: nat, r: nat, verdict: Verdict)
    requires Run(cfg, trace) && i < j < |trace|
    requires || (verdict == Threw && Did(cfg, trace, i, TransitionThrows(r)))
             || (verdict == Rejected && Did(cfg, trace, i, Reject(r)))
    ensures EndedOn(trace[j], r, verdict)
  {
    if j > i + 1 {
      ThrowDecides(cfg, trace, i, j - 1, r, verdict);
      EndedStep(cfg, trace, j - 1, r, verdict);
    } else {
      ThrowStep(cfg, trace[i], r);
    }
  }

  lemma ThrowStep(cfg: Config, s: State, r: nat)
    ensures Enabled(cfg, s, TransitionThrows(r)) ==> EndedOn(Apply(cfg, s, TransitionThrows(r)), r, Threw)
    ensures Enabled(cfg, s, Reject(r)) ==> EndedOn(Apply(cfg, s, Reject(r)), r, Rejected)
  {
  }

  // ----- what is reported -----

  /** The insert or the handler failed transiently, a transition threw, or the promise was rejected. */
  ghost predicate MayRecover(cfg: Config, trace: seq<State>, j: nat, r: nat) {
    || Earlier(cfg, trace, j, InsertThrows(r, true))
    || (exists reason :: HandlerFailed(cfg, trace, j, r, true, reason))
    || Earlier(cfg, trace, j, TransitionThrows(r)) || Earlier(cfg, trace, j, Reject(r))
  }

  /** A settled record asks to be delivered again exactly when one of these happened to it. */
  lemma RetriedExactly(cfg: Config, trace: seq<State>, j: nat, r: nat)
    requires Run(cfg, trace) && j < |trace| && r < |trace[j].workers| && trace[j].workers[r].pc.Settled?
    ensures Retried(trace[j].workers[r].pc) <==> MayRecover(cfg, trace, j, r)
  {
    hide Inv, Run, Apply, Enabled, Did, FailedFor;
    EveryEndHasItsCause(cfg, trace, j, r);
    if i :| 0 <= i < j && Did(cfg, trace, i, InsertThrows(r, true)) {
      InsertFailureDecides(cfg, trace, i, j, r, true);
    }
    if reason, i :| 0 <= i < j && Did(cfg, trace, i, HandlerFails(r, true, reason)) {
      HandlerFailureDecides(cfg, trace, i, j, r, true, reason);
    }
    if i :| 0 <= i < j && Did(cfg, trace, i, TransitionThrows(r)) { ThrowDecides(cfg, trace, i, j, r, Threw); }
    if i :| 0 <= i < j && Did(cfg, trace, i, Reject(r)) { ThrowDecides(cfg, trace, i, j, r, Rejected); }
  }

  /** The record is in the batch, and asks to be delivered again. */
  ghost predicate AsksAgain(cfg: Config, trace: seq<State>, i: nat, b: nat, r: nat)
    requires i < |trace| && IsBatch(trace[i], b)
  {
    var batch := trace[i].batches[b];
    batch.first <= r < batch.first + batch.count && MayRecover(cfg, trace, i, r)
  }

  predicate IsDelivered(s: State, b: nat, m: string)
    requires IsBatch(s, b)
  {
    exists r :: s.batches[b].first <= r < s.batches[b].first + s.batches[b].count && s.workers[r].record.messageId == m
  }

  /**
   * The response of an invocation, in terms of what happened to its records: an id is reported exactly when some
   * record that carries it may recover, and SQS keeps exactly the messages reported and those of other invocations.
   */
  lemma ReportedExactly(cfg: Config, trace: seq<State>, i: nat, b: nat, id: string)
    requires Run(cfg, trace) && Did(cfg, trace, i, Return(b))
    ensures IsBatch(trace[i], b) && b < |trace[i + 1].batches| && trace[i + 1].batches[b].phase.Returned?
    ensures var ids := trace[i + 1].batches[b].phase.failures;
            && (id in ids <==>
                exists r :: 0 <= r < |trace[i].workers| && AsksAgain(cfg, trace, i, b, r) &&
                  trace[i].workers[r].record.messageId == id)
            && (id in trace[i + 1].queue <==> id in trace[i].queue && (IsDelivered(trace[i], b, id) ==> id in ids))
  {
    hide Run, Inv, Did, MayRecover, Retried;
    ReturnIs(cfg, trace, i, b, id);
    var s, first := trace[i], trace[i].batches[b].first;
    var ws := WorkersOf(s, b);
    FailuresExact(ws, id);
    forall r | first <= r < first + |ws| ensures Retried(s.workers[r].pc) <==> MayRecover(cfg, trace, i, r) {
      assert ws[r - first] == s.workers[r] && s.workers[r] in ws;
      RetriedExactly(cfg, trace, i, r);
    }
    if k :| 0 <= k < |ws| && Retried(ws[k].pc) && ws[k].record.messageId == id {
      assert AsksAgain(cfg, trace, i, b, first + k);
    }
    if r :| 0 <= r < |s.workers| && AsksAgain(cfg, trace, i, b, r) && s.workers[r].record.messageId == id {
      assert ws[r - first] == s.workers[r];
    }
  }

  lemma ReturnIs(cfg: Config, trace: seq<State>, i: nat, b: nat, id: string)
    requires Did(cfg, trace, i, Return(b))
    ensures i + 1 < |trace|
    ensures var s, s' := trace[i], trace[i + 1];
            && IsBatch(s, b) && (forall w :: w in WorkersOf(s, b) ==> w.pc.Settled?)
            && b < |s'.batches| && s'.batches[b].phase == Returned(Failures(WorkersOf(s, b)))
            && (id in s'.queue <==>
                id in s.queue && (IsDelivered(s, b, id) ==> id in Failures(WorkersOf(s, b))))
  {
    hide Failures;
    var s, first := trace[i], trace[i].batches[b].first;
    var ws := WorkersOf(s, b);
    if r :| first <= r < first + |ws| && s.workers[r].record.messageId == id { assert ws[r - first] == s.workers[r]; }
    if w :| w in ws && w.record.messageId == id {
      var k :| 0 <= k < |ws| && ws[k] == w;
      assert s.workers[first + k] == w;
    }
  }
}
