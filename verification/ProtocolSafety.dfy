/** What holds in every reachable state, and between any two states, of every run. */
module ProtocolSafety {
  import opened Options
  import opened Events
  import opened Protocol
  import opened ProtocolInvariant
  import opened ProtocolSteps
  import opened ProtocolSystem

  lemma {:induction false} RunKeepsInvariant(cfg: Config, trace: seq<State>, i: nat)
    requires Run(cfg, trace) && i < |trace|
    ensures Inv(cfg, trace[i])
  {
    if i > 0 {
      RunKeepsInvariant(cfg, trace, i - 1);
      assert StepAt(cfg, trace, i - 1);
      var a :| Enabled(cfg, trace[i - 1], a) && trace[i] == Apply(cfg, trace[i - 1], a);
      StepKeeps(cfg, trace[i - 1], a);
    }
  }

  /** No event is ever handed to a handler twice, whatever is redelivered, crashes or throws. */
  lemma AtMostOnceDispatch(cfg: Config, trace: seq<State>, i: nat, j: nat, k: nat)
    requires Run(cfg, trace) && i < |trace| && j < k < |trace[i].dispatches|
    ensures trace[i].dispatches[j].env.eventId != trace[i].dispatches[k].env.eventId
  {
    RunKeepsInvariant(cfg, trace, i);
    var s := trace[i];
    assert DispatchOk(s, j) && DispatchOk(s, k);
    assert WorkerOk(cfg, s, s.dispatches[j].worker) && WorkerOk(cfg, s, s.dispatches[k].worker);
  }

  /** Every transition and every dispatch of an event is made by the one worker whose insert returned. */
  lemma OnlyTheInserterActs(cfg: Config, trace: seq<State>, i: nat, id: string)
    requires Run(cfg, trace) && i < |trace|
    ensures forall k :: 0 <= k < |trace[i].transitions| && trace[i].transitions[k].1 == id ==>
              id in trace[i].owner && trace[i].transitions[k].0 == trace[i].owner[id] &&
                trace[i].owner[id] in trace[i].inserted
    ensures forall k :: 0 <= k < |trace[i].dispatches| && trace[i].dispatches[k].env.eventId == id ==>
              id in trace[i].owner && trace[i].dispatches[k].worker == trace[i].owner[id] &&
                trace[i].owner[id] in trace[i].inserted
  {
    RunKeepsInvariant(cfg, trace, i);
    var s := trace[i];
    forall k | 0 <= k < |s.transitions| && s.transitions[k].1 == id
      ensures id in s.owner && s.transitions[k].0 == s.owner[id] && s.owner[id] in s.inserted
    {
      assert TransitionOk(s, k) && WorkerOk(cfg, s, s.transitions[k].0);
    }
    forall k | 0 <= k < |s.dispatches| && s.dispatches[k].env.eventId == id
      ensures id in s.owner && s.dispatches[k].worker == s.owner[id] && s.owner[id] in s.inserted
    {
      assert DispatchOk(s, k) && WorkerOk(cfg, s, s.dispatches[k].worker);
    }
  }

  /** A published message is still queued, redriven, documented, or was handed to `quarantine` verbatim. */
  lemma NoSilentLoss(cfg: Config, trace: seq<State>, i: nat, m: string)
    requires Run(cfg, trace) && i < |trace| && m in trace[i].sent
    ensures var s, body := trace[i], trace[i].sent[m];
            || m in s.queue || m in s.redriven
            || (cfg.parse(body).Some? && cfg.parse(body).value.eventId in s.docs)
            || (exists landed :: Copy(Record(m, body), landed) in s.copies)
    // With a DLQ that accepts every copy, a byte-identical copy is really there.
    ensures var s, body := trace[i], trace[i].sent[m];
            (forall c :: c in s.copies ==> c.landed) ==>
              m in s.queue || body in s.dlq || (cfg.parse(body).Some? && cfg.parse(body).value.eventId in s.docs)
  {
    RunKeepsInvariant(cfg, trace, i);
  }

  /** Every stored document is its producer's envelope, redacted, with a legal history. */
  lemma DocumentsAreFaithful(cfg: Config, trace: seq<State>, i: nat, id: string) returns (m: string, env: Envelope)
    requires Run(cfg, trace) && i < |trace| && id in trace[i].docs
    ensures m in trace[i].sent && cfg.parse(trace[i].sent[m]) == Some(env) && env.eventId == id
    ensures Consistent(trace[i].docs[id]) && SeededFrom(trace[i].docs[id], env)
    ensures trace[i].docs[id].payload ==
              if env.kind == "AUTH_OTP_REQUESTED" || env.kind == "PASSWORD_RESET_REQUESTED"
              then env.payload - {"code"} else env.payload
    ensures var d := trace[i].docs[id];
            && d.eventId == id && d.orderId == env.orderId && d.userId == env.userId && d.kind == env.kind
            && d.source == env.source && d.createdBy == env.actor && d.updatedBy == "events-pipeline"
    ensures var d := trace[i].docs[id];
            && |d.history| > 0 && d.status == d.history[|d.history| - 1].status
            && d.error == d.history[|d.history| - 1].error && (d.error.Some? <==> d.status == Status.Failed)
            && (Statuses(d.history) == [Started] || Statuses(d.history) == [Started, InProgress] ||
                Statuses(d.history) == [Started, Status.Failed] ||
                Statuses(d.history) == [Started, InProgress, Completed] ||
                Statuses(d.history) == [Started, InProgress, Status.Failed])
  {
    RunKeepsInvariant(cfg, trace, i);
    assert DocOk(trace[i], id);
    var w := trace[i].workers[trace[i].owner[id]];
    assert WorkerOk(cfg, trace[i], trace[i].owner[id]);
    m, env := w.record.messageId, w.env.value;
    RedactionIsExact(env.kind, env.payload);
  }

  /** The handler sees the producer's envelope, credential included. */
  lemma HandlersSeeTheUnredactedEnvelope(cfg: Config, trace: seq<State>, i: nat, k: nat)
    requires Run(cfg, trace) && i < |trace| && k < |trace[i].dispatches|
    ensures exists m :: m in trace[i].sent && cfg.parse(trace[i].sent[m]) == Some(trace[i].dispatches[k].env)
    ensures trace[i].dispatches[k].env.eventId in trace[i].docs
  {
    RunKeepsInvariant(cfg, trace, i);
    assert DispatchOk(trace[i], k);
    assert WorkerOk(cfg, trace[i], trace[i].dispatches[k].worker);
    assert trace[i].workers[trace[i].dispatches[k].worker].record.messageId in trace[i].sent;
  }

  // ----- between two states of a run -----

  /** A document's history only grows, its other fields never change, and a final status is final. */
  ghost predicate DocGrows(d: Document, d': Document) {
    && d.history <= d'.history
    && d' == d.(status := d'.status, error := d'.error, history := d'.history)
    && (d.status == Completed || d.status == Status.Failed ==> d' == d)
  }

  ghost predicate LogsGrow(s: State, s': State) {
    && (forall id :: id in s.owner ==> id in s'.owner && s'.owner[id] == s.owner[id])
    && s.dispatches <= s'.dispatches && s.transitions <= s'.transitions
    && s.copies <= s'.copies && s.inserted <= s'.inserted
    && |s.workers| <= |s'.workers|
  }

  lemma TransitionGrows(d: Document, env: Envelope, status: Status, error: Option<string>)
    requires Consistent(d) && SeededFrom(d, env) && CanFollow(Statuses(d.history), status)
    ensures DocGrows(d, Transitioned(d, status, error))
  {
    assert d.history[|d.history| - 1].status == Statuses(d.history)[|d.history| - 1];
  }

  /** A stored write, insert or legal transition, only grows the collection. */
  lemma WriteGrows(s: State, write: Write, id: string)
    requires id in s.docs && DocOk(s, id)
    requires write.Transition? && write.eventId == id ==> CanFollow(Statuses(s.docs[id].history), write.status)
    ensures id in Written(s.docs, write) && DocGrows(s.docs[id], Written(s.docs, write)[id])
  {
    if write.Transition? && write.eventId == id {
      TransitionGrows(s.docs[id], s.workers[s.owner[id]].env.value, write.status, write.error);
    }
  }

  ghost predicate DocsGrow(s: State, s': State) {
    forall id :: id in s.docs ==> id in s'.docs && DocGrows(s.docs[id], s'.docs[id])
  }

  lemma TransitGrows(cfg: Config, s: State, r: nat)
    requires Inv(cfg, s) && Transits(cfg, s, r)
    ensures DocsGrow(s, Transited(cfg, s, r))
  {
    InvIsLocal(cfg, s, r);
    NextTransitionFollows(cfg, s, r);
    forall id | id in s.docs
      ensures id in Transited(cfg, s, r).docs && DocGrows(s.docs[id], Transited(cfg, s, r).docs[id]) {
      assert DocOk(s, id);
      WriteGrows(s, NextWrite(cfg, s.workers[r]).value, id);
    }
  }

  lemma LandGrows(cfg: Config, s: State, r: nat)
    requires Inv(cfg, s) && r < |s.workers| && s.workers[r].inFlight.Some?
    ensures DocsGrow(s, Landed(s, r))
  {
    InvIsLocal(cfg, s, r);
    forall id | id in s.docs ensures id in Landed(s, r).docs && DocGrows(s.docs[id], Landed(s, r).docs[id]) {
      assert DocOk(s, id);
      WriteGrows(s, s.workers[r].inFlight.value, id);
    }
  }

  lemma OtherStepsKeepDocs(cfg: Config, s: State, a: Action)
    requires Enabled(cfg, s, a) && !a.TransitionReturns? && !a.Land?
    ensures forall id :: id in s.docs ==> id in Apply(cfg, s, a).docs && Apply(cfg, s, a).docs[id] == s.docs[id]
  {
  }

  lemma StepGrowsDocs(cfg: Config, s: State, a: Action)
    requires Inv(cfg, s) && Enabled(cfg, s, a)
    ensures DocsGrow(s, Apply(cfg, s, a))
  {
    if a.TransitionReturns? {
      TransitGrows(cfg, s, a.worker);
    } else if a.Land? {
      LandGrows(cfg, s, a.worker);
    } else {
      OtherStepsKeepDocs(cfg, s, a);
    }
  }

  lemma SystemStepGrowsLogs(cfg: Config, s: State, a: Action)
    requires Enabled(cfg, s, a)
    requires a.Publish? || a.Redrive? || a.Receive? || a.Boot? || a.Abort? || a.Return? || a.Crash?
    ensures LogsGrow(s, Apply(cfg, s, a))
  {
  }

  lemma MoveGrowsLogs(cfg: Config, s: State, s': State, r: nat)
    requires Moves(cfg, s, s', r)
    ensures LogsGrow(s, s')
  {
  }

  lemma StepGrows(cfg: Config, s: State, s': State)
    requires Inv(cfg, s) && Step(cfg, s, s')
    ensures DocsGrow(s, s') && LogsGrow(s, s')
  {
    var a :| Enabled(cfg, s, a) && s' == Apply(cfg, s, a);
    StepGrowsDocs(cfg, s, a);
    if a.Publish? || a.Redrive? || a.Receive? || a.Boot? || a.Abort? || a.Return? || a.Crash? {
      SystemStepGrowsLogs(cfg, s, a);
    } else {
      WorkerActionStep(cfg, s, a, a.worker);
      MoveGrowsLogs(cfg, s, s', a.worker);
    }
  }

  lemma GrowthComposes(s: State, s': State, s'': State)
    requires DocsGrow(s, s') && LogsGrow(s, s') && DocsGrow(s', s'') && LogsGrow(s', s'')
    ensures DocsGrow(s, s'') && LogsGrow(s, s'')
  {
  }

  lemma RunStepGrows(cfg: Config, trace: seq<State>, i: nat)
    requires Run(cfg, trace) && i + 1 < |trace|
    ensures DocsGrow(trace[i], trace[i + 1]) && LogsGrow(trace[i], trace[i + 1])
  {
    RunKeepsInvariant(cfg, trace, i);
    assert StepAt(cfg, trace, i);
    StepGrows(cfg, trace[i], trace[i + 1]);
  }

  /** Documents, once stored, only grow along a run; so do the logs of what was asked of the ports. */
  lemma {:induction false} RunGrows(cfg: Config, trace: seq<State>, i: nat, j: nat)
    requires Run(cfg, trace) && i <= j < |trace|
    ensures DocsGrow(trace[i], trace[j]) && LogsGrow(trace[i], trace[j])
  {
    if i < j {
      RunGrows(cfg, trace, i, j - 1);
      RunStepGrows(cfg, trace, j - 1);
      GrowthComposes(trace[i], trace[j - 1], trace[j]);
    }
  }

  /**
   * A redelivery of a stored event is never handled: a worker whose own insert had not returned when
   * the document already existed dispatches nothing for it, ever. In particular an event whose handler
   * failed transiently is reported to SQS and redelivered, but its handler is not run again.
   */
  lemma RedeliveryNeverRuns(cfg: Config, trace: seq<State>, i: nat, j: nat, k: nat, id: string)
    requires Run(cfg, trace) && i <= j < |trace| && id in trace[i].docs
    requires k < |trace[j].dispatches| && trace[j].dispatches[k].env.eventId == id
    ensures id in trace[i].owner && trace[j].dispatches[k].worker == trace[i].owner[id] < |trace[i].workers|
  {
    RunGrows(cfg, trace, i, j);
    RunKeepsInvariant(cfg, trace, i);
    assert DocOk(trace[i], id);
    OnlyTheInserterActs(cfg, trace, j, id);
  }

  /** At its insert, a worker goes on towards a handler exactly when its event is not stored yet. */
  lemma InsertAdmitsExactlyFreshEvents(cfg: Config, trace: seq<State>, i: nat, r: nat)
    requires Run(cfg, trace) && i < |trace| && Inserts(cfg, trace[i], r)
    ensures Enabled(cfg, trace[i], InsertReturns(r)) <==> trace[i].workers[r].env.value.eventId !in trace[i].docs
    ensures Enabled(cfg, trace[i], InsertDuplicate(r)) <==> trace[i].workers[r].env.value.eventId in trace[i].docs
  {
    InsertsAreIndexed(cfg, trace, i, r);
  }

  /** The cold-start latch does its job: whenever an insert is sent, the unique index exists. */
  lemma InsertsAreIndexed(cfg: Config, trace: seq<State>, i: nat, r: nat)
    requires Run(cfg, trace) && i < |trace| && Live(trace[i], r)
    ensures trace[i].indexed
  {
    RunKeepsInvariant(cfg, trace, i);
    assert BatchOk(trace[i], trace[i].workers[r].batch);
  }

  /** What one record's verdict says about the collection, at the end and ever after. */
  lemma VerdictsAgreeWithDocuments(cfg: Config, trace: seq<State>, i: nat, j: nat, r: nat)
    requires Run(cfg, trace) && i <= j < |trace| && r < |trace[i].workers|
    ensures var w := trace[i].workers[r];
            w.pc == Settled(Succeeded) ==>
              w.env.Some? && w.env.value.eventId in trace[j].docs &&
                trace[j].docs[w.env.value.eventId].status == Completed
    ensures var w := trace[i].workers[r];
            w.pc == Settled(Failure(true, true)) || w.pc == Settled(Failure(false, true)) ==>
              && w.env.Some? && w.env.value.eventId in trace[j].docs
              && trace[j].docs[w.env.value.eventId].status == Status.Failed
              && trace[j].docs[w.env.value.eventId].error.Some?
    ensures var w := trace[i].workers[r];
            w.pc == Settled(Failure(true, false)) || w.pc == Settled(Failure(false, false)) ||
              w.pc == Settled(Skipped) ==>
              forall k :: 0 <= k < |trace[i].transitions| ==> trace[i].transitions[k].0 != r
  {
    RunKeepsInvariant(cfg, trace, i);
    var s, w := trace[i], trace[i].workers[r];
    assert WorkerOk(cfg, s, r);
    forall k | 0 <= k < |s.transitions| && s.transitions[k].0 == r ensures r in s.inserted {
      assert TransitionOk(s, k);
    }
    if r in s.inserted {
      assert DocOk(s, w.env.value.eventId);
      RunGrows(cfg, trace, i, j);
    }
  }

  /** The response of an invocation: every id when bootstrap failed, else exactly the retried records, in order. */
  lemma BatchVerdicts(cfg: Config, trace: seq<State>, i: nat, b: nat, id: string)
    requires Run(cfg, trace) && i < |trace| && b < |trace[i].batches| && trace[i].batches[b].phase.Returned?
    ensures IsBatch(trace[i], b)
    ensures var ws, ids := WorkersOf(trace[i], b), trace[i].batches[b].phase.failures;
            || ((forall w :: w in ws ==> w.pc == Received) && ids == MessageIds(ws))
            || ((forall w :: w in ws ==> w.pc.Settled?) && ids == Failures(ws) &&
                (id in ids <==> exists k :: 0 <= k < |ws| && Retried(ws[k].pc) && ws[k].record.messageId == id))
  {
    RunKeepsInvariant(cfg, trace, i);
    assert BatchOk(trace[i], b);
    FailuresExact(WorkersOf(trace[i], b), id);
  }
}
