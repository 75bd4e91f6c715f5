/** Steps of SQS and of whole Lambda invocations keep the invariant. */
module ProtocolSystem {
  import opened Options
  import opened Events
  import opened Protocol
  import opened ProtocolInvariant
  import opened ProtocolSteps

  /** Everything a worker, a document or a log entry depends on is as before. */
  ghost predicate SameRecords(s: State, s': State) {
    && s'.docs == s.docs && s'.owner == s.owner && s'.inserted == s.inserted && s'.copies == s.copies
    && s'.dispatches == s.dispatches && s'.transitions == s.transitions
    && |s.batches| <= |s'.batches|
    && |s.workers| <= |s'.workers| && s'.workers[..|s.workers|] == s.workers
    && (forall m :: m in s.sent ==> m in s'.sent && s'.sent[m] == s.sent[m])
  }

  lemma OldWorkerOk(cfg: Config, s: State, s': State, r: nat)
    requires SameRecords(s, s') && r < |s.workers| && WorkerOk(cfg, s, r)
    ensures WorkerOk(cfg, s', r)
  {
    assert s'.workers[r] == s'.workers[..|s.workers|][r];
  }

  lemma OldDocOk(s: State, s': State, id: string)
    requires SameRecords(s, s') && id in s.docs && DocOk(s, id)
    ensures DocOk(s', id)
  {
    assert s'.workers[s.owner[id]] == s'.workers[..|s.workers|][s.owner[id]];
  }

  lemma OldLogsOk(cfg: Config, s: State, s': State)
    requires Inv(cfg, s) && SameRecords(s, s')
    ensures forall k :: 0 <= k < |s'.dispatches| ==> DispatchOk(s', k)
    ensures forall k :: 0 <= k < |s'.transitions| ==> TransitionOk(s', k)
  {
    assert forall r :: 0 <= r < |s.workers| ==> s'.workers[r] == s'.workers[..|s.workers|][r];
    forall k | 0 <= k < |s'.dispatches| ensures DispatchOk(s', k) { assert DispatchOk(s, k); }
    forall k | 0 <= k < |s'.transitions| ensures TransitionOk(s', k) { assert TransitionOk(s, k); }
  }

  lemma SystemStep(cfg: Config, s: State, s': State)
    requires Inv(cfg, s) && SameRecords(s, s') && LogsOk(s')
    requires forall r :: |s.workers| <= r < |s'.workers| ==> WorkerOk(cfg, s', r)
    requires forall b :: 0 <= b < |s'.batches| ==> BatchOk(s', b)
    requires forall m :: m in s'.sent ==> m in s'.queue || Accounted(cfg, s', m)
    ensures Inv(cfg, s')
  {
    forall r | 0 <= r < |s'.workers| ensures WorkerOk(cfg, s', r) {
      if r < |s.workers| { OldWorkerOk(cfg, s, s', r); }
    }
    forall id | id in s'.docs ensures DocOk(s', id) { OldDocOk(s, s', id); }
    OldLogsOk(cfg, s, s');
  }

  lemma OldBatchOk(s: State, s': State, b: nat)
    requires SameRecords(s, s') && b < |s.batches| && BatchOk(s, b)
    requires s'.batches[b] == s.batches[b] && (s.indexed ==> s'.indexed)
    ensures BatchOk(s', b)
  {
    assert forall r :: 0 <= r < |s.workers| ==> s'.workers[r] == s'.workers[..|s.workers|][r];
    assert WorkersOf(s', b) == WorkersOf(s, b);
  }

  lemma MessageKept(cfg: Config, s: State, s': State, m: string)
    requires SameRecords(s, s') && s.redriven <= s'.redriven && m in s.sent
    requires Accounted(cfg, s, m)
    ensures Accounted(cfg, s', m)
  {
  }

  lemma QueueStep(cfg: Config, s: State, a: Action)
    requires Inv(cfg, s) && Enabled(cfg, s, a) && (a.Publish? || a.Redrive?)
    ensures Inv(cfg, Apply(cfg, s, a))
  {
    var s' := Apply(cfg, s, a);
    assert SameRecords(s, s');
    forall b | 0 <= b < |s'.batches| ensures BatchOk(s', b) { OldBatchOk(s, s', b); }
    forall m | m in s'.sent ensures m in s'.queue || Accounted(cfg, s', m) {
      if m in s.sent && m !in s.queue { MessageKept(cfg, s, s', m); }
    }
    SystemStep(cfg, s, s');
  }

  lemma ReceiveStep(cfg: Config, s: State, container: nat, records: seq<Record>)
    requires Inv(cfg, s) && Enabled(cfg, s, Receive(container, records))
    ensures Inv(cfg, Invoked(s, container, records))
  {
    var s' := Invoked(s, container, records);
    assert SameRecords(s, s');
    forall b | 0 <= b < |s'.batches| ensures BatchOk(s', b) {
      if b < |s.batches| { OldBatchOk(s, s', b); }
    }
    forall r | |s.workers| <= r < |s'.workers| ensures WorkerOk(cfg, s', r) {
      assert s'.workers[r].record == records[r - |s.workers|] && s'.workers[r].record in records;
    }
    forall m | m in s'.sent && m !in s'.queue ensures Accounted(cfg, s', m) { MessageKept(cfg, s, s', m); }
    SystemStep(cfg, s, s');
  }

  lemma BootStep(cfg: Config, s: State, b: nat)
    requires Inv(cfg, s) && IsBatch(s, b) && s.batches[b].phase == Booting
    ensures Inv(cfg, Booted(s, b))
  {
    var s' := Booted(s, b);
    assert SameRecords(s, s');
    assert BatchOk(s, b);
    forall x | 0 <= x < |s'.batches| ensures BatchOk(s', x) {
      if x != b { OldBatchOk(s, s', x); }
    }
    forall m | m in s'.sent && m !in s'.queue ensures Accounted(cfg, s', m) { MessageKept(cfg, s, s', m); }
    SystemStep(cfg, s, s');
  }

  lemma AbortStep(cfg: Config, s: State, b: nat, indexLanded: bool)
    requires Inv(cfg, s) && IsBatch(s, b) && s.batches[b].phase == Booting
    ensures Inv(cfg, Aborted(s, b, indexLanded))
  {
    var s' := Aborted(s, b, indexLanded);
    assert SameRecords(s, s');
    assert BatchOk(s, b);
    assert WorkersOf(s', b) == WorkersOf(s, b);
    forall x | 0 <= x < |s'.batches| ensures BatchOk(s', x) {
      if x != b { OldBatchOk(s, s', x); }
    }
    forall m | m in s'.sent && m !in s'.queue ensures Accounted(cfg, s', m) { MessageKept(cfg, s, s', m); }
    SystemStep(cfg, s, s');
  }

  /** An id is reported exactly when some record of the batch that carries it is retried. */
  lemma {:induction false} FailuresExact(ws: seq<Worker>, id: string)
    ensures id in Failures(ws) <==> exists i :: 0 <= i < |ws| && Retried(ws[i].pc) && ws[i].record.messageId == id
  {
    if ws != [] {
      FailuresExact(ws[1..], id);
      if Retried(ws[0].pc) && ws[0].record.messageId == id {
        assert Failures(ws)[0] == id;
      } else if exists i :: 0 <= i < |ws| && Retried(ws[i].pc) && ws[i].record.messageId == id {
        var i :| 0 <= i < |ws| && Retried(ws[i].pc) && ws[i].record.messageId == id;
        assert ws[1..][i - 1] == ws[i];
      }
    }
  }

  /** A record that settled without a retry has a document or a copy. */
  lemma AckedIsAccounted(cfg: Config, s: State, w: Worker, r: nat)
    requires r < |s.workers| && w == s.workers[r] && WorkerOk(cfg, s, r) && w.pc.Settled? && !Retried(w.pc)
    ensures w.record.messageId in s.sent && Accounted(cfg, s, w.record.messageId)
  {
    var m := w.record.messageId;
    assert m in s.sent && s.sent[m] == w.record.body;
    if w.pc == Settled(Invalid) || w.pc == Settled(Failure(false, false)) {
      assert Copied(s, w.record) && w.record == Record(m, s.sent[m]);
    } else {
      assert w.pc == Settled(Skipped) || w.pc == Settled(Succeeded) || w.pc == Settled(Failure(false, true));
      assert w.pc != Settled(Skipped) ==> InsertReturned(w.pc) && r in s.inserted;
      assert w.env.Some? && cfg.parse(s.sent[m]) == w.env && w.env.value.eventId in s.docs;
    }
  }

  lemma AnsweredAccounted(cfg: Config, s: State, b: nat, m: string)
    requires b < |s.batches| && IsBatch(s, b) && m in s.sent && m in s.queue && m !in Answered(s, b).queue
    requires forall r :: 0 <= r < |s.workers| ==> WorkerOk(cfg, s, r)
    requires forall w :: w in WorkersOf(s, b) ==> w.pc.Settled?
    ensures Accounted(cfg, s, m)
  {
    hide WorkerOk, Failures, Accounted;
    var ws := WorkersOf(s, b);
    var w :| w in ws && w.record.messageId !in Failures(ws) && w.record.messageId == m;
    var i :| 0 <= i < |ws| && ws[i] == w;
    FailuresExact(ws, m);
    AckedIsAccounted(cfg, s, w, s.batches[b].first + i);
  }

  lemma AnsweredBatch(s: State, b: nat)
    requires b < |s.batches| && BatchOk(s, b) && s.batches[b].phase == Active
    requires forall w :: w in WorkersOf(s, b) ==> w.pc.Settled?
    ensures BatchOk(Answered(s, b), b)
  {
    assert WorkersOf(Answered(s, b), b) == WorkersOf(s, b);
  }

  lemma ReturnStep(cfg: Config, s: State, b: nat)
    requires Inv(cfg, s) && Enabled(cfg, s, Return(b))
    ensures Inv(cfg, Answered(s, b))
  {
    hide WorkerOk, DocOk, Accounted, BatchOk;
    var s' := Answered(s, b);
    assert SameRecords(s, s');
    AnsweredBatch(s, b);
    forall x | 0 <= x < |s'.batches| ensures BatchOk(s', x) {
      if x != b { OldBatchOk(s, s', x); }
    }
    forall m | m in s'.sent && m !in s'.queue ensures Accounted(cfg, s', m) {
      if m in s.queue { AnsweredAccounted(cfg, s, b, m); }
      MessageKept(cfg, s, s', m);
    }
    SystemStep(cfg, s, s');
  }

  lemma CrashBatches(s: State, cfg: Config, b: nat, x: nat)
    requires b < |s.batches| && x < |s.batches| && BatchOk(s, x)
    ensures BatchOk(Killed(cfg, s, b), x)
  {
    var s' := Killed(cfg, s, b);
    if x != b {
      assert WorkersOf(s', x) == WorkersOf(s, x);
    }
  }

  lemma CrashWorker(cfg: Config, s: State, b: nat, r: nat)
    requires Inv(cfg, s) && b < |s.batches| && r < |s.workers|
    ensures WorkerOk(cfg, Killed(cfg, s, b), r)
  {
    InvIsLocal(cfg, s, r);
    var s' := Killed(cfg, s, b);
    if s.workers[r].batch == b {
      StopKeeps(cfg, s, s', r, Dead);
    }
  }

  lemma CrashDoc(cfg: Config, s: State, b: nat, id: string)
    requires b < |s.batches| && id in s.docs && DocOk(s, id)
    ensures DocOk(Killed(cfg, s, b), id)
  {
  }

  lemma CrashStep(cfg: Config, s: State, b: nat)
    requires Inv(cfg, s) && IsBatch(s, b)
    ensures Inv(cfg, Killed(cfg, s, b))
  {
    var s' := Killed(cfg, s, b);
    forall r | 0 <= r < |s'.workers| ensures WorkerOk(cfg, s', r) { CrashWorker(cfg, s, b, r); }
    forall id | id in s'.docs ensures DocOk(s', id) { CrashDoc(cfg, s, b, id); }
    forall k | 0 <= k < |s'.dispatches| ensures DispatchOk(s', k) { assert DispatchOk(s, k); }
    forall k | 0 <= k < |s'.transitions| ensures TransitionOk(s', k) { assert TransitionOk(s, k); }
    forall x | 0 <= x < |s'.batches| ensures BatchOk(s', x) { CrashBatches(s, cfg, b, x); }
    forall m | m in s'.sent && m !in s'.queue ensures Accounted(cfg, s', m) { assert Accounted(cfg, s, m); }
  }

  /** A worker's step, once its own promises are kept, keeps the invariant. */
  lemma WorkerActionStep(cfg: Config, s: State, a: Action, r: nat)
    requires Inv(cfg, s) && Enabled(cfg, s, a)
    requires !(a.Publish? || a.Redrive? || a.Receive? || a.Boot? || a.Abort? || a.Return? || a.Crash?) && a.worker == r
    ensures Moves(cfg, s, Apply(cfg, s, a), r)
    ensures Apply(cfg, s, a).workers[r].pc == s.workers[r].pc || Live(s, r)
  {
    InvIsLocal(cfg, s, r);
    match a {
      case Land(_) =>
        if s.workers[r].inFlight.value.InsertDoc? {
          LandInsertMoves(cfg, s, r);
        } else {
          LandTransitionMoves(cfg, s, r);
        }
      case Parse(_) => ParseMoves(cfg, s, r);
      case Quarantine(_, landed) => QuarantineMoves(cfg, s, r, landed);
      case InsertReturns(_) => InsertMoves(cfg, s, r);
      case InsertDuplicate(_) => DuplicateMoves(cfg, s, r);
      case InsertThrows(_, transient) => InsertThrowsMoves(cfg, s, r, transient);
      case TransitionReturns(_) => TransitionMoves(cfg, s, r);
      case TransitionThrows(_) => TransitionThrowsMoves(cfg, s, r);
      case CallHandler(_) => CallMoves(cfg, s, r);
      case HandlerReturns(_) => HandlerMoves(cfg, s, r, HandlerOk);
      case HandlerFails(_, transient, reason) => HandlerMoves(cfg, s, r, HandlerThrew(transient, reason));
      case Reject(_) => RejectMoves(cfg, s, r);
    }
  }

  lemma WorkerActionKeeps(cfg: Config, s: State, a: Action, r: nat)
    requires Inv(cfg, s) && Enabled(cfg, s, a)
    requires !(a.Publish? || a.Redrive? || a.Receive? || a.Boot? || a.Abort? || a.Return? || a.Crash?) && a.worker == r
    ensures Inv(cfg, Apply(cfg, s, a))
  {
    WorkerActionStep(cfg, s, a, r);
    WorkerStep(cfg, s, Apply(cfg, s, a), r);
  }

  /** The invariant is inductive. */
  lemma StepKeeps(cfg: Config, s: State, a: Action)
    requires Inv(cfg, s) && Enabled(cfg, s, a)
    ensures Inv(cfg, Apply(cfg, s, a))
  {
    match a {
      case Publish(_, _) => QueueStep(cfg, s, a);
      case Redrive(_) => QueueStep(cfg, s, a);
      case Receive(container, records) => ReceiveStep(cfg, s, container, records);
      case Boot(b) => BootStep(cfg, s, b);
      case Abort(b, indexLanded) => AbortStep(cfg, s, b, indexLanded);
      case Return(b) => ReturnStep(cfg, s, b);
      case Crash(b) => CrashStep(cfg, s, b);
      case _ => WorkerActionKeeps(cfg, s, a, a.worker);
    }
  }
}
