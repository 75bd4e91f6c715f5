/** The inductive invariant of the delivery protocol, proved one action at a time. */
module ProtocolInvariant {
  import opened Options
  import opened Events
  import opened Protocol

  /** insertStarted has returned normally to this worker. */
  predicate InsertReturned(pc: Pc) {
    pc == Persisted || pc == Running || pc == Dispatched || pc == HandlerOk || pc.HandlerThrew? ||
    pc == Settled(Succeeded) || pc == Settled(Threw) ||
    (pc.Settled? && pc.verdict.Failure? && pc.verdict.persisted)
  }

  /** The worker has sent nothing to the collection yet, or was told of a duplicate. */
  predicate NeverSent(pc: Pc) {
    pc == Received || pc == Refused || pc == Inserting || pc == Settled(Invalid) || pc == Settled(Skipped)
  }

  /** The insert was refused or lost: nothing known to be persisted. */
  predicate InsertLost(pc: Pc) {
    pc == InsertRefused || (pc.Settled? && pc.verdict.Failure? && !pc.verdict.persisted)
  }

  predicate Stopped(pc: Pc) {
    pc == Settled(Rejected) || pc == Dead
  }

  predicate HandlerStarted(pc: Pc) {
    pc == Dispatched || pc == HandlerOk || pc.HandlerThrew? || Stopped(pc) ||
    pc == Settled(Succeeded) || pc == Settled(Threw) ||
    (pc.Settled? && pc.verdict.Failure? && pc.verdict.persisted)
  }

  /** What the owner's program counter says about the stored history. */
  predicate HistoryAt(pc: Pc, s: seq<Status>) {
    && (pc == Persisted ==> s == [Started])
    && ((pc == Running || pc == Dispatched || pc == HandlerOk) || pc.HandlerThrew? ==> s == [Started, InProgress])
    && (pc == Settled(Succeeded) ==> s == [Started, InProgress, Completed])
    && (pc.Settled? && pc.verdict.Failure? && pc.verdict.persisted ==>
          s == [Started, Status.Failed] || s == [Started, InProgress, Status.Failed])
  }

  ghost predicate InFlightOk(s: State, r: nat)
    requires r < |s.workers|
  {
    var w := s.workers[r];
    match w.inFlight
    case None => true
    case Some(InsertDoc(doc)) =>
      && w.env.Some? && doc == Seed(w.env.value) && r !in s.inserted
      && (InsertLost(w.pc) || Stopped(w.pc))
      && (doc.eventId in s.owner ==> s.owner[doc.eventId] != r)
    case Some(Transition(id, status, error)) =>
      && w.env.Some? && id == w.env.value.eventId && r in s.inserted
      && (w.pc == Settled(Threw) || Stopped(w.pc))
      && id in s.docs && CanFollow(Statuses(s.docs[id].history), status)
      && (error.Some? <==> status == Status.Failed)
  }

  ghost predicate Copied(s: State, record: Record) {
    Copy(record, true) in s.copies || Copy(record, false) in s.copies
  }

  ghost predicate WorkerOk(cfg: Config, s: State, r: nat)
    requires r < |s.workers|
  {
    var w := s.workers[r];
    && w.record.messageId in s.sent && s.sent[w.record.messageId] == w.record.body
    && w.batch < |s.batches|
    && (w.env.Some? ==> cfg.parse(w.record.body) == w.env)
    && (w.pc == Received ==> w.env.None?)
    && ((w.pc == Refused || w.pc == Settled(Invalid)) ==> cfg.parse(w.record.body).None?)
    && ((w.pc == Inserting || w.pc == Settled(Skipped)) || InsertReturned(w.pc) || InsertLost(w.pc) ==> w.env.Some?)
    && (NeverSent(w.pc) || InsertLost(w.pc) ==> r !in s.inserted)
    && (InsertReturned(w.pc) ==> r in s.inserted)
    && (r in s.inserted ==>
          && w.env.Some? && w.env.value.eventId in s.docs && w.env.value.eventId in s.owner
          && s.owner[w.env.value.eventId] == r
          && HistoryAt(w.pc, Statuses(s.docs[w.env.value.eventId].history)))
    && InFlightOk(s, r)
    && (w.pc == Settled(Skipped) ==> w.env.value.eventId in s.docs)
    && ((w.pc == Settled(Invalid) || w.pc == Settled(Failure(false, false))) ==> Copied(s, w.record))
  }

  /** A stored document comes from its owner's envelope and has a legal history. */
  ghost predicate DocOk(s: State, id: string)
    requires id in s.docs
  {
    && id in s.owner && s.owner[id] < |s.workers|
    && var w := s.workers[s.owner[id]];
    && w.env.Some? && w.env.value.eventId == id && !NeverSent(w.pc)
    && SeededFrom(s.docs[id], w.env.value) && Consistent(s.docs[id])
  }

  ghost predicate DispatchOk(s: State, k: nat)
    requires k < |s.dispatches|
  {
    var d := s.dispatches[k];
    && d.worker < |s.workers| && d.worker in s.inserted
    && s.workers[d.worker].env == Some(d.env) && HandlerStarted(s.workers[d.worker].pc)
    && forall j :: 0 <= j < k ==> s.dispatches[j].worker != d.worker
  }

  ghost predicate TransitionOk(s: State, k: nat)
    requires k < |s.transitions|
  {
    var (r, id) := s.transitions[k];
    r < |s.workers| && r in s.inserted && s.workers[r].env.Some? && s.workers[r].env.value.eventId == id
  }

  ghost predicate Accounted(cfg: Config, s: State, m: string)
    requires m in s.sent
  {
    || m in s.redriven
    || Copied(s, Record(m, s.sent[m]))
    || (cfg.parse(s.sent[m]).Some? && cfg.parse(s.sent[m]).value.eventId in s.docs)
  }

  ghost predicate BatchOk(s: State, b: nat)
    requires b < |s.batches|
  {
    && IsBatch(s, b)
    && (forall r :: s.batches[b].first <= r < s.batches[b].first + s.batches[b].count ==> s.workers[r].batch == b)
    && (s.batches[b].phase == Active ==> s.indexed)
    && (s.batches[b].phase == Booting ==> forall w :: w in WorkersOf(s, b) ==> w.pc == Received)
    && (s.batches[b].phase.Returned? ==> Verdicts(WorkersOf(s, b), s.batches[b].phase.failures))
  }

  /** A returned batch reports every record when bootstrap failed, else exactly the retried ones. */
  ghost predicate Verdicts(ws: seq<Worker>, ids: seq<string>) {
    || ((forall w :: w in ws ==> w.pc == Received) && ids == MessageIds(ws))
    || ((forall w :: w in ws ==> w.pc.Settled?) && ids == Failures(ws))
  }

  ghost predicate LogsOk(s: State) {
    && s.queue <= s.sent.Keys
    && (forall m :: m in s.redriven ==> m in s.sent && s.sent[m] in s.dlq)
    && (forall c :: c in s.copies && c.landed ==> c.record.body in s.dlq)
    && (s.latched != {} ==> s.indexed)
    && s.owner.Keys == s.docs.Keys
    && (forall r :: r in s.inserted ==> r < |s.workers|)
  }

  ghost predicate Inv(cfg: Config, s: State) {
    && LogsOk(s)
    && (forall r :: 0 <= r < |s.workers| ==> WorkerOk(cfg, s, r))
    && (forall id :: id in s.docs ==> DocOk(s, id))
    && (forall k :: 0 <= k < |s.dispatches| ==> DispatchOk(s, k))
    && (forall k :: 0 <= k < |s.transitions| ==> TransitionOk(s, k))
    && (forall b :: 0 <= b < |s.batches| ==> BatchOk(s, b))
    && (forall m :: m in s.sent ==> m in s.queue || Accounted(cfg, s, m))
  }

  /** Only worker `r`, the documents it owns and the logs it writes differ between s and s'. */
  ghost predicate OnlyMoved(s: State, s': State, r: nat) {
    && r < |s.workers| == |s'.workers|
    && (forall x :: 0 <= x < |s.workers| && x != r ==> s'.workers[x] == s.workers[x])
    && s'.workers[r].batch == s.workers[r].batch && s'.workers[r].record == s.workers[r].record
    && s'.sent == s.sent && s'.queue == s.queue && s'.redriven == s.redriven
    && s'.indexed == s.indexed && s'.latched == s.latched && s'.batches == s.batches
    && s.inserted <= s'.inserted <= s.inserted + {r}
    && (forall id :: id in s.docs ==> id in s'.docs)
    && (forall id :: id in s.owner ==> id in s'.owner && s'.owner[id] == s.owner[id])
    && (forall id :: id in s'.owner && id !in s.owner ==> s'.owner[id] == r)
    && (forall id :: id in s.docs && id in s.owner && s.owner[id] != r ==> s'.docs[id] == s.docs[id])
    && s.copies <= s'.copies
  }

  lemma OthersStayOk(cfg: Config, s: State, s': State, r: nat, x: nat)
    requires Inv(cfg, s) && OnlyMoved(s, s', r)
    requires x < |s.workers| && x != r
    ensures WorkerOk(cfg, s', x)
  {
    assert WorkerOk(cfg, s, x);
    var w := s.workers[x];
    assert s'.workers[x] == w;
  }

  lemma FailuresCongruent(ws: seq<Worker>, ws': seq<Worker>)
    requires |ws| == |ws'|
    requires forall i :: 0 <= i < |ws| ==> ws'[i].pc == ws[i].pc && ws'[i].record == ws[i].record
    ensures Failures(ws) == Failures(ws') && MessageIds(ws) == MessageIds(ws')
  {
    if ws != [] {
      FailuresCongruent(ws[1..], ws'[1..]);
    }
  }

  /** A batch's verdict survives a move of one of its workers unless it is still running. */
  lemma BatchesStayOk(s: State, s': State, r: nat, b: nat)
    requires OnlyMoved(s, s', r) && b < |s.batches| && BatchOk(s, b)
    requires s.workers[r].batch < |s.batches|
    requires s'.workers[r].pc == s.workers[r].pc || s.batches[s.workers[r].batch].phase == Active
    ensures BatchOk(s', b)
  {
    var ws, ws' := WorkersOf(s, b), WorkersOf(s', b);
    var first := s.batches[b].first;
    if s.batches[b].phase != Active {
      forall i | 0 <= i < |ws|
        ensures ws'[i].pc == ws[i].pc && ws'[i].record == ws[i].record
      {
        assert s.workers[first + i].batch == b;
      }
      FailuresCongruent(ws, ws');
      forall w' | w' in ws' ensures exists w :: w in ws && w.pc == w'.pc {
        var i :| 0 <= i < |ws'| && ws'[i] == w';
        assert ws[i] in ws;
      }
    }
  }

  ghost predicate DocsOf(s: State, r: nat) {
    forall id :: id in s.docs && id in s.owner && s.owner[id] == r ==> DocOk(s, id)
  }

  /** The part of the invariant one worker can see. */
  ghost predicate Local(cfg: Config, s: State, r: nat) {
    r < |s.workers| && LogsOk(s) && WorkerOk(cfg, s, r) && DocsOf(s, r)
  }

  lemma InvIsLocal(cfg: Config, s: State, r: nat)
    requires Inv(cfg, s) && r < |s.workers|
    ensures Local(cfg, s, r) && s.workers[r].batch < |s.batches| && BatchOk(s, s.workers[r].batch)
  {
    assert WorkerOk(cfg, s, r);
  }

  ghost predicate Logged(s: State, s': State) {
    && (s'.dispatches == s.dispatches ||
        (|s'.dispatches| == |s.dispatches| + 1 && s'.dispatches[..|s.dispatches|] == s.dispatches &&
          DispatchOk(s', |s.dispatches|)))
    && (s'.transitions == s.transitions ||
        (|s'.transitions| == |s.transitions| + 1 && s'.transitions[..|s.transitions|] == s.transitions &&
          TransitionOk(s', |s.transitions|)))
  }

  /** A move of worker `r` that keeps its own promises. */
  ghost predicate Moves(cfg: Config, s: State, s': State, r: nat) {
    && OnlyMoved(s, s', r)
    && Local(cfg, s', r)
    && Logged(s, s')
    && (r in s.inserted ==> s'.workers[r].env == s.workers[r].env)
    && (HandlerStarted(s.workers[r].pc) ==> HandlerStarted(s'.workers[r].pc))
  }

  lemma DispatchesStayOk(cfg: Config, s: State, s': State, r: nat, k: nat)
    requires Moves(cfg, s, s', r) && k < |s'.dispatches|
    requires k < |s.dispatches| ==> DispatchOk(s, k)
    ensures DispatchOk(s', k)
  {
    if k < |s.dispatches| {
      assert forall j :: 0 <= j < |s.dispatches| ==> s'.dispatches[j] == s'.dispatches[..|s.dispatches|][j];
    }
  }

  lemma TransitionsStayOk(cfg: Config, s: State, s': State, r: nat, k: nat)
    requires Moves(cfg, s, s', r) && k < |s'.transitions|
    requires k < |s.transitions| ==> TransitionOk(s, k)
    ensures TransitionOk(s', k)
  {
    if k < |s.transitions| {
      assert s'.transitions[k] == s'.transitions[..|s.transitions|][k];
    }
  }

  lemma DocsStayOk(s: State, s': State, r: nat, id: string)
    requires OnlyMoved(s, s', r) && DocsOf(s', r) && s'.owner.Keys == s'.docs.Keys && id in s'.docs
    requires id in s.docs ==> DocOk(s, id)
    requires s.owner.Keys == s.docs.Keys
    ensures DocOk(s', id)
  {
  }

  lemma StaysAccounted(cfg: Config, s: State, s': State, r: nat, m: string)
    requires OnlyMoved(s, s', r) && m in s.sent && Accounted(cfg, s, m)
    ensures Accounted(cfg, s', m)
  {
  }

  /** The frame rule: a move of one worker that keeps its own promises keeps everyone's. */
  lemma WorkerStep(cfg: Config, s: State, s': State, r: nat)
    requires Inv(cfg, s) && Moves(cfg, s, s', r)
    requires s'.workers[r].pc == s.workers[r].pc || Live(s, r)
    ensures Inv(cfg, s')
  {
    hide WorkerOk, DocOk, DispatchOk, TransitionOk, BatchOk, Accounted;
    InvIsLocal(cfg, s, r);
    forall x | 0 <= x < |s'.workers| ensures WorkerOk(cfg, s', x) {
      if x != r { OthersStayOk(cfg, s, s', r, x); }
    }
    forall id | id in s'.docs ensures DocOk(s', id) { DocsStayOk(s, s', r, id); }
    forall k | 0 <= k < |s'.dispatches| ensures DispatchOk(s', k) { DispatchesStayOk(cfg, s, s', r, k); }
    forall k | 0 <= k < |s'.transitions| ensures TransitionOk(s', k) { TransitionsStayOk(cfg, s, s', r, k); }
    forall b | 0 <= b < |s'.batches| ensures BatchOk(s', b) { BatchesStayOk(s, s', r, b); }
    forall m | m in s'.sent && m !in s'.queue ensures Accounted(cfg, s', m) { StaysAccounted(cfg, s, s', r, m); }
  }
}
