/** Every step of a worker keeps the worker's own promises. */
module ProtocolSteps {
  import opened Options
  import opened Events
  import opened Protocol
  import opened ProtocolInvariant

  lemma ParseMoves(cfg: Config, s: State, r: nat)
    requires Local(cfg, s, r) && At(s, r, Received)
    ensures Moves(cfg, s, Parsed(cfg, s, r), r)
  {
  }

  lemma QuarantineMoves(cfg: Config, s: State, r: nat, landed: bool)
    requires Local(cfg, s, r) && (At(s, r, Refused) || At(s, r, InsertRefused))
    ensures Moves(cfg, s, Quarantined(s, r, landed), r)
  {
    hide Consistent, SeededFrom;
    assert Copy(s.workers[r].record, landed) in Quarantined(s, r, landed).copies;
  }

  lemma InsertMoves(cfg: Config, s: State, r: nat)
    requires Local(cfg, s, r) && Inserts(cfg, s, r) && !Duplicate(s, r)
    ensures Moves(cfg, s, Inserted(cfg, s, r), r)
  {
    hide Consistent, SeededFrom;
    SeedIsConsistent(s.workers[r].env.value);
  }

  lemma DuplicateMoves(cfg: Config, s: State, r: nat)
    requires Local(cfg, s, r) && Inserts(cfg, s, r) && Duplicate(s, r)
    ensures Moves(cfg, s, SetPc(s, r, Settled(Skipped)), r)
  {
  }

  lemma InsertThrowsMoves(cfg: Config, s: State, r: nat, transient: bool)
    requires Local(cfg, s, r) && Inserts(cfg, s, r)
    ensures Moves(cfg, s, InsertLostAt(cfg, s, r, transient), r)
  {
  }

  /** The transition an owner sends can always follow the history it finds. */
  lemma NextTransitionFollows(cfg: Config, s: State, r: nat)
    requires Local(cfg, s, r) && Transits(cfg, s, r)
    ensures r in s.inserted && s.workers[r].env.Some? && NextWrite(cfg, s.workers[r]).value.Transition?
    ensures var write := NextWrite(cfg, s.workers[r]).value;
            && write.eventId == s.workers[r].env.value.eventId
            && write.eventId in s.docs && write.eventId in s.owner && s.owner[write.eventId] == r
            && DocOk(s, write.eventId)
            && CanFollow(Statuses(s.docs[write.eventId].history), write.status)
            && (write.error.Some? <==> write.status == Status.Failed)
  {
  }

  /** Once a legal transition is stored, its sender's history matches where it goes next. */
  lemma TransitionStored(cfg: Config, s: State, s': State, r: nat, write: Write)
    requires Local(cfg, s, r) && r in s.inserted && write.Transition? && write.eventId in s.docs
    requires write.eventId == s.workers[r].env.value.eventId && DocOk(s, write.eventId)
    requires CanFollow(Statuses(s.docs[write.eventId].history), write.status)
    requires write.error.Some? <==> write.status == Status.Failed
    requires |s'.workers| == |s.workers| && s'.workers[r] == s.workers[r].(pc := s'.workers[r].pc, inFlight := None)
    requires |s'.batches| == |s.batches| && s'.sent == s.sent && s'.owner == s.owner
    requires s'.inserted == s.inserted && s'.copies == s.copies
    requires s'.docs == Written(s.docs, write)
    requires InsertReturned(s'.workers[r].pc) || Stopped(s'.workers[r].pc)
    requires HistoryAt(s'.workers[r].pc, Statuses(s.docs[write.eventId].history) + [write.status])
    ensures WorkerOk(cfg, s', r) && DocsOf(s', r)
  {
    hide Consistent, SeededFrom;
    TransitionKeepsConsistent(s.docs[write.eventId], s.workers[r].env.value, write.status, write.error);
  }

  lemma TransitionMoves(cfg: Config, s: State, r: nat)
    requires Local(cfg, s, r) && Transits(cfg, s, r)
    ensures Moves(cfg, s, Transited(cfg, s, r), r)
  {
    hide Consistent, SeededFrom;
    NextTransitionFollows(cfg, s, r);
    TransitionStored(cfg, s, Transited(cfg, s, r), r, NextWrite(cfg, s.workers[r]).value);
  }

  lemma TransitionThrowsMoves(cfg: Config, s: State, r: nat)
    requires Local(cfg, s, r) && Transits(cfg, s, r)
    ensures Moves(cfg, s, TransitLost(cfg, s, r), r)
  {
    hide Consistent, SeededFrom;
    NextTransitionFollows(cfg, s, r);
  }

  lemma HandlerMoves(cfg: Config, s: State, r: nat, pc: Pc)
    requires Local(cfg, s, r) && At(s, r, Dispatched) && (pc == HandlerOk || pc.HandlerThrew?)
    ensures Moves(cfg, s, SetPc(s, r, pc), r)
  {
  }

  lemma CallMoves(cfg: Config, s: State, r: nat)
    requires Local(cfg, s, r) && At(s, r, Running)
    requires forall j :: 0 <= j < |s.dispatches| ==> DispatchOk(s, j)
    ensures Moves(cfg, s, Called(s, r), r)
  {
    hide Consistent, SeededFrom;
    forall j | 0 <= j < |s.dispatches| ensures s.dispatches[j].worker != r {
      assert DispatchOk(s, j);
    }
  }

  /** A worker that stops with a write on the wire keeps its promises. */
  lemma StopKeeps(cfg: Config, s: State, s': State, r: nat, pc: Pc)
    requires Local(cfg, s, r) && Stopped(pc)
    requires |s'.workers| == |s.workers| && s'.workers[r] == Stop(cfg, s.workers[r], pc)
    requires |s'.batches| == |s.batches| && s'.sent == s.sent && s'.docs == s.docs && s'.owner == s.owner
    requires s'.inserted == s.inserted && s'.copies == s.copies
    ensures WorkerOk(cfg, s', r) && DocsOf(s', r)
  {
    hide Consistent, SeededFrom;
  }

  lemma RejectMoves(cfg: Config, s: State, r: nat)
    requires Local(cfg, s, r) && Live(s, r)
    ensures Moves(cfg, s, RejectedAt(cfg, s, r), r)
  {
    StopKeeps(cfg, s, RejectedAt(cfg, s, r), r, Settled(Rejected));
  }

  lemma LandInsertMoves(cfg: Config, s: State, r: nat)
    requires Local(cfg, s, r) && s.workers[r].inFlight.Some? && s.workers[r].inFlight.value.InsertDoc?
    ensures Moves(cfg, s, Landed(s, r), r)
  {
    hide Consistent, SeededFrom;
    SeedIsConsistent(s.workers[r].env.value);
  }

  lemma LandTransitionMoves(cfg: Config, s: State, r: nat)
    requires Local(cfg, s, r) && s.workers[r].inFlight.Some? && s.workers[r].inFlight.value.Transition?
    ensures Moves(cfg, s, Landed(s, r), r)
  {
    var write := s.workers[r].inFlight.value;
    assert DocOk(s, write.eventId);
    TransitionStored(cfg, s, Landed(s, r), r, write);
  }
}
