/** Concurrent creations and teardowns, interleaved one database transaction at a time. */
module TrackingRuns {
  import opened Options
  import opened Trackings

  datatype Outcome = Created(row: nat) | UnknownUser | AlreadyExists | Fault

  /** Where a creation has got to; each phase but the last ends in one call to a port. */
  datatype Phase = Resolving | Checking(userId: string) | Writing(userId: string) | Done(outcome: Outcome)

  datatype Call = Call(input: Input, phase: Phase)

  /**
   * `creators` says which call inserted each row, None for the rows the run starts with. `minted` holds the id
   * and number of every refused write, and `clashed` the calls refused though their order was free.
   */
  datatype State = State(
    db: Db, calls: seq<Call>, creators: seq<Option<nat>>, minted: map<nat, (string, string)>, clashed: set<nat>)

  datatype Answer = Found(userId: string) | NotFound | Unavailable

  /** How a write goes: it is answered, it lands but the answer is lost, or it fails without a trace. */
  datatype Fate = Answered | Unheard | Failed

  datatype Action =
    | Begin(input: Input)
    | Resolve(call: nat, answer: Answer)
    | Check(call: nat, ok: bool)
    | Write(call: nat, id: string, number: string, at: int, fate: Fate)
    | Sweep(runTag: string, at: int)
    | Erase(cognitoSub: string, userId: string, at: int)
    | Advance(row: nat, status: string, at: int)

  predicate InPhase(s: State, c: nat) { c < |s.calls| && !s.calls[c].phase.Done? }

  predicate Enabled(cfg: Collation, s: State, a: Action) {
    match a
    case Begin(_) => true
    case Resolve(c, _) => InPhase(s, c) && s.calls[c].phase.Resolving?
    case Check(c, _) => InPhase(s, c) && s.calls[c].phase.Checking?
    case Write(c, _, _, _, _) => InPhase(s, c) && s.calls[c].phase.Writing?
    case Sweep(_, _) => true
    case Erase(sub, user, _) => sub != "" && user != ""
    case Advance(i, status, _) => CanAdvance(cfg, s.db, i, status)
  }

  function To(s: State, c: nat, phase: Phase): State
    requires c < |s.calls|
  {
    s.(calls := s.calls[c := s.calls[c].(phase := phase)])
  }

  function Resolved(s: State, c: nat, answer: Answer): State
    requires c < |s.calls|
  {
    match answer
    case Found(user) => To(s, c, Checking(user))
    case NotFound => To(s, c, Done(UnknownUser))
    case Unavailable => To(s, c, Done(Fault))
  }

  function Checked(cfg: Collation, s: State, c: nat, ok: bool): State
    requires c < |s.calls| && s.calls[c].phase.Checking?
  {
    if !ok then To(s, c, Done(Fault))
    else if Exists(cfg, s.db, s.calls[c].input.orderId) then To(s, c, Done(AlreadyExists))
    else To(s, c, Writing(s.calls[c].phase.userId))
  }

  /** A minted id or number stands in the table. */
  predicate IsTaken(cfg: Collation, rows: seq<Row>, mint: (string, string)) {
    HasId(cfg, rows, mint.0) || HasNumber(cfg, rows, mint.1)
  }

  function Refused(cfg: Collation, s: State, c: nat, mint: (string, string)): State
    requires c < |s.calls|
  {
    var s' := To(s, c, Done(AlreadyExists)).(minted := s.minted[c := mint]);
    if HasOrder(cfg, s.db.rows, s.calls[c].input.orderId) then s' else s'.(clashed := s.clashed + {c})
  }

  function Landed(s: State, c: nat, row: Row, heard: bool): State
    requires c < |s.calls|
  {
    To(s, c, Done(if heard then Created(|s.db.rows|) else Fault)).(
      db := Inserted(s.db, row), creators := s.creators + [Some(c)])
  }

  function Wrote(cfg: Collation, s: State, a: Action): State
    requires a.Write? && InPhase(s, a.call) && s.calls[a.call].phase.Writing?
  {
    var row := NewRow(s.calls[a.call].input, s.calls[a.call].phase.userId, a.id, a.number, a.at);
    if a.fate == Failed then To(s, a.call, Done(Fault))
    else if IsDuplicate(cfg, s.db, row) then Refused(cfg, s, a.call, (a.id, a.number))
    else Landed(s, a.call, row, a.fate == Answered)
  }

  function Deleted(cfg: Collation, s: State, sel: Selector, stamp: Stamp): State {
    s.(db := SoftDeleted(cfg, sel, stamp, s.db))
  }

  const CLEANUP := "tracking_api:e2e_cleanup"
  const ERASURE := "tracking_api:delete_by_user"

  function Apply(cfg: Collation, s: State, a: Action): State
    requires Enabled(cfg, s, a)
  {
    match a
    case Begin(input) => s.(calls := s.calls + [Call(input, Resolving)])
    case Resolve(c, answer) => Resolved(s, c, answer)
    case Check(c, ok) => Checked(cfg, s, c, ok)
    case Write(_, _, _, _, _) => Wrote(cfg, s, a)
    case Sweep(runTag, at) => Deleted(cfg, s, SweepSelector(runTag), Stamp(at, CLEANUP))
    case Erase(sub, user, at) => Deleted(cfg, s, ByUser(sub, user), Stamp(at, ERASURE))
    case Advance(i, status, at) => s.(db := Advanced(s.db, i, status, at))
  }

  function Start(db: Db): State {
    State(db, [], seq(|db.rows|, i => None), map[], {})
  }

  /** The state a sequence of actions leads to, if each is enabled where it comes. */
  function After(cfg: Collation, db: Db, actions: seq<Action>): Option<State> {
    if actions == [] then Some(Start(db))
    else
      var s := After(cfg, db, actions[..|actions| - 1]);
      var a := actions[|actions| - 1];
      if s.Some? && Enabled(cfg, s.value, a) then Some(Apply(cfg, s.value, a)) else None
  }

  // ----- the invariant -----

  /** The row a call inserted: its caller's order and tags. */
  predicate CreatorOk(s: State, i: nat)
    requires i < |s.creators| == |s.db.rows|
  {
    s.creators[i].Some? ==>
      var c := s.creators[i].value;
      && c < |s.calls| && (s.calls[c].phase == Done(Created(i)) || s.calls[c].phase == Done(Fault))
      && s.db.rows[i].orderId == s.calls[c].input.orderId && s.db.rows[i].tags == TagsOf(s.calls[c].input)
      && s.db.rows[i].cognitoSub == NullIfEmpty(s.calls[c].input.cognitoSub)
  }

  predicate CallOk(cfg: Collation, s: State, c: nat)
    requires c < |s.calls| && |s.creators| == |s.db.rows|
  {
    match s.calls[c].phase
    case Done(Created(i)) => i < |s.db.rows| && s.creators[i] == Some(c) && c !in s.clashed
    case Done(AlreadyExists) =>
      if c in s.clashed then IsClashed(cfg, s, c) else HasOrder(cfg, s.db.rows, s.calls[c].input.orderId)
    case _ => c !in s.clashed
  }

  /** Refused for a minted id or number that stands in the table. */
  predicate IsClashed(cfg: Collation, s: State, c: nat) {
    c in s.clashed && c in s.minted && IsTaken(cfg, s.db.rows, s.minted[c])
  }

  /** `first` is what the tables held at the start. */
  predicate Inv(cfg: Collation, first: Db, s: State) {
    && DbOk(cfg, s.db) && Grows(first, s.db) && |s.creators| == |s.db.rows|
    && (forall c :: c in s.clashed ==> c < |s.calls|)
    && (forall i :: 0 <= i < |s.creators| ==> (s.creators[i].None? <==> i < |first.rows|))
    && (forall i :: 0 <= i < |s.creators| ==> CreatorOk(s, i))
    && (forall c :: 0 <= c < |s.calls| ==> CallOk(cfg, s, c))
  }

  lemma OrderStays(cfg: Collation, before: Db, later: Db, orderId: string)
    requires Grows(before, later) && HasOrder(cfg, before.rows, orderId)
    ensures HasOrder(cfg, later.rows, orderId)
  {
    var i :| 0 <= i < |before.rows| && Eq(cfg, before.rows[i].orderId, orderId);
    assert Follows(before.rows[i], later.rows[i]);
  }

  lemma MintStays(cfg: Collation, before: Db, later: Db, mint: (string, string))
    requires Grows(before, later) && IsTaken(cfg, before.rows, mint)
    ensures IsTaken(cfg, later.rows, mint)
  {
    if i :| 0 <= i < |before.rows| && Eq(cfg, before.rows[i].id, mint.0) {
      assert Follows(before.rows[i], later.rows[i]);
    }
    if i :| 0 <= i < |before.rows| && Eq(cfg, before.rows[i].number, mint.1) {
      assert Follows(before.rows[i], later.rows[i]);
    }
  }

  /** What a refused call was refused for stays in the table. */
  lemma RefusalStays(cfg: Collation, s: State, s': State, c: nat)
    requires Grows(s.db, s'.db) && c < |s.calls| && |s.creators| == |s.db.rows| && |s'.creators| == |s'.db.rows|
    requires c < |s'.calls| && s'.calls[c] == s.calls[c] && s.creators <= s'.creators
    requires (c in s'.clashed <==> c in s.clashed) && (c in s.minted ==> c in s'.minted && s'.minted[c] == s.minted[c])
    requires CallOk(cfg, s, c)
    ensures CallOk(cfg, s', c)
  {
    hide HasOrder, IsTaken, Grows;
    if s.calls[c].phase == Done(AlreadyExists) {
      if c in s.clashed {
        MintStays(cfg, s.db, s'.db, s.minted[c]);
      } else {
        OrderStays(cfg, s.db, s'.db, s.calls[c].input.orderId);
      }
    }
  }

  lemma GrowsOn(a: Db, b: Db, c: Db)
    requires Grows(a, b) && Grows(b, c)
    ensures Grows(a, c)
  {
    forall i | 0 <= i < |a.rows| ensures Follows(a.rows[i], c.rows[i]) {
      assert Follows(a.rows[i], b.rows[i]) && Follows(b.rows[i], c.rows[i]);
    }
  }

  /** A step that inserts no row and ends no call keeps the invariant. */
  lemma TablesStep(cfg: Collation, first: Db, s: State, db: Db)
    requires Inv(cfg, first, s) && DbOk(cfg, db) && Grows(s.db, db) && |db.rows| == |s.db.rows|
    ensures Inv(cfg, first, s.(db := db))
  {
    hide DbOk, CallOk;
    var s' := s.(db := db);
    GrowsOn(first, s.db, db);
    forall i | 0 <= i < |s'.creators| ensures CreatorOk(s', i) {
      assert CreatorOk(s, i) && Follows(s.db.rows[i], db.rows[i]);
    }
    forall c | 0 <= c < |s'.calls| ensures CallOk(cfg, s', c) { RefusalStays(cfg, s, s', c); }
  }

  /** A step that only moves one call on, or ends it without a row, keeps the invariant. */
  lemma CallStep(cfg: Collation, first: Db, s: State, c: nat, s': State)
    requires Inv(cfg, first, s) && InPhase(s, c)
    requires s'.db == s.db && s'.creators == s.creators
    requires s'.clashed - {c} == s.clashed - {c} && s'.minted - {c} == s.minted - {c}
    requires |s'.calls| == |s.calls| && s'.calls[c].input == s.calls[c].input
    requires forall x :: 0 <= x < |s.calls| && x != c ==> s'.calls[x] == s.calls[x]
    requires CallOk(cfg, s', c)
    ensures Inv(cfg, first, s')
  {
    hide DbOk, CallOk;
    forall i | 0 <= i < |s'.creators| ensures CreatorOk(s', i) { assert CreatorOk(s, i); }
    forall x | x in s'.clashed ensures x < |s'.calls| { assert x != c ==> x in s'.clashed - {c}; }
    forall x | 0 <= x < |s'.calls| && x != c ensures CallOk(cfg, s', x) { OthersStay(cfg, s, s', c, x); }
  }

  lemma OthersStay(cfg: Collation, s: State, s': State, c: nat, x: nat)
    requires s'.db == s.db && s'.creators == s.creators && |s.creators| == |s.db.rows|
    requires s'.clashed - {c} == s.clashed - {c} && s'.minted - {c} == s.minted - {c}
    requires x < |s.calls| == |s'.calls| && x != c && s'.calls[x] == s.calls[x] && CallOk(cfg, s, x)
    ensures CallOk(cfg, s', x)
  {
    hide CallOk;
    assert (x in s'.clashed <==> x in s'.clashed - {c}) && (x in s.clashed <==> x in s.clashed - {c});
    if x in s.minted {
      assert x in s.minted - {c} && (s.minted - {c})[x] == s.minted[x];
      assert x in s'.minted - {c} && (s'.minted - {c})[x] == s'.minted[x];
    }
    RefusalStays(cfg, s, s', x);
  }

  lemma BeginStep(cfg: Collation, first: Db, s: State, input: Input)
    requires Inv(cfg, first, s)
    ensures Inv(cfg, first, s.(calls := s.calls + [Call(input, Resolving)]))
  {
    hide DbOk, HasOrder, Grows, IsTaken;
    var s' := s.(calls := s.calls + [Call(input, Resolving)]);
    forall i | 0 <= i < |s'.creators| ensures CreatorOk(s', i) { assert CreatorOk(s, i); }
    forall x | 0 <= x < |s'.calls| ensures CallOk(cfg, s', x) { assert x < |s.calls| ==> CallOk(cfg, s, x); }
  }

  lemma ExistsHasOrder(cfg: Collation, db: Db, orderId: string)
    requires DbOk(cfg, db) && Exists(cfg, db, orderId)
    ensures HasOrder(cfg, db.rows, orderId)
  {
    PreCheckSeesLiveTrackings(cfg, db, orderId);
  }

  lemma LandedIsOk(cfg: Collation, s: State, c: nat, row: Row, heard: bool)
    requires InPhase(s, c) && |s.creators| == |s.db.rows| && CallOk(cfg, s, c)
    ensures CallOk(cfg, Landed(s, c, row, heard), c)
  {
    hide HasOrder, IsTaken;
  }

  lemma LandStep(cfg: Collation, first: Db, s: State, c: nat, row: Row, heard: bool)
    requires Inv(cfg, first, s) && InPhase(s, c) && s.calls[c].phase.Writing? && !IsDuplicate(cfg, s.db, row)
    requires exists id, number, at :: row == NewRow(s.calls[c].input, s.calls[c].phase.userId, id, number, at)
    ensures Inv(cfg, first, Landed(s, c, row, heard))
  {
    hide DbOk, CallOk, IsDuplicate;
    var s' := Landed(s, c, row, heard);
    TagsAreDisciplined(s.calls[c].input);
    InsertKeeps(cfg, s.db, row);
    GrowsOn(first, s.db, s'.db);
    forall i | 0 <= i < |s'.creators| ensures CreatorOk(s', i) { assert i < |s.creators| ==> CreatorOk(s, i); }
    forall x | 0 <= x < |s'.calls| && x != c ensures CallOk(cfg, s', x) { RefusalStays(cfg, s, s', x); }
    LandedIsOk(cfg, s, c, row, heard);
  }

  lemma StepKeeps(cfg: Collation, first: Db, s: State, a: Action)
    requires Inv(cfg, first, s) && Enabled(cfg, s, a)
    ensures Inv(cfg, first, Apply(cfg, s, a))
  {
    hide Inv, DbOk, HasOrder, IsDuplicate, SoftDeleted, Exists, CanAdvance, Inserted, Advanced;
    var s' := Apply(cfg, s, a);
    InvGivesDbOk(cfg, first, s);
    match a
    case Begin(input) => BeginStep(cfg, first, s, input);
    case Resolve(c, answer) =>
      UnfinishedIsUnclashed(cfg, first, s, c);
      InvStep(cfg, first, s, c, s');
    case Check(c, ok) =>
      UnfinishedIsUnclashed(cfg, first, s, c);
      if ok && Exists(cfg, s.db, s.calls[c].input.orderId) { ExistsHasOrder(cfg, s.db, s.calls[c].input.orderId); }
      InvStep(cfg, first, s, c, s');
    case Write(c, id, number, at, fate) =>
      var row := NewRow(s.calls[c].input, s.calls[c].phase.userId, id, number, at);
      DuplicateIsExact(cfg, s.db, row);
      UnfinishedIsUnclashed(cfg, first, s, c);
      if fate == Failed || IsDuplicate(cfg, s.db, row) {
        InvStep(cfg, first, s, c, s');
      } else {
        LandStep(cfg, first, s, c, row, fate == Answered);
      }
    case Sweep(runTag, at) =>
      SoftDeleteKeeps(cfg, SweepSelector(runTag), Stamp(at, CLEANUP), s.db);
      TablesStep(cfg, first, s, s'.db);
    case Erase(sub, user, at) =>
      SoftDeleteKeeps(cfg, ByUser(sub, user), Stamp(at, ERASURE), s.db);
      TablesStep(cfg, first, s, s'.db);
    case Advance(i, status, at) =>
      AdvanceStep(cfg, first, s, i, status, at);
  }

  lemma UnfinishedIsUnclashed(cfg: Collation, first: Db, s: State, c: nat)
    requires Inv(cfg, first, s) && InPhase(s, c)
    ensures c !in s.clashed
  {
    hide DbOk, Grows, HasOrder;
    assert CallOk(cfg, s, c);
  }

  lemma InvGivesDbOk(cfg: Collation, first: Db, s: State)
    requires Inv(cfg, first, s)
    ensures DbOk(cfg, s.db) && |s.creators| == |s.db.rows|
  {
  }

  lemma InvStep(cfg: Collation, first: Db, s: State, c: nat, s': State)
    requires Inv(cfg, first, s) && InPhase(s, c) && |s.creators| == |s.db.rows|
    requires s'.db == s.db && s'.creators == s.creators
    requires s'.clashed - {c} == s.clashed - {c} && s'.minted - {c} == s.minted - {c}
    requires |s'.calls| == |s.calls| && s'.calls == s.calls[c := s.calls[c].(phase := s'.calls[c].phase)]
    requires CallOk(cfg, s', c)
    ensures Inv(cfg, first, s')
  {
    hide Inv, CallOk;
    CallStep(cfg, first, s, c, s');
  }

  lemma AdvanceStep(cfg: Collation, first: Db, s: State, i: nat, status: string, at: int)
    requires Inv(cfg, first, s) && CanAdvance(cfg, s.db, i, status)
    ensures Inv(cfg, first, s.(db := Advanced(s.db, i, status, at)))
  {
    hide Inv;
    InvGivesDbOk(cfg, first, s);
    AdvanceKeeps(cfg, s.db, i, status, at);
    TablesStep(cfg, first, s, Advanced(s.db, i, status, at));
  }

  /** Every reachable state keeps the invariant. */
  lemma {:induction false} RunKeepsInv(cfg: Collation, first: Db, actions: seq<Action>)
    requires DbOk(cfg, first) && After(cfg, first, actions).Some?
    ensures Inv(cfg, first, After(cfg, first, actions).value)
  {
    hide Inv, DbOk, Enabled, Apply;
    if actions == [] {
      StartHolds(cfg, first);
    } else {
      RunKeepsInv(cfg, first, actions[..|actions| - 1]);
      StepKeeps(cfg, first, After(cfg, first, actions[..|actions| - 1]).value, actions[|actions| - 1]);
    }
  }

  lemma StartHolds(cfg: Collation, first: Db)
    requires DbOk(cfg, first)
    ensures Inv(cfg, first, Start(first))
  {
    hide DbOk;
  }
}
