/** What holds of creations and teardowns over every run. */
module TrackingSafety {
  import opened Options
  import opened Trackings
  import opened TrackingRuns

  // ----- creation -----

  /** However calls interleave, no two rows, live or deleted, are for one order. */
  lemma OneTrackingPerOrder(cfg: Collation, first: Db, actions: seq<Action>, i: nat, j: nat)
    requires DbOk(cfg, first) && After(cfg, first, actions).Some?
    requires i < |After(cfg, first, actions).value.db.rows| && j < |After(cfg, first, actions).value.db.rows|
    requires var rows := After(cfg, first, actions).value.db.rows; Eq(cfg, rows[i].orderId, rows[j].orderId)
    ensures i == j
  {
    hide After;
    RunKeepsInv(cfg, first, actions);
    var rows := After(cfg, first, actions).value.db.rows;
    if i <= j { ClashIsSame(cfg, rows, i, j); } else { ClashIsSame(cfg, rows, j, i); }
  }

  lemma ClashIsSame(cfg: Collation, rows: seq<Row>, i: nat, j: nat)
    requires AreUnique(cfg, rows) && i <= j < |rows| && Clash(cfg, rows[i], rows[j])
    ensures i == j
  {
  }

  /** What a finished call means, whatever else ran beside it. */
  lemma FinishedCalls(cfg: Collation, first: Db, actions: seq<Action>, c: nat)
    requires DbOk(cfg, first) && After(cfg, first, actions).Some?
    requires c < |After(cfg, first, actions).value.calls|
    ensures var s := After(cfg, first, actions).value;
            var call := s.calls[c];
            && (forall i: nat :: call.phase == Done(Created(i)) ==>
                  i < |s.db.rows| && s.db.rows[i].orderId == call.input.orderId &&
                    s.db.rows[i].tags == TagsOf(call.input) &&
                  HasOpening(s.db.trail, s.db.rows[i]))
            && (call.phase == Done(AlreadyExists) ==>
                  if c in s.clashed then c in s.minted && IsTaken(cfg, s.db.rows, s.minted[c])
                  else HasOrder(cfg, s.db.rows, call.input.orderId))
            && (call.phase == Done(UnknownUser) ==> forall i :: 0 <= i < |s.creators| ==> s.creators[i] != Some(c))
  {
    hide After, HasOrder, HasOpening, AreUnique, IsTaken;
    RunKeepsInv(cfg, first, actions);
    var s := After(cfg, first, actions).value;
    assert CallOk(cfg, s, c);
    forall i: nat | s.calls[c].phase == Done(Created(i)) ensures i < |s.db.rows| && CreatorOk(s, i) { }
    forall i | 0 <= i < |s.creators| && s.calls[c].phase == Done(UnknownUser) ensures s.creators[i] != Some(c) {
      assert CreatorOk(s, i);
    }
  }

  predicate IsFor(cfg: Collation, s: State, c: nat, orderId: string) {
    c < |s.calls| && Eq(cfg, s.calls[c].input.orderId, orderId)
  }

  predicate HasCreated(s: State, c: nat) {
    c < |s.calls| && s.calls[c].phase.Done? && s.calls[c].phase.outcome.Created?
  }

  // ----- refused writes -----

  /**
   * A write that reaches the database is refused exactly when its order, its minted id or its minted number stands in
   * the table; and it clashed exactly when the order was not what stood there.
   */
  lemma RefusedExactly(cfg: Collation, s: State, a: Action)
    requires Enabled(cfg, s, a) && a.Write? && a.fate != Failed && a.call !in s.clashed
    ensures var s' := Apply(cfg, s, a);
            var order, mint := s.calls[a.call].input.orderId, (a.id, a.number);
            && (s'.calls[a.call].phase == Done(AlreadyExists) <==>
                  HasOrder(cfg, s.db.rows, order) || IsTaken(cfg, s.db.rows, mint))
            && (a.call in s'.clashed <==> !HasOrder(cfg, s.db.rows, order) && IsTaken(cfg, s.db.rows, mint))
  {
    hide HasOrder, HasId, HasNumber, IsDuplicate;
    var call := s.calls[a.call];
    DuplicateIsExact(cfg, s.db, NewRow(call.input, call.phase.userId, a.id, a.number, a.at));
  }

  /** Step n of the run is a write of call c that found its order free and its minted id or number taken. */
  predicate ClashesAt(cfg: Collation, first: Db, actions: seq<Action>, n: nat, c: nat) {
    && n < |actions| && actions[n].Write? && actions[n].call == c && actions[n].fate != Failed
    && After(cfg, first, actions[..n]).Some?
    && var s := After(cfg, first, actions[..n]).value;
    && c < |s.calls| && !HasOrder(cfg, s.db.rows, s.calls[c].input.orderId)
    && IsTaken(cfg, s.db.rows, (actions[n].id, actions[n].number))
  }

  lemma ClashStep(cfg: Collation, s: State, a: Action, c: nat)
    requires Enabled(cfg, s, a)
    ensures c in Apply(cfg, s, a).clashed <==>
            c in s.clashed ||
            (a.Write? && a.call == c && a.fate != Failed && !HasOrder(cfg, s.db.rows, s.calls[c].input.orderId) &&
             IsTaken(cfg, s.db.rows, (a.id, a.number)))
  {
    hide HasOrder, HasId, HasNumber, IsDuplicate, Exists, SoftDeleted, CanAdvance;
    if a.Write? {
      var call := s.calls[a.call];
      DuplicateIsExact(cfg, s.db, NewRow(call.input, call.phase.userId, a.id, a.number, a.at));
    }
  }

  lemma ClashesBefore(cfg: Collation, first: Db, actions: seq<Action>, m: nat, n: nat, c: nat)
    requires n < m <= |actions|
    ensures ClashesAt(cfg, first, actions[..m], n, c) <==> ClashesAt(cfg, first, actions, n, c)
  {
    assert actions[..m][..n] == actions[..n];
  }

  /** Over any run, the clashed calls are exactly those one of whose writes clashed. */
  lemma {:induction false} ClashedExactly(cfg: Collation, first: Db, actions: seq<Action>, c: nat)
    requires After(cfg, first, actions).Some?
    ensures c in After(cfg, first, actions).value.clashed <==>
            exists n :: 0 <= n < |actions| && ClashesAt(cfg, first, actions, n, c)
  {
    hide Enabled, Apply, ClashesAt;
    if actions != [] {
      var m := |actions| - 1;
      var s := After(cfg, first, actions[..m]).value;
      ClashedExactly(cfg, first, actions[..m], c);
      ClashStep(cfg, s, actions[m], c);
      ClashesLast(cfg, first, actions, c);
      if n :| 0 <= n < m && ClashesAt(cfg, first, actions[..m], n, c) { ClashesBefore(cfg, first, actions, m, n, c); }
      if n :| 0 <= n < |actions| && ClashesAt(cfg, first, actions, n, c) {
        if n < m { ClashesBefore(cfg, first, actions, m, n, c); }
      }
    }
  }

  lemma ClashesLast(cfg: Collation, first: Db, actions: seq<Action>, c: nat)
    requires actions != [] && After(cfg, first, actions).Some?
    ensures var m := |actions| - 1;
            var s, a := After(cfg, first, actions[..m]).value, actions[m];
            ClashesAt(cfg, first, actions, m, c) <==>
            (a.Write? && a.call == c && a.fate != Failed && !HasOrder(cfg, s.db.rows, s.calls[c].input.orderId) &&
             IsTaken(cfg, s.db.rows, (a.id, a.number)))
  {
    hide HasOrder, IsTaken, Apply;
  }

  /** At most one call ever succeeds for an order. */
  lemma AtMostOneSuccess(cfg: Collation, first: Db, actions: seq<Action>, orderId: string, c: nat, d: nat)
    requires DbOk(cfg, first) && After(cfg, first, actions).Some?
    requires var s := After(cfg, first, actions).value;
             IsFor(cfg, s, c, orderId) && IsFor(cfg, s, d, orderId) && HasCreated(s, c) && HasCreated(s, d)
    ensures c == d
  {
    hide After;
    RunKeepsInv(cfg, first, actions);
    var s := After(cfg, first, actions).value;
    assert CallOk(cfg, s, c) && CallOk(cfg, s, d);
    var i, j := s.calls[c].phase.outcome.row, s.calls[d].phase.outcome.row;
    assert CreatorOk(s, i) && CreatorOk(s, j);
    OneTrackingPerOrder(cfg, first, actions, i, j);
  }

  // ----- one success, or none -----

  /** The step is a write of a call for the order that lands, and whose caller never hears of it. */
  predicate LandsUnheard(cfg: Collation, s: State, a: Action, orderId: string) {
    && a.Write? && a.fate == Unheard && IsFor(cfg, s, a.call, orderId) && s.calls[a.call].phase.Writing?
    && !IsDuplicate(
         cfg, s.db, NewRow(s.calls[a.call].input, s.calls[a.call].phase.userId, a.id, a.number, a.at))
  }

  predicate UnheardAt(cfg: Collation, first: Db, actions: seq<Action>, n: nat, orderId: string) {
    && n < |actions| && After(cfg, first, actions[..n]).Some?
    && LandsUnheard(cfg, After(cfg, first, actions[..n]).value, actions[n], orderId)
  }

  /** Some row was inserted by a call for the order that ended in a fault. */
  predicate HasUnheard(cfg: Collation, s: State, orderId: string) {
    exists i :: 0 <= i < |s.creators| && IsUnheard(cfg, s, i, orderId)
  }

  predicate IsUnheard(cfg: Collation, s: State, i: nat, orderId: string) {
    && i < |s.creators| && s.creators[i].Some? && IsFor(cfg, s, s.creators[i].value, orderId)
    && s.calls[s.creators[i].value].phase == Done(Fault)
  }

  /** A call that inserted a row is over, so a step changes neither it nor who inserted the row. */
  lemma InsertersStay(cfg: Collation, first: Db, s: State, a: Action, i: nat, orderId: string)
    requires Inv(cfg, first, s) && Enabled(cfg, s, a) && i < |s.creators|
    ensures IsUnheard(cfg, Apply(cfg, s, a), i, orderId) <==> IsUnheard(cfg, s, i, orderId)
  {
    hide DbOk, CallOk, Grows, IsDuplicate, Exists, SoftDeleted, CanAdvance, HasOrder, Inserted, Advanced;
    assert CreatorOk(s, i);
  }

  lemma UnheardStep(cfg: Collation, first: Db, s: State, a: Action, orderId: string)
    requires Inv(cfg, first, s) && Enabled(cfg, s, a)
    ensures HasUnheard(cfg, Apply(cfg, s, a), orderId) <==>
            HasUnheard(cfg, s, orderId) || LandsUnheard(cfg, s, a, orderId)
  {
    hide Inv, IsUnheard;
    var s' := Apply(cfg, s, a);
    forall i | 0 <= i < |s.creators| ensures IsUnheard(cfg, s', i, orderId) <==> IsUnheard(cfg, s, i, orderId) {
      InsertersStay(cfg, first, s, a, i, orderId);
    }
    NewInserter(cfg, first, s, a, orderId);
  }

  lemma NewInserter(cfg: Collation, first: Db, s: State, a: Action, orderId: string)
    requires Inv(cfg, first, s) && Enabled(cfg, s, a)
    ensures var s', n := Apply(cfg, s, a), |s.creators|;
            && n <= |s'.creators| <= n + 1 && (IsUnheard(cfg, s', n, orderId) <==> LandsUnheard(cfg, s, a, orderId))
  {
    hide DbOk, CallOk, CreatorOk, Grows, IsDuplicate, Exists, SoftDeleted, CanAdvance, HasOrder, Inserted, Advanced;
  }

  lemma UnheardBefore(cfg: Collation, first: Db, actions: seq<Action>, m: nat, n: nat, orderId: string)
    requires n < m <= |actions|
    ensures UnheardAt(cfg, first, actions[..m], n, orderId) <==> UnheardAt(cfg, first, actions, n, orderId)
  {
    assert actions[..m][..n] == actions[..n];
  }

  /** Over any run, the rows whose callers never heard of them are exactly those of such writes. */
  lemma {:induction false} UnheardExactly(cfg: Collation, first: Db, actions: seq<Action>, orderId: string)
    requires DbOk(cfg, first) && After(cfg, first, actions).Some?
    ensures HasUnheard(cfg, After(cfg, first, actions).value, orderId) <==>
            exists n :: 0 <= n < |actions| && UnheardAt(cfg, first, actions, n, orderId)
  {
    hide DbOk, Inv, Enabled, Apply, HasUnheard, LandsUnheard;
    if actions == [] {
      NothingUnheard(cfg, first, orderId);
    } else {
      var m := |actions| - 1;
      var s := After(cfg, first, actions[..m]).value;
      RunKeepsInv(cfg, first, actions[..m]);
      UnheardExactly(cfg, first, actions[..m], orderId);
      UnheardStep(cfg, first, s, actions[m], orderId);
      forall n | 0 <= n < m
        ensures UnheardAt(cfg, first, actions[..m], n, orderId) <==> UnheardAt(cfg, first, actions, n, orderId)
      {
        UnheardBefore(cfg, first, actions, m, n, orderId);
      }
      assert UnheardAt(cfg, first, actions, m, orderId) <==> LandsUnheard(cfg, s, actions[m], orderId);
    }
  }

  lemma NothingUnheard(cfg: Collation, first: Db, orderId: string)
    ensures !HasUnheard(cfg, Start(first), orderId)
  {
  }

  /** The call was answered, that the order's tracking was made or that it was there. */
  predicate IsAnswered(s: State, c: nat) {
    c < |s.calls| && (HasCreated(s, c) || (s.calls[c].phase == Done(AlreadyExists) && c !in s.clashed))
  }

  lemma AnsweredHasOrder(cfg: Collation, first: Db, s: State, orderId: string, c: nat)
    requires Inv(cfg, first, s) && IsFor(cfg, s, c, orderId) && IsAnswered(s, c)
    ensures HasOrder(cfg, s.db.rows, orderId)
  {
    hide DbOk, Grows;
    assert CallOk(cfg, s, c);
    if HasCreated(s, c) {
      var i := s.calls[c].phase.outcome.row;
      assert CreatorOk(s, i) && Eq(cfg, s.db.rows[i].orderId, orderId);
    } else {
      var i :| 0 <= i < |s.db.rows| && Eq(cfg, s.db.rows[i].orderId, s.calls[c].input.orderId);
      assert Eq(cfg, s.db.rows[i].orderId, orderId);
    }
  }

  /**
   * In any state of any run, whatever other calls are under way, clashed or failed: a call for the order has succeeded
   * exactly when a row for it stands, live or deleted, none stood before, and no write for it landed unheard.
   */
  lemma SuccessIsExact(cfg: Collation, first: Db, actions: seq<Action>, orderId: string)
    requires DbOk(cfg, first) && After(cfg, first, actions).Some?
    ensures var s := After(cfg, first, actions).value;
            (exists c :: 0 <= c < |s.calls| && IsFor(cfg, s, c, orderId) && HasCreated(s, c)) <==>
              && HasOrder(cfg, s.db.rows, orderId) && !HasOrder(cfg, first.rows, orderId)
              && forall n :: 0 <= n < |actions| ==> !UnheardAt(cfg, first, actions, n, orderId)
  {
    hide After, DbOk, HasUnheard, UnheardAt;
    RunKeepsInv(cfg, first, actions);
    UnheardExactly(cfg, first, actions, orderId);
    var s := After(cfg, first, actions).value;
    if c :| 0 <= c < |s.calls| && IsFor(cfg, s, c, orderId) && HasCreated(s, c) {
      AnsweredHasOrder(cfg, first, s, orderId, c);
      if HasOrder(cfg, first.rows, orderId) { PriorRowRefuses(cfg, first, actions, orderId, c); }
      if HasUnheard(cfg, s, orderId) { UnheardRefuses(cfg, first, actions, orderId, c); }
    }
    if HasOrder(cfg, s.db.rows, orderId) && !HasOrder(cfg, first.rows, orderId) && !HasUnheard(cfg, s, orderId) {
      NewRowHasCreator(cfg, first, s, orderId);
    }
  }

  /** So once one call has been answered: one succeeded iff no row stood before and no write landed unheard. */
  lemma ExactlyOneSuccess(cfg: Collation, first: Db, actions: seq<Action>, orderId: string, known: nat)
    requires DbOk(cfg, first) && After(cfg, first, actions).Some?
    requires var s := After(cfg, first, actions).value; IsFor(cfg, s, known, orderId) && IsAnswered(s, known)
    ensures var s := After(cfg, first, actions).value;
            (exists c :: 0 <= c < |s.calls| && IsFor(cfg, s, c, orderId) && HasCreated(s, c)) <==>
              && !HasOrder(cfg, first.rows, orderId)
              && forall n :: 0 <= n < |actions| ==> !UnheardAt(cfg, first, actions, n, orderId)
  {
    hide After, DbOk, UnheardAt, HasOrder;
    RunKeepsInv(cfg, first, actions);
    AnsweredHasOrder(cfg, first, After(cfg, first, actions).value, orderId, known);
    SuccessIsExact(cfg, first, actions, orderId);
  }

  lemma UnheardRefuses(cfg: Collation, first: Db, actions: seq<Action>, orderId: string, c: nat)
    requires DbOk(cfg, first) && After(cfg, first, actions).Some?
    requires var s := After(cfg, first, actions).value; IsFor(cfg, s, c, orderId) && HasUnheard(cfg, s, orderId)
    ensures !HasCreated(After(cfg, first, actions).value, c)
  {
    hide After, DbOk;
    RunKeepsInv(cfg, first, actions);
    var s := After(cfg, first, actions).value;
    var i :| 0 <= i < |s.creators| && IsUnheard(cfg, s, i, orderId);
    assert CreatorOk(s, i) && CallOk(cfg, s, c);
    if HasCreated(s, c) {
      var j := s.calls[c].phase.outcome.row;
      assert CreatorOk(s, j);
      OneTrackingPerOrder(cfg, first, actions, i, j);
    }
  }

  lemma PriorRowRefuses(cfg: Collation, first: Db, actions: seq<Action>, orderId: string, c: nat)
    requires DbOk(cfg, first) && After(cfg, first, actions).Some? && HasOrder(cfg, first.rows, orderId)
    requires IsFor(cfg, After(cfg, first, actions).value, c, orderId)
    ensures !HasCreated(After(cfg, first, actions).value, c)
  {
    hide After, DbOk;
    RunKeepsInv(cfg, first, actions);
    var s := After(cfg, first, actions).value;
    var i :| 0 <= i < |first.rows| && Eq(cfg, first.rows[i].orderId, orderId);
    assert Follows(first.rows[i], s.db.rows[i]) && CallOk(cfg, s, c);
    if HasCreated(s, c) {
      var j := s.calls[c].phase.outcome.row;
      assert CreatorOk(s, j);
      OneTrackingPerOrder(cfg, first, actions, i, j);
    }
  }

  lemma PriorOrder(cfg: Collation, first: Db, db: Db, i: nat, orderId: string)
    requires Grows(first, db) && i < |first.rows| && Eq(cfg, db.rows[i].orderId, orderId)
    ensures HasOrder(cfg, first.rows, orderId)
  {
    assert Follows(first.rows[i], db.rows[i]);
  }

  lemma NewRowHasCreator(cfg: Collation, first: Db, s: State, orderId: string)
    requires Inv(cfg, first, s) && HasOrder(cfg, s.db.rows, orderId) && !HasOrder(cfg, first.rows, orderId)
    requires !HasUnheard(cfg, s, orderId)
    ensures exists c :: 0 <= c < |s.calls| && IsFor(cfg, s, c, orderId) && HasCreated(s, c)
  {
    hide DbOk;
    var i :| 0 <= i < |s.db.rows| && Eq(cfg, s.db.rows[i].orderId, orderId);
    if i < |first.rows| {
      PriorOrder(cfg, first, s.db, i, orderId);
      assert false;
    } else {
      assert CreatorOk(s, i) && !IsUnheard(cfg, s, i, orderId);
      var c := s.creators[i].value;
      assert IsFor(cfg, s, c, orderId) && HasCreated(s, c);
    }
  }

  // ----- teardown -----

  /**
   * The action is a teardown the row falls to, and this is its stamp: a sweep takes the E2E rows, of one run if it
   * names one; an erasure takes the rows of the sub or of the user.
   */
  predicate Stamps(cfg: Collation, a: Action, row: Row, stamp: Stamp) {
    match a
    case Sweep(runTag, at) =>
      && "E2E Source" in row.tags && (runTag != "" ==> runTag in row.tags)
      && stamp == Stamp(at, "tracking_api:e2e_cleanup")
    case Erase(sub, user, at) =>
      && ((row.cognitoSub.Some? && BinaryEq(cfg, row.cognitoSub.value, sub)) || BinaryEq(cfg, row.userId, user))
      && stamp == Stamp(at, "tracking_api:delete_by_user")
    case _ => false
  }

  /** A step deletes a live row exactly by selecting it, with the teardown's own stamp; a deleted row stays as it is. */
  lemma StepsDeleteWhatTheySelect(cfg: Collation, s: State, a: Action, i: nat)
    requires Enabled(cfg, s, a) && i < |s.db.rows|
    ensures i < |Apply(cfg, s, a).db.rows|
    ensures var row := Apply(cfg, s, a).db.rows[i];
            if s.db.rows[i].deleted.Some? then row.deleted == s.db.rows[i].deleted
            else forall stamp :: row.deleted == Some(stamp) <==> Stamps(cfg, a, s.db.rows[i], stamp)
  {
    hide BinaryEq, IsDuplicate, Exists;
  }

  lemma StepsAddLiveRows(cfg: Collation, s: State, a: Action, i: nat)
    requires Enabled(cfg, s, a) && i < |Apply(cfg, s, a).db.rows|
    ensures Apply(cfg, s, a).db.rows[i].deleted.Some? ==> i < |s.db.rows|
  {
    hide IsDuplicate, Exists, Selects;
  }

  /** Step n of the run is a teardown that selects the row, which is live there, and stamps it with `stamp`. */
  predicate DeletesAt(cfg: Collation, first: Db, actions: seq<Action>, n: nat, i: nat, stamp: Stamp) {
    && n < |actions| && After(cfg, first, actions[..n]).Some? && i < |After(cfg, first, actions[..n]).value.db.rows|
    && var row := After(cfg, first, actions[..n]).value.db.rows[i];
    row.deleted.None? && Stamps(cfg, actions[n], row, stamp)
  }

  lemma DeletesBefore(cfg: Collation, first: Db, actions: seq<Action>, m: nat, n: nat, i: nat, stamp: Stamp)
    requires n < m <= |actions|
    ensures DeletesAt(cfg, first, actions[..m], n, i, stamp) <==> DeletesAt(cfg, first, actions, n, i, stamp)
  {
    assert actions[..m][..n] == actions[..n];
  }

  lemma DeletesLast(cfg: Collation, first: Db, actions: seq<Action>, i: nat, stamp: Stamp)
    requires actions != [] && After(cfg, first, actions).Some? && i < |After(cfg, first, actions).value.db.rows|
    ensures var m := |actions| - 1;
            var rows := After(cfg, first, actions[..m]).value.db.rows;
            && (DeletesAt(cfg, first, actions, m, i, stamp) ==>
                  After(cfg, first, actions).value.db.rows[i].deleted == Some(stamp))
            && (i < |rows| && rows[i].deleted.None? &&
                After(cfg, first, actions).value.db.rows[i].deleted == Some(stamp) ==>
                  DeletesAt(cfg, first, actions, m, i, stamp))
  {
    hide Enabled, Apply, Stamps;
    var m := |actions| - 1;
    var s := After(cfg, first, actions[..m]).value;
    if i < |s.db.rows| { StepsDeleteWhatTheySelect(cfg, s, actions[m], i); }
  }

  lemma AddedLater(cfg: Collation, first: Db, actions: seq<Action>, i: nat, stamp: Stamp)
    requires After(cfg, first, actions).Some? && i >= |After(cfg, first, actions).value.db.rows|
    ensures forall n :: 0 <= n < |actions| ==> !DeletesAt(cfg, first, actions, n, i, stamp)
  {
    hide After, Stamps;
    forall n | 0 <= n < |actions| ensures !DeletesAt(cfg, first, actions, n, i, stamp) {
      if DeletesAt(cfg, first, actions, n, i, stamp) { FirstStampStays(cfg, first, actions, n, i); }
    }
  }

  /**
   * A row that was live when the run began, or added by it, ends deleted with a stamp exactly when some teardown of
   * the run selected it while it was live, and gave that stamp.
   */
  lemma {:induction false} DeletionsAreExact(cfg: Collation, first: Db, actions: seq<Action>, i: nat, stamp: Stamp)
    requires After(cfg, first, actions).Some? && i < |After(cfg, first, actions).value.db.rows|
    requires i < |first.rows| ==> first.rows[i].deleted.None?
    ensures After(cfg, first, actions).value.db.rows[i].deleted == Some(stamp) <==>
            exists n :: 0 <= n < |actions| && DeletesAt(cfg, first, actions, n, i, stamp)
  {
    hide Enabled, Apply, DeletesAt;
    if actions != [] {
      var m := |actions| - 1;
      var s := After(cfg, first, actions[..m]).value;
      StepsAddLiveRows(cfg, s, actions[m], i);
      DeletesLast(cfg, first, actions, i, stamp);
      forall n | 0 <= n < m
        ensures DeletesAt(cfg, first, actions[..m], n, i, stamp) <==> DeletesAt(cfg, first, actions, n, i, stamp)
      {
        DeletesBefore(cfg, first, actions, m, n, i, stamp);
      }
      if i < |s.db.rows| {
        DeletionsAreExact(cfg, first, actions[..m], i, stamp);
        StepsDeleteWhatTheySelect(cfg, s, actions[m], i);
      } else {
        AddedLater(cfg, first, actions[..m], i, stamp);
      }
    }
  }

  /** Over any stretch of a run a deleted row keeps its first stamp. */
  lemma {:induction false} FirstStampStays(cfg: Collation, first: Db, actions: seq<Action>, n: nat, i: nat)
    requires n <= |actions| && After(cfg, first, actions[..n]).Some? && After(cfg, first, actions).Some?
    requires i < |After(cfg, first, actions[..n]).value.db.rows|
    ensures i < |After(cfg, first, actions).value.db.rows|
    ensures var before, after := After(cfg, first, actions[..n]).value.db.rows[i],
            After(cfg, first, actions).value.db.rows[i];
            before.deleted.Some? ==> after.deleted == before.deleted
  {
    hide Enabled, Apply;
    if n == |actions| {
      assert actions[..n] == actions;
    } else {
      var m := |actions| - 1;
      assert actions[..m][..n] == actions[..n];
      FirstStampStays(cfg, first, actions[..m], n, i);
      StepsDeleteWhatTheySelect(cfg, After(cfg, first, actions[..m]).value, actions[m], i);
    }
  }

  /** After an unscoped sweep no live row, and no live history row, belongs to any E2E run. */
  lemma SweepLeavesNothingTagged(cfg: Collation, first: Db, actions: seq<Action>, at: int)
    requires DbOk(cfg, first) && After(cfg, first, actions).Some?
    ensures var db := Apply(cfg, After(cfg, first, actions).value, Sweep("", at)).db;
            && (forall i :: 0 <= i < |db.rows| && (SOURCE_TAG in db.rows[i].tags || HasRunTag(db.rows[i])) ==>
                 db.rows[i].deleted.Some?)
            && (forall k, i :: 0 <= k < |db.trail| && 0 <= i < |db.rows| && IsParent(db.rows, db.trail[k], i) ==>
                  (SOURCE_TAG in db.rows[i].tags || HasRunTag(db.rows[i]) ==> db.trail[k].deleted.Some?))
  {
    hide After, HasRunTag;
    RunKeepsInv(cfg, first, actions);
    var s := After(cfg, first, actions).value;
    var db := Apply(cfg, s, Sweep("", at)).db;
    StepKeeps(cfg, first, s, Sweep("", at));
    forall i | 0 <= i < |db.rows| && (SOURCE_TAG in db.rows[i].tags || HasRunTag(db.rows[i]))
      ensures db.rows[i].deleted.Some? {
      assert IsTagged(db.rows[i]);
      assert db.rows[i] == StampRow(cfg, ByTag(SOURCE_TAG), Stamp(at, CLEANUP), s.db.rows[i]);
    }
  }

  /** Rows another run created, or a real user, outlive a run's sweep. */
  lemma OtherRunsSurvive(cfg: Collation, first: Db, actions: seq<Action>, runTag: string, at: int, i: nat)
    requires DbOk(cfg, first) && After(cfg, first, actions).Some? && IsRunTag(runTag)
    requires var s := After(cfg, first, actions).value;
             i < |s.creators| && s.creators[i].Some? && s.creators[i].value < |s.calls| &&
             s.calls[s.creators[i].value].input.runTag != runTag
    requires i < |After(cfg, first, actions).value.db.rows|
    ensures Apply(cfg, After(cfg, first, actions).value, Sweep(runTag, at)).db.rows[i] ==
            After(cfg, first, actions).value.db.rows[i]
  {
    hide After, DbOk;
    RunKeepsInv(cfg, first, actions);
    var s := After(cfg, first, actions).value;
    assert CreatorOk(s, i);
    assert runTag[4] == RUN_TAG_PREFIX[4] == 'R' && SOURCE_TAG[4] == 'S';
    assert runTag !in s.db.rows[i].tags;
  }

  /**
   * Every E2E row a call created is deleted by the unscoped sweep and by its own run's; a row created without
   * the E2E verdict is touched by no sweep.
   */
  lemma OwnRunIsSwept(cfg: Collation, first: Db, actions: seq<Action>, runTag: string, at: int, i: nat)
    requires DbOk(cfg, first) && After(cfg, first, actions).Some?
    requires var s := After(cfg, first, actions).value;
             i < |s.creators| == |s.db.rows| && s.creators[i].Some? && s.creators[i].value < |s.calls|
    ensures var s := After(cfg, first, actions).value;
            var input := s.calls[s.creators[i].value].input;
            var row := Apply(cfg, s, Sweep(runTag, at)).db.rows[i];
            && (input.source && (runTag == "" || input.runTag == runTag) ==> row.deleted.Some?)
            && (!input.source ==> row == s.db.rows[i])
  {
    hide After, DbOk;
    RunKeepsInv(cfg, first, actions);
    assert CreatorOk(After(cfg, first, actions).value, i);
  }

  /** A caller without a sub leaves NULL, so a row of theirs is never selected by sub, whatever the sub. */
  lemma EmptyIdentityIsNobody(cfg: Collation, first: Db, actions: seq<Action>, sub: string, user: string, at: int,
      i: nat)
    requires DbOk(cfg, first) && After(cfg, first, actions).Some?
    requires var s := After(cfg, first, actions).value;
             i < |s.creators| == |s.db.rows| && s.creators[i].Some? && s.creators[i].value < |s.calls| &&
             s.calls[s.creators[i].value].input.cognitoSub == "" && !BinaryEq(cfg, s.db.rows[i].userId, user)
    requires sub != "" && user != ""
    ensures Apply(cfg, After(cfg, first, actions).value, Erase(sub, user, at)).db.rows[i] ==
            After(cfg, first, actions).value.db.rows[i]
  {
    hide After, DbOk;
    RunKeepsInv(cfg, first, actions);
    var s := After(cfg, first, actions).value;
    assert CreatorOk(s, i);
  }

  /** A teardown run again finds nothing left: its count is of rows it deletes, and it deletes all it selects. */
  lemma SweepTwice(cfg: Collation, sel: Selector, stamp: Stamp, db: Db)
    ensures CountSelected(cfg, sel, SoftDeleted(cfg, sel, stamp, db).rows) == 0
  {
    hide Selects;
    NoneSelected(cfg, sel, SoftDeleted(cfg, sel, stamp, db).rows);
  }

  /** What the statement reports: how many rows it stamped. */
  lemma {:induction false} CountIsExact(cfg: Collation, sel: Selector, stamp: Stamp, db: Db, n: nat)
    requires n <= |db.rows|
    ensures CountSelected(cfg, sel, db.rows[..n]) == |StampedBelow(db, SoftDeleted(cfg, sel, stamp, db), n)|
  {
    hide Selects, StampTrail, StampedBelow;
    if n > 0 {
      CountIsExact(cfg, sel, stamp, db, n - 1);
      assert db.rows[..n] == db.rows[..n - 1] + [db.rows[n - 1]];
      CountPush(cfg, sel, db.rows[..n - 1], db.rows[n - 1]);
      OneMoreStamped(db, SoftDeleted(cfg, sel, stamp, db), n - 1);
    } else {
      NoneStamped(db, SoftDeleted(cfg, sel, stamp, db));
    }
  }

  lemma NoneStamped(before: Db, after: Db)
    requires |before.rows| == |after.rows|
    ensures StampedBelow(before, after, 0) == {}
  {
  }

  lemma OneMoreStamped(before: Db, after: Db, n: nat)
    requires n < |before.rows| == |after.rows|
    ensures |StampedBelow(before, after, n + 1)| == |StampedBelow(before, after, n)| +
                if before.rows[n].deleted.None? && after.rows[n].deleted.Some? then 1 else 0
  {
    var below := StampedBelow(before, after, n);
    assert StampedBelow(before, after, n + 1) ==
        if before.rows[n].deleted.None? && after.rows[n].deleted.Some? then below + {n} else below;
  }

  /** The rows below `n` that were live and no longer are. */
  function StampedBelow(before: Db, after: Db, n: nat): set<nat>
    requires n <= |before.rows| == |after.rows|
  {
    set i: nat | i < n && before.rows[i].deleted.None? && after.rows[i].deleted.Some?
  }

  lemma {:induction false} CountPush(cfg: Collation, sel: Selector, rows: seq<Row>, row: Row)
    ensures CountSelected(cfg, sel, rows + [row]) ==
            CountSelected(cfg, sel, rows) + if row.deleted.None? && Selects(cfg, sel, row) then 1 else 0
  {
    hide Selects;
    if rows == [] {
      assert [row][1..] == [] && rows + [row] == [row];
    } else {
      assert (rows + [row])[1..] == rows[1..] + [row];
      CountPush(cfg, sel, rows[1..], row);
    }
  }

  lemma {:induction false} NoneSelected(cfg: Collation, sel: Selector, rows: seq<Row>)
    requires forall i :: 0 <= i < |rows| ==> rows[i].deleted.Some? || !Selects(cfg, sel, rows[i])
    ensures CountSelected(cfg, sel, rows) == 0
  {
    hide Selects;
    if rows != [] { NoneSelected(cfg, sel, rows[1..]); }
  }
}
