/** How every creation ends, read off the actions of its run: which answer of which port gives which outcome. */
module TrackingOutcomes {
  import opened Options
  import opened Trackings
  import opened TrackingRuns
  import opened TrackingSafety

  predicate HasLive(cfg: Collation, rows: seq<Row>, orderId: string) {
    exists i :: 0 <= i < |rows| && Eq(cfg, rows[i].orderId, orderId) && rows[i].deleted.None?
  }

  /** A write of call `c` reaches the database and is let through, or is refused by a unique index. */
  predicate LetsIn(cfg: Collation, s: State, a: Action, c: nat) {
    a.Write? && a.call == c && a.fate != Failed && c < |s.calls| && !Stands(cfg, s, a, c)
  }

  predicate TurnsAway(cfg: Collation, s: State, a: Action, c: nat) {
    a.Write? && a.call == c && a.fate != Failed && c < |s.calls| && Stands(cfg, s, a, c)
  }

  /** The order, the minted id or the minted number of the write is some row's, live or deleted. */
  predicate Stands(cfg: Collation, s: State, a: Action, c: nat)
    requires a.Write? && c < |s.calls|
  {
    || HasOrder(cfg, s.db.rows, s.calls[c].input.orderId)
    || HasId(cfg, s.db.rows, a.id)
    || HasNumber(cfg, s.db.rows, a.number)
  }

  /** The step, taken in `s`, that ends a call this way. */
  predicate Ends(cfg: Collation, s: State, a: Action, c: nat, outcome: Outcome) {
    match outcome
    case UnknownUser => a == Resolve(c, NotFound)
    case Fault =>
      || a == Resolve(c, Unavailable)
      || a == Check(c, false)
      || (a.Write? && a.call == c && a.fate == Failed)
      || (LetsIn(cfg, s, a, c) && a.fate == Unheard)
    case AlreadyExists =>
      || (a == Check(c, true) && c < |s.calls| && HasLive(cfg, s.db.rows, s.calls[c].input.orderId))
      || TurnsAway(cfg, s, a, c)
    case Created(row) => LetsIn(cfg, s, a, c) && a.fate == Answered && row == |s.db.rows|
  }

  predicate EndsAt(cfg: Collation, first: Db, actions: seq<Action>, n: nat, c: nat, outcome: Outcome) {
    && n < |actions| && After(cfg, first, actions[..n]).Some?
    && Ends(cfg, After(cfg, first, actions[..n]).value, actions[n], c, outcome)
  }

  predicate Ended(s: State, c: nat, outcome: Outcome) { c < |s.calls| && s.calls[c].phase == Done(outcome) }

  lemma ResolveEnds(cfg: Collation, s: State, a: Action, c: nat, outcome: Outcome)
    requires Enabled(cfg, s, a) && a.Resolve?
    ensures Ended(Apply(cfg, s, a), c, outcome) <==> Ended(s, c, outcome) || Ends(cfg, s, a, c, outcome)
  {
  }

  lemma CheckEnds(cfg: Collation, s: State, a: Action, c: nat, outcome: Outcome)
    requires DbOk(cfg, s.db) && Enabled(cfg, s, a) && a.Check?
    ensures Ended(Apply(cfg, s, a), c, outcome) <==> Ended(s, c, outcome) || Ends(cfg, s, a, c, outcome)
  {
    hide DbOk, Exists;
    PreCheckSeesLiveTrackings(cfg, s.db, s.calls[a.call].input.orderId);
  }

  lemma WriteEnds(cfg: Collation, s: State, a: Action, c: nat, outcome: Outcome)
    requires Enabled(cfg, s, a) && a.Write?
    ensures Ended(Apply(cfg, s, a), c, outcome) <==> Ended(s, c, outcome) || Ends(cfg, s, a, c, outcome)
  {
    hide HasOrder, HasId, HasNumber, IsDuplicate, Inserted;
    var call := s.calls[a.call];
    DuplicateIsExact(cfg, s.db, NewRow(call.input, call.phase.userId, a.id, a.number, a.at));
  }

  lemma StepEnds(cfg: Collation, s: State, a: Action, c: nat, outcome: Outcome)
    requires DbOk(cfg, s.db) && Enabled(cfg, s, a)
    ensures Ended(Apply(cfg, s, a), c, outcome) <==> Ended(s, c, outcome) || Ends(cfg, s, a, c, outcome)
  {
    hide DbOk, HasOrder, HasId, HasNumber, HasLive, IsDuplicate, Exists, SoftDeleted, CanAdvance, Advanced;
    match a
    case Resolve(_, _) => ResolveEnds(cfg, s, a, c, outcome);
    case Check(_, _) => CheckEnds(cfg, s, a, c, outcome);
    case Write(_, _, _, _, _) => WriteEnds(cfg, s, a, c, outcome);
    case _ =>
  }

  lemma EndsBefore(cfg: Collation, first: Db, actions: seq<Action>, m: nat, n: nat, c: nat, outcome: Outcome)
    requires n < m <= |actions|
    ensures EndsAt(cfg, first, actions[..m], n, c, outcome) <==> EndsAt(cfg, first, actions, n, c, outcome)
  {
    assert actions[..m][..n] == actions[..n];
  }

  lemma EndsLast(cfg: Collation, first: Db, actions: seq<Action>, c: nat, outcome: Outcome)
    requires actions != [] && After(cfg, first, actions).Some?
    ensures var m := |actions| - 1;
            EndsAt(cfg, first, actions, m, c, outcome) <==>
            Ends(cfg, After(cfg, first, actions[..m]).value, actions[m], c, outcome)
  {
    hide Ends;
  }

  /** Over any run, a call ended in an outcome exactly when some step of the run ends it so. */
  lemma {:induction false} OutcomeExactly(cfg: Collation, first: Db, actions: seq<Action>, c: nat, outcome: Outcome)
    requires DbOk(cfg, first) && After(cfg, first, actions).Some?
    ensures Ended(After(cfg, first, actions).value, c, outcome) <==>
            exists n :: 0 <= n < |actions| && EndsAt(cfg, first, actions, n, c, outcome)
  {
    hide DbOk, Inv, Enabled, Apply, Ended, Ends, EndsAt;
    if actions == [] {
      NothingEnded(first, c, outcome);
    } else {
      var m := |actions| - 1;
      var s := After(cfg, first, actions[..m]).value;
      RunKeepsInv(cfg, first, actions[..m]);
      InvGivesDbOk(cfg, first, s);
      OutcomeExactly(cfg, first, actions[..m], c, outcome);
      StepEnds(cfg, s, actions[m], c, outcome);
      EndsLast(cfg, first, actions, c, outcome);
      forall n | 0 <= n < m
        ensures EndsAt(cfg, first, actions[..m], n, c, outcome) <==> EndsAt(cfg, first, actions, n, c, outcome)
      {
        EndsBefore(cfg, first, actions, m, n, c, outcome);
      }
    }
  }

  lemma NothingEnded(first: Db, c: nat, outcome: Outcome)
    ensures !Ended(Start(first), c, outcome)
  {
  }

  /** So "unknown user" is the answer exactly where Users said it knows no such caller. */
  lemma UnknownUserExactly(cfg: Collation, first: Db, actions: seq<Action>, c: nat)
    requires DbOk(cfg, first) && After(cfg, first, actions).Some?
    ensures Ended(After(cfg, first, actions).value, c, UnknownUser) <==> Resolve(c, NotFound) in actions
  {
    hide After, DbOk, Ended;
    OutcomeExactly(cfg, first, actions, c, UnknownUser);
    if n :| 0 <= n < |actions| && actions[n] == Resolve(c, NotFound) {
      RunsPrefix(cfg, first, actions, n);
      assert EndsAt(cfg, first, actions, n, c, UnknownUser);
    }
  }

  lemma {:induction false} RunsPrefix(cfg: Collation, first: Db, actions: seq<Action>, n: nat)
    requires After(cfg, first, actions).Some? && n <= |actions|
    ensures After(cfg, first, actions[..n]).Some?
    ensures n < |actions| ==> Enabled(cfg, After(cfg, first, actions[..n]).value, actions[n])
  {
    hide Enabled, Apply;
    var m := |actions| - 1;
    if n == |actions| {
      assert actions[..n] == actions;
    } else if n < m {
      assert actions[..m][..n] == actions[..n];
      RunsPrefix(cfg, first, actions[..m], n);
    }
  }

  // ----- the row a call created -----

  /** The tags of a creation: none for a real caller, the run tag only beside the source tag. */
  predicate AreTags(tags: seq<string>, input: Input) {
    tags == if !input.source then [] else if input.runTag == "" then ["E2E Source"] else ["E2E Source", input.runTag]
  }

  /** What a write that is let in adds: one row and its opening history row, with one date. */
  lemma LetInAdds(cfg: Collation, s: State, a: Action)
    requires Enabled(cfg, s, a) && a.Write? && LetsIn(cfg, s, a, a.call)
    ensures var s', call := Apply(cfg, s, a), s.calls[a.call];
            && |s'.db.rows| == |s.db.rows| + 1 && s'.db.rows[..|s.db.rows|] == s.db.rows
            && var row := s'.db.rows[|s.db.rows|];
            && row.orderId == call.input.orderId && row.userId == call.phase.userId
            && row.id == a.id && row.number == a.number && row.at == a.at && row.status == "PLACED"
            && row.deleted == None && AreTags(row.tags, call.input)
            && row.cognitoSub == (if call.input.cognitoSub == "" then None else Some(call.input.cognitoSub))
            && s'.db.trail == s.db.trail + [Trail(a.id, call.input.orderId, "PLACED", a.at, None)]
            && s'.creators == s.creators + [Some(a.call)]
  {
    hide HasOrder, HasId, HasNumber, IsDuplicate;
    var call := s.calls[a.call];
    DuplicateIsExact(cfg, s.db, NewRow(call.input, call.phase.userId, a.id, a.number, a.at));
  }

  predicate IsSame(row: Row, later: Row) {
    later.userId == row.userId && later.id == row.id && later.number == row.number
  }

  /** Nothing else adds a row, and no step changes whose a row is. */
  lemma RowsStay(cfg: Collation, s: State, a: Action, i: nat)
    requires Enabled(cfg, s, a) && |s.creators| == |s.db.rows|
    ensures var s' := Apply(cfg, s, a);
            && |s.db.rows| <= |s'.db.rows| == |s'.creators| && s.creators <= s'.creators
            && (i < |s.db.rows| ==> IsSame(s.db.rows[i], s'.db.rows[i]))
            && (|s'.db.rows| > |s.db.rows| ==> a.Write? && LetsIn(cfg, s, a, a.call))
  {
    hide HasOrder, HasId, HasNumber, IsDuplicate, Exists, Selects;
    if a.Write? {
      var call := s.calls[a.call];
      DuplicateIsExact(cfg, s.db, NewRow(call.input, call.phase.userId, a.id, a.number, a.at));
    }
  }

  /** The user a call goes on with is the one its resolution found. */
  predicate IsFound(actions: seq<Action>, c: nat, userId: string) { Resolve(c, Found(userId)) in actions }

  predicate GoesOnWith(s: State, c: nat, userId: string) {
    c < |s.calls| && (s.calls[c].phase == Checking(userId) || s.calls[c].phase == Writing(userId))
  }

  lemma GoesOnStep(cfg: Collation, s: State, a: Action, c: nat, userId: string)
    requires Enabled(cfg, s, a) && GoesOnWith(Apply(cfg, s, a), c, userId)
    ensures GoesOnWith(s, c, userId) || a == Resolve(c, Found(userId))
  {
    hide IsDuplicate, Exists, SoftDeleted, CanAdvance, Advanced, HasOrder, Inserted;
  }

  lemma {:induction false} UserWasFound(cfg: Collation, first: Db, actions: seq<Action>, c: nat, userId: string)
    requires After(cfg, first, actions).Some? && GoesOnWith(After(cfg, first, actions).value, c, userId)
    ensures IsFound(actions, c, userId)
  {
    hide Enabled, Apply;
    if actions != [] {
      var m := |actions| - 1;
      assert actions == actions[..m] + [actions[m]];
      GoesOnStep(cfg, After(cfg, first, actions[..m]).value, actions[m], c, userId);
      if GoesOnWith(After(cfg, first, actions[..m]).value, c, userId) {
        UserWasFound(cfg, first, actions[..m], c, userId);
      }
    }
  }

  predicate Mints(a: Action, c: nat, row: Row) { a.Write? && a.call == c && a.id == row.id && a.number == row.number }

  /** The call's resolution found the row's user, and a write of the call carried its id and number. */
  predicate ComesFrom(actions: seq<Action>, c: nat, row: Row) {
    IsFound(actions, c, row.userId) && exists n :: 0 <= n < |actions| && Mints(actions[n], c, row)
  }

  lemma ComesFromStays(actions: seq<Action>, a: Action, c: nat, row: Row, later: Row)
    requires ComesFrom(actions, c, row) && IsSame(row, later)
    ensures ComesFrom(actions + [a], c, later)
  {
    var n :| 0 <= n < |actions| && Mints(actions[n], c, row);
    assert Mints((actions + [a])[n], c, later);
  }

  lemma NewRowComesFrom(cfg: Collation, first: Db, actions: seq<Action>, s: State, a: Action)
    requires After(cfg, first, actions) == Some(s) && Enabled(cfg, s, a) && a.Write? && LetsIn(cfg, s, a, a.call)
    ensures |Apply(cfg, s, a).db.rows| == |s.db.rows| + 1
    ensures ComesFrom(actions + [a], a.call, Apply(cfg, s, a).db.rows[|s.db.rows|])
  {
    hide After, LetsIn;
    LetInAdds(cfg, s, a);
    var row := Apply(cfg, s, a).db.rows[|s.db.rows|];
    UserWasFound(cfg, first, actions, a.call, row.userId);
    assert Mints((actions + [a])[|actions|], a.call, row);
  }

  lemma {:induction false} RowComesFrom(cfg: Collation, first: Db, actions: seq<Action>, i: nat, c: nat)
    requires DbOk(cfg, first) && After(cfg, first, actions).Some?
    requires var s := After(cfg, first, actions).value; i < |s.creators| == |s.db.rows| && s.creators[i] == Some(c)
    ensures ComesFrom(actions, c, After(cfg, first, actions).value.db.rows[i])
  {
    hide DbOk, Inv, Enabled, Apply, LetsIn, ComesFrom, IsSame;
    if actions != [] {
      var m := |actions| - 1;
      var s, a := After(cfg, first, actions[..m]).value, actions[m];
      assert actions == actions[..m] + [a];
      RunKeepsInv(cfg, first, actions[..m]);
      InvGivesDbOk(cfg, first, s);
      RowsStay(cfg, s, a, i);
      if i < |s.creators| {
        RowComesFrom(cfg, first, actions[..m], i, c);
        ComesFromStays(actions[..m], a, c, s.db.rows[i], Apply(cfg, s, a).db.rows[i]);
      } else {
        LetInAdds(cfg, s, a);
        NewRowComesFrom(cfg, first, actions[..m], s, a);
      }
    }
  }

  /**
   * Every row a call created is for the user that call's resolution found, under an id and number it minted, with the
   * caller's order, sub and tags.
   */
  lemma RowIsItsCallers(cfg: Collation, first: Db, actions: seq<Action>, i: nat, c: nat)
    requires DbOk(cfg, first) && After(cfg, first, actions).Some?
    requires var s := After(cfg, first, actions).value; i < |s.creators| && s.creators[i] == Some(c)
    ensures var s := After(cfg, first, actions).value;
            && c < |s.calls| && i < |s.db.rows|
            && var row, input := s.db.rows[i], s.calls[c].input;
            && Resolve(c, Found(row.userId)) in actions
            && (exists n :: 0 <= n < |actions| && Mints(actions[n], c, row))
            && row.orderId == input.orderId && AreTags(row.tags, input)
            && row.cognitoSub == if input.cognitoSub == "" then None else Some(input.cognitoSub)
  {
    hide After, DbOk;
    RunKeepsInv(cfg, first, actions);
    assert CreatorOk(After(cfg, first, actions).value, i);
    RowComesFrom(cfg, first, actions, i, c);
  }

  /** What ended a finished call, and whose row it made. */
  lemma CallIsExplained(cfg: Collation, first: Db, actions: seq<Action>, c: nat, outcome: Outcome)
    requires DbOk(cfg, first) && After(cfg, first, actions).Some?
    requires Ended(After(cfg, first, actions).value, c, outcome)
    ensures exists n :: 0 <= n < |actions| && EndsAt(cfg, first, actions, n, c, outcome)
    ensures outcome == UnknownUser <==> Resolve(c, NotFound) in actions
    ensures outcome.Created? ==>
              var rows := After(cfg, first, actions).value.db.rows;
              outcome.row < |rows| && Resolve(c, Found(rows[outcome.row].userId)) in actions
  {
    hide After, DbOk, EndsAt;
    OutcomeExactly(cfg, first, actions, c, outcome);
    UnknownUserExactly(cfg, first, actions, c);
    if outcome.Created? {
      RunKeepsInv(cfg, first, actions);
      assert CallOk(cfg, After(cfg, first, actions).value, c);
      RowIsItsCallers(cfg, first, actions, outcome.row, c);
    }
  }
}
