/** Concrete runs in which an order is refused though no live tracking stands for it. */
module TrackingExamples {
  import opened Options
  import opened Trackings
  import opened TrackingRuns

  function CallActions(c: nat, input: Input, id: string, number: string, at: int): seq<Action> {
    [Begin(input), Resolve(c, Found("usr_1")), Check(c, true), Write(c, id, number, at, Answered)]
  }

  lemma Extend(cfg: Collation, first: Db, actions: seq<Action>, a: Action)
    requires After(cfg, first, actions).Some? && Enabled(cfg, After(cfg, first, actions).value, a)
    ensures After(cfg, first, actions + [a]) == Some(Apply(cfg, After(cfg, first, actions).value, a))
  {
    hide Enabled, Apply;
    assert (actions + [a])[..|actions|] == actions;
  }

  /** A call that runs alone, for an order without a live tracking or history. */
  function Finished(cfg: Collation, s: State, input: Input, id: string, number: string, at: int): State {
    var row := NewRow(input, "usr_1", id, number, at);
    var begun := s.(calls := s.calls + [Call(input, Writing("usr_1"))]);
    if IsDuplicate(cfg, s.db, row) then Refused(cfg, begun, |s.calls|, (id, number))
    else Landed(begun, |s.calls|, row, true)
  }

  lemma CallRuns(
    cfg: Collation, first: Db, actions: seq<Action>, s: State, input: Input, id: string, number: string, at: int)
    requires After(cfg, first, actions) == Some(s) && !Exists(cfg, s.db, input.orderId)
    ensures After(cfg, first, actions + CallActions(|s.calls|, input, id, number, at)) ==
            Some(Finished(cfg, s, input, id, number, at))
  {
    hide After, Exists, IsDuplicate, HasOrder;
    var c := |s.calls|;
    var begin, resolve, check, write :=
      Begin(input), Resolve(c, Found("usr_1")), Check(c, true), Write(c, id, number, at, Answered);
    Extend(cfg, first, actions, begin);
    Extend(cfg, first, actions + [begin], resolve);
    Extend(cfg, first, actions + [begin] + [resolve], check);
    var begun := s.(calls := s.calls + [Call(input, Writing("usr_1"))]);
    var ready := After(cfg, first, actions + [begin] + [resolve] + [check]).value;
    assert ready.calls == begun.calls;
    assert ready == begun;
    Extend(cfg, first, actions + [begin] + [resolve] + [check], write);
    assert actions + CallActions(c, input, id, number, at) == actions + [begin] + [resolve] + [check] + [write];
  }

  /** Two orders, one minted id: the second call answers that its order's tracking exists, and no row is for it. */
  lemma MintedIdIsTaken(cfg: Collation, order: string, other: string)
    requires !Eq(cfg, order, other)
    ensures var actions := CallActions(0, Input(order, "sub", false, ""), "trk_1", "N1", 0) +
                           CallActions(1, Input(other, "sub", false, ""), "trk_1", "N2", 1);
            && After(cfg, Db([], []), actions).Some?
            && var s := After(cfg, Db([], []), actions).value;
            && |s.calls| == 2 && s.calls[1] == Call(Input(other, "sub", false, ""), Done(AlreadyExists))
            && !HasOrder(cfg, s.db.rows, other) && s.clashed == {1}
  {
    hide After;
    var empty := Db([], []);
    var a, b := Input(order, "sub", false, ""), Input(other, "sub", false, "");
    Begins(cfg, empty);
    CallRuns(cfg, empty, [], Start(empty), a, "trk_1", "N1", 0);
    var s := Finished(cfg, Start(empty), a, "trk_1", "N1", 0);
    assert [] + CallActions(0, a, "trk_1", "N1", 0) == CallActions(0, a, "trk_1", "N1", 0);
    assert s.db.rows == [NewRow(a, "usr_1", "trk_1", "N1", 0)];
    assert !HasOrder(cfg, s.db.rows, other) && !Exists(cfg, s.db, other);
    CallRuns(cfg, empty, CallActions(0, a, "trk_1", "N1", 0), s, b, "trk_1", "N2", 1);
    assert Clash(cfg, s.db.rows[0], NewRow(b, "usr_1", "trk_1", "N2", 1));
  }

  lemma Begins(cfg: Collation, first: Db)
    ensures After(cfg, first, []) == Some(Start(first))
  {
  }

  /** An order whose tracking was erased: the pre-check lets the second call through, the unique index refuses it. */
  lemma RecreationIsRefused(cfg: Collation, order: string)
    ensures var first := CallActions(0, Input(order, "sub", false, ""), "trk_1", "N1", 0);
            var actions := first + [Erase("sub", "usr_1", 5)] +
              CallActions(1, Input(order, "sub", false, ""), "trk_2", "N2", 9);
            && After(cfg, Db([], []), actions).Some?
            && var s := After(cfg, Db([], []), actions).value;
            && |s.calls| == 2 && s.calls[1].phase == Done(AlreadyExists)
            && !Exists(cfg, s.db, order) && s.clashed == {}
  {
    hide After;
    var empty := Db([], []);
    var a := Input(order, "sub", false, "");
    var made := CallActions(0, a, "trk_1", "N1", 0);
    Begins(cfg, empty);
    CallRuns(cfg, empty, [], Start(empty), a, "trk_1", "N1", 0);
    assert [] + made == made;
    var s := Finished(cfg, Start(empty), a, "trk_1", "N1", 0);
    var row := NewRow(a, "usr_1", "trk_1", "N1", 0);
    assert s.db == Db([row], [Trail("trk_1", order, PLACED, 0, None)]);
    var erase := Erase("sub", "usr_1", 5);
    Extend(cfg, empty, made, erase);
    var gone := Apply(cfg, s, erase);
    ErasedAlone(cfg, row, 5);
    CallRuns(cfg, empty, made + [erase], gone, a, "trk_2", "N2", 9);
    assert Clash(cfg, gone.db.rows[0], NewRow(a, "usr_1", "trk_2", "N2", 9));
    assert HasOrder(cfg, gone.db.rows, order) by { assert Eq(cfg, gone.db.rows[0].orderId, order); }
  }

  lemma ErasedAlone(cfg: Collation, row: Row, at: int)
    requires row.userId == "usr_1" && row.deleted.None?
    ensures var db := Db([row], [Trail(row.id, row.orderId, row.status, row.at, None)]);
            var d := SoftDeleted(cfg, ByUser("sub", "usr_1"), Stamp(at, ERASURE), db);
            && d.rows == [row.(deleted := Some(Stamp(at, ERASURE)))] && |d.trail| == 1
            && (forall o :: !Exists(cfg, d, o))
  {
    var db := Db([row], [Trail(row.id, row.orderId, row.status, row.at, None)]);
    var sel := ByUser("sub", "usr_1");
    assert Selects(cfg, sel, db.rows[0]) && Eq(cfg, db.rows[0].id, db.trail[0].trackingId);
    assert SelectsChild(cfg, sel, db.rows, db.trail[0]);
  }
}
