/** What a tracking's history says of it, over every run: no status twice, and the last entry is where it stands. */
module TrackingHistory {
  import opened Options
  import opened Trackings
  import opened TrackingRuns

  /** Two entries of one tracking with one status: what the primary key of tracking_history refuses. */
  predicate SameEntry(cfg: Collation, a: Trail, b: Trail) {
    Eq(cfg, a.trackingId, b.trackingId) && Eq(cfg, a.status, b.status)
  }

  predicate AreOnce(cfg: Collation, trail: seq<Trail>) {
    forall k, l :: 0 <= k < l < |trail| ==> !SameEntry(cfg, trail[k], trail[l])
  }

  /** The latest entry of a tracking. */
  function Latest(trail: seq<Trail>, id: string): Option<Trail> {
    if trail == [] then None
    else if trail[|trail| - 1].trackingId == id then Some(trail[|trail| - 1])
    else Latest(trail[..|trail| - 1], id)
  }

  predicate StandsAt(row: Row, latest: Option<Trail>) {
    latest.Some? && latest.value.status == row.status && latest.value.at == row.at
  }

  predicate Tells(db: Db) {
    forall i :: 0 <= i < |db.rows| ==> StandsAt(db.rows[i], Latest(db.trail, db.rows[i].id))
  }

  lemma LatestPush(trail: seq<Trail>, t: Trail, id: string)
    ensures Latest(trail + [t], id) == if t.trackingId == id then Some(t) else Latest(trail, id)
  {
    assert (trail + [t])[..|trail|] == trail;
  }

  lemma {:induction false} LatestStamped(trail: seq<Trail>, later: seq<Trail>, id: string)
    requires |later| == |trail| && forall k :: 0 <= k < |trail| ==> later[k] == trail[k].(deleted := later[k].deleted)
    ensures Latest(later, id).Some? <==> Latest(trail, id).Some?
    ensures Latest(trail, id).Some? ==>
              Latest(later, id).value.status == Latest(trail, id).value.status &&
              Latest(later, id).value.at == Latest(trail, id).value.at
  {
    if trail != [] { LatestStamped(trail[..|trail| - 1], later[..|trail| - 1], id); }
  }

  lemma StampKeeps(cfg: Collation, sel: Selector, stamp: Stamp, db: Db)
    requires AreOnce(cfg, db.trail) && Tells(db)
    ensures AreOnce(cfg, SoftDeleted(cfg, sel, stamp, db).trail) && Tells(SoftDeleted(cfg, sel, stamp, db))
  {
    hide SoftDeleted, Grows, Latest;
    var d := SoftDeleted(cfg, sel, stamp, db);
    RowsStamped(cfg, sel, stamp, db);
    forall i | 0 <= i < |d.rows| ensures StandsAt(d.rows[i], Latest(d.trail, d.rows[i].id)) {
      LatestStamped(db.trail, d.trail, db.rows[i].id);
    }
    forall k, l | 0 <= k < l < |d.trail| ensures !SameEntry(cfg, d.trail[k], d.trail[l]) {
      assert !SameEntry(cfg, db.trail[k], db.trail[l]);
    }
  }

  lemma InsertKeepsHistory(cfg: Collation, db: Db, row: Row)
    requires DbOk(cfg, db) && !IsDuplicate(cfg, db, row) && AreOnce(cfg, db.trail) && Tells(db)
    ensures AreOnce(cfg, Inserted(db, row).trail) && Tells(Inserted(db, row))
  {
    hide Latest, AreUnique, HasOpening, IsTagged, HasParent, Eq;
    var d := Inserted(db, row);
    var opening := Trail(row.id, row.orderId, row.status, row.at, None);
    forall i | 0 <= i < |d.rows| ensures StandsAt(d.rows[i], Latest(d.trail, d.rows[i].id)) {
      LatestPush(db.trail, opening, d.rows[i].id);
      if i < |db.rows| { IdsDiffer(cfg, db, row, i); }
    }
    forall k, l | 0 <= k < l < |d.trail| ensures !SameEntry(cfg, d.trail[k], d.trail[l]) {
      if l < |db.trail| { assert !SameEntry(cfg, db.trail[k], db.trail[l]); } else { HasOtherParent(cfg, db, row, k); }
    }
  }

  lemma IdsDiffer(cfg: Collation, db: Db, row: Row, i: nat)
    requires !IsDuplicate(cfg, db, row) && i < |db.rows|
    ensures db.rows[i].id != row.id
  {
    assert !Clash(cfg, db.rows[i], row);
  }

  lemma HasOtherParent(cfg: Collation, db: Db, row: Row, k: nat)
    requires !IsDuplicate(cfg, db, row) && k < |db.trail| && HasParent(db.rows, db.trail[k])
    ensures !Eq(cfg, db.trail[k].trackingId, row.id)
  {
    var i :| 0 <= i < |db.rows| && IsParent(db.rows, db.trail[k], i);
    assert !Clash(cfg, db.rows[i], row);
  }

  lemma AdvanceKeepsHistory(cfg: Collation, db: Db, i: nat, status: string, at: int)
    requires DbOk(cfg, db) && CanAdvance(cfg, db, i, status) && AreOnce(cfg, db.trail) && Tells(db)
    ensures AreOnce(cfg, Advanced(db, i, status, at).trail) && Tells(Advanced(db, i, status, at))
  {
    hide Latest, HasParent, HasOpening, IsTagged;
    var d := Advanced(db, i, status, at);
    var entry := Trail(db.rows[i].id, db.rows[i].orderId, status, at, None);
    forall x | 0 <= x < |d.rows| ensures StandsAt(d.rows[x], Latest(d.trail, d.rows[x].id)) {
      LatestPush(db.trail, entry, d.rows[x].id);
      if x < i { assert !Clash(cfg, db.rows[x], db.rows[i]); }
      if i < x { assert !Clash(cfg, db.rows[i], db.rows[x]); }
    }
  }

  /** A step keeps both. */
  lemma HistoryStep(cfg: Collation, s: State, a: Action)
    requires DbOk(cfg, s.db) && Enabled(cfg, s, a) && AreOnce(cfg, s.db.trail) && Tells(s.db)
    ensures AreOnce(cfg, Apply(cfg, s, a).db.trail) && Tells(Apply(cfg, s, a).db)
  {
    hide DbOk, AreOnce, Tells, IsDuplicate, Exists, CanAdvance, Inserted, Advanced, SoftDeleted, HasOrder;
    match a
    case Write(c, id, number, at, fate) =>
      var row := NewRow(s.calls[c].input, s.calls[c].phase.userId, id, number, at);
      if fate != Failed && !IsDuplicate(cfg, s.db, row) { InsertKeepsHistory(cfg, s.db, row); }
    case Sweep(runTag, at) => StampKeeps(cfg, SweepSelector(runTag), Stamp(at, CLEANUP), s.db);
    case Erase(sub, user, at) => StampKeeps(cfg, ByUser(sub, user), Stamp(at, ERASURE), s.db);
    case Advance(i, status, at) => AdvanceKeepsHistory(cfg, s.db, i, status, at);
    case _ =>
  }

  /**
   * Over any run a tracking enters no status twice, and its status and date are those of its latest entry, whatever
   * was deleted: if the tables began that way, they stay so.
   */
  lemma {:induction false} HistoryTells(cfg: Collation, first: Db, actions: seq<Action>)
    requires DbOk(cfg, first) && After(cfg, first, actions).Some? && AreOnce(cfg, first.trail) && Tells(first)
    ensures var db := After(cfg, first, actions).value.db;
            && (forall k, l :: 0 <= k < l < |db.trail| ==> !SameEntry(cfg, db.trail[k], db.trail[l]))
            && (forall i :: 0 <= i < |db.rows| ==> StandsAt(db.rows[i], Latest(db.trail, db.rows[i].id)))
  {
    hide DbOk, Inv, Enabled, Apply, SameEntry, StandsAt, Latest;
    if actions != [] {
      var m := |actions| - 1;
      var s := After(cfg, first, actions[..m]).value;
      RunKeepsInv(cfg, first, actions[..m]);
      InvGivesDbOk(cfg, first, s);
      HistoryTells(cfg, first, actions[..m]);
      HistoryStep(cfg, s, actions[m]);
    }
  }
}
