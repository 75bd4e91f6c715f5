/** The tracking tables, and what one transaction of each write path does to them. */
module Trackings {
  import opened Options

  const SOURCE_TAG := "E2E Source"
  const RUN_TAG_PREFIX := "E2E Run "
  const PLACED := "PLACED"

  /** How MySQL compares text: under the columns' collation, or under the binary one the erasure asks for. */
  datatype Collation = Collation(key: string -> string, binaryKey: string -> string)

  predicate Eq(c: Collation, a: string, b: string) { c.key(a) == c.key(b) }

  predicate BinaryEq(c: Collation, a: string, b: string) { c.binaryKey(a) == c.binaryKey(b) }

  datatype Stamp = Stamp(at: int, actor: string)

  datatype Row = Row(
    id: string, number: string, orderId: string, userId: string, cognitoSub: Option<string>,
    tags: seq<string>, status: string, at: int, deleted: Option<Stamp>)

  /** One row of tracking_history. */
  datatype Trail = Trail(trackingId: string, orderId: string, status: string, at: int, deleted: Option<Stamp>)

  datatype Db = Db(rows: seq<Row>, trail: seq<Trail>)

  // ----- creation -----

  datatype Input = Input(orderId: string, cognitoSub: string, source: bool, runTag: string)

  function TagsOf(input: Input): seq<string> {
    if !input.source then []
    else if input.runTag != "" then [SOURCE_TAG, input.runTag]
    else [SOURCE_TAG]
  }

  function NullIfEmpty(s: string): Option<string> { if s == "" then None else Some(s) }

  function NewRow(input: Input, userId: string, id: string, number: string, at: int): Row {
    Row(id, number, input.orderId, userId, NullIfEmpty(input.cognitoSub), TagsOf(input), PLACED, at, None)
  }

  /** A live tracking, or any live history row. */
  predicate Exists(c: Collation, db: Db, orderId: string) {
    || (exists i :: 0 <= i < |db.rows| && Eq(c, db.rows[i].orderId, orderId) && db.rows[i].deleted.None?)
    || (exists k :: 0 <= k < |db.trail| && Eq(c, db.trail[k].orderId, orderId) && db.trail[k].deleted.None?)
  }

  predicate HasOrder(c: Collation, rows: seq<Row>, orderId: string) {
    exists i :: 0 <= i < |rows| && Eq(c, rows[i].orderId, orderId)
  }

  predicate HasId(c: Collation, rows: seq<Row>, id: string) {
    exists i :: 0 <= i < |rows| && Eq(c, rows[i].id, id)
  }

  predicate HasNumber(c: Collation, rows: seq<Row>, number: string) {
    exists i :: 0 <= i < |rows| && Eq(c, rows[i].number, number)
  }

  /** Two rows no unique index lets stand together. The indexes cover deleted rows too. */
  predicate Clash(c: Collation, a: Row, b: Row) {
    Eq(c, a.id, b.id) || Eq(c, a.number, b.number) || Eq(c, a.orderId, b.orderId)
  }

  predicate IsDuplicate(c: Collation, db: Db, row: Row) {
    exists i :: 0 <= i < |db.rows| && Clash(c, db.rows[i], row)
  }

  /** The indexes refuse a row exactly when its order, its id or its number stands in the table. */
  lemma DuplicateIsExact(c: Collation, db: Db, row: Row)
    ensures IsDuplicate(c, db, row) <==>
            HasOrder(c, db.rows, row.orderId) || HasId(c, db.rows, row.id) || HasNumber(c, db.rows, row.number)
  {
    if i :| 0 <= i < |db.rows| && Eq(c, db.rows[i].orderId, row.orderId) { assert Clash(c, db.rows[i], row); }
    if i :| 0 <= i < |db.rows| && Eq(c, db.rows[i].id, row.id) { assert Clash(c, db.rows[i], row); }
    if i :| 0 <= i < |db.rows| && Eq(c, db.rows[i].number, row.number) { assert Clash(c, db.rows[i], row); }
  }

  /** The tracking and its opening history row, in one transaction. */
  function Inserted(db: Db, row: Row): Db {
    Db(db.rows + [row], db.trail + [Trail(row.id, row.orderId, row.status, row.at, None)])
  }

  /** A status transition: the parent must be live, and a status is taken once. */
  predicate CanAdvance(c: Collation, db: Db, i: nat, status: string) {
    && i < |db.rows| && db.rows[i].deleted.None?
    && forall k :: 0 <= k < |db.trail| ==>
         !(Eq(c, db.trail[k].trackingId, db.rows[i].id) && Eq(c, db.trail[k].status, status))
  }

  function Advanced(db: Db, i: nat, status: string, at: int): Db
    requires i < |db.rows|
  {
    Db(
      db.rows[i := db.rows[i].(status := status, at := at)],
      db.trail + [Trail(db.rows[i].id, db.rows[i].orderId, status, at, None)])
  }

  // ----- soft deletes -----

  datatype Selector =
    ByTag(tag: string) | ByTags(tag: string, second: string) | ByUser(cognitoSub: string, userId: string)

  /** The WHERE clause on tracking, its deleted_at part apart. A NULL matches nothing. */
  predicate Selects(c: Collation, sel: Selector, row: Row) {
    match sel
    case ByTag(tag) => tag in row.tags
    case ByTags(tag, second) => tag in row.tags && second in row.tags
    case ByUser(sub, user) =>
      (row.cognitoSub.Some? && BinaryEq(c, row.cognitoSub.value, sub)) || BinaryEq(c, row.userId, user)
  }

  /** Children are selected through their parent, whether or not the parent is live. */
  predicate SelectsChild(c: Collation, sel: Selector, rows: seq<Row>, t: Trail) {
    exists i :: 0 <= i < |rows| && Selects(c, sel, rows[i]) && Eq(c, rows[i].id, t.trackingId)
  }

  function StampRow(c: Collation, sel: Selector, stamp: Stamp, row: Row): Row {
    if row.deleted.None? && Selects(c, sel, row) then row.(deleted := Some(stamp)) else row
  }

  function StampTrail(c: Collation, sel: Selector, stamp: Stamp, rows: seq<Row>, t: Trail): Trail {
    if t.deleted.None? && SelectsChild(c, sel, rows, t) then t.(deleted := Some(stamp)) else t
  }

  function SoftDeleted(c: Collation, sel: Selector, stamp: Stamp, db: Db): (d: Db)
    ensures |d.rows| == |db.rows| && |d.trail| == |db.trail|
  {
    Db(
      seq(|db.rows|, i requires 0 <= i < |db.rows| => StampRow(c, sel, stamp, db.rows[i])),
      seq(|db.trail|, k requires 0 <= k < |db.trail| => StampTrail(c, sel, stamp, db.rows, db.trail[k])))
  }

  /** The parents' rowcount. */
  function CountSelected(c: Collation, sel: Selector, rows: seq<Row>): nat {
    if rows == [] then 0
    else (if rows[0].deleted.None? && Selects(c, sel, rows[0]) then 1 else 0) + CountSelected(c, sel, rows[1..])
  }

  /** An empty run tag means no scope. */
  function SweepSelector(runTag: string): Selector {
    if runTag == "" then ByTag(SOURCE_TAG) else ByTags(SOURCE_TAG, runTag)
  }

  // ----- what every transaction keeps -----

  predicate AreUnique(c: Collation, rows: seq<Row>) {
    forall i, j :: 0 <= i < j < |rows| ==> !Clash(c, rows[i], rows[j])
  }

  /** A history row belongs to this tracking and is deleted exactly when, and by what, its tracking is. */
  predicate IsParent(rows: seq<Row>, t: Trail, i: nat) {
    i < |rows| && rows[i].id == t.trackingId && rows[i].orderId == t.orderId && rows[i].deleted == t.deleted
  }

  predicate HasParent(rows: seq<Row>, t: Trail) { exists i :: 0 <= i < |rows| && IsParent(rows, t, i) }

  predicate IsOpening(row: Row, t: Trail) { t.trackingId == row.id && t.status == PLACED }

  predicate HasOpening(trail: seq<Trail>, row: Row) {
    exists k :: 0 <= k < |trail| && IsOpening(row, trail[k])
  }

  predicate IsRunTag(tag: string) { RUN_TAG_PREFIX <= tag }

  predicate HasRunTag(row: Row) { exists t :: t in row.tags && IsRunTag(t) }

  /** A run tag never stands without the source tag. */
  predicate IsTagged(row: Row) { HasRunTag(row) ==> SOURCE_TAG in row.tags }

  predicate DbOk(c: Collation, db: Db) {
    && AreUnique(c, db.rows)
    && (forall k :: 0 <= k < |db.trail| ==> HasParent(db.rows, db.trail[k]))
    && (forall i :: 0 <= i < |db.rows| ==> HasOpening(db.trail, db.rows[i]) && IsTagged(db.rows[i]))
  }

  /** What may change about a row: its status, and from live to deleted. */
  predicate Follows(before: Row, row: Row) {
    && row == before.(status := row.status, at := row.at, deleted := row.deleted)
    && (before.deleted.Some? ==> row == before)
  }

  predicate Grows(before: Db, db: Db) {
    |before.rows| <= |db.rows| && forall i :: 0 <= i < |before.rows| ==> Follows(before.rows[i], db.rows[i])
  }

  lemma TagsAreDisciplined(input: Input)
    ensures forall t :: t in TagsOf(input) && IsRunTag(t) ==> SOURCE_TAG in TagsOf(input)
  {
  }

  lemma InsertKeeps(c: Collation, db: Db, row: Row)
    requires DbOk(c, db) && !IsDuplicate(c, db, row) && row.deleted.None? && row.status == PLACED && IsTagged(row)
    ensures DbOk(c, Inserted(db, row)) && Grows(db, Inserted(db, row))
  {
    hide Clash, IsTagged;
    var d := Inserted(db, row);
    forall k | 0 <= k < |d.trail| ensures HasParent(d.rows, d.trail[k]) {
      if k < |db.trail| {
        assert HasParent(db.rows, db.trail[k]);
        var i :| 0 <= i < |db.rows| && IsParent(db.rows, db.trail[k], i);
        assert IsParent(d.rows, d.trail[k], i);
      } else {
        assert IsParent(d.rows, d.trail[k], |db.rows|);
      }
    }
    forall i | 0 <= i < |d.rows| ensures HasOpening(d.trail, d.rows[i]) && IsTagged(d.rows[i]) {
      if i < |db.rows| {
        assert HasOpening(db.trail, db.rows[i]);
        var k :| 0 <= k < |db.trail| && IsOpening(db.rows[i], db.trail[k]);
        assert IsOpening(d.rows[i], d.trail[k]);
      } else {
        assert IsOpening(d.rows[i], d.trail[|db.trail|]);
      }
    }
  }

  lemma AdvancedParent(db: Db, i: nat, status: string, at: int, k: nat)
    requires i < |db.rows| && db.rows[i].deleted.None? && k <= |db.trail|
    requires k < |db.trail| ==> HasParent(db.rows, db.trail[k])
    ensures HasParent(Advanced(db, i, status, at).rows, Advanced(db, i, status, at).trail[k])
  {
    var d := Advanced(db, i, status, at);
    if k < |db.trail| {
      var x :| 0 <= x < |db.rows| && IsParent(db.rows, db.trail[k], x);
      assert IsParent(d.rows, d.trail[k], x);
    } else {
      assert IsParent(d.rows, d.trail[k], i);
    }
  }

  lemma AdvanceKeeps(c: Collation, db: Db, i: nat, status: string, at: int)
    requires DbOk(c, db) && CanAdvance(c, db, i, status)
    ensures DbOk(c, Advanced(db, i, status, at)) && Grows(db, Advanced(db, i, status, at))
  {
    hide IsTagged, HasOpening, HasParent, Eq;
    var d := Advanced(db, i, status, at);
    forall x, y | 0 <= x < y < |d.rows| ensures !Clash(c, d.rows[x], d.rows[y]) {
      assert !Clash(c, db.rows[x], db.rows[y]);
    }
    forall k | 0 <= k < |d.trail| ensures HasParent(d.rows, d.trail[k]) {
      assert k < |db.trail| ==> HasParent(db.rows, db.trail[k]);
      AdvancedParent(db, i, status, at, k);
    }
    forall x | 0 <= x < |d.rows| ensures HasOpening(d.trail, d.rows[x]) && IsTagged(d.rows[x]) {
      OpeningStays(db.trail, d.trail, db.rows[x], d.rows[x]);
    }
  }

  lemma OpeningStays(trail: seq<Trail>, later: seq<Trail>, row: Row, now: Row)
    requires HasOpening(trail, row) && IsTagged(row) && now.id == row.id && now.tags == row.tags
    requires |trail| <= |later| && forall k :: 0 <= k < |trail| ==> later[k] == trail[k].(deleted := later[k].deleted)
    ensures HasOpening(later, now) && IsTagged(now)
  {
    var k :| 0 <= k < |trail| && IsOpening(row, trail[k]);
    assert IsOpening(now, later[k]);
    if t :| t in now.tags && IsRunTag(t) { assert t in row.tags; }
  }

  /** A history row is stamped exactly when its tracking is. */
  lemma ChildFollowsParent(c: Collation, sel: Selector, stamp: Stamp, rows: seq<Row>, t: Trail, i: nat)
    requires AreUnique(c, rows) && IsParent(rows, t, i)
    ensures StampTrail(c, sel, stamp, rows, t).deleted == StampRow(c, sel, stamp, rows[i]).deleted
  {
    hide Selects;
    if SelectsChild(c, sel, rows, t) {
      var j :| 0 <= j < |rows| && Selects(c, sel, rows[j]) && Eq(c, rows[j].id, t.trackingId);
      assert Clash(c, rows[i], rows[j]) && Clash(c, rows[j], rows[i]);
      assert i == j;
    } else {
      assert Eq(c, rows[i].id, t.trackingId);
    }
  }

  lemma StampedRow(c: Collation, sel: Selector, stamp: Stamp, row: Row)
    ensures var r := StampRow(c, sel, stamp, row); r == row.(deleted := r.deleted) && Follows(row, r)
  {
    hide Selects;
  }

  lemma StampedTrail(c: Collation, sel: Selector, stamp: Stamp, rows: seq<Row>, t: Trail)
    ensures var s := StampTrail(c, sel, stamp, rows, t); s == t.(deleted := s.deleted)
  {
    hide SelectsChild;
  }

  lemma UniqueStays(c: Collation, rows: seq<Row>, later: seq<Row>)
    requires AreUnique(c, rows) && |later| == |rows|
    requires forall i :: 0 <= i < |rows| ==> later[i] == rows[i].(deleted := later[i].deleted)
    ensures AreUnique(c, later)
  {
    forall x, y | 0 <= x < y < |later| ensures !Clash(c, later[x], later[y]) {
      assert !Clash(c, rows[x], rows[y]);
    }
  }

  lemma RowsStamped(c: Collation, sel: Selector, stamp: Stamp, db: Db)
    ensures var d := SoftDeleted(c, sel, stamp, db);
            && (forall i :: 0 <= i < |db.rows| ==> d.rows[i] == db.rows[i].(deleted := d.rows[i].deleted))
            && (forall k :: 0 <= k < |db.trail| ==> d.trail[k] == db.trail[k].(deleted := d.trail[k].deleted))
            && Grows(db, d)
  {
    hide StampRow, StampTrail, Follows;
    var d := SoftDeleted(c, sel, stamp, db);
    forall i | 0 <= i < |db.rows|
      ensures d.rows[i] == db.rows[i].(deleted := d.rows[i].deleted) && Follows(db.rows[i], d.rows[i]) {
      StampedRow(c, sel, stamp, db.rows[i]);
    }
    forall k | 0 <= k < |db.trail| ensures d.trail[k] == db.trail[k].(deleted := d.trail[k].deleted) {
      StampedTrail(c, sel, stamp, db.rows, db.trail[k]);
    }
  }

  lemma ParentStays(c: Collation, sel: Selector, stamp: Stamp, db: Db, k: nat)
    requires AreUnique(c, db.rows) && k < |db.trail| && HasParent(db.rows, db.trail[k])
    ensures HasParent(SoftDeleted(c, sel, stamp, db).rows, SoftDeleted(c, sel, stamp, db).trail[k])
  {
    hide StampRow, StampTrail, AreUnique;
    var d := SoftDeleted(c, sel, stamp, db);
    var i :| 0 <= i < |db.rows| && IsParent(db.rows, db.trail[k], i);
    ChildFollowsParent(c, sel, stamp, db.rows, db.trail[k], i);
    StampedRow(c, sel, stamp, db.rows[i]);
    StampedTrail(c, sel, stamp, db.rows, db.trail[k]);
    assert IsParent(d.rows, d.trail[k], i);
  }

  lemma SoftDeleteKeeps(c: Collation, sel: Selector, stamp: Stamp, db: Db)
    requires DbOk(c, db)
    ensures DbOk(c, SoftDeleted(c, sel, stamp, db)) && Grows(db, SoftDeleted(c, sel, stamp, db))
  {
    hide SoftDeleted, AreUnique, IsTagged, HasOpening, HasParent, Grows;
    var d := SoftDeleted(c, sel, stamp, db);
    RowsStamped(c, sel, stamp, db);
    UniqueStays(c, db.rows, d.rows);
    forall k | 0 <= k < |d.trail| ensures HasParent(d.rows, d.trail[k]) { ParentStays(c, sel, stamp, db, k); }
    forall x | 0 <= x < |d.rows| ensures HasOpening(d.trail, d.rows[x]) && IsTagged(d.rows[x]) {
      OpeningStays(db.trail, d.trail, db.rows[x], d.rows[x]);
    }
  }

  /** Since history is deleted with its tracking, the pre-check sees exactly the live trackings. */
  lemma PreCheckSeesLiveTrackings(c: Collation, db: Db, orderId: string)
    requires DbOk(c, db)
    ensures Exists(c, db, orderId) <==>
            exists i :: 0 <= i < |db.rows| && Eq(c, db.rows[i].orderId, orderId) && db.rows[i].deleted.None?
  {
    if k :| 0 <= k < |db.trail| && Eq(c, db.trail[k].orderId, orderId) && db.trail[k].deleted.None? {
      var i :| 0 <= i < |db.rows| && IsParent(db.rows, db.trail[k], i);
      assert Eq(c, db.rows[i].orderId, orderId);
    }
  }
}
