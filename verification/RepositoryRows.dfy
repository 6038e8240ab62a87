/** A table under guarded single-row and guarded bulk writes, each statement one atomic step. */
module RepositoryRows {
  import opened Outcomes

  type Col = string
  type RowId = nat

  datatype Value = Null | V(v: int)
  datatype Row = Row(version: int, cols: map<Col, Value>)
  type Table = map<RowId, Row>
  type Fields = map<Col, Value>

  datatype Error = ERR01 | ERR02 | ERR03 | ERR04 | ERR05 | ERR09 | ERR10 | NotFound | NoFields | UnknownColumn
                 | NotDeletable | StatementError

  /** SQL equality: true only between values that are not NULL. */
  predicate Equal(a: Value, b: Value) {
    a != Null && a == b
  }

  predicate Matches(row: Row, conds: Fields) {
    forall c :: c in conds ==> c in row.cols && Equal(row.cols[c], conds[c])
  }

  function Matched(t: Table, conds: Fields): set<RowId> {
    set r | r in t && Matches(t[r], conds)
  }

  // ----- single-row writes

  datatype Change = Assign(sets: Fields, bump: bool) | Remove
  datatype Write = Write(conds: Fields, expected: Option<int>, change: Change)

  predicate Fresh(row: Row, expected: Option<int>) {
    expected == None || row.version == expected.value
  }

  function Hits(t: Table, w: Write): set<RowId> {
    set r | r in t && Matches(t[r], w.conds) && Fresh(t[r], w.expected)
  }

  function Assigned(row: Row, sets: Fields, bump: bool): Row {
    Row(if bump then row.version + 1 else row.version, row.cols + sets)
  }

  /** The table after the rows `rs` were changed. */
  function Changed(t: Table, rs: set<RowId>, ch: Change): Table {
    if ch.Remove? then t - rs
    else map r | r in t :: if r in rs then Assigned(t[r], ch.sets, ch.bump) else t[r]
  }

  predicate PartlySeen(t: Table, conds: Fields) {
    exists c :: c in conds && Matched(t, map[c := conds[c]]) != {}
  }

  /** Why a write touched no row: stale, incoherent identity, or gone. */
  function ZeroRows(t: Table, w: Write): Error {
    if w.expected.Some? && Matched(t, w.conds) != {} then ERR01
    else if (w.expected.Some? || |w.conds| >= 2) && PartlySeen(t, w.conds) then ERR10
    else if w.expected.Some? then ERR03 else NotFound
  }

  function Effect(t: Table, w: Write): Result<Table, Error> {
    if Hits(t, w) == {} then Err(ZeroRows(t, w)) else Ok(Changed(t, Hits(t, w), w.change))
  }

  /** A write whose statement refers to the guard: more than one matched row aborts it. */
  function SingleWrite(t: Table, w: Write): Result<Table, Error> {
    if |Matched(t, w.conds)| > 1 then Err(ERR10) else Effect(t, w)
  }

  // ----- bulk writes

  predicate ItemHits(t: Table, items: seq<Write>, i: int, r: RowId) {
    0 <= i < |items| && r in Hits(t, items[i])
  }

  function BulkHits(t: Table, items: seq<Write>): set<RowId> {
    set r | r in t && exists i :: 0 <= i < |items| && ItemHits(t, items, i, r)
  }

  predicate Ambiguous(t: Table, items: seq<Write>) {
    exists i :: 0 <= i < |items| && |Matched(t, items[i].conds)| > 1
  }

  predicate Vanished(t: Table, w: Write) {
    Matched(t, w.conds) == {}
  }

  /** No target row, or one at another version. */
  predicate StaleItem(t: Table, w: Write) {
    Vanished(t, w) || exists r :: r in Matched(t, w.conds) && !Fresh(t[r], w.expected)
  }

  predicate Incoherent(t: Table, w: Write) {
    Vanished(t, w) && |w.conds| > 1 && PartlySeen(t, w.conds)
  }

  /** The code the stale pre-check raises for the whole batch. */
  function StaleCode(t: Table, items: seq<Write>): Option<Error> {
    if forall i :: 0 <= i < |items| ==> !StaleItem(t, items[i]) then None
    else if exists i :: 0 <= i < |items| && Incoherent(t, items[i]) then Some(ERR10)
    else if forall i :: 0 <= i < |items| && StaleItem(t, items[i]) ==> Vanished(t, items[i]) then Some(ERR03)
    else Some(ERR01)
  }

  /** `UPDATE … FROM`: when several items join one row the database applies one of them, `pick` says which. */
  ghost predicate Picks(t: Table, items: seq<Write>, pick: map<RowId, nat>) {
    pick.Keys == BulkHits(t, items) && forall r :: r in pick ==> ItemHits(t, items, pick[r], r)
  }

  function PickedUpTo(t: Table, items: seq<Write>, pick: map<RowId, nat>, k: nat): Table {
    map r | r in t ::
      if r in pick && pick[r] < k && pick[r] < |items| && items[pick[r]].change.Assign?
      then Assigned(t[r], items[pick[r]].change.sets, items[pick[r]].change.bump) else t[r]
  }

  /** Ambiguity check on `t1`, stale check on `t2`, write on `t3`: other clients may commit in between. An error
      rolls the transaction back. */
  function Bulk(t1: Table, t2: Table, t3: Table, items: seq<Write>, guarded: bool, pick: map<RowId, nat>): Result<Table, Error> {
    if Ambiguous(t1, items) then Err(ERR10)
    else if guarded && StaleCode(t2, items).Some? then Err(StaleCode(t2, items).value)
    else if guarded && |BulkHits(t3, items)| < |items| then Err(ERR01)
    else Ok(PickedUpTo(t3, items, pick, |items|))
  }

  /** The same writes one by one. */
  function OneByOne(t: Table, items: seq<Write>, k: nat): Result<Table, Error>
    requires k <= |items|
  {
    if k == 0 then Ok(t)
    else
      var u := OneByOne(t, items, k - 1);
      if u.Ok? then SingleWrite(u.value, items[k - 1]) else u
  }

  // ----- counting rows

  predicate Identifies(t: Table, items: seq<Write>) {
    forall i :: 0 <= i < |items| ==> |Matched(t, items[i].conds)| <= 1
  }

  /** No item hits two rows. */
  predicate OneRowEach(t: Table, items: seq<Write>) {
    forall i :: 0 <= i < |items| ==> |Hits(t, items[i])| <= 1
  }

  predicate HitBefore(t: Table, items: seq<Write>, k: nat, r: RowId) {
    exists i :: 0 <= i < k && ItemHits(t, items, i, r)
  }

  function HitsUpTo(t: Table, items: seq<Write>, k: nat): set<RowId>
    requires k <= |items|
  {
    if k == 0 then {} else HitsUpTo(t, items, k - 1) + Hits(t, items[k - 1])
  }

  lemma {:induction false} HitsUpToIs(t: Table, items: seq<Write>, k: nat, r: RowId)
    requires k <= |items|
    ensures r in HitsUpTo(t, items, k) <==> HitBefore(t, items, k, r)
  {
    if k > 0 {
      HitsUpToIs(t, items, k - 1, r);
      assert ItemHits(t, items, k - 1, r) <==> r in Hits(t, items[k - 1]);
      hide Hits, ItemHits;
    }
  }

  predicate OwnRow(t: Table, items: seq<Write>, i: nat) {
    i < |items| && |Hits(t, items[i])| == 1
  }

  predicate AllOwn(t: Table, items: seq<Write>, k: nat)
    requires k <= |items|
  {
    forall i :: 0 <= i < k ==> OwnRow(t, items, i)
  }

  predicate Apart(t: Table, items: seq<Write>, k: nat)
    requires k <= |items|
  {
    forall i, j :: 0 <= i < j < k ==> Hits(t, items[i]) !! Hits(t, items[j])
  }

  lemma SubsetSize<T>(a: set<T>, b: set<T>)
    requires a <= b
    ensures |a| <= |b|
  {
    assert a + (b - a) == b;
  }

  /** Unique identity columns suffice. */
  lemma IdentifiedRows(t: Table, items: seq<Write>)
    requires Identifies(t, items)
    ensures OneRowEach(t, items)
  {
    forall i | 0 <= i < |items| ensures |Hits(t, items[i])| <= 1 {
      SubsetSize(Hits(t, items[i]), Matched(t, items[i].conds));
    }
  }

  lemma SizeOfUnion<T>(a: set<T>, b: set<T>) returns (both: nat)
    ensures |a + b| == |a| + |b| - both
    ensures both == |a * b| && both <= |b|
  {
    both := |a * b|;
    SubsetSize(a * b, b);
  }

  lemma AllOwnStep(t: Table, items: seq<Write>, k: nat)
    requires 0 < k <= |items|
    ensures AllOwn(t, items, k) <==> AllOwn(t, items, k - 1) && |Hits(t, items[k - 1])| == 1
  {
    assert OwnRow(t, items, k - 1) <==> |Hits(t, items[k - 1])| == 1;
    hide OwnRow, Hits;
  }

  lemma OneHit(t: Table, items: seq<Write>, i: nat)
    requires OneRowEach(t, items) && i < |items|
    ensures |Hits(t, items[i])| <= 1
  {
  }

  lemma NothingHit(t: Table, items: seq<Write>)
    ensures HitsUpTo(t, items, 0) == {} && AllOwn(t, items, 0) && Apart(t, items, 0)
  {
  }

  lemma OneMoreHit(before: nat, here: nat, both: nat, total: nat, k: nat, owned: bool, apart: bool)
    requires before <= k && here <= 1 && both <= here && total == before + here - both
    requires before == k <==> owned
    requires both == 0 <==> apart
    ensures total <= k + 1 && (total == k + 1 <==> owned && here == 1 && apart)
  {
  }

  /** Pigeonhole: `k` items that hit at most one row each hit at most `k` rows, and `k` only when each hits a row
      of its own. */
  lemma {:induction false} CountUpTo(t: Table, items: seq<Write>, k: nat)
    requires k <= |items| && OneRowEach(t, items)
    ensures |HitsUpTo(t, items, k)| <= k
    ensures |HitsUpTo(t, items, k)| == k <==> AllOwn(t, items, k) && Apart(t, items, k)
  {
    hide *;
    if k == 0 {
      NothingHit(t, items);
    } else {
      CountUpTo(t, items, k - 1);
      OneHit(t, items, k - 1);
      ApartSplits(t, items, k);
      AllOwnStep(t, items, k);
      var both := Overlap(t, items, k);
      OneMoreHit(|HitsUpTo(t, items, k - 1)|, |Hits(t, items[k - 1])|, both, |HitsUpTo(t, items, k)|, k - 1,
                 AllOwn(t, items, k - 1) && Apart(t, items, k - 1), ApartFrom(t, items, k - 1, Hits(t, items[k - 1])));
    }
  }

  predicate ApartFrom(t: Table, items: seq<Write>, k: nat, h: set<RowId>)
    requires k <= |items|
  {
    forall i :: 0 <= i < k ==> Hits(t, items[i]) !! h
  }

  lemma ApartSplits(t: Table, items: seq<Write>, k: nat)
    requires 0 < k <= |items|
    ensures Apart(t, items, k) <==> Apart(t, items, k - 1) && ApartFrom(t, items, k - 1, Hits(t, items[k - 1]))
  {
    hide Hits;
    if Apart(t, items, k - 1) && ApartFrom(t, items, k - 1, Hits(t, items[k - 1])) {
      forall i, j | 0 <= i < j < k ensures Hits(t, items[i]) !! Hits(t, items[j]) {
        if j == k - 1 { assert Hits(t, items[i]) !! Hits(t, items[k - 1]); }
      }
    }
  }

  lemma {:induction false} Overlap(t: Table, items: seq<Write>, k: nat) returns (both: nat)
    requires 0 < k <= |items|
    ensures |HitsUpTo(t, items, k)| == |HitsUpTo(t, items, k - 1)| + |Hits(t, items[k - 1])| - both
    ensures both <= |Hits(t, items[k - 1])| && (both == 0 <==> ApartFrom(t, items, k - 1, Hits(t, items[k - 1])))
  {
    hide *;
    UpToStep(t, items, k);
    both := SizeOfUnion(HitsUpTo(t, items, k - 1), Hits(t, items[k - 1]));
    ApartFromUnion(t, items, k - 1, Hits(t, items[k - 1]));
  }

  lemma {:induction false} UpToStep(t: Table, items: seq<Write>, k: nat)
    requires 0 < k <= |items|
    ensures HitsUpTo(t, items, k) == HitsUpTo(t, items, k - 1) + Hits(t, items[k - 1])
  {
    hide Hits;
  }

  lemma {:induction false} ApartFromUnion(t: Table, items: seq<Write>, k: nat, h: set<RowId>)
    requires k <= |items|
    ensures ApartFrom(t, items, k, h) <==> |HitsUpTo(t, items, k) * h| == 0
  {
    hide Hits, HitsUpTo, ItemHits;
    var u := HitsUpTo(t, items, k);
    if |u * h| == 0 {
      forall i | 0 <= i < k ensures Hits(t, items[i]) !! h {
        forall r | r in Hits(t, items[i]) ensures r !in h {
          HitInUnion(t, items, k, i, r);
          assert r in h ==> r in u * h;
        }
      }
    }
    if ApartFrom(t, items, k, h) {
      forall r | r in u ensures r !in h {
        HitsUpToIs(t, items, k, r);
        var i :| 0 <= i < k && ItemHits(t, items, i, r);
        HitInUnion(t, items, k, i, r);
      }
      assert u * h == {};
    }
  }

  lemma HitInUnion(t: Table, items: seq<Write>, k: nat, i: nat, r: RowId)
    requires i < k <= |items|
    ensures ItemHits(t, items, i, r) <==> r in Hits(t, items[i])
    ensures r in Hits(t, items[i]) ==> r in HitsUpTo(t, items, k)
  {
    hide Hits, HitsUpTo;
    HitsUpToIs(t, items, k, r);
  }

  lemma CountAll(t: Table, items: seq<Write>)
    requires OneRowEach(t, items)
    ensures |BulkHits(t, items)| <= |items|
    ensures |BulkHits(t, items)| == |items| <==> AllOwn(t, items, |items|) && Apart(t, items, |items|)
  {
    forall r ensures r in BulkHits(t, items) <==> r in HitsUpTo(t, items, |items|) {
      HitsUpToIs(t, items, |items|, r);
    }
    assert BulkHits(t, items) == HitsUpTo(t, items, |items|);
    CountUpTo(t, items, |items|);
  }

  /** Race guard: with at most one row per identity the row count reaches the number of items exactly when every
      item wrote a row of its own, at its expected version. */
  lemma RaceGuardCounts(t: Table, items: seq<Write>)
    requires Identifies(t, items)
    ensures |BulkHits(t, items)| <= |items|
    ensures |BulkHits(t, items)| == |items| <==> AllOwn(t, items, |items|) && Apart(t, items, |items|)
  {
    IdentifiedRows(t, items);
    CountAll(t, items);
  }

  /** On any table: once the count is reached, every item wrote a row of its own exactly when no item hit two rows. */
  lemma ReachedCountExact(t: Table, items: seq<Write>)
    requires |BulkHits(t, items)| >= |items|
    ensures AllOwn(t, items, |items|) && Apart(t, items, |items|) <==> OneRowEach(t, items)
  {
    if OneRowEach(t, items) { CountAll(t, items); }
    if AllOwn(t, items, |items|) {
      forall i | 0 <= i < |items| ensures |Hits(t, items[i])| <= 1 { assert OwnRow(t, items, i); }
    }
  }
}
