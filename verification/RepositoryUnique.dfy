/** `update` of a unique column: the pre-check that looks for another row holding the attempted values. */
module RepositoryUnique {
  import opened Outcomes
  import opened RepositoryRows
  import opened RepositorySelector

  /** The groups a payload writes to. */
  predicate Touches(m: Meta, sets: Fields, c: Col) {
    Unique(m, c) && GroupOf(m, c) * sets.Keys != {}
  }

  predicate TouchesUnique(m: Meta, sets: Fields) {
    exists c :: c in m.columns && Touches(m, sets, c)
  }

  /** The value a column would have: from the payload, else what the target row holds. */
  function Attempted(row: Row, sets: Fields, c: Col): Value {
    if c in sets then sets[c] else if c in row.cols then row.cols[c] else Null
  }

  predicate Holds(other: Row, target: Row, sets: Fields, group: set<Col>) {
    forall c :: c in group ==> c in other.cols && Equal(other.cols[c], Attempted(target, sets, c))
  }

  /** Row `q` differs from the conditions in some column (IS DISTINCT FROM), and holds the attempted values of a group
      the payload writes to. */
  predicate Conflicting(t: Table, m: Meta, w: Write, sets: Fields, target: RowId, q: RowId) {
    target in Hits(t, w) && target in t && q in t
    && (exists c :: c in w.conds && (c !in t[q].cols || t[q].cols[c] != w.conds[c]))
    && exists c :: c in m.columns && Touches(m, sets, c) && Holds(t[q], t[target], sets, GroupOf(m, c))
  }

  function ConflictSet(t: Table, m: Meta, w: Write, sets: Fields): set<RowId> {
    set q | q in t && exists target :: target in t && Conflicting(t, m, w, sets, target, q)
  }

  /** The code for the duplicate that is reported: a live row, or a deleted one. */
  function DuplicateCode(m: Meta, row: Row): Error {
    if m.deletedAt.Some? && m.deletedAt.value in row.cols && row.cols[m.deletedAt.value] != Null then ERR05 else ERR04
  }

  /** The statement for a payload that writes a unique column. It defines the guard but never refers to it. */
  function UniqueWrite(t: Table, m: Meta, w: Write, sets: Fields, reported: RowId): Result<Table, Error> {
    if ConflictSet(t, m, w, sets) != {} then Err(if reported in t then DuplicateCode(m, t[reported]) else ERR04)
    else Effect(t, w)
  }

  // ----- exactness

  /** What one accepted row would look like: the payload's columns and the stamps. */
  ghost predicate Writes(w: Write, sets: Fields) {
    w.change.Assign? && (forall c :: c in sets ==> c in w.change.sets && w.change.sets[c] == sets[c])
    && sets.Keys !! w.conds.Keys
  }

  /** The columns the statement stamps are in no unique group. */
  predicate StampsFree(m: Meta, w: Write, sets: Fields) {
    w.change.Assign? && forall c :: c in w.change.sets && c !in sets ==> !Unique(m, c)
  }

  predicate WholeRows(t: Table, m: Meta) {
    forall r :: r in t ==> m.columns.Keys <= t[r].cols.Keys
  }

  lemma GroupMembers(m: Meta, c: Col, d: Col)
    requires Unique(m, c) && d in GroupOf(m, c)
    ensures d in m.columns && Unique(m, d)
  {
  }

  /** The written row holds exactly the attempted values in every unique group. */
  lemma WrittenIsAttempted(row: Row, m: Meta, w: Write, sets: Fields, d: Col)
    requires Writes(w, sets) && StampsFree(m, w, sets) && Unique(m, d) && d in row.cols
    ensures var next := Assigned(row, w.change.sets, w.change.bump); d in next.cols && next.cols[d] == Attempted(row, sets, d)
  {
  }

  lemma HoldsMeansSame(other: Row, target: Row, m: Meta, w: Write, sets: Fields, c: Col)
    requires Writes(w, sets) && StampsFree(m, w, sets) && Unique(m, c) && m.columns.Keys <= target.cols.Keys
    ensures Holds(other, target, sets, GroupOf(m, c))
      <==> SameOn(other, Assigned(target, w.change.sets, w.change.bump), GroupOf(m, c))
  {
    var next := Assigned(target, w.change.sets, w.change.bump);
    forall d | d in GroupOf(m, c) ensures d in next.cols && next.cols[d] == Attempted(target, sets, d) {
      GroupMembers(m, c, d);
      WrittenIsAttempted(target, m, w, sets, d);
    }
    hide GroupOf, Assigned, Attempted;
  }

  lemma UntouchedSame(other: Row, target: Row, m: Meta, sets: Fields, c: Col)
    requires Unique(m, c) && m.columns.Keys <= target.cols.Keys
    ensures Holds(other, target, sets, GroupOf(m, c)) && !Touches(m, sets, c) ==> SameOn(other, target, GroupOf(m, c))
  {
    forall d | d in GroupOf(m, c) && !Touches(m, sets, c)
      ensures d in target.cols && Attempted(target, sets, d) == target.cols[d]
    {
      GroupMembers(m, c, d);
      assert GroupOf(m, c) * sets.Keys == {};
      assert d !in GroupOf(m, c) * sets.Keys;
    }
    hide GroupOf, Touches, Attempted;
  }

  lemma SameSymmetric(a: Row, b: Row, cols: set<Col>)
    ensures SameOn(a, b, cols) <==> SameOn(b, a, cols)
  {
  }

  /** A conflicting row keeps the new target row from being unique. */
  lemma ConflictBreaks(t: Table, m: Meta, w: Write, sets: Fields, r: RowId, q: RowId)
    requires Writes(w, sets) && StampsFree(m, w, sets) && WholeRows(t, m) && r in t && Matched(t, w.conds) == {r}
    requires Conflicting(t, m, w, sets, r, q)
    ensures !GroupsKept(Changed(t, {r}, w.change), m)
  {
    assert r in Matched(t, w.conds);
    assert Matches(t[r], w.conds);
    assert q != r;
    var c :| c in m.columns && Touches(m, sets, c) && Holds(t[q], t[r], sets, GroupOf(m, c));
    HoldsMeansSame(t[q], t[r], m, w, sets, c);
    var u := Changed(t, {r}, w.change);
    assert u[q] == t[q] && u[r] == Assigned(t[r], w.change.sets, w.change.bump);
    hide GroupOf, Assigned, Holds, SameOn;
    assert SameOn(u[q], u[r], GroupOf(m, c));
    assert !UniqueOn(u, GroupOf(m, c));
  }

  /** Two rows that agree after the write are the target and a row the pre-check finds. */
  lemma BreakConflicts(t: Table, m: Meta, w: Write, sets: Fields, r: RowId, q: RowId, c: Col)
    requires Writes(w, sets) && StampsFree(m, w, sets) && WholeRows(t, m) && GroupsKept(t, m)
    requires r in t && Matched(t, w.conds) == {r} && Hits(t, w) == {r} && q in t && q != r && c in m.columns && Unique(m, c)
    requires SameOn(t[q], Assigned(t[r], w.change.sets, w.change.bump), GroupOf(m, c))
    ensures Conflicting(t, m, w, sets, r, q)
  {
    HoldsMeansSame(t[q], t[r], m, w, sets, c);
    UntouchedSame(t[q], t[r], m, sets, c);
    assert UniqueOn(t, GroupOf(m, c));
    DiffersFromConds(t, w, r, q);
    hide GroupOf, Assigned, Holds, SameOn;
    assert r in {r};
  }

  lemma DiffersFromConds(t: Table, w: Write, r: RowId, q: RowId)
    requires r in t && q in t && q != r && Matched(t, w.conds) == {r}
    ensures exists c :: c in w.conds && (c !in t[q].cols || t[q].cols[c] != w.conds[c])
  {
    assert r in Matched(t, w.conds) && q !in Matched(t, w.conds);
    var c :| c in w.conds && !(c in t[q].cols && Equal(t[q].cols[c], w.conds[c]));
    assert Equal(t[r].cols[c], w.conds[c]);
  }

  /** With one matched row at the expected version, on a table that keeps its groups: the conflict set is non-empty
      exactly when the write would break a group. */
  lemma PreCheckExact(t: Table, m: Meta, w: Write, sets: Fields, r: RowId)
    requires Writes(w, sets) && StampsFree(m, w, sets) && WholeRows(t, m) && GroupsKept(t, m)
    requires r in t && Matched(t, w.conds) == {r} && Fresh(t[r], w.expected)
    ensures ConflictSet(t, m, w, sets) != {} <==> !GroupsKept(Changed(t, {r}, w.change), m)
  {
    assert r in Matched(t, w.conds);
    assert Hits(t, w) == {r} by { assert Hits(t, w) <= Matched(t, w.conds); }
    hide Matched, Hits, GroupOf, SameOn, WholeRows, Assigned, Changed, Writes, StampsFree;
    if ConflictSet(t, m, w, sets) != {} { FoundBreaks(t, m, w, sets, r); }
    if !GroupsKept(Changed(t, {r}, w.change), m) { BrokenFound(t, m, w, sets, r); }
  }

  lemma FoundBreaks(t: Table, m: Meta, w: Write, sets: Fields, r: RowId)
    requires Writes(w, sets) && StampsFree(m, w, sets) && WholeRows(t, m) && r in t && Matched(t, w.conds) == {r}
    requires Hits(t, w) == {r} && ConflictSet(t, m, w, sets) != {}
    ensures !GroupsKept(Changed(t, {r}, w.change), m)
  {
    var q :| q in ConflictSet(t, m, w, sets);
    var target :| target in t && Conflicting(t, m, w, sets, target, q);
    assert target in {r};
    ConflictBreaks(t, m, w, sets, r, q);
  }

  lemma BrokenFound(t: Table, m: Meta, w: Write, sets: Fields, r: RowId)
    requires Writes(w, sets) && StampsFree(m, w, sets) && WholeRows(t, m) && GroupsKept(t, m)
    requires r in t && Matched(t, w.conds) == {r} && Hits(t, w) == {r}
    requires !GroupsKept(Changed(t, {r}, w.change), m)
    ensures ConflictSet(t, m, w, sets) != {}
  {
    hide Matched, Hits, GroupOf, SameOn, WholeRows, Assigned, Changed;
    var u := Changed(t, {r}, w.change);
    var c :| c in m.columns && Unique(m, c) && !UniqueOn(u, GroupOf(m, c));
    var a, b :| a in u && b in u && a != b && SameOn(u[a], u[b], GroupOf(m, c));
    SameSymmetric(u[a], u[b], GroupOf(m, c));
    BreakOf(t, m, w, sets, r, c, a, b);
  }

  lemma BreakOf(t: Table, m: Meta, w: Write, sets: Fields, r: RowId, c: Col, a: RowId, b: RowId)
    requires Writes(w, sets) && StampsFree(m, w, sets) && WholeRows(t, m) && GroupsKept(t, m)
    requires r in t && Matched(t, w.conds) == {r} && Hits(t, w) == {r} && c in m.columns && Unique(m, c)
    requires var u := Changed(t, {r}, w.change);
      a in u && b in u && a != b && SameOn(u[a], u[b], GroupOf(m, c)) && SameOn(u[b], u[a], GroupOf(m, c))
    ensures ConflictSet(t, m, w, sets) != {}
  {
    hide GroupOf, SameOn, Matched, Hits, WholeRows, Conflicting, Assigned;
    var u := Changed(t, {r}, w.change);
    var q := if a == r then b else a;
    assert UniqueOn(t, GroupOf(m, c));
    assert forall x :: x in t && x != r ==> u[x] == t[x];
    assert a == r || b == r;
    BreakConflicts(t, m, w, sets, r, q, c);
    assert q in ConflictSet(t, m, w, sets);
  }

  /** Every accepted write keeps every unique group, as long as the selector names at most one row. */
  lemma AcceptedKeepsGroups(t: Table, m: Meta, w: Write, sets: Fields, reported: RowId)
    requires Writes(w, sets) && StampsFree(m, w, sets) && WholeRows(t, m) && GroupsKept(t, m)
    requires |Matched(t, w.conds)| <= 1 && UniqueWrite(t, m, w, sets, reported).Ok?
    ensures GroupsKept(UniqueWrite(t, m, w, sets, reported).value, m)
  {
    var r :| r in Hits(t, w);
    AtMostTheOne(t, w, r);
    hide GroupsKept, ConflictSet, WholeRows, StampsFree, Writes;
    PreCheckExact(t, m, w, sets, r);
  }

  lemma AtMostTheOne(t: Table, w: Write, r: RowId)
    requires |Matched(t, w.conds)| <= 1 && r in Hits(t, w)
    ensures r in t && Matched(t, w.conds) == {r} && Hits(t, w) == {r} && Fresh(t[r], w.expected)
  {
    assert r in Matched(t, w.conds);
    SubsetSize({r}, Matched(t, w.conds));
    assert |Matched(t, w.conds) - {r}| == 0;
    assert Matched(t, w.conds) == {r};
    assert Hits(t, w) <= Matched(t, w.conds);
  }

  // ----- when an accepted update keeps the groups

  /** Both rows would hold the same values, none of them NULL. */
  predicate SameAttempt(a: Row, b: Row, sets: Fields, group: set<Col>) {
    forall c :: c in group ==> Equal(Attempted(a, sets, c), Attempted(b, sets, c))
  }

  /** Row `q` matches the conditions too, and has or would have what row `r` would have in a group the payload writes to. */
  predicate Contest(t: Table, m: Meta, w: Write, sets: Fields, r: RowId, q: RowId, c: Col) {
    r != q && r in t && q in t && r in Hits(t, w) && q in Matched(t, w.conds) && c in m.columns && Touches(m, sets, c)
    && if q in Hits(t, w) then SameAttempt(t[r], t[q], sets, GroupOf(m, c)) else Holds(t[q], t[r], sets, GroupOf(m, c))
  }

  predicate Contested(t: Table, m: Meta, w: Write, sets: Fields) {
    exists r, q, c :: r in t && q in t && c in m.columns && Contest(t, m, w, sets, r, q, c)
  }

  lemma AttemptsMeanSame(a: Row, b: Row, m: Meta, w: Write, sets: Fields, c: Col)
    requires Writes(w, sets) && StampsFree(m, w, sets) && Unique(m, c)
    requires m.columns.Keys <= a.cols.Keys && m.columns.Keys <= b.cols.Keys
    ensures SameAttempt(a, b, sets, GroupOf(m, c))
      <==> SameOn(Assigned(a, w.change.sets, w.change.bump), Assigned(b, w.change.sets, w.change.bump), GroupOf(m, c))
  {
    var next, other := Assigned(a, w.change.sets, w.change.bump), Assigned(b, w.change.sets, w.change.bump);
    forall d | d in GroupOf(m, c) ensures d in next.cols && next.cols[d] == Attempted(a, sets, d)
      && d in other.cols && other.cols[d] == Attempted(b, sets, d) {
      GroupMembers(m, c, d);
      WrittenIsAttempted(a, m, w, sets, d);
      WrittenIsAttempted(b, m, w, sets, d);
    }
    hide GroupOf, Assigned, Attempted;
  }

  /** What a row holds after the write. */
  function RowAfter(t: Table, w: Write, r: RowId): Row
    requires r in t && w.change.Assign?
  {
    if r in Hits(t, w) then Assigned(t[r], w.change.sets, w.change.bump) else t[r]
  }

  lemma AfterIs(t: Table, w: Write)
    requires w.change.Assign?
    ensures var u := Changed(t, Hits(t, w), w.change); u.Keys == t.Keys && forall r :: r in t ==> u[r] == RowAfter(t, w, r)
  {
  }

  lemma ContestBreaks(t: Table, m: Meta, w: Write, sets: Fields, r: RowId, q: RowId, c: Col)
    requires Writes(w, sets) && StampsFree(m, w, sets) && WholeRows(t, m) && Contest(t, m, w, sets, r, q, c)
    ensures SameOn(RowAfter(t, w, q), RowAfter(t, w, r), GroupOf(m, c))
  {
    hide GroupOf, Assigned, Attempted, Hits, Matched, SameOn, Holds, SameAttempt;
    if q in Hits(t, w) {
      AttemptsMeanSame(t[r], t[q], m, w, sets, c);
      SameSymmetric(RowAfter(t, w, r), RowAfter(t, w, q), GroupOf(m, c));
    } else {
      HoldsMeansSame(t[q], t[r], m, w, sets, c);
    }
  }

  lemma StaysOnUntouched(row: Row, m: Meta, w: Write, sets: Fields, c: Col)
    requires Writes(w, sets) && StampsFree(m, w, sets) && Unique(m, c) && !Touches(m, sets, c) && m.columns.Keys <= row.cols.Keys
    ensures var next := Assigned(row, w.change.sets, w.change.bump);
      forall d :: d in GroupOf(m, c) ==> d in row.cols && d in next.cols && next.cols[d] == row.cols[d]
  {
    forall d | d in GroupOf(m, c) ensures d in row.cols && d !in sets {
      GroupMembers(m, c, d);
      assert d !in GroupOf(m, c) * sets.Keys;
    }
    forall d | d in GroupOf(m, c) ensures Assigned(row, w.change.sets, w.change.bump).cols[d] == row.cols[d] {
      GroupMembers(m, c, d);
      WrittenIsAttempted(row, m, w, sets, d);
    }
  }

  lemma UntouchedWere(t: Table, m: Meta, w: Write, sets: Fields, r: RowId, q: RowId, c: Col)
    requires Writes(w, sets) && StampsFree(m, w, sets) && WholeRows(t, m) && Unique(m, c) && !Touches(m, sets, c)
    requires r in t && q in t && SameOn(RowAfter(t, w, q), RowAfter(t, w, r), GroupOf(m, c))
    ensures SameOn(t[q], t[r], GroupOf(m, c))
  {
    StaysOnUntouched(t[r], m, w, sets, c);
    StaysOnUntouched(t[q], m, w, sets, c);
    hide GroupOf, Touches, Assigned, Hits, Writes, StampsFree;
  }

  lemma DiffersIfUnmatched(t: Table, w: Write, r: RowId, q: RowId)
    requires r in Hits(t, w) && q in t && q !in Matched(t, w.conds)
    ensures exists c :: c in w.conds && (c !in t[q].cols || t[q].cols[c] != w.conds[c])
  {
    var c :| c in w.conds && !(c in t[q].cols && Equal(t[q].cols[c], w.conds[c]));
    assert Equal(t[r].cols[c], w.conds[c]);
  }

  /** A break with a written row is a contest, or a conflict that the statement would have found. */
  lemma BreakIsContest(t: Table, m: Meta, w: Write, sets: Fields, r: RowId, q: RowId, c: Col)
    requires Writes(w, sets) && StampsFree(m, w, sets) && WholeRows(t, m) && GroupsKept(t, m)
    requires r in t && q in t && r != q && r in Hits(t, w) && c in m.columns && Unique(m, c)
    requires SameOn(RowAfter(t, w, q), RowAfter(t, w, r), GroupOf(m, c))
    requires ConflictSet(t, m, w, sets) == {}
    ensures Contest(t, m, w, sets, r, q, c)
  {
    assert UniqueOn(t, GroupOf(m, c));
    assert q in ConflictSet(t, m, w, sets) || !Conflicting(t, m, w, sets, r, q);
    hide GroupOf, Assigned, Attempted, Hits, Matched, SameOn, Holds, SameAttempt, GroupsKept, ConflictSet;
    if !Touches(m, sets, c) { UntouchedWere(t, m, w, sets, r, q, c); }
    if q in Hits(t, w) {
      SameSymmetric(RowAfter(t, w, r), RowAfter(t, w, q), GroupOf(m, c));
      AttemptsMeanSame(t[r], t[q], m, w, sets, c);
      HitsMatch(t, w, q);
    } else {
      HoldsMeansSame(t[q], t[r], m, w, sets, c);
      if q !in Matched(t, w.conds) { DiffersIfUnmatched(t, w, r, q); }
    }
  }

  lemma HitsMatch(t: Table, w: Write, q: RowId)
    requires q in Hits(t, w)
    ensures q in Matched(t, w.conds)
  {
  }

  /** Whatever the selector: an accepted update of a unique column keeps every group if and only if no two rows that match
      its conditions contest a group it writes to. */
  lemma AcceptedKeepsGroupsExactly(t: Table, m: Meta, w: Write, sets: Fields, reported: RowId)
    requires Writes(w, sets) && StampsFree(m, w, sets) && WholeRows(t, m) && GroupsKept(t, m)
    requires UniqueWrite(t, m, w, sets, reported).Ok?
    ensures GroupsKept(UniqueWrite(t, m, w, sets, reported).value, m) <==> !Contested(t, m, w, sets)
  {
    var u := UniqueWrite(t, m, w, sets, reported).value;
    assert u == Changed(t, Hits(t, w), w.change) && ConflictSet(t, m, w, sets) == {};
    AfterIs(t, w);
    hide UniqueWrite, Changed, RowAfter, SameOn, GroupOf, Contest, ConflictSet, WholeRows, Writes, StampsFree, Hits;
    if Contested(t, m, w, sets) { ContestedBreaks(t, u, m, w, sets); }
    if !GroupsKept(u, m) { BrokenContested(t, u, m, w, sets); }
  }

  lemma ContestedBreaks(t: Table, u: Table, m: Meta, w: Write, sets: Fields)
    requires Writes(w, sets) && StampsFree(m, w, sets) && WholeRows(t, m) && Contested(t, m, w, sets)
    requires u.Keys == t.Keys && forall r :: r in t ==> u[r] == RowAfter(t, w, r)
    ensures !GroupsKept(u, m)
  {
    var r, q, c :| r in t && q in t && c in m.columns && Contest(t, m, w, sets, r, q, c);
    ContestBreaks(t, m, w, sets, r, q, c);
    assert Unique(m, c) && r in t && q in t && r != q;
    hide RowAfter, SameOn, GroupOf, Contest;
    assert !UniqueOn(u, GroupOf(m, c));
  }

  lemma BrokenContested(t: Table, u: Table, m: Meta, w: Write, sets: Fields)
    requires Writes(w, sets) && StampsFree(m, w, sets) && WholeRows(t, m) && GroupsKept(t, m)
    requires u.Keys == t.Keys && forall r :: r in t ==> u[r] == RowAfter(t, w, r)
    requires ConflictSet(t, m, w, sets) == {} && !GroupsKept(u, m)
    ensures Contested(t, m, w, sets)
  {
    var c, a, b := BrokenPair(t, u, m);
    hide RowAfter, SameOn, GroupOf, Contest, ConflictSet, WholeRows, Writes, StampsFree, Hits, GroupsKept, Unique;
    SomeHit(t, w, a, b, GroupOf(m, c));
    SameSymmetric(u[a], u[b], GroupOf(m, c));
    if b in Hits(t, w) { BreakIsContest(t, m, w, sets, b, a, c); } else { BreakIsContest(t, m, w, sets, a, b, c); }
  }

  lemma BrokenPair(t: Table, u: Table, m: Meta) returns (c: Col, a: RowId, b: RowId)
    requires GroupsKept(t, m) && !GroupsKept(u, m) && u.Keys == t.Keys
    ensures c in m.columns && Unique(m, c) && a in u && b in u && a != b
    ensures SameOn(u[a], u[b], GroupOf(m, c)) && !SameOn(t[a], t[b], GroupOf(m, c))
  {
    hide GroupOf, SameOn;
    c :| c in m.columns && Unique(m, c) && !UniqueOn(u, GroupOf(m, c));
    a, b :| a in u && b in u && a != b && SameOn(u[a], u[b], GroupOf(m, c));
    assert UniqueOn(t, GroupOf(m, c));
  }

  lemma SomeHit(t: Table, w: Write, a: RowId, b: RowId, group: set<Col>)
    requires w.change.Assign? && a in t && b in t && SameOn(RowAfter(t, w, a), RowAfter(t, w, b), group)
    ensures a in Hits(t, w) || b in Hits(t, w) || SameOn(t[a], t[b], group)
  {
    hide SameOn, Hits;
  }

  // ----- the guard this statement does not evaluate

  const SharedUuid: Meta := Meta(map["uuid" := Column(false, None), "email" := Column(true, None)], None, true, true,
                                 None, None, None, None)

  function TwoWithOneUuid(): Table {
    map[0 := Row(1, map["uuid" := V(5), "email" := V(1)]), 1 := Row(1, map["uuid" := V(5), "email" := V(2)])]
  }

  function NewEmail(): Write {
    Write(map["uuid" := V(5)], Some(1), Assign(map["email" := V(3)], true))
  }

  /** Where nothing makes `uuid` unique, an update of a unique column by `uuid` writes two rows and breaks the group;
      the statement that refers to the guard refuses. */
  lemma UnreferencedGuard()
    ensures var t, w := TwoWithOneUuid(), NewEmail();
      GroupsKept(t, SharedUuid) && SingleWrite(t, w) == Err(ERR10)
      && UniqueWrite(t, SharedUuid, w, map["email" := V(3)], 0).Ok?
      && !GroupsKept(UniqueWrite(t, SharedUuid, w, map["email" := V(3)], 0).value, SharedUuid)
  {
    var t, w := TwoWithOneUuid(), NewEmail();
    SharedUuidRows();
    SharedUuidNoConflict();
    SharedUuidKept();
    SharedUuidBroken();
    assert |{0, 1}| == 2;
    hide Matched, Hits, ConflictSet, GroupsKept, Changed;
  }

  lemma SharedUuidBroken()
    ensures !GroupsKept(Changed(TwoWithOneUuid(), {0, 1}, NewEmail().change), SharedUuid)
  {
    var u := Changed(TwoWithOneUuid(), {0, 1}, NewEmail().change);
    SharedUuidGroup("email");
    assert SameOn(u[0], u[1], {"email"});
    assert !UniqueOn(u, GroupOf(SharedUuid, "email"));
    hide GroupOf;
  }

  lemma SharedUuidRows()
    ensures var t, w := TwoWithOneUuid(), NewEmail(); Matched(t, w.conds) == {0, 1} && Hits(t, w) == {0, 1}
  {
    var t, w := TwoWithOneUuid(), NewEmail();
    assert t.Keys == {0, 1};
    assert Matches(t[0], w.conds) && Matches(t[1], w.conds);
  }

  lemma SharedUuidGroup(c: Col)
    ensures Unique(SharedUuid, c) <==> c == "email"
    ensures c == "email" ==> GroupOf(SharedUuid, c) == {"email"}
  {
  }

  lemma SharedUuidKept()
    ensures GroupsKept(TwoWithOneUuid(), SharedUuid)
  {
    var t := TwoWithOneUuid();
    assert t.Keys == {0, 1};
    forall c | Unique(SharedUuid, c) ensures UniqueOn(t, GroupOf(SharedUuid, c)) {
      SharedUuidGroup(c);
      assert "email" in {"email"};
    }
  }

  lemma SharedUuidNoConflict()
    ensures ConflictSet(TwoWithOneUuid(), SharedUuid, NewEmail(), map["email" := V(3)]) == {}
  {
    var t, w := TwoWithOneUuid(), NewEmail();
    assert t.Keys == {0, 1};
    forall q | q in t ensures forall c :: c in w.conds ==> c in t[q].cols && t[q].cols[c] == w.conds[c] { }
  }

  function StaleTwin(): Table {
    map[0 := Row(1, map["uuid" := V(5), "email" := V(1)]), 1 := Row(2, map["uuid" := V(5), "email" := V(3)])]
  }

  /** One written row is enough: its twin is at another version, so it is not written, and carries the `uuid` of the
      conditions, so the pre-check takes it for the target. */
  lemma StaleTwinContests()
    ensures Contested(StaleTwin(), SharedUuid, NewEmail(), map["email" := V(3)]) && Hits(StaleTwin(), NewEmail()) == {0}
  {
    var t, w := StaleTwin(), NewEmail();
    assert t.Keys == {0, 1};
    assert Matches(t[0], w.conds) && Matches(t[1], w.conds);
    SharedUuidGroup("email");
    assert "email" in {"email"} * (map["email" := V(3)]).Keys;
    hide GroupOf;
    assert Contest(t, SharedUuid, w, map["email" := V(3)], 0, 1, "email");
  }
}
