/** What the write calls do to the rows, column by column, and what a refused call answers. */
module RepositoryEffects {
  import opened Outcomes
  import opened RepositoryRows
  import opened RepositorySelector
  import opened RepositoryUnique
  import opened RepositoryWrites

  // ----- one written row

  predicate Signed(m: Meta, call: Call) {
    m.auditable && call.actor.Some?
  }

  predicate Has(row: Row, c: Col, v: Value) {
    c in row.cols && row.cols[c] == v
  }

  predicate HasIn(row: Row, c: Option<Col>, v: Value) {
    c.Some? ==> Has(row, c.value, v)
  }

  /** The columns the call sets by itself. */
  predicate SetsItself(m: Meta, call: Call, c: Col) {
    match call.kind
    case Update => Signed(m, call) && Some(c) in {m.updatedAt, m.updatedBy}
    case Delete => m.deletedAt == Some(c) || (Signed(m, call) && Some(c) in {m.deletedBy, m.updatedAt, m.updatedBy})
    case Restore => m.deletedAt == Some(c) || m.deletedBy == Some(c) || (Signed(m, call) && Some(c) in {m.updatedAt, m.updatedBy})
  }

  predicate Different(a: Option<Col>, b: Option<Col>) {
    a.Some? ==> a != b
  }

  /** No column has two of these roles. */
  predicate RolesApart(m: Meta) {
    Different(m.deletedAt, m.deletedBy) && Different(m.deletedAt, m.updatedAt) && Different(m.deletedAt, m.updatedBy)
    && Different(m.deletedBy, m.updatedAt) && Different(m.deletedBy, m.updatedBy) && Different(m.updatedAt, m.updatedBy)
  }

  /** `delete` writes the time and the actor, `restore` clears both; with an actor every call leaves its stamp. */
  predicate Marked(m: Meta, call: Call, after: Row) {
    (call.kind.Delete? ==> HasIn(after, m.deletedAt, V(call.now)))
    && (call.kind.Delete? && Signed(m, call) ==> HasIn(after, m.deletedBy, V(call.actor.value)))
    && (call.kind.Restore? ==> HasIn(after, m.deletedAt, Null) && HasIn(after, m.deletedBy, Null))
    && (Signed(m, call) ==> HasIn(after, m.updatedAt, V(call.now)) && HasIn(after, m.updatedBy, V(call.actor.value)))
  }

  /** The caller's columns have the caller's values, and nothing else has changed. */
  predicate Wrote(m: Meta, call: Call, sets: Fields, before: Row, after: Row) {
    Marked(m, call, after)
    && (forall c :: c in sets ==> Has(after, c, sets[c]))
    && (forall c :: c in before.cols && c !in sets && !SetsItself(m, call, c) ==> Has(after, c, before.cols[c]))
    && (forall c :: c in after.cols && c !in before.cols && c !in sets ==> SetsItself(m, call, c))
    && after.version == before.version + (if m.versioned && m.auditable && (call.kind.Update? ==> call.actor.Some?) then 1 else 0)
  }

  lemma StampsAre(m: Meta, call: Call, c: Col)
    requires RolesApart(m)
    ensures c in Stamps(m, call) <==> SetsItself(m, call, c)
  {
  }

  lemma StampsMark(m: Meta, call: Call, row: Row)
    requires RolesApart(m) && forall c :: c in Stamps(m, call) ==> Has(row, c, Stamps(m, call)[c])
    ensures Marked(m, call, row)
  {
    var s := Stamps(m, call);
    var signed := Signed(m, call);
    assert call.kind.Delete? && m.deletedAt.Some? ==> m.deletedAt.value in s && s[m.deletedAt.value] == V(call.now);
    assert call.kind.Delete? && signed && m.deletedBy.Some? ==> m.deletedBy.value in s && s[m.deletedBy.value] == V(call.actor.value);
    assert call.kind.Restore? && m.deletedAt.Some? ==> m.deletedAt.value in s && s[m.deletedAt.value] == Null;
    assert call.kind.Restore? && m.deletedBy.Some? ==> m.deletedBy.value in s && s[m.deletedBy.value] == Null;
    assert signed && m.updatedAt.Some? ==> m.updatedAt.value in s && s[m.updatedAt.value] == V(call.now);
    assert signed && m.updatedBy.Some? ==> m.updatedBy.value in s && s[m.updatedBy.value] == V(call.actor.value);
    hide Stamps, Signed;
  }

  lemma AssignedWrote(m: Meta, call: Call, sets: Fields, before: Row)
    requires RolesApart(m) && sets.Keys !! Stamps(m, call).Keys
    ensures Wrote(m, call, sets, before, Assigned(before, Stamps(m, call) + sets, Bumps(m, call)))
  {
    var after := Assigned(before, Stamps(m, call) + sets, Bumps(m, call));
    forall c ensures c in Stamps(m, call) <==> SetsItself(m, call, c) { StampsAre(m, call, c); }
    hide Stamps, SetsItself, Marked;
    StampsMark(m, call, after);
  }

  // ----- single calls

  /** The conditions and the version of the call fit the row. */
  predicate Fits(m: Meta, conds: Fields, version: Option<int>, row: Row) {
    (forall c :: c in conds ==> conds[c] != Null && Has(row, c, conds[c]))
    && (m.versioned ==> version == Some(row.version))
  }

  /** What the caller sets: for `update` every field of the payload that is no condition. */
  function CallerSets(call: Call, fields: Fields, conds: Fields): Fields {
    map c | c in fields && c !in conds && call.kind.Update? :: fields[c]
  }

  lemma CallerSetsAre(call: Call, fields: Fields, conds: Fields)
    ensures CallerSets(call, fields, conds) == UserSets(call, fields, conds.Keys)
  {
    if !call.kind.Update? { assert CallerSets(call, fields, conds) == map[]; }
  }

  lemma SetsFree(m: Meta, call: Call, sets: Fields)
    requires SetError(m, call, sets) == None && (!call.kind.Update? ==> sets == map[])
    ensures sets.Keys !! Stamps(m, call).Keys
  {
    hide Stamps;
    if sets != map[] { NoCommon(sets.Keys, Stamps(m, call).Keys); }
  }

  lemma NoCommon(a: set<Col>, b: set<Col>)
    requires a * b == {}
    ensures a !! b
  {
    assert forall c :: c in a && c in b ==> c in a * b;
  }

  lemma SinglePlan(t: Table, m: Meta, call: Call, p: Payload, reported: RowId)
    requires Single(t, m, call, p, reported).Ok?
    ensures MatchConds(m, p.fields, call.matchBy).Ok?
    ensures var conds := MatchConds(m, p.fields, call.matchBy).value; var sets := CallerSets(call, p.fields, conds);
      var w := WriteOf(m, call, conds, p.version, sets);
      && (m.versioned ==> p.version.Some?)
      && sets.Keys !! Stamps(m, call).Keys
      && Single(t, m, call, p, reported).value == Changed(t, Hits(t, w), w.change)
  {
    hide MatchConds, Stamps, SetError, Hits, Changed, TouchesUnique, ConflictSet, CallerSets, Bumps;
    assert Plan(m, call, p).Ok?;
    var conds := MatchConds(m, p.fields, call.matchBy).value;
    CallerSetsAre(call, p.fields, conds);
    SetsFree(m, call, UserSets(call, p.fields, conds.Keys));
    hide UserSets;
  }

  /** A successful `update`, `delete` or `restore`: the rows that fit are written, column by column, and no other changes. */
  lemma SingleWrote(t: Table, m: Meta, call: Call, p: Payload, reported: RowId, r: RowId)
    requires RolesApart(m) && Single(t, m, call, p, reported).Ok? && r in t
    ensures Single(t, m, call, p, reported).value.Keys == t.Keys && MatchConds(m, p.fields, call.matchBy).Ok?
    ensures var u := Single(t, m, call, p, reported).value; var conds := MatchConds(m, p.fields, call.matchBy).value;
      if Fits(m, conds, p.version, t[r]) then Wrote(m, call, CallerSets(call, p.fields, conds), t[r], u[r]) else u[r] == t[r]
  {
    SinglePlan(t, m, call, p, reported);
    var conds := MatchConds(m, p.fields, call.matchBy).value;
    var sets := CallerSets(call, p.fields, conds);
    FitsIsHit(t, m, call, conds, p.version, sets, r);
    AssignedWrote(m, call, sets, t[r]);
    hide MatchConds, Stamps, Single, CallerSets, Wrote, Fits, Hits, Bumps;
  }

  lemma FitsIsHit(t: Table, m: Meta, call: Call, conds: Fields, version: Option<int>, sets: Fields, r: RowId)
    requires r in t && (m.versioned ==> version.Some?)
    ensures r in Hits(t, WriteOf(m, call, conds, version, sets)) <==> Fits(m, conds, version, t[r])
  {
    hide Stamps, Bumps;
  }

  /** `restore` undoes `delete`: a live row is as it was, but for the audit stamps and the version. */
  lemma RestoreUndoesDelete(t: Table, m: Meta, del: Call, p: Payload, res: Call, q: Payload, reported: RowId, r: RowId, c: Col)
    requires RolesApart(m) && del.kind.Delete? && res.kind.Restore? && r in t && c in t[r].cols
    requires HasIn(t[r], m.deletedAt, Null) && HasIn(t[r], m.deletedBy, Null)
    requires Single(t, m, del, p, reported).Ok? && Single(Single(t, m, del, p, reported).value, m, res, q, reported).Ok?
    requires MatchConds(m, p.fields, del.matchBy).Ok? ==> Fits(m, MatchConds(m, p.fields, del.matchBy).value, p.version, t[r])
    requires MatchConds(m, q.fields, res.matchBy).Ok? ==> r in Single(t, m, del, p, reported).value ==>
      Fits(m, MatchConds(m, q.fields, res.matchBy).value, q.version, Single(t, m, del, p, reported).value[r])
    ensures var v := Single(Single(t, m, del, p, reported).value, m, res, q, reported).value;
      r in v && (Some(c) in {m.updatedAt, m.updatedBy} || Has(v[r], c, t[r].cols[c]))
  {
    hide MatchConds, Single, Fits, Wrote;
    var u := Single(t, m, del, p, reported).value;
    SingleWrote(t, m, del, p, reported, r);
    SingleWrote(u, m, res, q, reported, r);
    var v := Single(u, m, res, q, reported).value;
    NoCallerSets(del, p.fields, MatchConds(m, p.fields, del.matchBy).value);
    NoCallerSets(res, q.fields, MatchConds(m, q.fields, res.matchBy).value);
    DeletedThenRestored(m, del, res, t[r], u[r], v[r], c);
  }

  lemma NoCallerSets(call: Call, fields: Fields, conds: Fields)
    requires !call.kind.Update?
    ensures CallerSets(call, fields, conds) == map[]
  {
  }

  lemma DeletedThenRestored(m: Meta, del: Call, res: Call, a: Row, b: Row, d: Row, c: Col)
    requires del.kind.Delete? && res.kind.Restore? && Wrote(m, del, map[], a, b) && Wrote(m, res, map[], b, d)
    requires c in a.cols && HasIn(a, m.deletedAt, Null) && HasIn(a, m.deletedBy, Null)
    ensures Some(c) in {m.updatedAt, m.updatedBy} || Has(d, c, a.cols[c])
  {
    if m.deletedAt != Some(c) && m.deletedBy != Some(c) && Some(c) !in {m.updatedAt, m.updatedBy} {
      assert !SetsItself(m, del, c) && !SetsItself(m, res, c);
      assert Has(b, c, a.cols[c]);
    }
  }

  // ----- batches

  /** What a batch sets for an item: the first item decides the columns, a column the item lacks becomes NULL. */
  function ItemSets(call: Call, first: Fields, fields: Fields, keys: set<Col>): Fields {
    map c | c in first && c !in keys && call.kind.Update? :: if c in fields then fields[c] else Null
  }

  lemma ItemSetsAre(call: Call, first: Fields, fields: Fields, keys: set<Col>)
    ensures ItemSets(call, first, fields, keys) == BatchUserSets(call, first, fields, keys)
  {
    if !call.kind.Update? { assert ItemSets(call, first, fields, keys) == map[]; }
  }

  lemma BatchItemIs(m: Meta, call: Call, items: seq<Payload>, i: nat)
    requires items != [] && BatchPlan(m, call, items).Ok? && i < |items|
    ensures BulkColumns(m, items, call.matchBy).Ok? && |BatchPlan(m, call, items).value| == |items|
    ensures var keys := BulkColumns(m, items, call.matchBy).value;
      var sets := ItemSets(call, items[0].fields, items[i].fields, keys);
      && keys <= items[i].fields.Keys && (m.versioned ==> items[i].version.Some?)
      && sets.Keys !! Stamps(m, call).Keys
      && BatchPlan(m, call, items).value[i] == WriteOf(m, call, Restrict(items[i].fields, keys), items[i].version, sets)
  {
    var keys := BulkColumns(m, items, call.matchBy).value;
    var first := items[0].fields;
    ItemSetsAre(call, first, items[i].fields, keys);
    ItemSetsAre(call, first, first, keys);
    BatchSetsFree(m, call, keys, first, items[i].fields);
    hide BulkColumns, Stamps, BatchSetError, Restrict, BatchUserSets, ItemSets;
  }

  lemma BatchSetsFree(m: Meta, call: Call, keys: set<Col>, first: Fields, fields: Fields)
    ensures BatchSetError(m, call, keys, BatchUserSets(call, first, first, keys)) == None ==>
      BatchUserSets(call, first, fields, keys).Keys !! Stamps(m, call).Keys
  {
    var a, b := BatchUserSets(call, first, first, keys), BatchUserSets(call, first, fields, keys);
    assert a.Keys == b.Keys;
    hide Stamps;
    if call.kind.Update? && BatchSetError(m, call, keys, a) == None { NoCommon(keys + a.Keys, Stamps(m, call).Keys); }
  }

  /** The item's conditions and version fit the row. */
  predicate ItemFits(m: Meta, keys: set<Col>, item: Payload, row: Row)
    requires keys <= item.fields.Keys
  {
    Fits(m, Restrict(item.fields, keys), item.version, row)
  }

  /** A committed `updateMany`, `deleteMany` or `restoreMany`: a row is written, column by column, for an item that fits it,
      and a row that no item fits does not change. */
  lemma BatchWrote(t1: Table, t2: Table, t: Table, m: Meta, call: Call, items: seq<Payload>, pick: map<RowId, nat>, r: RowId)
    requires RolesApart(m) && items != [] && BatchPlan(m, call, items).Ok? && r in t
    requires Picks(t, BatchPlan(m, call, items).value, pick)
    requires Bulk(t1, t2, t, BatchPlan(m, call, items).value, m.versioned, pick).Ok?
    ensures BulkColumns(m, items, call.matchBy).Ok?
    ensures var u := Bulk(t1, t2, t, BatchPlan(m, call, items).value, m.versioned, pick).value;
      var keys := BulkColumns(m, items, call.matchBy).value;
      && u.Keys == t.Keys
      && (forall i :: 0 <= i < |items| ==> keys <= items[i].fields.Keys)
      && (r in pick <==> exists i :: 0 <= i < |items| && ItemFits(m, keys, items[i], t[r]))
      && (r !in pick ==> u[r] == t[r])
      && (r in pick ==> pick[r] < |items| && ItemFits(m, keys, items[pick[r]], t[r]))
      && (r in pick ==> Wrote(m, call, ItemSets(call, items[0].fields, items[pick[r]].fields, keys), t[r], u[r]))
  {
    hide BatchPlan, BulkColumns, Bulk, ItemFits, Stamps, Wrote, ItemSets, Restrict, Bumps, PickedUpTo, WriteOf;
    var ws := BatchPlan(m, call, items).value;
    BatchItemIs(m, call, items, 0);
    BatchOutcome(t1, t2, t, ws, m.versioned, pick);
    ItemsFit(t, m, call, items, r);
    InPick(t, ws, pick, r);
    if r in pick { PickedWrote(t, m, call, items, pick, r); }
  }

  lemma BatchOutcome(t1: Table, t2: Table, t: Table, ws: seq<Write>, guarded: bool, pick: map<RowId, nat>)
    requires Bulk(t1, t2, t, ws, guarded, pick).Ok?
    ensures Bulk(t1, t2, t, ws, guarded, pick).value == PickedUpTo(t, ws, pick, |ws|)
    ensures PickedUpTo(t, ws, pick, |ws|).Keys == t.Keys
    ensures forall r :: r in t && r !in pick ==> PickedUpTo(t, ws, pick, |ws|)[r] == t[r]
  {
    hide Ambiguous, StaleCode, BulkHits;
  }

  lemma ItemsFit(t: Table, m: Meta, call: Call, items: seq<Payload>, r: RowId)
    requires items != [] && BatchPlan(m, call, items).Ok? && r in t && BulkColumns(m, items, call.matchBy).Ok?
    ensures |BatchPlan(m, call, items).value| == |items|
    ensures var keys := BulkColumns(m, items, call.matchBy).value;
      (forall i :: 0 <= i < |items| ==> keys <= items[i].fields.Keys)
      && forall i :: 0 <= i < |items| ==> (ItemHits(t, BatchPlan(m, call, items).value, i, r) <==> ItemFits(m, keys, items[i], t[r]))
  {
    hide BatchPlan, BulkColumns, Fits, Hits, Stamps, WriteOf;
    var keys := BulkColumns(m, items, call.matchBy).value;
    BatchItemIs(m, call, items, 0);
    forall i | 0 <= i < |items|
      ensures keys <= items[i].fields.Keys
      ensures ItemHits(t, BatchPlan(m, call, items).value, i, r) <==> ItemFits(m, keys, items[i], t[r])
    {
      BatchItemIs(m, call, items, i);
      FitsIsHit(t, m, call, Restrict(items[i].fields, keys), items[i].version, ItemSets(call, items[0].fields, items[i].fields, keys), r);
    }
  }

  lemma PickedWrote(t: Table, m: Meta, call: Call, items: seq<Payload>, pick: map<RowId, nat>, r: RowId)
    requires RolesApart(m) && items != [] && BatchPlan(m, call, items).Ok? && r in t && r in pick && pick[r] < |items|
    ensures BulkColumns(m, items, call.matchBy).Ok?
    ensures var ws := BatchPlan(m, call, items).value; var keys := BulkColumns(m, items, call.matchBy).value;
      r in PickedUpTo(t, ws, pick, |ws|)
      && Wrote(m, call, ItemSets(call, items[0].fields, items[pick[r]].fields, keys), t[r], PickedUpTo(t, ws, pick, |ws|)[r])
  {
    hide BatchPlan, BulkColumns, Stamps, Wrote, ItemSets, Restrict, Bumps, Assigned;
    BatchItemIs(m, call, items, pick[r]);
    var keys := BulkColumns(m, items, call.matchBy).value;
    AssignedWrote(m, call, ItemSets(call, items[0].fields, items[pick[r]].fields, keys), t[r]);
  }

  lemma InPick(t: Table, ws: seq<Write>, pick: map<RowId, nat>, r: RowId)
    requires Picks(t, ws, pick) && r in t
    ensures r in pick <==> exists i :: 0 <= i < |ws| && ItemHits(t, ws, i, r)
    ensures r in pick ==> ItemHits(t, ws, pick[r], r) && pick[r] < |ws|
  {
  }

  // ----- rows that go

  /** A successful `hardDelete` takes out exactly the rows that fit. */
  lemma HardDeletes(t: Table, m: Meta, matchBy: seq<Col>, p: Payload, r: RowId)
    requires Removal(m, matchBy, p).Ok? && SingleWrite(t, Removal(m, matchBy, p).value).Ok? && r in t
    ensures MatchConds(m, p.fields, matchBy).Ok?
    ensures var u := SingleWrite(t, Removal(m, matchBy, p).value).value;
      u.Keys <= t.Keys && (r in u <==> !Fits(m, MatchConds(m, p.fields, matchBy).value, p.version, t[r])) && (r in u ==> u[r] == t[r])
  {
    hide MatchConds, Matched;
    var w := Removal(m, matchBy, p).value;
    assert r in Hits(t, w) <==> Fits(m, MatchConds(m, p.fields, matchBy).value, p.version, t[r]);
    hide Fits, Hits;
  }

  // ----- refusals before anything is sent

  /** The answers of the checks before the statement, in the order of the checks. */
  lemma RefusedExactly(m: Meta, call: Call, p: Payload, conds: Fields)
    requires MatchConds(m, p.fields, call.matchBy) == Ok(conds)
    ensures var plan := Plan(m, call, p);
      var noMarks := !call.kind.Update? && m.deletedAt == None && m.deletedBy == None;
      var noVersion := m.versioned && p.version == None;
      var strange := call.kind.Update? && exists c :: c in p.fields && c !in conds && c !in m.columns;
      var nothing := call.kind.Update? && forall c :: c in p.fields ==> c in conds;
      && (plan == Err(NotDeletable) <==> noMarks)
      && (plan == Err(ERR02) <==> !noMarks && noVersion)
      && (plan == Err(UnknownColumn) <==> !noMarks && !noVersion && strange)
      && (plan == Err(NoFields) <==> !noMarks && !noVersion && nothing)
  {
    hide MatchConds, Stamps, Bumps;
    var sets := UserSets(call, p.fields, conds.Keys);
    if call.kind.Update? {
      assert sets.Keys <= m.columns.Keys <==> !(exists c :: c in p.fields && c !in conds && c !in m.columns) by { StrangeIs(m, p.fields, conds); }
      assert sets == map[] <==> forall c :: c in p.fields ==> c in conds by { NothingIs(p.fields, conds); }
    }
  }

  lemma StrangeIs(m: Meta, fields: Fields, conds: Fields)
    ensures Without(fields, conds.Keys).Keys <= m.columns.Keys <==> !(exists c :: c in fields && c !in conds && c !in m.columns)
  {
    if Without(fields, conds.Keys).Keys <= m.columns.Keys {
      forall c | c in fields && c !in conds ensures c in m.columns { assert c in Without(fields, conds.Keys).Keys; }
    }
  }

  lemma NothingIs(fields: Fields, conds: Fields)
    ensures Without(fields, conds.Keys) == map[] <==> forall c :: c in fields ==> c in conds
  {
    if Without(fields, conds.Keys) == map[] {
      forall c | c in fields ensures c in conds { assert c !in Without(fields, conds.Keys); }
    }
  }

  /** A duplicate answers ERR05 when the row it reports is soft-deleted, ERR04 when it is live; the table stays. */
  lemma DuplicateAnswers(t: Table, m: Meta, w: Write, sets: Fields, reported: RowId)
    requires reported in ConflictSet(t, m, w, sets)
    ensures var deleted := m.deletedAt.Some? && m.deletedAt.value in t[reported].cols && !Has(t[reported], m.deletedAt.value, Null);
      UniqueWrite(t, m, w, sets, reported) == Err(if deleted then ERR05 else ERR04)
  {
    hide Conflicting;
  }

  // ----- why a statement touched no row

  predicate MeetsOne(row: Row, conds: Fields, c: Col) {
    c in conds && conds[c] != Null && Has(row, c, conds[c])
  }

  predicate MeetsAll(row: Row, conds: Fields) {
    forall c :: c in conds ==> MeetsOne(row, conds, c)
  }

  predicate SomeRow(t: Table, conds: Fields) {
    exists r :: r in t && MeetsAll(t[r], conds)
  }

  predicate SomeRowPartly(t: Table, conds: Fields) {
    exists r, c :: r in t && c in conds && MeetsOne(t[r], conds, c)
  }

  predicate SeveralRows(t: Table, conds: Fields) {
    exists r, q :: r in t && q in t && r != q && MeetsAll(t[r], conds) && MeetsAll(t[q], conds)
  }

  lemma MatchedIs(t: Table, conds: Fields)
    ensures forall r :: r in Matched(t, conds) <==> r in t && MeetsAll(t[r], conds)
    ensures Matched(t, conds) == {} <==> !SomeRow(t, conds)
    ensures |Matched(t, conds)| > 1 <==> SeveralRows(t, conds)
  {
    var rs := Matched(t, conds);
    forall r | r in t ensures Matches(t[r], conds) <==> MeetsAll(t[r], conds) { }
    hide MeetsAll, Matches;
    if rs != {} { var r :| r in rs; assert MeetsAll(t[r], conds); }
    if SeveralRows(t, conds) {
      var r, q :| r in t && q in t && r != q && MeetsAll(t[r], conds) && MeetsAll(t[q], conds);
      SubsetSize({r, q}, rs);
    }
    if |rs| > 1 { TwoOf(rs); }
  }

  lemma TwoOf<T>(s: set<T>)
    requires |s| > 1
    ensures exists x, y :: x in s && y in s && x != y
  {
    var x :| x in s;
    assert |s - {x}| > 0;
    var y :| y in s - {x};
  }

  lemma PartlyIs(t: Table, conds: Fields)
    ensures PartlySeen(t, conds) <==> SomeRowPartly(t, conds)
  {
    forall c | c in conds ensures Matched(t, map[c := conds[c]]) != {} <==> exists r :: r in t && MeetsOne(t[r], conds, c) {
      var one := map[c := conds[c]];
      forall r | r in t ensures Matches(t[r], one) <==> MeetsOne(t[r], conds, c) { assert c in one && one[c] == conds[c]; }
      if r :| r in t && MeetsOne(t[r], conds, c) { assert r in Matched(t, one); }
      if Matched(t, one) != {} { var r :| r in Matched(t, one); }
    }
    hide MeetsOne, Matched;
  }

  /** The answers of a guarded write, from the table alone. Several rows under the identity: ERR10. Under a version: the row
      stands at another one, ERR01; no row has the whole identity but one has a part of it, ERR10; none has any, ERR03. Without
      a version: ERR10 for an identity of several columns that some row has a part of, else not found. */
  lemma AnswersExactly(t: Table, w: Write)
    requires w.expected.Some? || w.conds != map[]
    ensures var several, whole, part := SeveralRows(t, w.conds), SomeRow(t, w.conds), SomeRowPartly(t, w.conds);
      var fits := exists r :: r in t && MeetsAll(t[r], w.conds) && (w.expected.Some? ==> t[r].version == w.expected.value);
      match SingleWrite(t, w)
      case Ok(_) => !several && fits
      case Err(e) =>
        if several then e == ERR10
        else !fits && e == (if w.expected.Some? then if whole then ERR01 else if part then ERR10 else ERR03
                            else if |w.conds| >= 2 && part then ERR10 else NotFound)
  {
    MatchedIs(t, w.conds);
    PartlyIs(t, w.conds);
    assert forall r :: r in Hits(t, w) <==> r in Matched(t, w.conds) && (w.expected.Some? ==> t[r].version == w.expected.value);
    hide MeetsAll, Matched, PartlySeen, SeveralRows, SomeRow, SomeRowPartly, Changed;
  }

  // ----- the stale check of a batch

  predicate ItemStale(t: Table, w: Write) {
    !SomeRow(t, w.conds) || exists r :: r in t && MeetsAll(t[r], w.conds) && w.expected.Some? && t[r].version != w.expected.value
  }

  /** The check passes exactly when every item has a row and no row of an item is at another version. Else it answers ERR10 when
      some item without a row has a part of its identity in the table; ERR03 when every stale item has no row; ERR01 otherwise. */
  lemma StaleCodeExactly(t: Table, items: seq<Write>)
    ensures var stale := exists i :: 0 <= i < |items| && ItemStale(t, items[i]);
      var torn := exists i :: 0 <= i < |items| && !SomeRow(t, items[i].conds) && |items[i].conds| > 1 && SomeRowPartly(t, items[i].conds);
      var gone := forall i :: 0 <= i < |items| && ItemStale(t, items[i]) ==> !SomeRow(t, items[i].conds);
      StaleCode(t, items) == if !stale then None else if torn then Some(ERR10) else if gone then Some(ERR03) else Some(ERR01)
  {
    forall i | 0 <= i < |items|
      ensures StaleItem(t, items[i]) <==> ItemStale(t, items[i])
      ensures Vanished(t, items[i]) <==> !SomeRow(t, items[i].conds)
      ensures Incoherent(t, items[i]) <==> !SomeRow(t, items[i].conds) && |items[i].conds| > 1 && SomeRowPartly(t, items[i].conds)
    {
      StaleItemIs(t, items[i]);
    }
    hide StaleItem, ItemStale, Vanished, Incoherent, SomeRow, SomeRowPartly;
  }

  lemma StaleItemIs(t: Table, w: Write)
    ensures StaleItem(t, w) <==> ItemStale(t, w)
    ensures Vanished(t, w) <==> !SomeRow(t, w.conds)
    ensures Incoherent(t, w) <==> !SomeRow(t, w.conds) && |w.conds| > 1 && SomeRowPartly(t, w.conds)
  {
    MatchedIs(t, w.conds);
    PartlyIs(t, w.conds);
    hide MeetsAll, Matched, PartlySeen, SomeRow, SomeRowPartly;
  }
}
