/** Which columns name the target row of a write. */
module RepositorySelector {
  import opened Outcomes
  import opened RepositoryRows

  datatype Column = Column(unique: bool, group: Option<string>)

  datatype Meta = Meta(columns: map<Col, Column>, key: Option<Col>, auditable: bool, versioned: bool,
                       deletedAt: Option<Col>, deletedBy: Option<Col>, updatedAt: Option<Col>, updatedBy: Option<Col>)

  predicate Unique(m: Meta, c: Col) {
    c in m.columns && m.columns[c].unique
  }

  /** A unique column alone, or all unique columns that share its index name. */
  function GroupOf(m: Meta, c: Col): set<Col>
    requires Unique(m, c)
  {
    if m.columns[c].group == None then {c}
    else set d | d in m.columns && m.columns[d].unique && m.columns[d].group == m.columns[c].group
  }

  predicate Selectable(m: Meta, p: Col) {
    p in m.columns && (m.key == Some(p) || m.columns[p].unique)
  }

  function Expanded(m: Meta, p: Col): set<Col> {
    if Unique(m, p) then GroupOf(m, p) else {p}
  }

  function SelectorProps(m: Meta, matchBy: seq<Col>): Result<set<Col>, Error> {
    if matchBy == [] then Ok({})
    else
      var n := |matchBy| - 1;
      var before := SelectorProps(m, matchBy[..n]);
      if before.Err? || !Selectable(m, matchBy[n]) then Err(ERR09) else Ok(before.value + Expanded(m, matchBy[n]))
  }

  /** The key and the `uuid` column, where the entity has them. */
  function AutoIdentity(m: Meta): set<Col> {
    (if m.key.Some? then {m.key.value} else {}) + (if "uuid" in m.columns then {"uuid"} else {})
  }

  function Restrict(fields: Fields, cols: set<Col>): Fields
    requires cols <= fields.Keys
  {
    map c | c in cols :: fields[c]
  }

  /** The identity conditions of one payload. */
  function MatchConds(m: Meta, fields: Fields, matchBy: seq<Col>): Result<Fields, Error> {
    var required := SelectorProps(m, matchBy);
    if required.Err? then Err(ERR09)
    else if !(required.value <= fields.Keys) then Err(ERR09)
    else
      var all := required.value + (AutoIdentity(m) * fields.Keys);
      if all == {} then Err(ERR09) else Ok(Restrict(fields, all))
  }

  datatype Payload = Payload(fields: Fields, version: Option<int>)

  method ResolveSelectorProps(m: Meta, matchBy: seq<Col>) returns (r: Result<set<Col>, Error>)
    ensures r == SelectorProps(m, matchBy)
  {
    var required: set<Col> := {};
    for k := 0 to |matchBy|
      invariant SelectorProps(m, matchBy[..k]) == Ok(required)
    {
      assert matchBy[..k + 1][..k] == matchBy[..k];
      var p := matchBy[k];
      if !Selectable(m, p) {
        Refused(m, matchBy, k + 1);
        return Err(ERR09);
      }
      required := required + Expanded(m, p);
    }
    assert matchBy[..|matchBy|] == matchBy;
    return Ok(required);
  }

  lemma {:induction false} Refused(m: Meta, matchBy: seq<Col>, k: nat)
    requires k <= |matchBy| && SelectorProps(m, matchBy[..k]).Err?
    ensures SelectorProps(m, matchBy) == Err(ERR09)
    decreases |matchBy| - k
  {
    if k == |matchBy| {
      assert matchBy[..k] == matchBy;
    } else {
      assert matchBy[..k + 1][..k] == matchBy[..k];
      Refused(m, matchBy, k + 1);
    }
  }

  method ResolveMatchConditions(m: Meta, fields: Fields, matchBy: seq<Col>) returns (r: Result<Fields, Error>)
    ensures r == MatchConds(m, fields, matchBy)
  {
    var selector := ResolveSelectorProps(m, matchBy);
    if selector.Err? { return Err(ERR09); }
    var required := selector.value;
    if !(required <= fields.Keys) { return Err(ERR09); }
    if m.key.Some? && m.key.value in fields { required := required + {m.key.value}; }
    if "uuid" in m.columns && "uuid" in fields { required := required + {"uuid"}; }
    assert required == selector.value + (AutoIdentity(m) * fields.Keys);
    if required == {} { return Err(ERR09); }
    return Ok(Restrict(fields, required));
  }

  predicate InAll(items: seq<Payload>, c: Col) {
    forall i :: 0 <= i < |items| ==> c in items[i].fields
  }

  predicate InSome(items: seq<Payload>, c: Col) {
    exists i :: 0 <= i < |items| && c in items[i].fields
  }

  predicate Uneven(m: Meta, items: seq<Payload>, required: set<Col>, c: Col) {
    c in AutoIdentity(m) && c !in required && InSome(items, c) && !InAll(items, c)
  }

  /** The identity columns of a batch: the selector must be complete in every item, and the key and the `uuid` must
      be in all items or in none. */
  function BulkColumns(m: Meta, items: seq<Payload>, matchBy: seq<Col>): (r: Result<set<Col>, Error>)
    ensures r.Ok? ==> forall i :: 0 <= i < |items| ==> r.value <= items[i].fields.Keys
  {
    hide SelectorProps, AutoIdentity;
    var selector := SelectorProps(m, matchBy);
    if selector.Err? || exists c :: c in selector.value && !InAll(items, c) then Err(ERR09)
    else if exists c :: c in AutoIdentity(m) && Uneven(m, items, selector.value, c) then Err(ERR09)
    else
      var all := selector.value + set c | c in AutoIdentity(m) && InSome(items, c);
      if all == {} then Err(ERR09) else Ok(all)
  }

  /** Adds one automatic identity column, unless only some items carry it. */
  method AddAutomatic(items: seq<Payload>, required: set<Col>, c: Col) returns (r: Option<set<Col>>)
    ensures r == None <==> c !in required && InSome(items, c) && !InAll(items, c)
    ensures r.Some? ==> r.value == required + if InSome(items, c) then {c} else {}
  {
    if c in required || !InSome(items, c) {
      return Some(required + if InSome(items, c) then {c} else {});
    }
    if !InAll(items, c) { return None; }
    return Some(required + {c});
  }

  method ResolveBulkMatchColumns(m: Meta, items: seq<Payload>, matchBy: seq<Col>) returns (r: Result<set<Col>, Error>)
    ensures r == BulkColumns(m, items, matchBy)
  {
    var selector := ResolveSelectorProps(m, matchBy);
    if selector.Err? || exists c :: c in selector.value && !InAll(items, c) { return Err(ERR09); }
    var required := selector.value;
    hide SelectorProps, InSome, InAll;
    if m.key.Some? {
      assert m.key.value in AutoIdentity(m);
      var more := AddAutomatic(items, required, m.key.value);
      if more == None {
        assert Uneven(m, items, selector.value, m.key.value);
        return Err(ERR09);
      }
      required := more.value;
    }
    if "uuid" in m.columns {
      assert "uuid" in AutoIdentity(m);
      var more := AddAutomatic(items, required, "uuid");
      if more == None {
        assert Uneven(m, items, selector.value, "uuid");
        return Err(ERR09);
      }
      required := more.value;
    }
    assert required == selector.value + set c | c in AutoIdentity(m) && InSome(items, c);
    return if required == {} then Err(ERR09) else Ok(required);
  }

  /** Each payload on its own resolves, and all to the same columns. */
  predicate OneShape(m: Meta, items: seq<Payload>, matchBy: seq<Col>, keys: set<Col>) {
    forall i :: 0 <= i < |items| ==> HasShape(m, items[i], matchBy, keys)
  }

  predicate HasShape(m: Meta, p: Payload, matchBy: seq<Col>, keys: set<Col>) {
    MatchConds(m, p.fields, matchBy).Ok? && MatchConds(m, p.fields, matchBy).value.Keys == keys
  }

  /** A batch resolves to some columns exactly when each of its items, as a single-row write, resolves to them. */
  lemma BulkColumnsExact(m: Meta, items: seq<Payload>, matchBy: seq<Col>, keys: set<Col>)
    requires items != []
    ensures BulkColumns(m, items, matchBy) == Ok(keys) <==> OneShape(m, items, matchBy, keys)
  {
    hide SelectorProps, AutoIdentity;
    var selector := SelectorProps(m, matchBy);
    if BulkColumns(m, items, matchBy) == Ok(keys) {
      forall i | 0 <= i < |items| ensures HasShape(m, items[i], matchBy, keys) {
        EvenItem(m, items, matchBy, keys, i);
      }
    }
    if OneShape(m, items, matchBy, keys) {
      assert HasShape(m, items[0], matchBy, keys);
      forall c | c in AutoIdentity(m) ensures !Uneven(m, items, selector.value, c) { EvenColumn(m, items, matchBy, keys, c); }
      forall c | c in selector.value ensures InAll(items, c) {
        forall i | 0 <= i < |items| ensures c in items[i].fields { assert HasShape(m, items[i], matchBy, keys); }
      }
      EvenItem(m, items, matchBy, BulkColumns(m, items, matchBy).value, 0) by {
        assert BulkColumns(m, items, matchBy).Ok? by { assert keys != {}; NonEmpty(m, items, matchBy, keys); }
      }
    }
  }

  lemma CondsKeys(m: Meta, fields: Fields, matchBy: seq<Col>)
    requires MatchConds(m, fields, matchBy).Ok?
    ensures SelectorProps(m, matchBy).Ok?
    ensures MatchConds(m, fields, matchBy).value.Keys == SelectorProps(m, matchBy).value + (AutoIdentity(m) * fields.Keys)
    ensures MatchConds(m, fields, matchBy).value.Keys != {} && MatchConds(m, fields, matchBy).value.Keys <= fields.Keys
  {
  }

  lemma NonEmpty(m: Meta, items: seq<Payload>, matchBy: seq<Col>, keys: set<Col>)
    requires items != [] && HasShape(m, items[0], matchBy, keys)
    ensures SelectorProps(m, matchBy).Ok? && keys != {}
    ensures SelectorProps(m, matchBy).value + (set c | c in AutoIdentity(m) && InSome(items, c)) != {}
  {
    CondsKeys(m, items[0].fields, matchBy);
    var c :| c in keys;
    if c !in SelectorProps(m, matchBy).value { assert c in AutoIdentity(m) && InSome(items, c); }
  }

  lemma EvenColumn(m: Meta, items: seq<Payload>, matchBy: seq<Col>, keys: set<Col>, c: Col)
    requires OneShape(m, items, matchBy, keys) && c in AutoIdentity(m) && items != []
    ensures SelectorProps(m, matchBy).Ok? && !Uneven(m, items, SelectorProps(m, matchBy).value, c)
  {
    hide SelectorProps, AutoIdentity;
    assert HasShape(m, items[0], matchBy, keys);
    if InSome(items, c) {
      var i :| 0 <= i < |items| && c in items[i].fields;
      CondsKeys(m, items[i].fields, matchBy);
      assert HasShape(m, items[i], matchBy, keys);
      forall j | 0 <= j < |items| ensures c in items[j].fields {
        assert HasShape(m, items[j], matchBy, keys);
        CondsKeys(m, items[j].fields, matchBy);
      }
    }
  }

  lemma EvenItem(m: Meta, items: seq<Payload>, matchBy: seq<Col>, keys: set<Col>, i: nat)
    requires i < |items| && BulkColumns(m, items, matchBy) == Ok(keys)
    ensures HasShape(m, items[i], matchBy, keys)
  {
    hide SelectorProps, AutoIdentity;
    var required := SelectorProps(m, matchBy).value;
    var fields := items[i].fields;
    forall c | c in AutoIdentity(m) && (c in fields || InSome(items, c)) ensures c in required || (c in fields && InSome(items, c)) {
      assert !Uneven(m, items, required, c);
    }
    assert required + (AutoIdentity(m) * fields.Keys) == keys;
  }

  // ----- what a selector comes to

  /** The columns are unique under one index name, or are one and the same. */
  predicate SameIndex(m: Meta, c: Col, d: Col) {
    c == d || (Unique(m, c) && Unique(m, d) && m.columns[c].group.Some? && m.columns[c].group == m.columns[d].group)
  }

  lemma GroupExact(m: Meta, c: Col)
    requires Unique(m, c)
    ensures forall d :: d in GroupOf(m, c) <==> SameIndex(m, c, d)
  {
  }

  predicate Accepts(m: Meta, p: Col) {
    p in m.columns && (m.key == Some(p) || m.columns[p].unique)
  }

  predicate AllAccepted(m: Meta, matchBy: seq<Col>) {
    forall p :: p in matchBy ==> Accepts(m, p)
  }

  predicate StandsFor(m: Meta, matchBy: seq<Col>, d: Col) {
    exists p :: p in matchBy && SameIndex(m, p, d)
  }

  lemma OneMoreColumn(m: Meta, before: seq<Col>, p: Col)
    ensures AllAccepted(m, before + [p]) <==> AllAccepted(m, before) && Accepts(m, p)
    ensures forall d :: StandsFor(m, before + [p], d) <==> StandsFor(m, before, d) || SameIndex(m, p, d)
  {
    var all := before + [p];
    hide Accepts, SameIndex;
    assert p in all && forall q :: q in before ==> q in all;
    forall d ensures StandsFor(m, all, d) <==> StandsFor(m, before, d) || SameIndex(m, p, d) {
      if StandsFor(m, all, d) { var q :| q in all && SameIndex(m, q, d); assert q in before || q == p; }
    }
  }

  /** A selector is accepted exactly when each of its columns is the key or unique, and stands for these columns and all that
      share a unique index with one of them. */
  lemma {:induction false} SelectorExact(m: Meta, matchBy: seq<Col>)
    ensures SelectorProps(m, matchBy) == Err(ERR09) || SelectorProps(m, matchBy).Ok?
    ensures SelectorProps(m, matchBy).Ok? <==> AllAccepted(m, matchBy)
    ensures SelectorProps(m, matchBy).Ok? ==> forall d :: d in SelectorProps(m, matchBy).value <==> StandsFor(m, matchBy, d)
  {
    if matchBy != [] {
      var n := |matchBy| - 1;
      var before, p := matchBy[..n], matchBy[n];
      assert matchBy == before + [p];
      SelectorExact(m, before);
      OneMoreColumn(m, before, p);
      if Unique(m, p) { GroupExact(m, p); }
      assert forall d :: d in Expanded(m, p) <==> SameIndex(m, p, d);
      assert Selectable(m, p) <==> Accepts(m, p);
      hide SameIndex, Accepts, Unique, GroupOf, Expanded, AllAccepted, StandsFor, Selectable;
    }
  }

  /** Resolved conditions are the selector's columns, the key and the `uuid` as far as the payload has them, with the payload's
      own values. */
  lemma CondsExact(m: Meta, fields: Fields, matchBy: seq<Col>, c: Col)
    requires MatchConds(m, fields, matchBy).Ok?
    ensures var conds := MatchConds(m, fields, matchBy).value;
      && (c in conds <==> c in fields && (StandsFor(m, matchBy, c) || m.key == Some(c) || (c == "uuid" && c in m.columns)))
      && (c in conds ==> conds[c] == fields[c])
  {
    SelectorExact(m, matchBy);
    hide SelectorProps, StandsFor;
  }

  /** No conditions: the selector is refused, a column it stands for is missing from the payload, or nothing is left. */
  lemma CondsRefused(m: Meta, fields: Fields, matchBy: seq<Col>)
    ensures MatchConds(m, fields, matchBy).Err? <==>
      !AllAccepted(m, matchBy)
      || (exists c :: StandsFor(m, matchBy, c) && c !in fields)
      || (matchBy == [] && (m.key.Some? ==> m.key.value !in fields) && ("uuid" in m.columns ==> "uuid" !in fields))
  {
    SelectorExact(m, matchBy);
    var s := SelectorProps(m, matchBy);
    if s.Ok? {
      if matchBy == [] { assert forall c :: !StandsFor(m, matchBy, c); }
      else { assert matchBy[0] in matchBy && SameIndex(m, matchBy[0], matchBy[0]); assert StandsFor(m, matchBy, matchBy[0]); }
      hide StandsFor, SelectorProps, AllAccepted, SameIndex;
      NothingLeft(m, fields, s.value);
      if !(s.value <= fields.Keys) { var c :| c in s.value && c !in fields; assert StandsFor(m, matchBy, c); }
    }
  }

  lemma NothingLeft(m: Meta, fields: Fields, required: set<Col>)
    ensures required + (AutoIdentity(m) * fields.Keys) == {} <==>
      required == {} && (m.key.Some? ==> m.key.value !in fields) && ("uuid" in m.columns ==> "uuid" !in fields)
  {
    var auto := AutoIdentity(m) * fields.Keys;
    assert m.key.Some? && m.key.value in fields ==> m.key.value in required + auto;
    assert "uuid" in m.columns && "uuid" in fields ==> "uuid" in required + auto;
    if required == {} && (m.key.Some? ==> m.key.value !in fields) && ("uuid" in m.columns ==> "uuid" !in fields) { assert auto == {}; }
    if required + auto == {} { assert required <= required + auto; }
  }

  // ----- the selector names at most one row

  predicate SameOn(a: Row, b: Row, cols: set<Col>) {
    forall c :: c in cols ==> c in a.cols && c in b.cols && Equal(a.cols[c], b.cols[c])
  }

  /** No two rows agree on all these columns; NULL agrees with nothing. */
  predicate UniqueOn(t: Table, cols: set<Col>) {
    forall r, q :: r in t && q in t && r != q ==> !SameOn(t[r], t[q], cols)
  }

  predicate GroupsKept(t: Table, m: Meta) {
    forall c :: c in m.columns && Unique(m, c) ==> UniqueOn(t, GroupOf(m, c))
  }

  /** The unique indexes the entity declares, and one on the key. */
  predicate Declared(t: Table, m: Meta) {
    GroupsKept(t, m) && (m.key.Some? ==> UniqueOn(t, {m.key.value}))
  }

  /** Conditions that hold the key or a whole unique group. */
  predicate Identifying(m: Meta, cols: set<Col>) {
    (m.key.Some? && m.key.value in cols) || exists c :: c in m.columns && Unique(m, c) && GroupOf(m, c) <= cols
  }

  lemma {:induction false} SelectorIdentifies(m: Meta, matchBy: seq<Col>)
    requires SelectorProps(m, matchBy).Ok?
    ensures SelectorProps(m, matchBy).value == {} || Identifying(m, SelectorProps(m, matchBy).value)
  {
    if matchBy != [] {
      var n := |matchBy| - 1;
      SelectorIdentifies(m, matchBy[..n]);
    }
  }

  /** Resolved conditions always hold the key, a whole unique group, or the `uuid`. */
  lemma CondsIdentify(m: Meta, fields: Fields, matchBy: seq<Col>)
    requires MatchConds(m, fields, matchBy).Ok?
    ensures Identifying(m, MatchConds(m, fields, matchBy).value.Keys)
      || ("uuid" in m.columns && "uuid" in MatchConds(m, fields, matchBy).value.Keys)
  {
    SelectorIdentifies(m, matchBy);
  }

  lemma MatchedOne(t: Table, conds: Fields, cols: set<Col>)
    requires UniqueOn(t, cols) && cols <= conds.Keys
    ensures |Matched(t, conds)| <= 1
  {
    forall r, q | r in Matched(t, conds) && q in Matched(t, conds) ensures r == q {
      assert SameOn(t[r], t[q], cols);
    }
    AtMostOne(Matched(t, conds));
  }

  lemma AtMostOne<T>(s: set<T>)
    requires forall x, y :: x in s && y in s ==> x == y
    ensures |s| <= 1
  {
    if s != {} {
      var x :| x in s;
      assert s == {x};
    }
  }

  /** On a table that keeps its declared indexes, with `uuid` unique too, a write names at most one row. */
  lemma SelectorNamesOneRow(t: Table, m: Meta, fields: Fields, matchBy: seq<Col>)
    requires MatchConds(m, fields, matchBy).Ok? && Declared(t, m)
    requires "uuid" in m.columns ==> UniqueOn(t, {"uuid"})
    ensures |Matched(t, MatchConds(m, fields, matchBy).value)| <= 1
  {
    var conds := MatchConds(m, fields, matchBy).value;
    CondsIdentify(m, fields, matchBy);
    hide MatchConds, UniqueOn;
    if m.key.Some? && m.key.value in conds { MatchedOne(t, conds, {m.key.value}); }
    else if exists c :: c in m.columns && Unique(m, c) && GroupOf(m, c) <= conds.Keys {
      var c :| c in m.columns && Unique(m, c) && GroupOf(m, c) <= conds.Keys;
      MatchedOne(t, conds, GroupOf(m, c));
    } else { MatchedOne(t, conds, {"uuid"}); }
  }
}
