/** The comparison, the emitted statements and their effect, step by step. */
module SchemaPatch {
  import opened Outcomes
  import opened RenameMatching
  import opened RenameHeuristics
  import opened SchemaDrift

  // ----- statements

  datatype ColumnDdl =
    | AddColumn(name: Name, declared: Declared)
    | RenameColumn(from: Name, to: Name)
    | AlterType(name: Name, typ: string)
    | AlterNull(name: Name, nullable: bool)

  datatype Ddl = NewTable(key: Key, intent: Intent) | OnTable(key: Key, ddl: ColumnDdl)

  /** ADD COLUMN IF NOT EXISTS leaves an existing column alone; a rename needs the old name and not the new one. */
  function TableStep(k: Key, cols: Columns, s: ColumnDdl, places: Places): Columns {
    match s
    case AddColumn(n, e) => if n in cols then cols else cols[n := Added(e, places(k, n))]
    case RenameColumn(d, e) => if d in cols && e !in cols then (cols - {d})[e := cols[d]] else cols
    case AlterType(n, t) => if n in cols then cols[n := cols[n].(comparable := Some(t))] else cols
    case AlterNull(n, b) => if n in cols then cols[n := cols[n].(nullable := Some(b))] else cols
  }

  function ExecTable(k: Key, cols: Columns, ss: seq<ColumnDdl>, places: Places): Columns {
    if ss == [] then cols else TableStep(k, ExecTable(k, cols, ss[..|ss| - 1], places), ss[|ss| - 1], places)
  }

  function Step(db: Database, s: Ddl, places: Places): Database {
    match s
    case NewTable(k, e) => if k in db then db else db[k := CreateTable(k, e, places)]
    case OnTable(k, c) => if k in db then db[k := TableStep(k, db[k], c, places)] else db
  }

  function Exec(db: Database, ss: seq<Ddl>, places: Places): Database {
    if ss == [] then db else Step(Exec(db, ss[..|ss| - 1], places), ss[|ss| - 1], places)
  }

  lemma ExecTableOne(k: Key, cols: Columns, ss: seq<ColumnDdl>, s: ColumnDdl, places: Places)
    ensures ExecTable(k, cols, ss + [s], places) == TableStep(k, ExecTable(k, cols, ss, places), s, places)
  {
    assert (ss + [s])[..|ss + [s]| - 1] == ss;
  }

  lemma ExecOne(db: Database, ss: seq<Ddl>, s: Ddl, places: Places)
    ensures Exec(db, ss + [s], places) == Step(Exec(db, ss, places), s, places)
  {
    assert (ss + [s])[..|ss + [s]| - 1] == ss;
  }

  lemma {:induction false} ExecConcat(db: Database, a: seq<Ddl>, b: seq<Ddl>, places: Places)
    ensures Exec(db, a + b, places) == Exec(Exec(db, a, places), b, places)
  {
    if b == [] {
      assert a + b == a;
    } else {
      assert (a + b)[..|a + b| - 1] == a + b[..|b| - 1];
      ExecConcat(db, a, b[..|b| - 1], places);
    }
  }

  function On(k: Key, ss: seq<ColumnDdl>): seq<Ddl> {
    seq(|ss|, i requires 0 <= i < |ss| => OnTable(k, ss[i]))
  }

  /** Statements on one table change that table alone. */
  lemma {:induction false} ExecOn(db: Database, k: Key, ss: seq<ColumnDdl>, places: Places)
    requires k in db
    ensures Exec(db, On(k, ss), places) == db[k := ExecTable(k, db[k], ss, places)]
  {
    if ss != [] {
      var less := ss[..|ss| - 1];
      assert On(k, ss)[..|On(k, ss)| - 1] == On(k, less);
      ExecOn(db, k, less, places);
    }
  }

  // ----- the statements of one table

  method EmitAdds(k: Key, e: Intent, onlyE: set<Name>, ghost d: Columns, ghost places: Places) returns (ss: seq<ColumnDdl>)
    requires onlyE <= e.Keys && onlyE !! d.Keys
    ensures ExecTable(k, d, ss, places) == AddAll(k, e, d, onlyE, places)
  {
    ss := [];
    var todo := onlyE;
    assert AddAll(k, e, d, {}, places) == d;
    while todo != {}
      invariant todo <= onlyE && ExecTable(k, d, ss, places) == AddAll(k, e, d, onlyE - todo, places)
      decreases |todo|
    {
      var n :| n in todo;
      ExecTableOne(k, d, ss, AddColumn(n, e[n]), places);
      ss := ss + [AddColumn(n, e[n])];
      AddOne(k, e, d, onlyE - todo, n, places);
      assert onlyE - (todo - {n}) == (onlyE - todo) + {n};
      todo := todo - {n};
    }
    assert onlyE - todo == onlyE;
  }

  lemma AddOne(k: Key, e: Intent, d: Columns, names: set<Name>, n: Name, places: Places)
    requires n in e && n !in d && n !in names
    ensures AddAll(k, e, d, names + {n}, places) == TableStep(k, AddAll(k, e, d, names, places), AddColumn(n, e[n]), places)
  {
    hide Added;
  }

  function Part(m: map<Name, Name>, names: set<Name>): map<Name, Name> {
    map x | x in m && x in names :: m[x]
  }

  ghost predicate Renamable(cols: Columns, renames: map<Name, Name>) {
    Injection(renames) && renames.Keys !! cols.Keys && renames.Values <= cols.Keys
  }

  method EmitRenames(k: Key, renames: map<Name, Name>, ghost cols: Columns, ghost places: Places) returns (ss: seq<ColumnDdl>)
    requires Renamable(cols, renames)
    ensures ExecTable(k, cols, ss, places) == RenameAll(cols, renames)
  {
    ss := [];
    var todo := renames.Keys;
    ghost var done: set<Name> := {};
    NoRename(k, cols, renames, places);
    hide *;
    while todo != {}
      invariant done + todo == renames.Keys && done !! todo
      invariant Renamed(k, cols, renames, done, ss, places)
      decreases |todo|
    {
      var x :| x in todo;
      RenameNext(k, cols, renames, done, x, ss, places);
      ss := ss + [RenameColumn(renames[x], x)];
      done, todo := done + {x}, todo - {x};
    }
    assert done == renames.Keys;
    EveryRename(k, cols, renames, ss, places);
  }

  /** The statements so far rename exactly the columns in `done`. */
  ghost predicate Renamed(k: Key, cols: Columns, renames: map<Name, Name>, done: set<Name>, ss: seq<ColumnDdl>,
                          places: Places) {
    Part(renames, done).Values <= cols.Keys && ExecTable(k, cols, ss, places) == RenameAll(cols, Part(renames, done))
  }

  lemma NoRename(k: Key, cols: Columns, renames: map<Name, Name>, places: Places)
    ensures Renamed(k, cols, renames, {}, [], places)
  {
    assert RenameAll(cols, map[]) == cols;
    assert Part(renames, {}) == map[];
  }

  lemma EveryRename(k: Key, cols: Columns, renames: map<Name, Name>, ss: seq<ColumnDdl>, places: Places)
    requires Renamable(cols, renames) && Renamed(k, cols, renames, renames.Keys, ss, places)
    ensures ExecTable(k, cols, ss, places) == RenameAll(cols, renames)
  {
    assert Part(renames, renames.Keys) == renames;
  }

  lemma RenameNext(k: Key, cols: Columns, renames: map<Name, Name>, done: set<Name>, x: Name, ss: seq<ColumnDdl>,
                   places: Places)
    requires Renamable(cols, renames) && x in renames && x !in done && Renamed(k, cols, renames, done, ss, places)
    ensures Renamed(k, cols, renames, done + {x}, ss + [RenameColumn(renames[x], x)], places)
  {
    hide Injection, ExecTable, RenameAll, Renamable, TableStep, Part;
    RenameOne(k, cols, renames, done, x, places);
    ExecTableOne(k, cols, ss, RenameColumn(renames[x], x), places);
  }

  lemma AddedValue(m: map<Name, Name>, x: Name, d: Name)
    requires x !in m
    ensures m[x := d].Values == m.Values + {d}
  {
    var next := m[x := d];
    assert next[x] == d;
    assert forall y :: y in m ==> y in next && next[y] == m[y];
  }

  lemma RenameOne(k: Key, cols: Columns, renames: map<Name, Name>, done: set<Name>, x: Name, places: Places)
    requires Renamable(cols, renames) && x in renames && x !in done
    ensures Part(renames, done).Values <= cols.Keys && Part(renames, done + {x}).Values <= cols.Keys
    ensures RenameAll(cols, Part(renames, done + {x}))
      == TableStep(k, RenameAll(cols, Part(renames, done)), RenameColumn(renames[x], x), places)
  {
    var m, d := Part(renames, done), renames[x];
    assert forall y :: y in m ==> m[y] == renames[y] && y in renames;
    assert d in renames.Values && d !in m.Values;
    assert Part(renames, done + {x}) == m[x := d];
    AddedValue(m, x, d);
    hide Part, Renamable, Injection;
    RenameStep(cols, m, x, d);
  }

  lemma RenameStep(cols: Columns, m: map<Name, Name>, x: Name, d: Name)
    requires m.Keys !! cols.Keys && m.Values <= cols.Keys && m[x := d].Values == m.Values + {d}
    requires x !in m && x !in cols && d in cols && d !in m.Values
    ensures var u := RenameAll(cols, m);
      d in u && x !in u && m[x := d].Values <= cols.Keys && RenameAll(cols, m[x := d]) == (u - {d})[x := u[d]]
  {
    var u, v := RenameAll(cols, m), RenameAll(cols, m[x := d]);
    assert v.Keys == u.Keys - {d} + {x};
    assert forall n :: n in v && n != x ==> v[n] == u[n];
  }

  lemma AlterNothing(e: Intent, cols: Columns)
    ensures AlterAll(e, cols, {}, {}) == cols
  {
  }

  lemma AlterTypeOne(k: Key, e: Intent, cols: Columns, types: set<Name>, n: Name, places: Places)
    requires n in e && n in cols
    ensures AlterAll(e, cols, types + {n}, {}) == TableStep(k, AlterAll(e, cols, types, {}), AlterType(n, e[n].altered), places)
  {
  }

  lemma AlterNullOne(k: Key, e: Intent, cols: Columns, types: set<Name>, nulls: set<Name>, n: Name, places: Places)
    requires n in e && n in cols
    ensures AlterAll(e, cols, types, nulls + {n})
      == TableStep(k, AlterAll(e, cols, types, nulls), AlterNull(n, e[n].col.nullable != Some(false)), places)
  {
  }

  method EmitTypes(k: Key, e: Intent, types: set<Name>, ss0: seq<ColumnDdl>, ghost base: Columns, ghost cols: Columns,
                   ghost places: Places) returns (ss: seq<ColumnDdl>)
    requires types <= e.Keys && types <= cols.Keys && ExecTable(k, base, ss0, places) == cols
    ensures ExecTable(k, base, ss, places) == AlterAll(e, cols, types, {})
  {
    ss := ss0;
    var todo := types;
    assert types - todo == {};
    AlterNothing(e, cols);
    hide AlterAll, TableStep, ExecTable;
    while todo != {}
      invariant todo <= types && ExecTable(k, base, ss, places) == AlterAll(e, cols, types - todo, {})
      decreases |todo|
    {
      var n :| n in todo;
      ExecTableOne(k, base, ss, AlterType(n, e[n].altered), places);
      ss := ss + [AlterType(n, e[n].altered)];
      AlterTypeOne(k, e, cols, types - todo, n, places);
      assert types - (todo - {n}) == (types - todo) + {n};
      todo := todo - {n};
    }
    assert types - todo == types;
  }

  method EmitNulls(k: Key, e: Intent, types: set<Name>, nulls: set<Name>, ss0: seq<ColumnDdl>, ghost base: Columns,
                   ghost cols: Columns, ghost places: Places) returns (ss: seq<ColumnDdl>)
    requires nulls <= e.Keys && nulls <= cols.Keys && ExecTable(k, base, ss0, places) == AlterAll(e, cols, types, {})
    ensures ExecTable(k, base, ss, places) == AlterAll(e, cols, types, nulls)
  {
    ss := ss0;
    var todo := nulls;
    assert nulls - todo == {};
    while todo != {}
      invariant todo <= nulls && ExecTable(k, base, ss, places) == AlterAll(e, cols, types, nulls - todo)
      decreases |todo|
    {
      var n :| n in todo;
      var nullable := e[n].col.nullable != Some(false);
      ExecTableOne(k, base, ss, AlterNull(n, nullable), places);
      ss := ss + [AlterNull(n, nullable)];
      AlterNullOne(k, e, cols, types, nulls - todo, n, places);
      assert nulls - (todo - {n}) == (nulls - todo) + {n};
      todo := todo - {n};
    }
    assert nulls - todo == nulls;
  }

  // ----- the statements of a diff

  /** What the diff of a table needs for each of its statements to find its column. */
  ghost predicate Emittable(k: Key, e: Intent, d: Columns, t: TableDiff, held: bool, places: Places) {
    t.onlyE <= e.Keys && t.onlyE !! d.Keys && t.renames.Values <= d.Keys
    && t.types <= e.Keys && t.nulls <= e.Keys && t.types <= d.Keys && t.nulls <= d.Keys
    && t.types !! t.renames.Values && t.nulls !! t.renames.Values
    && (!held ==> Renamable(AddAll(k, e, d, t.onlyE, places), t.renames))
  }

  method EmitReview(k: Key, e: Intent, t: TableDiff, review: bool, ghost d: Columns, ghost places: Places) returns (ss: seq<ColumnDdl>)
    requires Emittable(k, e, d, t, t.review || review, places)
    ensures ExecTable(k, AddAll(k, e, d, t.onlyE, places), ss, places) == PatchTable(k, e, d, t, review, places)
  {
    ghost var added := AddAll(k, e, d, t.onlyE, places);
    ghost var renamed := if t.review || review then added else RenameAll(added, t.renames);
    assert t.types <= renamed.Keys && t.nulls <= renamed.Keys;
    ss := [];
    assert ExecTable(k, added, [], places) == added;
    if !(t.review || review) { ss := EmitRenames(k, t.renames, added, places); }
    hide ExecTable, AddAll, RenameAll, AlterAll, Renamable;
    ss := EmitTypes(k, e, t.types, ss, added, renamed, places);
    ss := EmitNulls(k, e, t.types, t.nulls, ss, added, renamed, places);
  }

  /** After the safe section: new tables and added columns. */
  function SafeState(es: Entities, db: Database, diff: Diff, news: set<Key>, olds: set<Key>, places: Places): Database
  {
    map k | k in db.Keys + (news * es.Keys) ::
      if k !in db then CreateTable(k, es[k], places)
      else if k in olds && k in es && k in diff.tables then AddAll(k, es[k], db[k], diff.tables[k].onlyE, places) else db[k]
  }

  /** While the review section runs: the tables `done` have all their statements. */
  function ReviewState(es: Entities, db: Database, diff: Diff, done: set<Key>, places: Places): Database
    requires Applicable(es, db, diff) && done <= diff.tables.Keys
  {
    map k | k in db.Keys + diff.newTables ::
      if k !in db then CreateTable(k, es[k], places)
      else if k in done then PatchTable(k, es[k], db[k], diff.tables[k], diff.review, places)
      else if k in diff.tables then AddAll(k, es[k], db[k], diff.tables[k].onlyE, places) else db[k]
  }

  ghost predicate AllEmittable(es: Entities, db: Database, diff: Diff, places: Places) {
    Applicable(es, db, diff) && diff.newTables !! db.Keys
    && forall k :: k in diff.tables ==>
      Emittable(k, es[k], db[k], diff.tables[k], diff.tables[k].review || diff.review, places)
  }

  datatype Patch = Patch(safe: seq<Ddl>, review: seq<Ddl>, requiresReview: bool)

  lemma NothingYet(es: Entities, db: Database, diff: Diff, places: Places)
    ensures Exec(db, [], places) == SafeState(es, db, diff, {}, {}, places)
  {
  }

  lemma NewOne(es: Entities, db: Database, diff: Diff, news: set<Key>, k: Key, places: Places)
    requires k in es && k !in db && k !in news
    ensures SafeState(es, db, diff, news + {k}, {}, places)
      == Step(SafeState(es, db, diff, news, {}, places), NewTable(k, es[k]), places)
  {
    hide AddAll, CreateTable;
  }

  lemma ReviewStart(es: Entities, db: Database, diff: Diff, places: Places)
    requires Applicable(es, db, diff) && diff.newTables !! db.Keys
    ensures var mid := SafeState(es, db, diff, diff.newTables, diff.tables.Keys, places);
      Exec(mid, [], places) == ReviewState(es, db, diff, {}, places)
  {
    hide AddAll, CreateTable, PatchTable;
  }

  method EmitNewTables(es: Entities, diff: Diff, ghost db: Database, ghost places: Places) returns (ss: seq<Ddl>)
    requires AllEmittable(es, db, diff, places)
    ensures Exec(db, ss, places) == SafeState(es, db, diff, diff.newTables, {}, places)
  {
    ss := [];
    var todo := diff.newTables;
    assert diff.newTables - todo == {};
    NothingYet(es, db, diff, places);
    assert diff.newTables <= es.Keys && diff.newTables !! db.Keys;
    hide Exec, SafeState, AllEmittable, Applicable, Step, CreateTable;
    while todo != {}
      invariant todo <= diff.newTables && Exec(db, ss, places) == SafeState(es, db, diff, diff.newTables - todo, {}, places)
      decreases |todo|
    {
      var k :| k in todo;
      ExecOne(db, ss, NewTable(k, es[k]), places);
      ss := ss + [NewTable(k, es[k])];
      NewOne(es, db, diff, diff.newTables - todo, k, places);
      assert diff.newTables - (todo - {k}) == (diff.newTables - todo) + {k};
      todo := todo - {k};
    }
    assert diff.newTables - todo == diff.newTables;
  }

  lemma SafeOne(es: Entities, db: Database, diff: Diff, olds: set<Key>, k: Key, places: Places)
    requires Applicable(es, db, diff) && olds <= diff.tables.Keys && k in diff.tables && k !in olds
    ensures var was := SafeState(es, db, diff, diff.newTables, olds, places);
      k in was && was[k] == db[k] && SafeState(es, db, diff, diff.newTables, olds + {k}, places)
        == was[k := AddAll(k, es[k], db[k], diff.tables[k].onlyE, places)]
  {
    hide AddAll, CreateTable;
  }

  lemma ReviewOne(es: Entities, db: Database, diff: Diff, done: set<Key>, k: Key, places: Places)
    requires Applicable(es, db, diff) && done <= diff.tables.Keys && k in diff.tables && k !in done
    ensures var was := ReviewState(es, db, diff, done, places);
      k in was && was[k] == AddAll(k, es[k], db[k], diff.tables[k].onlyE, places)
      && ReviewState(es, db, diff, done + {k}, places) == was[k := PatchTable(k, es[k], db[k], diff.tables[k], diff.review, places)]
  {
    hide AddAll, CreateTable, PatchTable;
  }

  /** Both sections hold the statements of the tables `done`. */
  ghost predicate Emitted(es: Entities, diff: Diff, db: Database, mid: Database, safe: seq<Ddl>, review: seq<Ddl>,
                          done: set<Key>, places: Places) {
    Applicable(es, db, diff) && done <= diff.tables.Keys
    && Exec(db, safe, places) == SafeState(es, db, diff, diff.newTables, done, places)
    && Exec(mid, review, places) == ReviewState(es, db, diff, done, places)
  }

  method EmitTables(es: Entities, diff: Diff, safe0: seq<Ddl>, ghost db: Database, ghost places: Places)
      returns (safe: seq<Ddl>, review: seq<Ddl>)
    requires AllEmittable(es, db, diff, places)
    requires Exec(db, safe0, places) == SafeState(es, db, diff, diff.newTables, {}, places)
    ensures var mid := SafeState(es, db, diff, diff.newTables, diff.tables.Keys, places);
      Emitted(es, diff, db, mid, safe, review, diff.tables.Keys, places)
  {
    hide *;
    safe, review := safe0, [];
    var todo := diff.tables.Keys;
    ghost var mid := SafeState(es, db, diff, diff.newTables, diff.tables.Keys, places);
    ghost var done: set<Key> := {};
    NothingEmitted(es, db, diff, safe0, places);
    while todo != {}
      invariant done + todo == diff.tables.Keys && done !! todo
      invariant Emitted(es, diff, db, mid, safe, review, done, places)
      decreases |todo|
    {
      var k :| k in todo;
      safe, review := EmitTable(es, diff, k, safe, review, done, db, mid, places);
      done, todo := done + {k}, todo - {k};
    }
    assert done == diff.tables.Keys;
  }

  lemma NothingEmitted(es: Entities, db: Database, diff: Diff, safe0: seq<Ddl>, places: Places)
    requires AllEmittable(es, db, diff, places)
    requires Exec(db, safe0, places) == SafeState(es, db, diff, diff.newTables, {}, places)
    ensures Emitted(es, diff, db, SafeState(es, db, diff, diff.newTables, diff.tables.Keys, places), safe0, [], {}, places)
  {
    ReviewStart(es, db, diff, places);
  }

  /** Emits the safe and the review section. Run in this order on the compared database they give exactly the patched
      one; without the review section they give the database with the new tables and columns only. */
  method BuildSqlPatch(es: Entities, diff: Diff, ghost db: Database, ghost places: Places) returns (p: Patch)
    requires AllEmittable(es, db, diff, places)
    ensures Exec(db, p.safe, places) == SafeState(es, db, diff, diff.newTables, diff.tables.Keys, places)
    ensures Exec(db, p.safe + p.review, places) == Patched(es, db, diff, places)
    ensures p.requiresReview <==> diff.review || p.review != []
  {
    var news := EmitNewTables(es, diff, db, places);
    var safe, review := EmitTables(es, diff, news, db, places);
    p := Patch(safe, review, diff.review || review != []);
    assert Applicable(es, db, diff);
    hide Exec, AllEmittable, SafeState, ReviewState, Applicable, Patched;
    ExecConcat(db, safe, review, places);
    AllReviewed(es, db, diff, places);
  }

  lemma AllReviewed(es: Entities, db: Database, diff: Diff, places: Places)
    requires Applicable(es, db, diff)
    ensures ReviewState(es, db, diff, diff.tables.Keys, places) == Patched(es, db, diff, places)
  {
    hide AddAll, CreateTable, PatchTable;
  }

  method EmitTable(es: Entities, diff: Diff, k: Key, safe0: seq<Ddl>, review0: seq<Ddl>, ghost done: set<Key>,
                   ghost db: Database, ghost mid: Database, ghost places: Places) returns (safe: seq<Ddl>, review: seq<Ddl>)
    requires AllEmittable(es, db, diff, places) && k in diff.tables && k !in done
    requires Emitted(es, diff, db, mid, safe0, review0, done, places)
    ensures Emitted(es, diff, db, mid, safe, review, done + {k}, places)
  {
    var e, t := es[k], diff.tables[k];
    assert Emittable(k, e, db[k], t, t.review || diff.review, places);
    SafeOne(es, db, diff, done, k, places);
    ReviewOne(es, db, diff, done, k, places);
    assert t.onlyE <= e.Keys && t.onlyE !! db[k].Keys;
    hide Exec, SafeState, ReviewState, Emittable, ExecTable, PatchTable, AddAll;
    var adds := EmitAdds(k, e, t.onlyE, db[k], places);
    var changes := EmitReview(k, e, t, diff.review, db[k], places);
    safe, review := safe0 + On(k, adds), review0 + On(k, changes);
    ExecConcat(db, safe0, On(k, adds), places);
    ExecOn(Exec(db, safe0, places), k, adds, places);
    ExecConcat(mid, review0, On(k, changes), places);
    ExecOn(Exec(mid, review0, places), k, changes, places);
  }
}
