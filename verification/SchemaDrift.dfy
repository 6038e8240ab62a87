/** Column drift: compare the entities with the database, patch, compare again. */
module SchemaDrift {
  import opened Outcomes
  import opened RenameMatching
  import opened RenameHeuristics

  type Key = string

  /** A declared column; `created` and `altered` are the normalised types the database reports after the emitted
      column definition and after the emitted `ALTER … TYPE`. */
  datatype Declared = Declared(col: Column, unique: bool, identity: bool, created: string, altered: string)

  type Intent = map<Name, Declared>
  type Entities = map<Key, Intent>
  type Database = map<Key, Columns>

  // ----- compare

  function Raw(e: Intent, d: Columns): set<Name> {
    set n | n in e && n !in d
  }

  function Extra(e: Intent, d: Columns): set<Name> {
    set n | n in d && n !in e
  }

  /** What rename detection answers for one table: entity column to database column, and whether a tier is ambiguous. */
  datatype Found = Found(renames: map<Name, Name>, review: bool)

  predicate TypeDiffers(e: Declared, c: Column) {
    e.col.comparable.Some? && e.col.comparable != c.comparable
  }

  predicate NullDiffers(e: Declared, c: Column) {
    e.col.nullable.Some? && c.nullable.Some? && e.col.nullable != c.nullable
  }

  datatype TableDiff = TableDiff(onlyE: set<Name>, onlyD: set<Name>, renames: map<Name, Name>, review: bool,
                                 types: set<Name>, nulls: set<Name>)

  /** Renamed columns leave the two lists, unless the table needs review. */
  function CompareTable(e: Intent, d: Columns, f: Found): TableDiff {
    TableDiff(
      if f.review then Raw(e, d) else Raw(e, d) - f.renames.Keys,
      if f.review then Extra(e, d) else Extra(e, d) - f.renames.Values,
      f.renames, f.review,
      set n | n in e && n in d && TypeDiffers(e[n], d[n]),
      set n | n in e && n in d && NullDiffers(e[n], d[n]))
  }

  predicate Listed(t: TableDiff) {
    t.onlyE != {} || t.onlyD != {} || t.renames != map[] || t.review || t.types != {} || t.nulls != {}
  }

  datatype Diff = Diff(newTables: set<Key>, review: bool, tables: map<Key, TableDiff>)

  type Answers = map<Key, Found>

  function Shared(es: Entities, db: Database): set<Key> {
    es.Keys * db.Keys
  }

  function Compare(es: Entities, db: Database, found: Answers): Diff
    requires Shared(es, db) <= found.Keys
  {
    Diff(es.Keys - db.Keys,
         exists k :: k in Shared(es, db) && found[k].review,
         map k | k in Shared(es, db) && Listed(CompareTable(es[k], db[k], found[k])) :: CompareTable(es[k], db[k], found[k]))
  }

  predicate CleanTable(t: TableDiff) {
    t.onlyE == {} && t.renames == map[] && t.types == {} && t.nulls == {}
  }

  /** Only database extras are left. */
  predicate IsDriftClean(diff: Diff) {
    diff.newTables == {} && forall k :: k in diff.tables ==> CleanTable(diff.tables[k])
  }

  /** What the entities ask of a database: every table, and in it every column, of a type and nullability that do not
      contradict the declared ones where both say something. */
  predicate Conforms(es: Entities, db: Database) {
    forall k :: k in es ==> k in db && TableConforms(es[k], db[k])
  }

  predicate TableConforms(e: Intent, d: Columns) {
    forall n :: n in e ==> n in d && ColumnConforms(e[n], d[n])
  }

  predicate ColumnConforms(e: Declared, c: Column) {
    (e.col.comparable == None || c.comparable == e.col.comparable)
    && (e.col.nullable == None || c.nullable == None || c.nullable == e.col.nullable)
  }

  // ----- patch

  /** NOT NULL is written when declared, or for a key or unique column that says nothing. */
  predicate WritesNotNull(e: Declared) {
    e.col.nullable == Some(false) || (e.col.nullable == None && (e.col.pk || e.unique))
  }

  /** A column as the database has it after ADD COLUMN. */
  function Added(e: Declared, place: int): Column {
    Column(Some(place), Some(!WritesNotNull(e) && !e.identity), e.col.pk, Some(e.created), false)
  }

  /** In CREATE TABLE the primary key is NOT NULL as well. */
  function Created(e: Declared, place: int): Column {
    Column(Some(place), Some(!WritesNotNull(e) && !e.identity && !e.col.pk), e.col.pk, Some(e.created), false)
  }

  /** The place the database gives a new column. */
  type Places = (Key, Name) -> int

  function RenameAll(cols: Columns, renames: map<Name, Name>): Columns
    requires renames.Values <= cols.Keys
  {
    map n | n in (cols.Keys - renames.Values) + renames.Keys :: if n in renames then cols[renames[n]] else cols[n]
  }

  function AddAll(k: Key, e: Intent, cols: Columns, names: set<Name>, places: Places): Columns {
    map n | n in cols.Keys + (names * e.Keys) :: if n in cols then cols[n] else Added(e[n], places(k, n))
  }

  /** `SET NOT NULL` when the entity says so, else `DROP NOT NULL`. */
  function Altered(e: Declared, c: Column, typ: bool, nul: bool): Column {
    c.(comparable := if typ then Some(e.altered) else c.comparable,
       nullable := if nul then Some(e.col.nullable != Some(false)) else c.nullable)
  }

  function AlterAll(e: Intent, cols: Columns, types: set<Name>, nulls: set<Name>): Columns {
    map n | n in cols :: if n in e then Altered(e[n], cols[n], n in types, n in nulls) else cols[n]
  }

  /** Additions; then, unless some table of the diff needs review, the renames; then types and nullability. */
  function PatchTable(k: Key, e: Intent, d: Columns, t: TableDiff, review: bool, places: Places): Columns
    requires t.renames.Values <= d.Keys
  {
    var added := AddAll(k, e, d, t.onlyE, places);
    var renamed := if t.review || review then added else RenameAll(added, t.renames);
    AlterAll(e, renamed, t.types, t.nulls)
  }

  function CreateTable(k: Key, e: Intent, places: Places): Columns {
    map n | n in e :: Created(e[n], places(k, n))
  }

  predicate Applicable(es: Entities, db: Database, diff: Diff) {
    diff.newTables <= es.Keys && diff.tables.Keys <= Shared(es, db)
    && forall k :: k in diff.tables ==> diff.tables[k].renames.Values <= db[k].Keys
  }

  function Patched(es: Entities, db: Database, diff: Diff, places: Places): Database
    requires Applicable(es, db, diff)
  {
    map k | k in db.Keys + diff.newTables ::
      if k !in db then CreateTable(k, es[k], places)
      else if k in diff.tables then PatchTable(k, es[k], db[k], diff.tables[k], diff.review, places)
      else db[k]
  }

  // ----- what rename detection answers

  function Pairs(e: Intent, d: Columns, rules: Rules, tier: nat): set<Candidate> {
    set x, y | x in Raw(e, d) && y in Extra(e, d) && Classify(e[x].col, d[y], rules) == Some(tier)
      :: Candidate(x, y, tier, e[x].col.pk && d[y].pk)
  }

  predicate Injection(m: map<Name, Name>) {
    forall x, y :: x in m && y in m && x != y ==> m[x] != m[y]
  }

  predicate RenameOk(e: Intent, d: Columns, rules: Rules, x: Name, y: Name) {
    x in Raw(e, d) && y in Extra(e, d) && Classify(e[x].col, d[y], rules).Some?
  }

  /** A one-to-one choice among the classified pairs that leaves no pair with both columns free; review is wanted
      exactly when a tier is ambiguous. */
  ghost predicate FoundOk(e: Intent, d: Columns, rules: Rules, f: Found) {
    Injection(f.renames)
    && (forall x :: x in f.renames ==> RenameOk(e, d, rules, x, f.renames[x]))
    && (forall x, y :: RenameOk(e, d, rules, x, y) ==> x in f.renames || y in f.renames.Values)
    && (f.review <==> exists t :: 0 <= t <= MaxTier && Ambiguous(Pairs(e, d, rules, t)))
  }

  ghost predicate AnswersOk(es: Entities, db: Database, rules: Rules, found: Answers) {
    Shared(es, db) <= found.Keys && forall k :: k in Shared(es, db) ==> FoundOk(es[k], db[k], rules, found[k])
  }

  // ----- convergence

  /** After `ALTER … TYPE` the column reads back as declared. */
  predicate Settles(e: Declared) {
    e.col.comparable.Some? ==> e.altered == e.col.comparable.value
  }

  predicate AllSettle(es: Entities) {
    forall k, n :: k in es && n in es[k] ==> Settles(es[k][n])
  }

  /** A new column reads back as declared at once: its type does, and it is no key or identity column declared nullable. */
  predicate FitsWhenNew(e: Declared) {
    (e.col.comparable.Some? ==> e.created == e.col.comparable.value)
    && (e.col.pk || e.identity ==> e.col.nullable != Some(true))
  }

  predicate Agrees(e: Declared, c: Column) {
    !TypeDiffers(e, c) && !NullDiffers(e, c)
  }

  lemma AddedAgrees(e: Declared, place: int)
    requires FitsWhenNew(e)
    ensures Agrees(e, Added(e, place)) && Agrees(e, Created(e, place))
  {
    TwoValues(e.col.nullable);
  }

  lemma TwoValues(b: Option<bool>)
    ensures b == None || b == Some(true) || b == Some(false)
  {
    if b.Some? && b.value { assert b == Some(true); }
  }

  lemma AlteredAgrees(e: Declared, c: Column)
    requires Settles(e)
    ensures Agrees(e, Altered(e, c, TypeDiffers(e, c), NullDiffers(e, c)))
  {
    TwoValues(e.col.nullable);
  }

  lemma CompareApplies(es: Entities, db: Database, rules: Rules, found: Answers)
    requires AnswersOk(es, db, rules, found)
    ensures Applicable(es, db, Compare(es, db, found))
  {
    forall k | k in Shared(es, db) ensures found[k].renames.Values <= db[k].Keys {
      assert FoundOk(es[k], db[k], rules, found[k]);
      forall y | y in found[k].renames.Values ensures y in db[k] {
        var x :| x in found[k].renames && found[k].renames[x] == y;
        assert RenameOk(es[k], db[k], rules, x, y);
      }
    }
  }

  /** One round: compare and patch. */
  function Round(es: Entities, db: Database, found: Answers, places: Places): Database
    requires Shared(es, db) <= found.Keys && Applicable(es, db, Compare(es, db, found))
  {
    Patched(es, db, Compare(es, db, found), places)
  }

  /** A table after a round: what the diff of this table, listed or not, does to it. */
  function RoundTable(k: Key, e: Intent, d: Columns, f: Found, review: bool, places: Places): Columns
    requires f.renames.Values <= d.Keys
  {
    PatchTable(k, e, d, CompareTable(e, d, f), review, places)
  }

  lemma UnlistedUnchanged(k: Key, e: Intent, d: Columns, f: Found, review: bool, places: Places)
    requires f.renames.Values <= d.Keys && !Listed(CompareTable(e, d, f))
    ensures RoundTable(k, e, d, f, review, places) == d
  {
    var t := CompareTable(e, d, f);
    var u := RoundTable(k, e, d, f, review, places);
    assert u.Keys == d.Keys;
    forall n | n in d ensures u[n] == d[n] { }
  }

  lemma RoundIs(es: Entities, db: Database, found: Answers, places: Places, k: Key)
    requires Shared(es, db) <= found.Keys && Applicable(es, db, Compare(es, db, found)) && k in es
    requires k in db ==> found[k].renames.Values <= db[k].Keys
    ensures k in Round(es, db, found, places)
    ensures Round(es, db, found, places)[k] ==
      if k in db then RoundTable(k, es[k], db[k], found[k], Compare(es, db, found).review, places)
      else CreateTable(k, es[k], places)
  {
    hide PatchTable, CompareTable, Listed;
    if k in db && !Listed(CompareTable(es[k], db[k], found[k])) {
      UnlistedUnchanged(k, es[k], db[k], found[k], Compare(es, db, found).review, places);
    }
  }

  // ----- one round, column by column

  /** A declared column the database already has agrees after one round, and keeps its name. */
  lemma CommonColumnAgrees(k: Key, e: Intent, d: Columns, rules: Rules, f: Found, review: bool, places: Places, n: Name)
    requires FoundOk(e, d, rules, f) && f.renames.Values <= d.Keys && n in e && n in d && Settles(e[n])
    ensures var u := RoundTable(k, e, d, f, review, places); n in u && Agrees(e[n], u[n])
  {
    assert forall x :: x in f.renames ==> RenameOk(e, d, rules, x, f.renames[x]);
    assert n !in f.renames.Values && n !in f.renames;
    AlteredAgrees(e[n], d[n]);
    hide Altered, Agrees, TypeDiffers, NullDiffers, Raw, Extra, FoundOk;
    CommonColumnIs(k, e, d, f, review, places, n);
  }

  lemma CommonColumnIs(k: Key, e: Intent, d: Columns, f: Found, review: bool, places: Places, n: Name)
    requires f.renames.Values <= d.Keys && n in e && n in d && n !in f.renames.Values && n !in f.renames
    ensures var u := RoundTable(k, e, d, f, review, places);
      n in u && u[n] == Altered(e[n], d[n], TypeDiffers(e[n], d[n]), NullDiffers(e[n], d[n]))
  {
    hide Altered, Raw, Extra;
  }

  /** A declared column that is missing is there after a round, added or renamed, unless renames were held back. */
  lemma MissingColumnComes(k: Key, e: Intent, d: Columns, rules: Rules, f: Found, review: bool, places: Places, n: Name)
    requires FoundOk(e, d, rules, f) && f.renames.Values <= d.Keys && n in e && n !in d
    ensures var u := RoundTable(k, e, d, f, review, places);
      (f.review || !review || n !in f.renames ==> n in u)
      && (n in u && (f.review || n !in f.renames) && FitsWhenNew(e[n]) ==> Agrees(e[n], u[n]))
  {
    if f.review || n !in f.renames {
      assert n in CompareTable(e, d, f).onlyE;
      MissingColumnIs(k, e, d, f, review, places, n);
      if FitsWhenNew(e[n]) { AddedAgrees(e[n], places(k, n)); }
    }
  }

  lemma MissingColumnIs(k: Key, e: Intent, d: Columns, f: Found, review: bool, places: Places, n: Name)
    requires f.renames.Values <= d.Keys && n in e && n !in d && (f.review || n !in f.renames)
    ensures var u := RoundTable(k, e, d, f, review, places); n in u && u[n] == Added(e[n], places(k, n))
  {
    hide Added, Extra;
    assert n in Raw(e, d);
    assert n !in f.renames.Values;
  }

  /** A round brings no new extra columns and does not change those that stay. */
  lemma ExtrasShrink(k: Key, e: Intent, d: Columns, rules: Rules, f: Found, review: bool, places: Places, n: Name)
    requires FoundOk(e, d, rules, f) && f.renames.Values <= d.Keys
    ensures var u := RoundTable(k, e, d, f, review, places); n in Extra(e, u) ==> n in d && n in Extra(e, d) && u[n] == d[n]
  {
    if n in f.renames { assert RenameOk(e, d, rules, n, f.renames[n]); }
    hide Added, Altered, FoundOk;
  }

  /** NOT NULL in the emitted definition: declared so, or nothing said of a key or unique column; an identity column is NOT
      NULL by itself. */
  predicate NewlyNotNull(e: Declared) {
    match e.col.nullable
    case Some(b) => !b || e.identity
    case None => e.col.pk || e.unique || e.identity
  }

  /** A table that was missing has, after the round, exactly the declared columns, each with the type its definition gives;
      the nullable ones are those that nothing makes NOT NULL. */
  lemma NewTableIs(es: Entities, db: Database, rules: Rules, found: Answers, places: Places, next: Database, k: Key, n: Name)
    requires IsRound(es, db, rules, found, places, next) && k in es && k !in db
    ensures k in next && next[k].Keys == es[k].Keys
    ensures n in es[k] ==> var e, c := es[k][n], next[k][n];
      c.comparable == Some(e.created) && c.pk == e.col.pk && c.ordinal == Some(places(k, n))
      && c.nullable == Some(!(NewlyNotNull(e) || e.col.pk))
  {
    RoundOf(es, db, rules, found, places, next, k);
    hide IsRound;
    if n in es[k] { TwoValues(es[k][n].col.nullable); }
  }

  /** So has a column that was missing and is no rename; there the key is not part of the definition. */
  lemma NewColumnIs(k: Key, e: Intent, d: Columns, f: Found, review: bool, places: Places, n: Name)
    requires f.renames.Values <= d.Keys && n in e && n !in d && (f.review || n !in f.renames)
    ensures var u := RoundTable(k, e, d, f, review, places); n in u && var c := u[n];
      c.comparable == Some(e[n].created) && c.pk == e[n].col.pk && c.ordinal == Some(places(k, n))
      && c.nullable == Some(!NewlyNotNull(e[n]))
  {
    MissingColumnIs(k, e, d, f, review, places, n);
    TwoValues(e[n].col.nullable);
    hide RoundTable;
  }

  // ----- rounds

  ghost predicate IsRound(es: Entities, db: Database, rules: Rules, found: Answers, places: Places, next: Database) {
    AnswersOk(es, db, rules, found) && Applicable(es, db, Compare(es, db, found)) && next == Round(es, db, found, places)
  }

  lemma RenamesInside(es: Entities, db: Database, rules: Rules, found: Answers, k: Key)
    requires AnswersOk(es, db, rules, found) && k in es && k in db
    ensures FoundOk(es[k], db[k], rules, found[k]) && found[k].renames.Values <= db[k].Keys
  {
    assert k in Shared(es, db);
    forall y | y in found[k].renames.Values ensures y in db[k] {
      var x :| x in found[k].renames && found[k].renames[x] == y;
      assert RenameOk(es[k], db[k], rules, x, y);
    }
  }

  /** What a round leaves of one table. */
  lemma RoundOf(es: Entities, db: Database, rules: Rules, found: Answers, places: Places, next: Database, k: Key)
    requires IsRound(es, db, rules, found, places, next) && k in es
    ensures k in next
    ensures k in db ==> k in found && FoundOk(es[k], db[k], rules, found[k]) && found[k].renames.Values <= db[k].Keys
    ensures k in db ==> next[k] == RoundTable(k, es[k], db[k], found[k], Compare(es, db, found).review, places)
    ensures k !in db ==> next[k] == CreateTable(k, es[k], places)
  {
    hide Compare, Patched, FoundOk, RoundTable, Applicable;
    if k in db { RenamesInside(es, db, rules, found, k); }
    RoundIs(es, db, found, places, k);
  }

  /** Fewer missing columns and fewer extras leave fewer pairs. */
  lemma PairsShrink(k: Key, e: Intent, d: Columns, rules: Rules, f: Found, review: bool, places: Places, tier: nat)
    requires FoundOk(e, d, rules, f) && f.renames.Values <= d.Keys
    ensures Pairs(e, RoundTable(k, e, d, f, review, places), rules, tier) <= Pairs(e, d, rules, tier)
  {
    var u := RoundTable(k, e, d, f, review, places);
    hide FoundOk, RoundTable, Classify;
    forall p | p in Pairs(e, u, rules, tier) ensures p in Pairs(e, d, rules, tier) {
      if p.e in d { MissingStays(k, e, d, rules, f, review, places, p.e); }
      ExtrasShrink(k, e, d, rules, f, review, places, p.d);
    }
  }

  lemma MissingStays(k: Key, e: Intent, d: Columns, rules: Rules, f: Found, review: bool, places: Places, n: Name)
    requires FoundOk(e, d, rules, f) && f.renames.Values <= d.Keys && n in e && n in d
    ensures n in RoundTable(k, e, d, f, review, places)
  {
    assert forall x :: x in f.renames ==> RenameOk(e, d, rules, x, f.renames[x]);
    hide Altered, Agrees, TypeDiffers, NullDiffers, FoundOk;
    CommonColumnIs(k, e, d, f, review, places, n);
  }

  lemma NothingMissingNothingAmbiguous(e: Intent, d: Columns, rules: Rules)
    requires Raw(e, d) == {}
    ensures forall t :: !Ambiguous(Pairs(e, d, rules, t))
  {
    assert forall n :: n !in Raw(e, d);
    assert forall t :: Pairs(e, d, rules, t) == {};
  }

  /** The first round resolves every ambiguous table: the second needs no review. */
  lemma SecondRoundUnambiguous(es: Entities, db: Database, rules: Rules, found: Answers, places: Places, next: Database, k: Key)
    requires IsRound(es, db, rules, found, places, next) && k in es
    ensures k in next && forall t :: 0 <= t <= MaxTier ==> !Ambiguous(Pairs(es[k], next[k], rules, t))
  {
    RoundOf(es, db, rules, found, places, next, k);
    var e, u := es[k], next[k];
    hide Compare, Patched, RoundTable, Applicable, IsRound;
    if k !in db {
      assert Raw(e, u) == {};
      NothingMissingNothingAmbiguous(e, u, rules);
    } else if found[k].review {
      forall n | n in e ensures n in u {
        if n in db[k] { MissingStays(k, e, db[k], rules, found[k], Compare(es, db, found).review, places, n); }
        else { MissingColumnComes(k, e, db[k], rules, found[k], Compare(es, db, found).review, places, n); }
      }
      assert Raw(e, u) == {};
      NothingMissingNothingAmbiguous(e, u, rules);
    } else {
      forall t | 0 <= t <= MaxTier ensures !Ambiguous(Pairs(e, u, rules, t)) {
        PairsShrink(k, e, db[k], rules, found[k], Compare(es, db, found).review, places, t);
        assert !Ambiguous(Pairs(e, db[k], rules, t));
      }
    }
  }

  /** Without review a round leaves no declared column missing. */
  lemma NoReviewNothingMissing(es: Entities, db: Database, rules: Rules, found: Answers, places: Places, next: Database, k: Key)
    requires IsRound(es, db, rules, found, places, next) && !Compare(es, db, found).review && k in es
    ensures k in next && Raw(es[k], next[k]) == {}
  {
    RoundOf(es, db, rules, found, places, next, k);
    hide Compare, Patched, RoundTable, Applicable, IsRound, FoundOk;
    forall n | n in es[k] ensures n in next[k] {
      if k in db && n in db[k] { MissingStays(k, es[k], db[k], rules, found[k], false, places, n); }
      else if k in db { MissingColumnComes(k, es[k], db[k], rules, found[k], false, places, n); }
    }
  }

  lemma NothingMissingAgrees(es: Entities, db: Database, rules: Rules, found: Answers, places: Places, next: Database, k: Key)
    requires IsRound(es, db, rules, found, places, next) && k in es && k in db && Raw(es[k], db[k]) == {}
    requires AllSettle(es)
    ensures k in next && forall n :: n in es[k] ==> n in next[k] && Agrees(es[k][n], next[k][n])
  {
    RoundOf(es, db, rules, found, places, next, k);
    assert forall n :: n in es[k] ==> n !in Raw(es[k], db[k]);
    hide Compare, Patched, RoundTable, Applicable, IsRound, FoundOk, Agrees;
    forall n | n in es[k] ensures n in next[k] && Agrees(es[k][n], next[k][n]) {
      CommonColumnAgrees(k, es[k], db[k], rules, found[k], Compare(es, db, found).review, places, n);
    }
  }

  lemma AgreeingIsClean(es: Entities, db: Database, rules: Rules, found: Answers)
    requires AnswersOk(es, db, rules, found)
    requires forall k :: k in es ==> k in db && forall n :: n in es[k] ==> n in db[k] && Agrees(es[k][n], db[k][n])
    ensures IsDriftClean(Compare(es, db, found))
  {
    forall k | k in es ensures CleanTable(CompareTable(es[k], db[k], found[k])) {
      RenamesInside(es, db, rules, found, k);
      AgreeingTableClean(es[k], db[k], rules, found[k]);
    }
    hide CompareTable, CleanTable, FoundOk, Agrees, Listed;
  }

  /** The check is clean exactly when the database conforms, whichever renames are found. */
  lemma CleanExactly(es: Entities, db: Database, rules: Rules, found: Answers)
    requires AnswersOk(es, db, rules, found)
    ensures IsDriftClean(Compare(es, db, found)) <==> Conforms(es, db)
  {
    hide FoundOk, CompareTable, TableConforms, Listed, CleanTable;
    forall k | k in es && k in db ensures TableConforms(es[k], db[k]) <==> CleanTable(CompareTable(es[k], db[k], found[k])) {
      RenamesInside(es, db, rules, found, k);
      TableCleanExactly(es[k], db[k], rules, found[k]);
    }
    forall t: TableDiff ensures !Listed(t) ==> CleanTable(t) { UnlistedIsClean(t); }
    var diff := Compare(es, db, found);
    if IsDriftClean(Compare(es, db, found)) {
      forall k | k in es ensures k in db && TableConforms(es[k], db[k]) {
        assert k in es.Keys - db.Keys ==> k in diff.newTables;
        if k in db && Listed(CompareTable(es[k], db[k], found[k])) { assert k in Compare(es, db, found).tables; }
      }
    }
  }

  lemma UnlistedIsClean(t: TableDiff)
    ensures !Listed(t) ==> CleanTable(t)
  {
  }

  lemma TableCleanExactly(e: Intent, d: Columns, rules: Rules, f: Found)
    requires FoundOk(e, d, rules, f)
    ensures TableConforms(e, d) <==> CleanTable(CompareTable(e, d, f))
  {
    var t := CompareTable(e, d, f);
    RenamesAreRaw(e, d, rules, f);
    hide FoundOk;
    if TableConforms(e, d) {
      assert Raw(e, d) == {};
      assert f.renames.Keys == {};
      assert f.renames == map[];
    }
    if CleanTable(t) {
      assert f.renames.Keys == {};
      forall n | n in e ensures n in d && ColumnConforms(e[n], d[n]) {
        assert n !in d ==> n in Raw(e, d);
        assert n !in d ==> n in t.onlyE;
        assert n !in t.types && n !in t.nulls;
      }
    }
  }

  lemma AgreeingTableClean(e: Intent, d: Columns, rules: Rules, f: Found)
    requires FoundOk(e, d, rules, f) && forall n :: n in e ==> n in d && Agrees(e[n], d[n])
    ensures CleanTable(CompareTable(e, d, f))
  {
    RenamesAreRaw(e, d, rules, f);
    assert Raw(e, d) == {};
    hide FoundOk;
    assert f.renames.Keys == {};
    assert f.renames == map[];
  }

  lemma RenamesAreRaw(e: Intent, d: Columns, rules: Rules, f: Found)
    requires FoundOk(e, d, rules, f)
    ensures f.renames.Keys <= Raw(e, d)
  {
    assert forall x :: x in f.renames ==> RenameOk(e, d, rules, x, f.renames[x]);
  }

  /** Column drift converges: whatever the database starts as, and whichever pairs rename detection picks, three rounds
      of compare, patch and apply leave nothing but database extras. */
  lemma DriftConverges(es: Entities, rules: Rules, db0: Database, db1: Database, db2: Database, db3: Database,
                       f0: Answers, f1: Answers, f2: Answers, f3: Answers, p0: Places, p1: Places, p2: Places)
    requires AllSettle(es)
    requires IsRound(es, db0, rules, f0, p0, db1) && IsRound(es, db1, rules, f1, p1, db2) && IsRound(es, db2, rules, f2, p2, db3)
    requires AnswersOk(es, db3, rules, f3)
    ensures IsDriftClean(Compare(es, db3, f3)) && Conforms(es, db3)
  {
    CleanExactly(es, db3, rules, f3);
    hide IsRound, Compare, AllSettle, IsDriftClean, Complete, AnswersOk, Conforms;
    SecondComplete(es, rules, db0, db1, db2, f0, f1, p0, p1);
    CompleteThenClean(es, rules, db2, f2, p2, db3, f3);
  }

  lemma UnambiguousNoReview(es: Entities, db: Database, rules: Rules, found: Answers, places: Places, next: Database)
    requires IsRound(es, db, rules, found, places, next)
    requires forall k :: k in es && k in db ==> forall t :: 0 <= t <= MaxTier ==> !Ambiguous(Pairs(es[k], db[k], rules, t))
    ensures !Compare(es, db, found).review
  {
    forall k | k in Shared(es, db) ensures !found[k].review {
      assert FoundOk(es[k], db[k], rules, found[k]);
    }
  }

  // ----- runs of any length

  ghost predicate OneRound(es: Entities, rules: Rules, db: Database, next: Database) {
    exists found, places :: IsRound(es, db, rules, found, places, next)
  }

  /** `last` is what `n` rounds can leave of `db`: in each any admissible renames, and any places for the new columns. */
  ghost predicate Reaches(es: Entities, rules: Rules, db: Database, n: nat, last: Database) {
    if n == 0 then last == db
    else exists mid :: Reaches(es, rules, db, n - 1, mid) && OneRound(es, rules, mid, last)
  }

  /** No declared column is missing. */
  ghost predicate Complete(es: Entities, db: Database) {
    forall k :: k in es ==> k in db && Raw(es[k], db[k]) == {}
  }

  lemma CompleteStays(es: Entities, db: Database, rules: Rules, found: Answers, places: Places, next: Database)
    requires IsRound(es, db, rules, found, places, next) && Complete(es, db)
    ensures Complete(es, next)
  {
    hide IsRound, FoundOk, Compare, Pairs, Ambiguous, Raw;
    forall k | k in es ensures k in db && forall t :: 0 <= t <= MaxTier ==> !Ambiguous(Pairs(es[k], db[k], rules, t)) {
      NothingMissingNothingAmbiguous(es[k], db[k], rules);
    }
    UnambiguousNoReview(es, db, rules, found, places, next);
    forall k | k in es ensures k in next && Raw(es[k], next[k]) == {} {
      NoReviewNothingMissing(es, db, rules, found, places, next, k);
    }
  }

  /** Two rounds bring every declared column. */
  lemma SecondComplete(es: Entities, rules: Rules, db0: Database, db1: Database, db2: Database, f0: Answers, f1: Answers,
                       p0: Places, p1: Places)
    requires IsRound(es, db0, rules, f0, p0, db1) && IsRound(es, db1, rules, f1, p1, db2)
    ensures Complete(es, db2)
  {
    hide IsRound, FoundOk, Round, Compare, Raw, Pairs, Ambiguous;
    forall k | k in es ensures k in db1 && forall t :: 0 <= t <= MaxTier ==> !Ambiguous(Pairs(es[k], db1[k], rules, t)) {
      SecondRoundUnambiguous(es, db0, rules, f0, p0, db1, k);
    }
    UnambiguousNoReview(es, db1, rules, f1, p1, db2);
    forall k | k in es ensures k in db2 && Raw(es[k], db2[k]) == {} { NoReviewNothingMissing(es, db1, rules, f1, p1, db2, k); }
  }

  lemma {:induction false} ReachesComplete(es: Entities, rules: Rules, db: Database, n: nat, last: Database)
    requires Reaches(es, rules, db, n, last) && n >= 2
    ensures Complete(es, last)
  {
    var mid :| Reaches(es, rules, db, n - 1, mid) && OneRound(es, rules, mid, last);
    hide Complete, IsRound;
    var f1, p1 :| IsRound(es, mid, rules, f1, p1, last);
    if n == 2 {
      var first :| Reaches(es, rules, db, 0, first) && OneRound(es, rules, first, mid);
      var f0, p0 :| IsRound(es, first, rules, f0, p0, mid);
      SecondComplete(es, rules, first, mid, last, f0, f1, p0, p1);
    } else {
      ReachesComplete(es, rules, db, n - 1, mid);
      CompleteStays(es, mid, rules, f1, p1, last);
    }
  }

  lemma CompleteThenClean(es: Entities, rules: Rules, db: Database, found: Answers, places: Places, next: Database, later: Answers)
    requires AllSettle(es) && Complete(es, db) && IsRound(es, db, rules, found, places, next) && AnswersOk(es, next, rules, later)
    ensures IsDriftClean(Compare(es, next, later))
  {
    hide IsRound, FoundOk, Round, Compare, AllSettle, Agrees, Raw, IsDriftClean, AnswersOk;
    forall k | k in es ensures k in next && forall n :: n in es[k] ==> n in next[k] && Agrees(es[k][n], next[k][n]) {
      NothingMissingAgrees(es, db, rules, found, places, next, k);
    }
    AgreeingIsClean(es, next, rules, later);
  }

  /** Once clean, the check stays clean: after three rounds or more nothing but database extras is left. */
  lemma ReachesClean(es: Entities, rules: Rules, db: Database, n: nat, last: Database, later: Answers)
    requires AllSettle(es) && Reaches(es, rules, db, n, last) && n >= 3 && AnswersOk(es, last, rules, later)
    ensures IsDriftClean(Compare(es, last, later))
  {
    var mid :| Reaches(es, rules, db, n - 1, mid) && OneRound(es, rules, mid, last);
    ReachesComplete(es, rules, db, n - 1, mid);
    hide IsRound, Compare, AllSettle, IsDriftClean, Complete, AnswersOk, Reaches;
    var found, places :| IsRound(es, mid, rules, found, places, last);
    CompleteThenClean(es, rules, mid, found, places, last, later);
  }

  // ----- the proviso is needed

  /** Every declared column is there, with the type and the nullability its own `ALTER` statements leave. */
  function AllThere(es: Entities): Database {
    map k | k in es :: map n | n in es[k] ::
      Column(Some(0), Some(es[k][n].col.nullable != Some(false)), es[k][n].col.pk, Some(es[k][n].altered), false)
  }

  function NoRenames(es: Entities): Answers {
    map k | k in es :: Found(map[], false)
  }

  lemma CompleteAnswers(es: Entities, db: Database, rules: Rules)
    requires Complete(es, db)
    ensures AnswersOk(es, db, rules, NoRenames(es))
  {
    forall k | k in Shared(es, db) ensures FoundOk(es[k], db[k], rules, NoRenames(es)[k]) {
      NothingMissingNothingAmbiguous(es[k], db[k], rules);
      assert forall x, y :: !RenameOk(es[k], db[k], rules, x, y);
    }
  }

  ghost predicate StillOther(es: Entities, db: Database, k: Key, n: Name) {
    k in es && n in es[k] && k in db && n in db[k] && TypeDiffers(es[k][n], db[k][n])
  }

  lemma StillOtherStays(es: Entities, db: Database, rules: Rules, found: Answers, places: Places, next: Database, k: Key, n: Name)
    requires IsRound(es, db, rules, found, places, next) && AnswersOk(es, next, rules, found)
    requires StillOther(es, db, k, n) && !Settles(es[k][n])
    ensures StillOther(es, next, k, n)
  {
    hide IsRound, AnswersOk;
    OtherTypeNeverSettles(es, rules, db, found, places, next, found, k, n);
  }

  lemma StuckRound(es: Entities, rules: Rules, db: Database, places: Places, k: Key, n: Name) returns (next: Database)
    requires Complete(es, db) && StillOther(es, db, k, n) && !Settles(es[k][n])
    ensures IsRound(es, db, rules, NoRenames(es), places, next) && Complete(es, next) && StillOther(es, next, k, n)
  {
    var found := NoRenames(es);
    CompleteAnswers(es, db, rules);
    CompareApplies(es, db, rules, found);
    next := Round(es, db, found, places);
    assert IsRound(es, db, rules, found, places, next);
    hide IsRound, AnswersOk, Complete, Round, Compare, NoRenames, Settles, StillOther;
    CompleteStays(es, db, rules, found, places, next);
    CompleteAnswers(es, next, rules);
    StillOtherStays(es, db, rules, found, places, next, k, n);
  }

  /** From this database any number of rounds may pass without getting the column right. */
  lemma {:induction false} StuckAfter(es: Entities, rules: Rules, k: Key, c: Name, n: nat) returns (last: Database)
    requires k in es && c in es[k] && !Settles(es[k][c])
    ensures Reaches(es, rules, AllThere(es), n, last) && Complete(es, last) && StillOther(es, last, k, c)
  {
    hide *;
    if n == 0 {
      last := AllThere(es);
      StuckStart(es, rules, k, c);
    } else {
      var mid := StuckAfter(es, rules, k, c, n - 1);
      last := StuckRound(es, rules, mid, (_, _) => 0, k, c);
      OneMoreRound(es, rules, AllThere(es), n - 1, mid, NoRenames(es), (_, _) => 0, last);
    }
  }

  lemma StuckStart(es: Entities, rules: Rules, k: Key, c: Name)
    requires k in es && c in es[k] && !Settles(es[k][c])
    ensures Reaches(es, rules, AllThere(es), 0, AllThere(es)) && Complete(es, AllThere(es)) && StillOther(es, AllThere(es), k, c)
  {
  }

  lemma {:induction false} OneMoreRound(es: Entities, rules: Rules, db: Database, n: nat, mid: Database, found: Answers, places: Places,
                                        last: Database)
    requires Reaches(es, rules, db, n, mid) && IsRound(es, mid, rules, found, places, last)
    ensures Reaches(es, rules, db, n + 1, last)
  {
    assert OneRound(es, rules, mid, last);
    hide IsRound;
  }

  /** Whatever the database, three rounds or more, with any admissible renames, end clean if and only if every declared column
      reads back as declared after `ALTER … TYPE`. */
  lemma ConvergesExactly(es: Entities, rules: Rules)
    ensures AllSettle(es) <==>
      forall db, n, last, later :: n >= 3 && Reaches(es, rules, db, n, last) && AnswersOk(es, last, rules, later)
        ==> IsDriftClean(Compare(es, last, later)) && Conforms(es, last)
  {
    if AllSettle(es) {
      forall db, n, last, later | n >= 3 && Reaches(es, rules, db, n, last) && AnswersOk(es, last, rules, later)
        ensures IsDriftClean(Compare(es, last, later)) && Conforms(es, last)
      {
        ReachesClean(es, rules, db, n, last, later);
        CleanExactly(es, last, rules, later);
      }
    } else {
      var k, c :| k in es && c in es[k] && !Settles(es[k][c]);
      var last := StuckAfter(es, rules, k, c, 3);
      CompleteAnswers(es, last, rules);
      hide Reaches, Complete, Settles, AllThere;
      DirtyType(es, last, NoRenames(es), k, c);
    }
  }

  // ----- the bound is needed

  /** A column whose emitted type reads back as something else stays a mismatch through every round, and so does the
      drift. */
  lemma OtherTypeNeverSettles(es: Entities, rules: Rules, db: Database, found: Answers, places: Places, next: Database,
                              later: Answers, k: Key, n: Name)
    requires IsRound(es, db, rules, found, places, next) && AnswersOk(es, next, rules, later)
    requires k in es && n in es[k] && es[k][n].col.comparable.Some?
    requires es[k][n].altered != es[k][n].col.comparable.value
    requires k in db && n in db[k] && TypeDiffers(es[k][n], db[k][n])
    ensures k in next && n in next[k] && TypeDiffers(es[k][n], next[k][n])
    ensures !IsDriftClean(Compare(es, next, later))
  {
    RoundOf(es, db, rules, found, places, next, k);
    var f := found[k];
    assert forall x :: x in f.renames ==> RenameOk(es[k], db[k], rules, x, f.renames[x]);
    hide FoundOk, Applicable, Patched, IsRound;
    CommonColumnIs(k, es[k], db[k], f, Compare(es, db, found).review, places, n);
    DirtyType(es, next, later, k, n);
  }

  lemma DirtyType(es: Entities, db: Database, found: Answers, k: Key, n: Name)
    requires Shared(es, db) <= found.Keys && k in es && k in db && n in es[k] && n in db[k]
    requires TypeDiffers(es[k][n], db[k][n]) || NullDiffers(es[k][n], db[k][n])
    ensures !IsDriftClean(Compare(es, db, found))
  {
    var t := CompareTable(es[k], db[k], found[k]);
    assert n in t.types || n in t.nulls;
    assert k in Compare(es, db, found).tables && Compare(es, db, found).tables[k] == t;
  }

  const Int4 := Some("int4")

  function Int4Column(place: int, nullable: bool): Column {
    Column(Some(place), Some(nullable), false, Int4, false)
  }

  function Int4Declared(place: int): Declared {
    Declared(Int4Column(place, false), false, false, "int4", "int4")
  }

  /** Table `a` misses one column and has two extras next to its place; table `b` has its one column under an old name
      and nullable. */
  const SlowEntities: Entities := map["a" := map["n" := Int4Declared(2)], "b" := map["e" := Int4Declared(1)]]
  const SlowDatabase: Database :=
    map["a" := map["u" := Int4Column(1, false), "v" := Int4Column(3, false)], "b" := map["d" := Int4Column(1, true)]]

  lemma SlowPairs(rules: Rules)
    requires rules.compatible(Int4Column(1, false), Int4Column(1, true))
    requires forall a, b :: rules.compatible(Int4Column(2, false), Int4Column(a, b))
    ensures Ambiguous(Pairs(SlowEntities["a"], SlowDatabase["a"], rules, 1))
    ensures RenameOk(SlowEntities["b"], SlowDatabase["b"], rules, "e", "d")
  {
    var e, d := SlowEntities["a"], SlowDatabase["a"];
    assert "n" in Raw(e, d) && "u" in Extra(e, d) && "v" in Extra(e, d);
    assert Classify(e["n"].col, d["u"], rules) == Some(1) && Classify(e["n"].col, d["v"], rules) == Some(1);
    var p, q := Candidate("n", "u", 1, false), Candidate("n", "v", 1, false);
    assert p in Pairs(e, d, rules, 1) && q in Pairs(e, d, rules, 1);
    assert p.d[0] != q.d[0];
    assert Shares(p, q);
  }

  /** Two rounds do not suffice: the ambiguous table holds the rename back in the first, and the second renames a column
      whose nullability then differs. */
  lemma TwoRoundsAreNotEnough(rules: Rules, db1: Database, db2: Database, f0: Answers, f1: Answers, f2: Answers, p0: Places, p1: Places)
    requires rules.compatible(Int4Column(1, false), Int4Column(1, true))
    requires forall a, b :: rules.compatible(Int4Column(2, false), Int4Column(a, b))
    requires IsRound(SlowEntities, SlowDatabase, rules, f0, p0, db1) && IsRound(SlowEntities, db1, rules, f1, p1, db2)
    requires AnswersOk(SlowEntities, db2, rules, f2)
    ensures !IsDriftClean(Compare(SlowEntities, db2, f2))
  {
    SlowPairs(rules);
    SlowFirst(rules, db1, f0, p0);
    SlowSecond(rules, db1, db2, f0, p0, f1, p1);
    hide IsRound, RoundTable, FoundOk, Pairs, Compare, IsDriftClean, Classify, RenameOk;
    SlowDirty(rules, db2, f2);
  }

  lemma SlowDirty(rules: Rules, db2: Database, f2: Answers)
    requires AnswersOk(SlowEntities, db2, rules, f2) && "b" in db2 && db2["b"] == map["e" := Int4Column(1, true)]
    ensures !IsDriftClean(Compare(SlowEntities, db2, f2))
  {
    hide FoundOk, Compare, IsDriftClean;
    assert "b" in SlowEntities && "e" in SlowEntities["b"];
    DirtyType(SlowEntities, db2, f2, "b", "e");
  }

  lemma SlowRename(rules: Rules, f: Found)
    requires RenameOk(SlowEntities["b"], SlowDatabase["b"], rules, "e", "d")
    requires FoundOk(SlowEntities["b"], SlowDatabase["b"], rules, f)
    ensures f.renames == map["e" := "d"] && !f.review
  {
    var e, d := SlowEntities["b"], SlowDatabase["b"];
    assert forall x :: x in f.renames ==> RenameOk(e, d, rules, x, f.renames[x]);
    assert forall x, y :: RenameOk(e, d, rules, x, y) ==> x == "e" && y == "d";
    assert f.renames.Keys == {"e"};
    assert f.renames == map["e" := "d"];
    forall t ensures !Ambiguous(Pairs(e, d, rules, t)) {
      assert forall p :: p in Pairs(e, d, rules, t) ==> p == Candidate("e", "d", t, false);
    }
  }

  lemma SlowFirst(rules: Rules, db1: Database, f0: Answers, p0: Places)
    requires Ambiguous(Pairs(SlowEntities["a"], SlowDatabase["a"], rules, 1))
    requires RenameOk(SlowEntities["b"], SlowDatabase["b"], rules, "e", "d")
    requires IsRound(SlowEntities, SlowDatabase, rules, f0, p0, db1)
    ensures "b" in db1 && db1["b"] == SlowDatabase["b"]
  {
    RoundOf(SlowEntities, SlowDatabase, rules, f0, p0, db1, "a");
    RoundOf(SlowEntities, SlowDatabase, rules, f0, p0, db1, "b");
    assert "a" in Shared(SlowEntities, SlowDatabase) && f0["a"].review;
    assert Compare(SlowEntities, SlowDatabase, f0).review;
    SlowRename(rules, f0["b"]);
    hide FoundOk, IsRound, Compare, Pairs, RoundTable;
    SlowTable(p0);
  }

  /** Table `b` in a round: nothing while renames are held back, then the rename and no more. */
  lemma SlowTable(places: Places)
    ensures var e, d, f := SlowEntities["b"], SlowDatabase["b"], Found(map["e" := "d"], false);
      RoundTable("b", e, d, f, true, places) == d
      && RoundTable("b", e, d, f, false, places) == map["e" := Int4Column(1, true)]
  {
    var e, d, f := SlowEntities["b"], SlowDatabase["b"], Found(map["e" := "d"], false);
    assert Raw(e, d) == {"e"};
    assert f.renames.Keys == {"e"} && f.renames.Values == {"d"};
    assert CompareTable(e, d, f).onlyE == {};
    assert AddAll("b", e, d, {}, places) == d;
    assert RenameAll(d, f.renames) == map["e" := Int4Column(1, true)];
    var t := CompareTable(e, d, f);
    assert t.types == {} && t.nulls == {};
    assert AlterAll(e, d, {}, {}) == d;
    var r := map["e" := Int4Column(1, true)];
    assert AlterAll(e, r, {}, {}) == r;
  }

  lemma SlowSecond(rules: Rules, db1: Database, db2: Database, f0: Answers, p0: Places, f1: Answers, p1: Places)
    requires RenameOk(SlowEntities["b"], SlowDatabase["b"], rules, "e", "d")
    requires IsRound(SlowEntities, SlowDatabase, rules, f0, p0, db1) && IsRound(SlowEntities, db1, rules, f1, p1, db2)
    requires "b" in db1 && db1["b"] == SlowDatabase["b"]
    ensures "b" in db2 && db2["b"] == map["e" := Int4Column(1, true)]
  {
    hide IsRound, FoundOk, Compare, Pairs, RoundTable, Ambiguous;
    forall k | k in SlowEntities
      ensures k in db1 && forall t :: 0 <= t <= MaxTier ==> !Ambiguous(Pairs(SlowEntities[k], db1[k], rules, t))
    {
      SecondRoundUnambiguous(SlowEntities, SlowDatabase, rules, f0, p0, db1, k);
    }
    UnambiguousNoReview(SlowEntities, db1, rules, f1, p1, db2);
    assert "b" in SlowEntities;
    RoundOf(SlowEntities, db1, rules, f1, p1, db2, "b");
    SlowRename(rules, f1["b"]);
    assert f1["b"] == Found(map["e" := "d"], false);
    SlowTable(p1);
  }
}
