/** The comparison of two snapshots, and whole rounds of compare, patch and apply. */
module SchemaCompare {
  import opened Outcomes
  import opened RenameMatching
  import opened RenameHeuristics
  import opened SchemaDrift
  import opened SchemaPatch

  method ListOf(s: set<Name>) returns (l: seq<Name>)
    ensures forall n :: n in l <==> n in s
  {
    l := [];
    var todo := s;
    while todo != {}
      invariant todo <= s && forall n :: n in l <==> n in s && n !in todo
      decreases |todo|
    {
      var n :| n in todo;
      l, todo := l + [n], todo - {n};
    }
  }

  function Cols(e: Intent): Columns {
    map n | n in e :: e[n].col
  }

  lemma ProductIsPairs(e: Intent, d: Columns, eOnly: seq<Name>, dOnly: seq<Name>, rules: Rules, t: nat)
    requires forall n :: n in eOnly <==> n in Raw(e, d)
    requires forall n :: n in dOnly <==> n in Extra(e, d)
    ensures Known(eOnly, Cols(e)) && Known(dOnly, d)
    ensures Product(Cols(e), d, eOnly, dOnly, rules, t) == Pairs(e, d, rules, t)
  {
    hide Classify;
  }

  lemma {:induction false} FlattenHolds(b: Buckets, p: Candidate)
    ensures p in Flatten(b) <==> exists t :: 0 <= t < |b| && p in b[t]
  {
    if b != [] {
      var n := |b| - 1;
      FlattenHolds(b[..n], p);
      if p in b[n] { assert p in Flatten(b); }
      if exists t :: 0 <= t < n && p in b[..n][t] {
        var t :| 0 <= t < n && p in b[..n][t];
        assert p in b[t];
      }
      if exists t :: 0 <= t < n && p in b[t] {
        var t :| 0 <= t < n && p in b[t];
        assert p in b[..n][t];
      }
    }
  }

  /** The pairs the search goes through are the pairs the rules classify. */
  lemma CandidatesAre(e: Intent, d: Columns, rules: Rules, lists: Buckets, p: Candidate)
    requires |lists| == MaxTier + 1 && forall t :: 0 <= t <= MaxTier ==> Elements(lists[t]) == Pairs(e, d, rules, t)
    ensures p in Flatten(lists) ==> RenameOk(e, d, rules, p.e, p.d)
  {
    FlattenHolds(lists, p);
    if p in Flatten(lists) {
      var t :| 0 <= t < |lists| && p in lists[t];
      assert p in Elements(lists[t]);
    }
  }

  lemma ClassifiedIsCandidate(e: Intent, d: Columns, rules: Rules, lists: Buckets, x: Name, y: Name) returns (p: Candidate)
    requires |lists| == MaxTier + 1 && forall t :: 0 <= t <= MaxTier ==> Elements(lists[t]) == Pairs(e, d, rules, t)
    requires RenameOk(e, d, rules, x, y)
    ensures p in Flatten(lists) && p.e == x && p.d == y
  {
    var t := Classify(e[x].col, d[y], rules).value;
    p := Candidate(x, y, t, e[x].col.pk && d[y].pk);
    assert p in Pairs(e, d, rules, t);
    assert p in Elements(lists[t]);
    FlattenHolds(lists, p);
  }

  function RenameMap(chosen: set<Candidate>): (m: map<Name, Name>)
    requires OneToOne(chosen)
    ensures forall x :: x in m <==> exists p :: p in chosen && p.e == x
    ensures forall p :: p in chosen ==> p.e in m && m[p.e] == p.d
  {
    assert forall p, q :: p in chosen && q in chosen && p.e == q.e ==> Shares(p, q);
    map p | p in chosen :: p.e := p.d
  }

  lemma GreedyIsFound(e: Intent, d: Columns, rules: Rules, lists: Buckets, review: bool)
    requires |lists| == MaxTier + 1 && forall t :: 0 <= t <= MaxTier ==> Elements(lists[t]) == Pairs(e, d, rules, t)
    requires review <==> exists t :: 0 <= t <= MaxTier && Ambiguous(Pairs(e, d, rules, t))
    ensures OneToOne(Greedy(Flatten(lists)))
    ensures FoundOk(e, d, rules, Found(RenameMap(Greedy(Flatten(lists))), review))
  {
    var list := Flatten(lists);
    var chosen := Greedy(list);
    GreedyDraws(list);
    GreedyJustified(list);
    var m := RenameMap(chosen);
    forall x | x in m ensures RenameOk(e, d, rules, x, m[x]) {
      var p :| p in chosen && p.e == x;
      CandidatesAre(e, d, rules, lists, p);
    }
    MapInjective(chosen);
    hide Greedy, Flatten, RenameOk, Pairs;
    forall x, y | RenameOk(e, d, rules, x, y) ensures x in m || y in m.Values {
      var p := ClassifiedIsCandidate(e, d, rules, lists, x, y);
      ChosenOrLost(list, chosen, p);
    }
  }

  lemma MapInjective(chosen: set<Candidate>)
    requires OneToOne(chosen)
    ensures Injection(RenameMap(chosen))
  {
    var m := RenameMap(chosen);
    forall x, y | x in m && y in m && x != y ensures m[x] != m[y] {
      var p :| p in chosen && p.e == x;
      var q :| q in chosen && q.e == y;
      assert !Shares(p, q);
    }
  }

  lemma ChosenOrLost(list: seq<Candidate>, chosen: set<Candidate>, p: Candidate)
    requires OneToOne(chosen) && Justified(list, chosen) && p in list
    ensures p.e in RenameMap(chosen) || p.d in RenameMap(chosen).Values
  {
    var i :| 0 <= i < |list| && list[i] == p;
    if p !in chosen {
      assert LosesToEarlier(list, chosen, i);
      var j :| 0 <= j < i && list[j] in chosen && Shares(p, list[j]);
      var q := list[j];
      assert RenameMap(chosen)[q.e] == q.d;
    } else {
      assert RenameMap(chosen)[p.e] == p.d;
    }
  }

  /** Rename detection for one table. */
  method FindForTable(e: Intent, d: Columns, rules: Rules) returns (f: Found)
    requires Injective(rules.rank)
    ensures FoundOk(e, d, rules, f)
  {
    var eOnly := ListOf(Raw(e, d));
    var dOnly := ListOf(Extra(e, d));
    ProductIsPairs(e, d, eOnly, dOnly, rules, 0);
    var r, lists := FindLikelyRenames(Cols(e), d, eOnly, dOnly, rules);
    forall t | 0 <= t <= MaxTier ensures Product(Cols(e), d, eOnly, dOnly, rules, t) == Pairs(e, d, rules, t) {
      ProductIsPairs(e, d, eOnly, dOnly, rules, t);
    }
    GreedyIsFound(e, d, rules, lists, r.review);
    f := Found(RenameMap(Elements(r.pairs)), r.review);
  }

  method CompareColumns(e: Intent, d: Columns) returns (types: set<Name>, nulls: set<Name>)
    ensures types == set n | n in e && n in d && TypeDiffers(e[n], d[n])
    ensures nulls == set n | n in e && n in d && NullDiffers(e[n], d[n])
  {
    types, nulls := {}, {};
    var todo := e.Keys * d.Keys;
    while todo != {}
      invariant todo <= e.Keys * d.Keys
      invariant types == set n | n in e && n in d && n !in todo && TypeDiffers(e[n], d[n])
      invariant nulls == set n | n in e && n in d && n !in todo && NullDiffers(e[n], d[n])
      decreases |todo|
    {
      var n :| n in todo;
      if TypeDiffers(e[n], d[n]) { types := types + {n}; }
      if NullDiffers(e[n], d[n]) { nulls := nulls + {n}; }
      todo := todo - {n};
    }
  }

  function CompareUpTo(es: Entities, db: Database, found: Answers, done: set<Key>): map<Key, TableDiff>
    requires done <= found.Keys && done <= es.Keys && done <= db.Keys
  {
    map k | k in done && Listed(CompareTable(es[k], db[k], found[k])) :: CompareTable(es[k], db[k], found[k])
  }

  method CompareOne(e: Intent, d: Columns, rules: Rules) returns (t: TableDiff, f: Found)
    requires Injective(rules.rank)
    ensures FoundOk(e, d, rules, f) && t == CompareTable(e, d, f)
  {
    f := FindForTable(e, d, rules);
    var types, nulls := CompareColumns(e, d);
    hide FoundOk, TypeDiffers, NullDiffers;
    t := TableDiff(if f.review then Raw(e, d) else Raw(e, d) - f.renames.Keys,
                   if f.review then Extra(e, d) else Extra(e, d) - f.renames.Values,
                   f.renames, f.review, types, nulls);
  }

  ghost predicate FoundUpTo(es: Entities, db: Database, rules: Rules, found: Answers, done: set<Key>) {
    found.Keys == done <= Shared(es, db) && forall k :: k in done ==> FoundOk(es[k], db[k], rules, found[k])
  }

  lemma OneMoreTable(es: Entities, db: Database, rules: Rules, found: Answers, done: set<Key>, k: Key, f: Found)
    requires FoundUpTo(es, db, rules, found, done) && k in Shared(es, db) && k !in done && FoundOk(es[k], db[k], rules, f)
    ensures FoundUpTo(es, db, rules, found[k := f], done + {k})
    ensures var t, was := CompareTable(es[k], db[k], f), CompareUpTo(es, db, found, done);
      CompareUpTo(es, db, found[k := f], done + {k}) == if Listed(t) then was[k := t] else was
    ensures Reviewed(found[k := f], done + {k}) <==> Reviewed(found, done) || f.review
  {
    hide FoundOk, CompareTable, Listed, Reviewed;
    ReviewedNext(found, done, k, f);
    var next := found[k := f];
    assert next[k] == f && forall j :: j in done ==> next[j] == found[j];
  }

  predicate Reviewed(found: Answers, done: set<Key>) {
    exists k :: k in done && k in found && found[k].review
  }

  lemma ReviewedNext(found: Answers, done: set<Key>, k: Key, f: Found)
    requires done <= found.Keys && k !in done
    ensures Reviewed(found[k := f], done + {k}) <==> Reviewed(found, done) || f.review
  {
    var next := found[k := f];
    assert next[k] == f && forall j :: j in done ==> next[j] == found[j];
  }

  /** The tables compared so far, and the answers behind them. */
  ghost predicate SoFar(es: Entities, db: Database, rules: Rules, found: Answers, tables: map<Key, TableDiff>, review: bool, done: set<Key>) {
    FoundUpTo(es, db, rules, found, done) && done <= es.Keys && done <= db.Keys
    && tables == CompareUpTo(es, db, found, done) && (review <==> Reviewed(found, done))
  }

  lemma NothingCompared(es: Entities, db: Database, rules: Rules)
    ensures SoFar(es, db, rules, map[], map[], false, {})
  {
  }

  lemma OneMoreCompared(es: Entities, db: Database, rules: Rules, found: Answers, tables: map<Key, TableDiff>, review: bool,
                        done: set<Key>, k: Key, f: Found)
    requires SoFar(es, db, rules, found, tables, review, done)
    requires k in es && k in db && k !in done && FoundOk(es[k], db[k], rules, f)
    ensures var t := CompareTable(es[k], db[k], f);
      SoFar(es, db, rules, found[k := f], if Listed(t) then tables[k := t] else tables, review || f.review, done + {k})
  {
    hide FoundOk, CompareTable, Listed, FoundUpTo, CompareUpTo, Reviewed;
    OneMoreTable(es, db, rules, found, done, k, f);
  }

  method CompareSnapshots(es: Entities, db: Database, rules: Rules) returns (diff: Diff, ghost found: Answers)
    requires Injective(rules.rank)
    ensures AnswersOk(es, db, rules, found) && diff == Compare(es, db, found)
  {
    found := map[];
    var tables: map<Key, TableDiff> := map[];
    var review := false;
    var todo := Shared(es, db);
    ghost var done: set<Key> := {};
    NothingCompared(es, db, rules);
    hide *;
    while todo != {}
      invariant done + todo == Shared(es, db) && done !! todo
      invariant SoFar(es, db, rules, found, tables, review, done)
      decreases |todo|
    {
      var k :| k in todo;
      SharedKey(es, db, k);
      var t, f := CompareOne(es[k], db[k], rules);
      OneMoreCompared(es, db, rules, found, tables, review, done, k, f);
      if Listed(t) { tables := tables[k := t]; }
      review := review || f.review;
      found, done, todo := found[k := f], done + {k}, todo - {k};
    }
    assert done == Shared(es, db);
    diff := Diff(es.Keys - db.Keys, review, tables);
    AllTables(es, db, rules, found, tables, review);
  }

  lemma SharedKey(es: Entities, db: Database, k: Key)
    ensures k in Shared(es, db) <==> k in es && k in db
  {
  }

  lemma AllTables(es: Entities, db: Database, rules: Rules, found: Answers, tables: map<Key, TableDiff>, review: bool)
    requires SoFar(es, db, rules, found, tables, review, Shared(es, db))
    ensures AnswersOk(es, db, rules, found)
    ensures Diff(es.Keys - db.Keys, review, tables) == Compare(es, db, found)
  {
    hide FoundOk, CompareTable, Listed;
  }

  // ----- whole rounds

  lemma ComparedIsEmittable(es: Entities, db: Database, rules: Rules, found: Answers, places: Places)
    requires AnswersOk(es, db, rules, found)
    ensures AllEmittable(es, db, Compare(es, db, found), places)
  {
    CompareApplies(es, db, rules, found);
    var diff := Compare(es, db, found);
    hide FoundOk, Emittable, CompareTable, Listed;
    forall k | k in diff.tables
      ensures Emittable(k, es[k], db[k], diff.tables[k], diff.tables[k].review || diff.review, places)
    {
      EmittableTable(k, es[k], db[k], rules, found[k], diff.review, places);
    }
  }

  lemma EmittableTable(k: Key, e: Intent, d: Columns, rules: Rules, f: Found, review: bool, places: Places)
    requires FoundOk(e, d, rules, f)
    ensures Emittable(k, e, d, CompareTable(e, d, f), f.review || review, places)
  {
    assert forall x :: x in f.renames ==> RenameOk(e, d, rules, x, f.renames[x]);
    hide Classify, Pairs;
  }

  /** Compare, emit, apply. */
  method RunRound(es: Entities, db: Database, rules: Rules, places: Places) returns (next: Database, ghost found: Answers)
    requires Injective(rules.rank)
    ensures IsRound(es, db, rules, found, places, next)
  {
    var diff;
    diff, found := CompareSnapshots(es, db, rules);
    CompareApplies(es, db, rules, found);
    ComparedIsEmittable(es, db, rules, found, places);
    hide AnswersOk, Compare, AllEmittable, Exec, SafeState, Applicable;
    var patch := BuildSqlPatch(es, diff, db, places);
    next := Exec(db, patch.safe + patch.review, places);
  }

  /** At most three rounds, then the check is clean. */
  method CloseDrift(es: Entities, db: Database, rules: Rules, places: Places) returns (next: Database, diff: Diff)
    requires Injective(rules.rank) && AllSettle(es)
    ensures IsDriftClean(diff) && Conforms(es, next) && exists found :: AnswersOk(es, next, rules, found) && diff == Compare(es, next, found)
  {
    hide Injective, AllSettle, IsRound, Compare, AnswersOk, IsDriftClean, Conforms;
    var db1, f0 := RunRound(es, db, rules, places);
    var db2, f1 := RunRound(es, db1, rules, places);
    var db3, f2 := RunRound(es, db2, rules, places);
    ghost var f3;
    next := db3;
    diff, f3 := CompareSnapshots(es, db3, rules);
    DriftConverges(es, rules, db, db1, db2, db3, f0, f1, f2, f3, places, places, places);
  }
}
