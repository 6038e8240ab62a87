/** Rename detection: classify pairs of an entity-only and a database-only column, and match them greedily by tier. */
module RenameHeuristics {
  import opened Outcomes
  import opened RenameMatching

  /** `comparable` is the normalised type, absent when the entity gives no hint; `untyped` when it names no type at all. */
  datatype Column = Column(ordinal: Option<int>, nullable: Option<bool>, pk: bool, comparable: Option<string>, untyped: bool)

  type Columns = map<Name, Column>

  /** The rules of one comparison: when two types may be a rename, and the collation's place of a name. */
  datatype Rules = Rules(compatible: (Column, Column) -> bool, rank: Name -> int)

  ghost predicate Injective(rank: Name -> int) {
    forall a, b :: rank(a) == rank(b) ==> a == b
  }

  const MaxTier := 5

  function Delta(e: Column, d: Column): Option<nat> {
    if e.ordinal == None || d.ordinal == None then None
    else Some(if e.ordinal.value >= d.ordinal.value then e.ordinal.value - d.ordinal.value
              else d.ordinal.value - e.ordinal.value)
  }

  predicate SameNullability(e: Column, d: Column) {
    e.nullable.Some? && e.nullable == d.nullable
  }

  /** The strictest rule that applies to the pair. */
  function Classify(e: Column, d: Column, rules: Rules): (tier: Option<nat>)
    ensures tier.Some? ==> tier.value <= MaxTier
    ensures tier.Some? ==> Delta(e, d) == None || Delta(e, d).value <= 2
  {
    var delta, typ := Delta(e, d), rules.compatible(e, d);
    if typ && delta == Some(0) then Some(0)
    else if typ && delta == Some(1) then Some(1)
    else if typ && delta == Some(2) then Some(2)
    else if !typ && e.untyped && SameNullability(e, d) && delta == Some(0) then Some(3)
    else if !typ && e.untyped && SameNullability(e, d) && delta == Some(1) then Some(4)
    else if typ && delta == None then Some(5)
    else None
  }

  predicate Known(names: seq<Name>, cols: Columns) {
    forall n :: n in names ==> n in cols
  }

  function CandidateOf(e: Name, d: Name, tier: nat, es: Columns, ds: Columns): Candidate
    requires e in es && d in ds
  {
    Candidate(e, d, tier, es[e].pk && ds[d].pk)
  }

  /** The bucket of one tier: every pair, from the whole product, that the tier's rule is the strictest for. */
  function Product(es: Columns, ds: Columns, eOnly: seq<Name>, dOnly: seq<Name>, rules: Rules, tier: nat): set<Candidate>
    requires Known(eOnly, es) && Known(dOnly, ds)
  {
    set e, d | e in eOnly && d in dOnly && Classify(es[e], ds[d], rules) == Some(tier) :: CandidateOf(e, d, tier, es, ds)
  }

  // ----- the ordinal index

  ghost predicate IndexOk(index: map<int, seq<Name>>, names: seq<Name>, cols: Columns)
    requires Known(names, cols)
  {
    (forall o, n :: o in index && n in index[o] ==> n in names && cols[n].ordinal == Some(o))
    && (forall n :: n in names && cols[n].ordinal.Some? ==> cols[n].ordinal.value in index && n in index[cols[n].ordinal.value])
  }

  method BuildOrdinalIndex(names: seq<Name>, cols: Columns) returns (index: map<int, seq<Name>>)
    requires Known(names, cols)
    ensures IndexOk(index, names, cols)
  {
    index := map[];
    for k := 0 to |names|
      invariant IndexOk(index, names[..k], cols)
    {
      assert names[..k + 1] == names[..k] + [names[k]];
      var o := cols[names[k]].ordinal;
      if o.Some? {
        var list := if o.value in index then index[o.value] else [];
        index := index[o.value := list + [names[k]]];
      }
    }
    assert names[..|names|] == names;
  }

  /** The database columns within two places of the entity column, and those without a place. */
  method CandidateColumns(e: Column, ds: Columns, index: map<int, seq<Name>>, dOnly: seq<Name>) returns (out: seq<Name>)
    requires Known(dOnly, ds) && IndexOk(index, dOnly, ds)
    ensures forall d :: d in out ==> d in dOnly
    ensures forall d :: d in dOnly && (Delta(e, ds[d]) == None || Delta(e, ds[d]).value <= 2) ==> d in out
  {
    if e.ordinal == None { return dOnly; }
    var o := e.ordinal.value;
    var window := [o, o - 1, o + 1, o - 2, o + 2];
    out := [];
    for k := 0 to |window|
      invariant forall d :: d in out ==> d in dOnly
      invariant forall i :: 0 <= i < k && window[i] in index ==> forall d :: d in index[window[i]] ==> d in out
    {
      if window[k] in index { out := out + index[window[k]]; }
    }
    for k := 0 to |dOnly|
      invariant forall d :: d in out ==> d in dOnly
      invariant forall i :: 0 <= i < |window| && window[i] in index ==> forall d :: d in index[window[i]] ==> d in out
      invariant forall i :: 0 <= i < k && ds[dOnly[i]].ordinal == None ==> dOnly[i] in out
    {
      if ds[dOnly[k]].ordinal == None { out := out + [dOnly[k]]; }
    }
    forall d | d in dOnly && (Delta(e, ds[d]) == None || Delta(e, ds[d]).value <= 2) ensures d in out {
      Windowed(o, ds[d].ordinal, window);
    }
  }

  lemma Windowed(o: int, place: Option<int>, window: seq<int>)
    requires window == [o, o - 1, o + 1, o - 2, o + 2]
    ensures place.Some? && -2 <= place.value - o <= 2 ==> exists i :: 0 <= i < |window| && window[i] == place.value
  {
    if place.Some? && -2 <= place.value - o <= 2 {
      var i := if place.value == o then 0 else if place.value == o - 1 then 1 else if place.value == o + 1 then 2
               else if place.value == o - 2 then 3 else 4;
      assert window[i] == place.value;
    }
  }

  // ----- the buckets

  type Buckets = seq<seq<Candidate>>

  /** The buckets hold, each pair once, what the product holds for the first `k` entity columns. */
  ghost predicate Filled(b: Buckets, es: Columns, ds: Columns, eOnly: seq<Name>, dOnly: seq<Name>, rules: Rules)
    requires Known(eOnly, es) && Known(dOnly, ds)
  {
    |b| == MaxTier + 1
    && forall t :: 0 <= t <= MaxTier ==> Distinct(b[t]) && Elements(b[t]) == Product(es, ds, eOnly, dOnly, rules, t)
  }

  lemma ProductStep(es: Columns, ds: Columns, eOnly: seq<Name>, e: Name, dOnly: seq<Name>, rules: Rules, t: nat)
    requires Known(eOnly + [e], es) && Known(dOnly, ds)
    ensures Known(eOnly, es)
    ensures Product(es, ds, eOnly + [e], dOnly, rules, t)
      == Product(es, ds, eOnly, dOnly, rules, t) + Product(es, ds, [e], dOnly, rules, t)
  {
    assert forall n :: n in eOnly ==> n in eOnly + [e];
  }

  /** Adds the pairs of one entity column with the columns the index gave. */
  method AddPairs(b: Buckets, e: Name, toCheck: seq<Name>, es: Columns, ds: Columns, eOnly: seq<Name>, dOnly: seq<Name>,
                  rules: Rules) returns (r: Buckets)
    requires Known(eOnly + [e], es) && Known(eOnly, es) && Known(dOnly, ds) && Filled(b, es, ds, eOnly, dOnly, rules)
    requires forall d :: d in toCheck ==> d in dOnly
    requires forall d :: d in dOnly && Classify(es[e], ds[d], rules).Some? ==> d in toCheck
    ensures Filled(r, es, ds, eOnly + [e], dOnly, rules)
  {
    r := b;
    assert e in eOnly + [e];
    for k := 0 to |toCheck|
      invariant |r| == MaxTier + 1
      invariant forall t :: 0 <= t <= MaxTier ==> Distinct(r[t])
      invariant forall t :: 0 <= t <= MaxTier ==> Elements(r[t]) == Elements(b[t]) + Product(es, ds, [e], toCheck[..k], rules, t)
    {
      var d := toCheck[k];
      assert toCheck[..k + 1] == toCheck[..k] + [d];
      var c := Classify(es[e], ds[d], rules);
      ghost var was := r;
      if c.Some? {
        var p := CandidateOf(e, d, c.value, es, ds);
        if p !in r[c.value] { r := r[c.value := r[c.value] + [p]]; }
      }
      forall t | 0 <= t <= MaxTier
        ensures Distinct(r[t]) && Elements(r[t]) == Elements(b[t]) + Product(es, ds, [e], toCheck[..k + 1], rules, t)
      {
        OnePair(was[t], r[t], Elements(b[t]), es, ds, e, toCheck[..k], d, rules, t);
      }
    }
    assert toCheck[..|toCheck|] == toCheck;
    forall t | 0 <= t <= MaxTier ensures Elements(r[t]) == Product(es, ds, eOnly + [e], dOnly, rules, t) {
      ProductStep(es, ds, eOnly, e, dOnly, rules, t);
      SameProduct(es, ds, e, toCheck, dOnly, rules, t);
    }
  }

  lemma OnePair(was: seq<Candidate>, now: seq<Candidate>, base: set<Candidate>, es: Columns, ds: Columns, e: Name, seen: seq<Name>, d: Name, rules: Rules, t: nat)
    requires e in es && d in ds && Known(seen, ds) && Distinct(was)
    requires Known([e], es) && Known(seen + [d], ds)
    requires now == (if Classify(es[e], ds[d], rules) == Some(t) && CandidateOf(e, d, t, es, ds) !in was
                     then was + [CandidateOf(e, d, t, es, ds)] else was)
    requires Elements(was) == base + Product(es, ds, [e], seen, rules, t)
    ensures Distinct(now)
    ensures Elements(now) == base + Product(es, ds, [e], seen + [d], rules, t)
  {
    assert Product(es, ds, [e], seen + [d], rules, t) == Product(es, ds, [e], seen, rules, t)
      + (if Classify(es[e], ds[d], rules) == Some(t) then {CandidateOf(e, d, t, es, ds)} else {});
    assert Elements(now) == Elements(was)
      + (if Classify(es[e], ds[d], rules) == Some(t) then {CandidateOf(e, d, t, es, ds)} else {});
  }

  lemma SameProduct(es: Columns, ds: Columns, e: Name, toCheck: seq<Name>, dOnly: seq<Name>, rules: Rules, t: nat)
    requires e in es && Known(dOnly, ds) && Known([e], es)
    requires forall d :: d in toCheck ==> d in dOnly
    requires forall d :: d in dOnly && Classify(es[e], ds[d], rules).Some? ==> d in toCheck
    ensures Known(toCheck, ds)
    ensures Product(es, ds, [e], toCheck, rules, t) == Product(es, ds, [e], dOnly, rules, t)
  {
  }

  /** Probing two places around each entity column, plus the columns without a place, fills the same buckets as
      classifying every pair. */
  method FillBuckets(es: Columns, ds: Columns, eOnly: seq<Name>, dOnly: seq<Name>, rules: Rules) returns (b: Buckets)
    requires Known(eOnly, es) && Known(dOnly, ds)
    ensures Filled(b, es, ds, eOnly, dOnly, rules)
  {
    var index := BuildOrdinalIndex(dOnly, ds);
    b := [[], [], [], [], [], []];
    for k := 0 to |eOnly|
      invariant Filled(b, es, ds, eOnly[..k], dOnly, rules)
    {
      var e := eOnly[k];
      assert eOnly[..k + 1] == eOnly[..k] + [e];
      var toCheck := CandidateColumns(es[e], ds, index, dOnly);
      b := AddPairs(b, e, toCheck, es, ds, eOnly[..k], dOnly, rules);
    }
    assert eOnly[..|eOnly|] == eOnly;
  }

  // ----- the order inside a tier

  /** Pairs of primary keys first, then by the entity column, then by the database column. */
  predicate Less(a: Candidate, b: Candidate, rank: Name -> int) {
    if a.pk != b.pk then a.pk
    else if rank(a.e) != rank(b.e) then rank(a.e) < rank(b.e)
    else rank(a.d) < rank(b.d)
  }

  predicate Sorted(list: seq<Candidate>, rank: Name -> int) {
    forall i, j :: 0 <= i < j < |list| ==> Less(list[i], list[j], rank)
  }

  method SortTier(list: seq<Candidate>, ghost tier: nat, rank: Name -> int) returns (r: seq<Candidate>)
    requires Distinct(list) && Injective(rank) && forall p :: p in list ==> p.tier == tier
    ensures Sorted(r, rank) && Distinct(r) && Elements(r) == Elements(list)
  {
    r := [];
    for k := 0 to |list|
      invariant Sorted(r, rank) && Distinct(r) && Elements(r) == Elements(list[..k])
    {
      var p := list[k];
      assert list[..k + 1] == list[..k] + [p];
      assert p !in list[..k];
      var at := 0;
      while at < |r| && Less(r[at], p, rank)
        invariant at <= |r| && forall i :: 0 <= i < at ==> Less(r[i], p, rank)
      {
        at := at + 1;
      }
      assert p !in r by { assert p !in Elements(list[..k]); }
      forall i | at <= i < |r| ensures Less(p, r[i], rank) {
        assert r[i] in Elements(list[..k]);
        Trichotomy(p, r[at], rank);
      }
      Inserted(r, p, at, rank);
      r := r[..at] + [p] + r[at..];
    }
    assert list[..|list|] == list;
  }

  lemma Trichotomy(a: Candidate, b: Candidate, rank: Name -> int)
    requires Injective(rank)
    ensures a.tier == b.tier && a != b ==> (Less(a, b, rank) <==> !Less(b, a, rank))
  {
  }

  lemma Inserted(r: seq<Candidate>, p: Candidate, at: nat, rank: Name -> int)
    requires at <= |r| && Sorted(r, rank) && Distinct(r) && p !in r
    requires forall i :: 0 <= i < at ==> Less(r[i], p, rank)
    requires forall i :: at <= i < |r| ==> Less(p, r[i], rank)
    ensures var s := r[..at] + [p] + r[at..]; Sorted(s, rank) && Distinct(s) && Elements(s) == Elements(r) + {p}
  {
    var s := r[..at] + [p] + r[at..];
    assert r == r[..at] + r[at..];
    forall x ensures x in s <==> x in r || x == p { }
  }

  lemma NoElements(a: seq<Candidate>)
    ensures a == [] <==> Elements(a) == {}
  {
    if a != [] { assert a[0] in Elements(a); }
  }

  /** The last of a sorted list is the one no other is greater than. */
  lemma SameLast(a: seq<Candidate>, b: seq<Candidate>, rank: Name -> int)
    requires Sorted(a, rank) && Sorted(b, rank) && Elements(a) == Elements(b) && a != []
    ensures b != [] && a[|a| - 1] == b[|b| - 1]
  {
    NoElements(a);
    NoElements(b);
    var x, y := a[|a| - 1], b[|b| - 1];
    assert x in Elements(b) && y in Elements(a);
    var i :| 0 <= i < |b| && b[i] == x;
    var j :| 0 <= j < |a| && a[j] == y;
  }

  lemma WithoutLast(a: seq<Candidate>, rank: Name -> int)
    requires Sorted(a, rank) && a != []
    ensures Elements(a[..|a| - 1]) == Elements(a) - {a[|a| - 1]}
  {
    var x, a1 := a[|a| - 1], a[..|a| - 1];
    assert a == a1 + [x];
    assert forall i :: 0 <= i < |a1| ==> Less(a[i], x, rank);
  }

  /** A set of pairs has one sorted list. */
  lemma {:induction false} SortedIsUnique(a: seq<Candidate>, b: seq<Candidate>, rank: Name -> int)
    requires Sorted(a, rank) && Sorted(b, rank) && Elements(a) == Elements(b)
    ensures a == b
    decreases |a|
  {
    NoElements(a);
    NoElements(b);
    if a != [] {
      SameLast(a, b, rank);
      WithoutLast(a, rank);
      WithoutLast(b, rank);
      SortedIsUnique(a[..|a| - 1], b[..|b| - 1], rank);
      assert a == a[..|a| - 1] + [a[|a| - 1]] && b == b[..|b| - 1] + [b[|b| - 1]];
    }
  }

  // ----- ambiguity

  /** The names that occur, and those that occur again, among the first `k`. */
  function Seen(names: seq<Name>): set<Name> {
    if names == [] then {} else Seen(names[..|names| - 1]) + {names[|names| - 1]}
  }

  function Repeated(names: seq<Name>): set<Name> {
    if names == [] then {}
    else
      var less, n := names[..|names| - 1], names[|names| - 1];
      Repeated(less) + if n in Seen(less) then {n} else {}
  }

  predicate Twice(names: seq<Name>, n: Name) {
    exists i, j :: 0 <= i < j < |names| && names[i] == names[j] == n
  }

  lemma {:induction false} SeenIs(names: seq<Name>, n: Name)
    ensures n in Seen(names) <==> n in names
  {
    if names != [] {
      var less, last := names[..|names| - 1], names[|names| - 1];
      assert names == less + [last];
      SeenIs(less, n);
    }
  }

  lemma {:induction false} RepeatedIs(names: seq<Name>, n: Name)
    ensures n in Repeated(names) <==> Twice(names, n)
  {
    if names != [] {
      var less, last := names[..|names| - 1], names[|names| - 1];
      assert names == less + [last];
      RepeatedIs(less, n);
      SeenIs(less, last);
      if Twice(less, n) {
        var i, j :| 0 <= i < j < |less| && less[i] == less[j] == n;
        assert names[i] == names[j] == n;
      }
      if last in less && last == n {
        var i :| 0 <= i < |less| && less[i] == n;
        assert names[i] == names[|less|] == n;
      }
    }
  }

  function Es(tier: seq<Candidate>): seq<Name> {
    seq(|tier|, i requires 0 <= i < |tier| => tier[i].e)
  }

  function Ds(tier: seq<Candidate>): seq<Name> {
    seq(|tier|, i requires 0 <= i < |tier| => tier[i].d)
  }

  /** Counts the columns of a tier's pairs. */
  method CountColumns(tier: seq<Candidate>) returns (twiceE: set<Name>, twiceD: set<Name>)
    ensures twiceE == Repeated(Es(tier)) && twiceD == Repeated(Ds(tier))
  {
    var es: set<Name>, ds: set<Name> := {}, {};
    twiceE, twiceD := {}, {};
    for k := 0 to |tier|
      invariant es == Seen(Es(tier)[..k]) && ds == Seen(Ds(tier)[..k])
      invariant twiceE == Repeated(Es(tier)[..k]) && twiceD == Repeated(Ds(tier)[..k])
    {
      var p := tier[k];
      assert Es(tier)[..k + 1] == Es(tier)[..k] + [p.e] && Ds(tier)[..k + 1] == Ds(tier)[..k] + [p.d];
      if p.e in es { twiceE := twiceE + {p.e}; }
      if p.d in ds { twiceD := twiceD + {p.d}; }
      es, ds := es + {p.e}, ds + {p.d};
    }
    assert Es(tier)[..|tier|] == Es(tier) && Ds(tier)[..|tier|] == Ds(tier);
  }

  /** The entity columns, and the database columns, that occur in more than one pair of a tier. */
  method FindAmbiguityInTier(tier: seq<Candidate>) returns (competingE: set<Name>, competingD: set<Name>)
    requires Distinct(tier)
    ensures forall e :: e in competingE <==> exists p, q :: p in tier && q in tier && p != q && p.e == q.e == e
    ensures forall d :: d in competingD <==> exists p, q :: p in tier && q in tier && p != q && p.d == q.d == d
    ensures competingE + competingD != {} <==> Ambiguous(Elements(tier))
  {
    competingE, competingD := CountColumns(tier);
    Competing(tier, competingE, competingD);
  }

  lemma Competing(tier: seq<Candidate>, competingE: set<Name>, competingD: set<Name>)
    requires Distinct(tier) && competingE == Repeated(Es(tier)) && competingD == Repeated(Ds(tier))
    ensures forall e :: e in competingE <==> exists p, q :: p in tier && q in tier && p != q && p.e == q.e == e
    ensures forall d :: d in competingD <==> exists p, q :: p in tier && q in tier && p != q && p.d == q.d == d
    ensures competingE + competingD != {} <==> Ambiguous(Elements(tier))
  {
    forall e ensures e in competingE <==> exists p, q :: p in tier && q in tier && p != q && p.e == q.e == e {
      RepeatedIs(Es(tier), e);
      TwiceIsTwoPairs(tier, Es(tier), e, (p: Candidate) => p.e);
    }
    forall d ensures d in competingD <==> exists p, q :: p in tier && q in tier && p != q && p.d == q.d == d {
      RepeatedIs(Ds(tier), d);
      TwiceIsTwoPairs(tier, Ds(tier), d, (p: Candidate) => p.d);
    }
    hide Repeated;
    CompetingIsAmbiguous(tier, competingE, competingD);
  }

  lemma TwiceIsTwoPairs(tier: seq<Candidate>, names: seq<Name>, n: Name, name: Candidate -> Name)
    requires Distinct(tier) && |names| == |tier| && forall i :: 0 <= i < |tier| ==> names[i] == name(tier[i])
    ensures Twice(names, n) <==> exists p, q :: p in tier && q in tier && p != q && name(p) == name(q) == n
  {
    if Twice(names, n) {
      var i, j :| 0 <= i < j < |names| && names[i] == names[j] == n;
      assert tier[i] in tier && tier[j] in tier;
    }
    if exists p, q :: p in tier && q in tier && p != q && name(p) == name(q) == n {
      var p, q :| p in tier && q in tier && p != q && name(p) == name(q) == n;
      var i :| 0 <= i < |tier| && tier[i] == p;
      var j :| 0 <= j < |tier| && tier[j] == q;
      assert names[i] == names[j] == n;
      assert i < j || j < i;
    }
  }

  lemma CompetingIsAmbiguous(tier: seq<Candidate>, competingE: set<Name>, competingD: set<Name>)
    requires forall e :: e in competingE <==> exists p, q :: p in tier && q in tier && p != q && p.e == q.e == e
    requires forall d :: d in competingD <==> exists p, q :: p in tier && q in tier && p != q && p.d == q.d == d
    ensures competingE + competingD != {} <==> Ambiguous(Elements(tier))
  {
    if competingE != {} {
      var e :| e in competingE;
      var p, q :| p in tier && q in tier && p != q && p.e == q.e == e;
      assert p in Elements(tier) && q in Elements(tier) && Shares(p, q);
    }
    if competingD != {} {
      var d :| d in competingD;
      var p, q :| p in tier && q in tier && p != q && p.d == q.d == d;
      assert p in Elements(tier) && q in Elements(tier) && Shares(p, q);
    }
    if Ambiguous(Elements(tier)) {
      var p, q :| p in Elements(tier) && q in Elements(tier) && p != q && Shares(p, q);
      assert p.e in competingE || p.d in competingD;
    }
  }

  // ----- the whole search

  /** The buckets of the full product, each sorted. */
  ghost predicate SortedProduct(b: Buckets, es: Columns, ds: Columns, eOnly: seq<Name>, dOnly: seq<Name>, rules: Rules)
    requires Known(eOnly, es) && Known(dOnly, ds)
  {
    Filled(b, es, ds, eOnly, dOnly, rules) && forall t :: 0 <= t <= MaxTier ==> Sorted(b[t], rules.rank)
  }

  lemma SortedProductIsUnique(a: Buckets, b: Buckets, es: Columns, ds: Columns, eOnly: seq<Name>, dOnly: seq<Name>, rules: Rules)
    requires Known(eOnly, es) && Known(dOnly, ds)
    requires SortedProduct(a, es, ds, eOnly, dOnly, rules) && SortedProduct(b, es, ds, eOnly, dOnly, rules)
    ensures a == b
  {
    forall t | 0 <= t <= MaxTier ensures a[t] == b[t] { SortedIsUnique(a[t], b[t], rules.rank); }
  }

  method MatchTier(ghost before: seq<Candidate>, list: seq<Candidate>, out0: seq<Candidate>, usedE0: set<Name>, usedD0: set<Name>)
      returns (out: seq<Candidate>, usedE: set<Name>, usedD: set<Name>)
    requires Elements(out0) == Greedy(before) && Used(Elements(out0), usedE0, usedD0)
    ensures Elements(out) == Greedy(before + list) && Used(Elements(out), usedE, usedD)
  {
    out, usedE, usedD := out0, usedE0, usedD0;
    assert before + list[..0] == before;
    for k := 0 to |list|
      invariant Elements(out) == Greedy(before + list[..k]) && Used(Elements(out), usedE, usedD)
    {
      var p := list[k];
      var all := before + list[..k + 1];
      assert all[..|all| - 1] == before + list[..k] && all[|all| - 1] == p;
      UsedBlocks(p, Elements(out), usedE, usedD);
      hide Used, Blocked;
      if !(p.e in usedE || p.d in usedD) {
        ghost var was := out;
        usedE, usedD := usedE + {p.e}, usedD + {p.d};
        out := out + [p];
        assert Elements(out) == Elements(was) + {p};
      }
    }
    assert list[..|list|] == list;
  }

  lemma UsedBlocks(p: Candidate, chosen: set<Candidate>, usedE: set<Name>, usedD: set<Name>)
    requires Used(chosen, usedE, usedD)
    ensures Blocked(p, chosen) <==> p.e in usedE || p.d in usedD
    ensures Used(chosen + {p}, usedE + {p.e}, usedD + {p.d})
  {
  }

  /** Accepts the pairs of the sorted buckets one by one, remembering the used columns. */
  method MatchGreedily(b: Buckets) returns (out: seq<Candidate>)
    ensures Elements(out) == Greedy(Flatten(b))
  {
    var usedE: set<Name>, usedD: set<Name> := {}, {};
    out := [];
    for t := 0 to |b|
      invariant Elements(out) == Greedy(Flatten(b[..t])) && Used(Elements(out), usedE, usedD)
    {
      hide Greedy, Used;
      assert b[..t + 1][..t] == b[..t];
      out, usedE, usedD := MatchTier(Flatten(b[..t]), b[t], out, usedE, usedD);
    }
    assert b[..|b|] == b;
  }

  ghost predicate Used(chosen: set<Candidate>, usedE: set<Name>, usedD: set<Name>) {
    (forall e :: e in usedE <==> exists p :: p in chosen && p.e == e)
    && (forall d :: d in usedD <==> exists p :: p in chosen && p.d == d)
  }

  datatype Renames = Renames(pairs: seq<Candidate>, review: bool)

  ghost predicate NeedsReview(es: Columns, ds: Columns, eOnly: seq<Name>, dOnly: seq<Name>, rules: Rules)
    requires Known(eOnly, es) && Known(dOnly, ds)
  {
    exists t :: 0 <= t <= MaxTier && Ambiguous(Product(es, ds, eOnly, dOnly, rules, t))
  }

  /** The renames are the greedy matching of the sorted full product, found without building the product; review is
      wanted exactly when some tier of the product is ambiguous. */
  method FindLikelyRenames(es: Columns, ds: Columns, eOnly: seq<Name>, dOnly: seq<Name>, rules: Rules)
      returns (r: Renames, ghost lists: Buckets)
    requires Known(eOnly, es) && Known(dOnly, ds) && Injective(rules.rank)
    ensures SortedProduct(lists, es, ds, eOnly, dOnly, rules)
    ensures Elements(r.pairs) == Greedy(Flatten(lists))
    ensures r.review <==> NeedsReview(es, ds, eOnly, dOnly, rules)
  {
    var b := FillBuckets(es, ds, eOnly, dOnly, rules);
    var review := false;
    for t := 0 to MaxTier + 1
      invariant review <==> exists u :: 0 <= u < t && Ambiguous(Product(es, ds, eOnly, dOnly, rules, u))
    {
      var competingE, competingD := FindAmbiguityInTier(b[t]);
      if competingE + competingD != {} { review := true; }
    }
    var sorted: Buckets := [];
    for t := 0 to MaxTier + 1
      invariant |sorted| == t
      invariant forall u :: 0 <= u < t ==> Sorted(sorted[u], rules.rank) && Distinct(sorted[u])
      invariant forall u :: 0 <= u < t ==> Elements(sorted[u]) == Product(es, ds, eOnly, dOnly, rules, u)
    {
      assert forall p :: p in b[t] ==> p in Elements(b[t]);
      var list := SortTier(b[t], t, rules.rank);
      sorted := sorted + [list];
    }
    lists := sorted;
    var pairs := MatchGreedily(sorted);
    r := Renames(pairs, review);
  }
}
