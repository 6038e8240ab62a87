/** Which renames are preferred, told by types and places alone. */
module RenamePreference {
  import opened Outcomes
  import opened RenameMatching
  import opened RenameHeuristics

  function Distance(a: int, b: int): nat {
    if a >= b then a - b else b - a
  }

  predicate Placed(e: Column, d: Column) {
    e.ordinal.Some? && d.ordinal.Some?
  }

  function Apart(e: Column, d: Column): nat {
    if Placed(e, d) then Distance(e.ordinal.value, d.ordinal.value) else 0
  }

  /** Columns of compatible types are a pair when they are at most two places apart, or one has no place; an untyped column is one
      with any column of the same known nullability at its place or next to it. */
  predicate IsPair(e: Column, d: Column, rules: Rules) {
    if rules.compatible(e, d) then Apart(e, d) <= 2
    else e.untyped && Placed(e, d) && Apart(e, d) <= 1 && e.nullable.Some? && d.nullable == e.nullable
  }

  /** Compatible and placed, then untyped, then compatible without a place. */
  function Grade(e: Column, d: Column, rules: Rules): nat {
    if !rules.compatible(e, d) then 1 else if Placed(e, d) then 0 else 2
  }

  /** The better grade first, then the nearer pair, then primary keys, then the names. */
  predicate Preferred(p: (Name, Name), q: (Name, Name), es: Columns, ds: Columns, rules: Rules)
    requires p.0 in es && q.0 in es && p.1 in ds && q.1 in ds
  {
    var a, b := Grade(es[p.0], ds[p.1], rules), Grade(es[q.0], ds[q.1], rules);
    var x, y := Apart(es[p.0], ds[p.1]), Apart(es[q.0], ds[q.1]);
    var k, l := es[p.0].pk && ds[p.1].pk, es[q.0].pk && ds[q.1].pk;
    if a != b then a < b
    else if x != y then x < y
    else if k != l then k
    else if rules.rank(p.0) != rules.rank(q.0) then rules.rank(p.0) < rules.rank(q.0)
    else rules.rank(p.1) < rules.rank(q.1)
  }

  /** The pair is in `m`, or a preferred pair with one of its columns is. */
  ghost predicate Won(m: set<Candidate>, e: Name, d: Name, es: Columns, ds: Columns, rules: Rules)
    requires e in es && d in ds
  {
    exists p :: p in m && p.e in es && p.d in ds && (p.e == e || p.d == d)
      && (!(p.e == e && p.d == d) ==> Preferred((p.e, p.d), (e, d), es, ds, rules))
  }

  /** Every pair is a rename, or shares a column with a preferred pair that is one. */
  ghost predicate BestPairs(m: set<Candidate>, es: Columns, ds: Columns, eOnly: seq<Name>, dOnly: seq<Name>, rules: Rules)
    requires Known(eOnly, es) && Known(dOnly, ds)
  {
    OneToOne(m)
    && (forall p :: p in m ==> p.e in eOnly && p.d in dOnly && IsPair(es[p.e], ds[p.d], rules))
    && forall e, d :: e in eOnly && d in dOnly && IsPair(es[e], ds[d], rules) ==> Won(m, e, d, es, ds, rules)
  }

  /** Exactly the pairs have a tier, and the tiers are in the order of grade and distance. */
  lemma TierIs(e: Column, d: Column, rules: Rules)
    ensures Classify(e, d, rules).Some? <==> IsPair(e, d, rules)
    ensures IsPair(e, d, rules) ==>
      Classify(e, d, rules).value == (if Grade(e, d, rules) == 0 then 0 else if Grade(e, d, rules) == 1 then 3 else 5) + Apart(e, d)
  {
  }

  predicate InTier(list: seq<Candidate>, t: nat) {
    forall i :: 0 <= i < |list| ==> list[i].tier == t
  }

  predicate Before(p: Candidate, q: Candidate, rank: Name -> int) {
    p.tier < q.tier || (p.tier == q.tier && Less(p, q, rank))
  }

  predicate InOrder(f: seq<Candidate>, n: nat, rank: Name -> int) {
    (forall i :: 0 <= i < |f| ==> f[i].tier < n) && forall i, j :: 0 <= i < j < |f| ==> Before(f[i], f[j], rank)
  }

  lemma {:induction false} FlattenSorted(b: Buckets, n: nat, rank: Name -> int)
    requires n <= |b| && forall t :: 0 <= t < n ==> Sorted(b[t], rank) && InTier(b[t], t)
    ensures InOrder(Flatten(b[..n]), n, rank)
  {
    if n > 0 {
      FlattenSorted(b, n - 1, rank);
      var f, g := Flatten(b[..n - 1]), b[n - 1];
      assert b[..n][..n - 1] == b[..n - 1] && Flatten(b[..n]) == f + g;
      assert InTier(g, n - 1) && Sorted(g, rank);
      hide Less, InOrder;
      Concatenated(f, g, n - 1, rank);
    }
  }

  lemma Concatenated(f: seq<Candidate>, g: seq<Candidate>, n: nat, rank: Name -> int)
    requires InOrder(f, n, rank) && InTier(g, n) && Sorted(g, rank)
    ensures InOrder(f + g, n + 1, rank)
  {
    hide Less;
    var h := f + g;
    forall i | 0 <= i < |h| ensures h[i].tier < n + 1 { assert i < |f| || h[i] == g[i - |f|]; }
    forall i, j | 0 <= i < j < |h| ensures Before(h[i], h[j], rank) {
      if i >= |f| {
        assert h[i] == g[i - |f|] && h[j] == g[j - |f|];
      } else if j >= |f| {
        assert h[i] == f[i] && h[j] == g[j - |f|];
      }
    }
  }

  lemma {:induction false} FlattenHolds(b: Buckets, n: nat, p: Candidate)
    requires n <= |b|
    ensures p in Flatten(b[..n]) <==> exists t :: 0 <= t < n && p in b[t]
  {
    if n > 0 {
      FlattenHolds(b, n - 1, p);
      assert b[..n][..n - 1] == b[..n - 1] && Flatten(b[..n]) == Flatten(b[..n - 1]) + b[n - 1];
    }
  }

  lemma TiersApart(b: Buckets, es: Columns, ds: Columns, eOnly: seq<Name>, dOnly: seq<Name>, rules: Rules)
    requires Known(eOnly, es) && Known(dOnly, ds) && SortedProduct(b, es, ds, eOnly, dOnly, rules)
    ensures forall t :: 0 <= t < |b| ==> Sorted(b[t], rules.rank) && InTier(b[t], t)
  {
    forall t | 0 <= t < |b| ensures InTier(b[t], t) {
      assert Elements(b[t]) == Product(es, ds, eOnly, dOnly, rules, t);
      forall i | 0 <= i < |b[t]| ensures b[t][i].tier == t { assert b[t][i] in Elements(b[t]); }
    }
    hide Product, Elements, Sorted;
  }

  predicate IsCandidate(p: Candidate, es: Columns, ds: Columns, eOnly: seq<Name>, dOnly: seq<Name>, rules: Rules)
    requires Known(eOnly, es) && Known(dOnly, ds)
  {
    p.e in eOnly && p.d in dOnly && Classify(es[p.e], ds[p.d], rules) == Some(p.tier)
    && p == CandidateOf(p.e, p.d, p.tier, es, ds)
  }

  /** The candidates are the pairs. */
  lemma CandidatesArePairs(b: Buckets, es: Columns, ds: Columns, eOnly: seq<Name>, dOnly: seq<Name>, rules: Rules, p: Candidate)
    requires Known(eOnly, es) && Known(dOnly, ds) && SortedProduct(b, es, ds, eOnly, dOnly, rules)
    ensures p in Flatten(b) <==> IsCandidate(p, es, ds, eOnly, dOnly, rules)
  {
    assert b[..|b|] == b;
    FlattenHolds(b, |b|, p);
    hide Classify, Sorted, Flatten;
    forall t | 0 <= t <= MaxTier
      ensures p in b[t] <==> IsCandidate(p, es, ds, eOnly, dOnly, rules) && p.tier == t {
      assert p in b[t] <==> p in Elements(b[t]);
      assert p in Product(es, ds, eOnly, dOnly, rules, t) <==> IsCandidate(p, es, ds, eOnly, dOnly, rules) && p.tier == t;
    }
    if IsCandidate(p, es, ds, eOnly, dOnly, rules) {
      var tier := Classify(es[p.e], ds[p.d], rules);
      assert p.tier <= MaxTier && p in b[p.tier];
    }
  }

  lemma BeforeIsPreferred(p: Candidate, q: Candidate, es: Columns, ds: Columns, rules: Rules)
    requires p.e in es && q.e in es && p.d in ds && q.d in ds
    requires Classify(es[p.e], ds[p.d], rules) == Some(p.tier) && p == CandidateOf(p.e, p.d, p.tier, es, ds)
    requires Classify(es[q.e], ds[q.d], rules) == Some(q.tier) && q == CandidateOf(q.e, q.d, q.tier, es, ds)
    requires Before(p, q, rules.rank)
    ensures Preferred((p.e, p.d), (q.e, q.d), es, ds, rules)
  {
    TierIs(es[p.e], ds[p.d], rules);
    TierIs(es[q.e], ds[q.d], rules);
    hide Classify;
  }

  /** So the greedy matching of the sorted tiers gives every pair to the one that is preferred. */
  lemma GreedyIsBest(b: Buckets, es: Columns, ds: Columns, eOnly: seq<Name>, dOnly: seq<Name>, rules: Rules)
    requires Known(eOnly, es) && Known(dOnly, ds) && SortedProduct(b, es, ds, eOnly, dOnly, rules)
    ensures BestPairs(Greedy(Flatten(b)), es, ds, eOnly, dOnly, rules)
  {
    var f, m := Flatten(b), Greedy(Flatten(b));
    GreedyDraws(f);
    GreedyJustified(f);
    TiersApart(b, es, ds, eOnly, dOnly, rules);
    assert b[..|b|] == b;
    FlattenSorted(b, |b|, rules.rank);
    forall p ensures p in f <==> IsCandidate(p, es, ds, eOnly, dOnly, rules) {
      CandidatesArePairs(b, es, ds, eOnly, dOnly, rules, p);
    }
    hide Greedy, Flatten, Classify, IsPair, Before, Preferred, SortedProduct, OneToOne, Sorted, InTier;
    forall p | p in m ensures p.e in eOnly && p.d in dOnly && IsPair(es[p.e], ds[p.d], rules) {
      assert p in f;
      TierIs(es[p.e], ds[p.d], rules);
    }
    forall e, d | e in eOnly && d in dOnly && IsPair(es[e], ds[d], rules) ensures Won(m, e, d, es, ds, rules) {
      TierIs(es[e], ds[d], rules);
      var q := CandidateOf(e, d, Classify(es[e], ds[d], rules).value, es, ds);
      assert q in f;
      if q !in m {
        var p := Rival(f, m, q, |b|, rules.rank);
        BeforeIsPreferred(p, q, es, ds, rules);
      }
    }
  }

  lemma Rival(f: seq<Candidate>, m: set<Candidate>, q: Candidate, n: nat, rank: Name -> int) returns (p: Candidate)
    requires Justified(f, m) && q in f && q !in m
    requires InOrder(f, n, rank)
    ensures p in m && p in f && Shares(q, p) && Before(p, q, rank)
  {
    var i :| 0 <= i < |f| && f[i] == q;
    assert LosesToEarlier(f, m, i);
    var j :| 0 <= j < i && f[j] in m && Shares(f[i], f[j]);
    p := f[j];
  }
}
