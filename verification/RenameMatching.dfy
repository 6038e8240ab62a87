/** Greedy one-to-one matching over an ordered list of candidate pairs. */
module RenameMatching {
  type Name = string

  /** An entity column `e` that may be the database column `d`; `pk` when both are primary keys. */
  datatype Candidate = Candidate(e: Name, d: Name, tier: nat, pk: bool)

  predicate Shares(a: Candidate, b: Candidate) {
    a.e == b.e || a.d == b.d
  }

  predicate Blocked(p: Candidate, chosen: set<Candidate>) {
    exists q :: q in chosen && Shares(p, q)
  }

  predicate Distinct<T(==)>(s: seq<T>) {
    forall i, j :: 0 <= i < j < |s| ==> s[i] != s[j]
  }

  /** Each candidate in turn is chosen unless a chosen one has one of its columns. */
  function Greedy(list: seq<Candidate>): set<Candidate> {
    if list == [] then {}
    else
      var chosen, p := Greedy(list[..|list| - 1]), list[|list| - 1];
      if Blocked(p, chosen) then chosen else chosen + {p}
  }

  predicate OneToOne(m: set<Candidate>) {
    forall p, q :: p in m && q in m && p != q ==> !Shares(p, q)
  }

  predicate LosesToEarlier(list: seq<Candidate>, m: set<Candidate>, i: nat)
    requires i < |list|
  {
    exists j :: 0 <= j < i && list[j] in m && Shares(list[i], list[j])
  }

  /** Every rejected candidate shares a column with an accepted one before it. */
  predicate Justified(list: seq<Candidate>, m: set<Candidate>) {
    forall i :: 0 <= i < |list| && list[i] !in m ==> LosesToEarlier(list, m, i)
  }

  predicate Drawn(list: seq<Candidate>, m: set<Candidate>) {
    forall p :: p in m ==> p in list
  }

  lemma {:induction false} GreedyDraws(list: seq<Candidate>)
    ensures Drawn(list, Greedy(list)) && OneToOne(Greedy(list))
  {
    if list != [] { GreedyDraws(list[..|list| - 1]); }
  }

  lemma {:induction false} GreedyPrefix(list: seq<Candidate>, k: nat)
    requires k <= |list|
    ensures Greedy(list[..k]) <= Greedy(list)
    decreases |list| - k
  {
    if k == |list| {
      assert list[..k] == list;
    } else {
      assert list[..k + 1][..k] == list[..k];
      GreedyPrefix(list, k + 1);
    }
  }

  lemma GreedyJustified(list: seq<Candidate>)
    ensures Justified(list, Greedy(list))
  {
    forall i | 0 <= i < |list| && list[i] !in Greedy(list) ensures LosesToEarlier(list, Greedy(list), i) {
      assert list[..i + 1][..i] == list[..i];
      GreedyPrefix(list, i + 1);
      GreedyDraws(list[..i]);
      assert Blocked(list[i], Greedy(list[..i]));
      var q :| q in Greedy(list[..i]) && Shares(list[i], q);
      var j :| 0 <= j < i && list[..i][j] == q;
      assert list[j] == q;
      GreedyPrefix(list, i);
    }
  }

  lemma {:induction false} OnlyGreedy(list: seq<Candidate>, m: set<Candidate>, k: nat)
    requires Distinct(list) && Drawn(list, m) && OneToOne(m) && Justified(list, m) && k <= |list|
    ensures Greedy(list[..k]) == set p | p in list[..k] && p in m
  {
    if k > 0 {
      OnlyGreedy(list, m, k - 1);
      assert list[..k][..k - 1] == list[..k - 1];
      assert list[..k] == list[..k - 1] + [list[k - 1]];
      var p := list[k - 1];
      assert p !in list[..k - 1];
      if p !in m {
        assert LosesToEarlier(list, m, k - 1);
        var j :| 0 <= j < k - 1 && list[j] in m && Shares(p, list[j]);
        assert list[..k - 1][j] == list[j];
        assert Blocked(p, Greedy(list[..k - 1]));
      }
    }
  }

  /** The greedy matching is one-to-one, and it is the only one-to-one choice from the list in which every rejected
      candidate loses to an earlier accepted one. */
  lemma GreedyIsTheOnlyMatching(list: seq<Candidate>, m: set<Candidate>)
    requires Distinct(list)
    ensures Drawn(list, m) && OneToOne(m) && Justified(list, m) <==> m == Greedy(list)
  {
    GreedyDraws(list);
    GreedyJustified(list);
    if Drawn(list, m) && OneToOne(m) && Justified(list, m) {
      OnlyGreedy(list, m, |list|);
      assert list[..|list|] == list;
    }
  }

  // ----- tiers

  /** Two candidates of one tier share a column. */
  predicate Ambiguous(tier: set<Candidate>) {
    exists p, q :: p in tier && q in tier && p != q && Shares(p, q)
  }

  /** One tier after another, each in some order of its own. */
  function Flatten(tiers: seq<seq<Candidate>>): seq<Candidate> {
    if tiers == [] then [] else Flatten(tiers[..|tiers| - 1]) + tiers[|tiers| - 1]
  }

  function Elements<T>(s: seq<T>): set<T> {
    set x | x in s
  }

  /** What one unambiguous tier adds, whatever its order. */
  function TierAdds(chosen: set<Candidate>, tier: set<Candidate>): set<Candidate> {
    chosen + set p | p in tier && !Blocked(p, chosen)
  }

  /** Two candidates of the tier that are still free share a column. */
  predicate Contended(chosen: set<Candidate>, tier: set<Candidate>) {
    exists p, q :: p in tier && q in tier && p != q && Shares(p, q) && !Blocked(p, chosen) && !Blocked(q, chosen)
  }

  lemma {:induction false} TierInAnyOrder(before: seq<Candidate>, tier: seq<Candidate>)
    requires Distinct(tier) && !Contended(Greedy(before), Elements(tier))
    ensures Greedy(before + tier) == TierAdds(Greedy(before), Elements(tier))
  {
    if tier == [] {
      assert before + tier == before;
    } else {
      var less, p := tier[..|tier| - 1], tier[|tier| - 1];
      assert Elements(less) <= Elements(tier);
      assert (before + tier)[..|before + tier| - 1] == before + less;
      TierInAnyOrder(before, less);
      assert Elements(tier) == Elements(less) + {p} by { assert tier == less + [p]; }
      assert p !in less;
      FreeOfTheRest(tier, Greedy(before));
      hide Contended, Distinct, Blocked, Shares, TierAdds;
      BlockedEarlier(p, Greedy(before), Elements(less));
      AddedLast(p, Greedy(before), Elements(less));
    }
  }

  lemma FreeOfTheRest(tier: seq<Candidate>, chosen: set<Candidate>)
    requires tier != [] && Distinct(tier) && !Contended(chosen, Elements(tier))
    ensures var less, p := tier[..|tier| - 1], tier[|tier| - 1];
      forall q :: q in Elements(less) && !Blocked(q, chosen) ==> Blocked(p, chosen) || !Shares(p, q)
  {
    var less, p := tier[..|tier| - 1], tier[|tier| - 1];
    forall q | q in Elements(less) && !Blocked(q, chosen) ensures Blocked(p, chosen) || !Shares(p, q) {
      assert q in Elements(tier) && p in Elements(tier) && q != p;
    }
  }

  /** What greedy does with the last candidate of a tier. */
  lemma AddedLast(p: Candidate, chosen: set<Candidate>, tier: set<Candidate>)
    requires Blocked(p, TierAdds(chosen, tier)) <==> Blocked(p, chosen)
    ensures TierAdds(chosen, tier + {p}) ==
      if Blocked(p, TierAdds(chosen, tier)) then TierAdds(chosen, tier) else TierAdds(chosen, tier) + {p}
  {
  }

  lemma BlockedEarlier(p: Candidate, chosen: set<Candidate>, tier: set<Candidate>)
    requires forall q :: q in tier && !Blocked(q, chosen) ==> Blocked(p, chosen) || !Shares(p, q)
    ensures Blocked(p, TierAdds(chosen, tier)) <==> Blocked(p, chosen)
    ensures TierAdds(chosen, tier + {p}) == TierAdds(chosen, tier) + (if Blocked(p, chosen) then {} else {p})
  {
  }

  /** Without an ambiguous tier the chosen set does not depend on the order inside the tiers. */
  lemma {:induction false} OrderInsideTiersIsIrrelevant(a: seq<seq<Candidate>>, b: seq<seq<Candidate>>)
    requires |a| == |b|
    requires forall t :: 0 <= t < |a| ==> Distinct(a[t]) && Distinct(b[t]) && Elements(a[t]) == Elements(b[t])
    requires forall t :: 0 <= t < |a| ==> !Ambiguous(Elements(a[t]))
    ensures Greedy(Flatten(a)) == Greedy(Flatten(b))
  {
    if a != [] {
      var n := |a| - 1;
      OrderInsideTiersIsIrrelevant(a[..n], b[..n]);
      TierInAnyOrder(Flatten(a[..n]), a[n]);
      TierInAnyOrder(Flatten(b[..n]), b[n]);
    }
  }

  // ----- when the order matters

  /** After the same earlier tiers, another order of the tier gives another result. */
  ghost predicate OrderMatters(before: seq<Candidate>, tier: seq<Candidate>) {
    exists other :: Distinct(other) && Elements(other) == Elements(tier) && Greedy(before + other) != Greedy(before + tier)
  }

  lemma FirstIsChosen(before: seq<Candidate>, p: Candidate, rest: seq<Candidate>)
    requires !Blocked(p, Greedy(before))
    ensures p in Greedy(before + ([p] + rest))
  {
    var list := before + ([p] + rest);
    assert list[..|before| + 1] == before + [p];
    assert (before + [p])[..|before|] == before;
    GreedyPrefix(list, |before| + 1);
  }

  lemma MovedToFront(tier: seq<Candidate>, p: Candidate) returns (rest: seq<Candidate>)
    requires Distinct(tier) && p in tier
    ensures Distinct([p] + rest) && Elements([p] + rest) == Elements(tier)
  {
    var i :| 0 <= i < |tier| && tier[i] == p;
    rest := tier[..i] + tier[i + 1..];
    assert tier == tier[..i] + [p] + tier[i + 1..];
  }

  /** The order inside a tier matters exactly when two candidates of it that the earlier tiers left free share a column. */
  lemma OrderMattersExactly(before: seq<Candidate>, tier: seq<Candidate>)
    requires Distinct(tier)
    ensures OrderMatters(before, tier) <==> Contended(Greedy(before), Elements(tier))
  {
    if Contended(Greedy(before), Elements(tier)) {
      var p, q :| p in Elements(tier) && q in Elements(tier) && p != q && Shares(p, q)
        && !Blocked(p, Greedy(before)) && !Blocked(q, Greedy(before));
      GreedyDraws(before + tier);
      var x := if p in Greedy(before + tier) then q else p;
      var rest := MovedToFront(tier, x);
      FirstIsChosen(before, x, rest);
    } else {
      TierInAnyOrder(before, tier);
      forall other | Distinct(other) && Elements(other) == Elements(tier) ensures Greedy(before + other) == Greedy(before + tier) {
        TierInAnyOrder(before, other);
      }
    }
  }

  /** So it does in a first tier that is ambiguous. */
  lemma AmbiguousTierDependsOnOrder(tier: seq<Candidate>)
    requires Distinct(tier)
    ensures OrderMatters([], tier) <==> Ambiguous(Elements(tier))
  {
    OrderMattersExactly([], tier);
  }
}
