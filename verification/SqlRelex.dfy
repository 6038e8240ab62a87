/** A statement cut out of a patch lexes, wherever it is put, as it did inside the patch. */
module SqlRelex {
  import opened Lexical
  import opened SqlSplitter

  // ----- one segment: its text and where it ends

  function Rest(t: string, p: nat): string
    requires p <= |t|
    decreases |t| - p
  {
    if p == |t| || t[p] == ';' then ""
    else if Dashes(t, p) then
      assert t[p] != '\n' && Find(t, '\n', p) == Find(t, '\n', p + 1);
      Rest(t, Find(t, '\n', p))
    else t[p..TokEnd(t, p)] + Rest(t, TokEnd(t, p))
  }

  /** The semicolon that ends the segment at `p`, or the length. */
  function SemiAt(t: string, p: nat): (q: nat)
    requires p <= |t|
    ensures p <= q <= |t| && (q < |t| ==> t[q] == ';')
    decreases |t| - p
  {
    if p == |t| || t[p] == ';' then p
    else if Dashes(t, p) then
      assert t[p] != '\n' && Find(t, '\n', p) == Find(t, '\n', p + 1);
      SemiAt(t, Find(t, '\n', p))
    else SemiAt(t, TokEnd(t, p))
  }

  /** One token, or one line comment, further. */
  lemma SegmentStep(t: string, p: nat, cur: string)
    requires p < |t| && t[p] != ';'
    ensures var q := if Dashes(t, p) then Find(t, '\n', p) else TokEnd(t, p);
      var piece := if Dashes(t, p) then "" else t[p..q];
      p < q <= |t| && Segments(t, p, cur) == Segments(t, q, cur + piece) && Rest(t, p) == piece + Rest(t, q) && SemiAt(t, p) == SemiAt(t, q)
  {
    hide TokEnd;
    if Dashes(t, p) {
      assert t[p] != '\n' && Find(t, '\n', p) == Find(t, '\n', p + 1);
      assert cur + "" == cur;
    }
  }

  lemma {:induction false} SegmentsAre(t: string, p: nat, cur: string)
    requires p <= |t|
    ensures var q := SemiAt(t, p);
      Segments(t, p, cur) == [cur + Rest(t, p)] + (if q < |t| then Segments(t, q + 1, "") else [])
    decreases |t| - p
  {
    if p == |t| || t[p] == ';' {
      assert cur + "" == cur;
    } else {
      SegmentStep(t, p, cur);
      hide Segments, Rest, SemiAt, TokEnd, Find, Dashes;
      var q := if Dashes(t, p) then Find(t, '\n', p) else TokEnd(t, p);
      var piece := if Dashes(t, p) then "" else t[p..q];
      SegmentsAre(t, q, cur + piece);
      assert cur + piece + Rest(t, q) == cur + (piece + Rest(t, q));
    }
  }

  // ----- the same characters in two texts

  /** `u` carries at `b` the `m` characters `t` carries at `a`. */
  predicate Same(t: string, a: nat, u: string, b: nat, m: nat) {
    a + m <= |t| && b + m <= |u| && forall k :: a <= k < a + m ==> t[k] == u[b + (k - a)]
  }

  /** From `a` on, `u` ends at `b + m` where `t` has nothing left but white space. */
  predicate Ends(t: string, a: nat, u: string, b: nat) {
    b <= |u| && Same(t, a, u, b, |u| - b) && forall k :: a + (|u| - b) <= k < |t| ==> IsSpace(t[k])
  }

  lemma EndsFrom(t: string, a: nat, u: string, b: nat, n: nat)
    requires Ends(t, a, u, b) && n <= |u| - b
    ensures Ends(t, a + n, u, b + n)
  {
    forall k | a + n <= k < a + n + (|u| - b - n) ensures t[k] == u[b + n + (k - a - n)] {
      assert u[b + (k - a)] == t[k];
    }
  }

  /** Where `t` carries something else than white space, `u` still carries it. */
  lemma EndsSolid(t: string, a: nat, u: string, b: nat, k: nat)
    requires Ends(t, a, u, b) && a <= k < |t| && !IsSpace(t[k])
    ensures b + (k - a) < |u| && u[b + (k - a)] == t[k]
  {
  }

  // ----- quotes

  lemma {:induction false} QuoteWhole(t: string, c: char, a: nat, u: string, b: nat, j: nat)
    requires a <= |t| && QuoteEnd(t, c, a) == j < |t| && Same(t, a, u, b, j - a)
    requires b + (j - a) == |u| || u[b + (j - a)] != c
    ensures QuoteEnd(u, c, b) == b + (j - a) && t[j - 1] == c && j > a && t[j] != c
    decreases j - a
  {
    assert t[a] == u[b + (a - a)];
    if t[a] != c {
      SameFrom(t, a, u, b, j - a, 1);
      QuoteWhole(t, c, a + 1, u, b + 1, j);
    } else if t[a + 1] == c {
      assert t[a + 1] == u[b + (a + 1 - a)];
      SameFrom(t, a, u, b, j - a, 2);
      QuoteWhole(t, c, a + 2, u, b + 2, j);
    }
  }

  lemma SameFrom(t: string, a: nat, u: string, b: nat, m: nat, n: nat)
    requires Same(t, a, u, b, m) && n <= m
    ensures Same(t, a + n, u, b + n, m - n)
  {
    forall k | a + n <= k < a + m ensures t[k] == u[b + n + (k - a - n)] {
      assert t[k] == u[b + (k - a)];
    }
  }

  lemma {:induction false} QuoteCut(t: string, c: char, a: nat, u: string, b: nat)
    requires a <= |t| && QuoteEnd(t, c, a) == |t| && Ends(t, a, u, b) && !IsSpace(c)
    ensures QuoteEnd(u, c, b) == |u|
    decreases |u| - b
  {
    if b < |u| {
      assert t[a] == u[b + (a - a)];
      if t[a] != c {
        EndsFrom(t, a, u, b, 1);
        QuoteCut(t, c, a + 1, u, b + 1);
      } else if a + 1 < |t| && t[a + 1] == c {
        EndsSolid(t, a, u, b, a + 1);
        EndsFrom(t, a, u, b, 2);
        QuoteCut(t, c, a + 2, u, b + 2);
      } else {
        assert a + 1 == |t|;
      }
    }
  }

  // ----- block comments

  lemma {:induction false} BlockWhole(t: string, a: nat, u: string, b: nat, j: nat)
    requires a <= |t| && BlockEnd(t, a) == j < |t| && Same(t, a, u, b, j - a)
    ensures BlockEnd(u, b) == b + (j - a) && j >= a + 2 && t[j - 1] == '/'
    decreases j - a
  {
    assert t[a] == u[b + (a - a)];
    if t[a] == '*' && t[a + 1] == '/' {
      assert t[a + 1] == u[b + (a + 1 - a)];
    } else {
      SameFrom(t, a, u, b, j - a, 1);
      BlockWhole(t, a + 1, u, b + 1, j);
      assert t[a + 1] == u[b + (a + 1 - a)];
    }
  }

  lemma {:induction false} BlockCut(t: string, a: nat, u: string, b: nat)
    requires a <= |t| && BlockEnd(t, a) == |t| && Ends(t, a, u, b)
    ensures BlockEnd(u, b) == |u|
    decreases |u| - b
  {
    if b + 1 < |u| {
      assert t[a] == u[b + (a - a)] && t[a + 1] == u[b + (a + 1 - a)];
      if EndsAt(t, a) {
        assert a + 2 == |t|;
      } else {
        EndsFrom(t, a, u, b, 1);
        BlockCut(t, a + 1, u, b + 1);
      }
    }
  }

  // ----- dollar quotes

  lemma {:induction false} TagWhole(t: string, a: nat, u: string, b: nat, started: bool, m: nat)
    requires a <= |t| && TagRest(t, a, started) > 0 && Same(t, a, u, b, m) && TagRest(t, a, started) <= a + m
    ensures TagRest(u, b, started) == b + (TagRest(t, a, started) - a)
    decreases m
  {
    assert t[a] == u[b + (a - a)];
    if t[a] != '$' {
      SameFrom(t, a, u, b, m, 1);
      TagWhole(t, a + 1, u, b + 1, true, m - 1);
    }
  }

  /** No character of a tag is white space. */
  lemma {:induction false} TagSolid(t: string, a: nat, started: bool)
    requires a <= |t| && TagRest(t, a, started) > 0
    ensures forall k :: a <= k < TagRest(t, a, started) ==> !IsSpace(t[k])
    ensures t[TagRest(t, a, started) - 1] == '$'
    decreases |t| - a
  {
    if t[a] != '$' { TagSolid(t, a + 1, true); }
  }

  lemma {:induction false} FindTagIs(u: string, tag: string, p: nat, q: nat)
    requires p <= q <= |u| && (q == |u| || At(u, q, tag)) && forall k: nat :: p <= k < q ==> !At(u, k, tag)
    ensures FindTag(u, tag, p) == q
    decreases q - p
  {
    hide At;
    if p < q { FindTagIs(u, tag, p + 1, q); }
  }

  lemma {:induction false} FindTagMeans(t: string, tag: string, p: nat)
    requires p <= |t|
    ensures var q := FindTag(t, tag, p);
      (q < |t| ==> At(t, q, tag)) && forall k: nat :: p <= k < q ==> !At(t, k, tag)
    decreases |t| - p
  {
    hide At;
    if p < |t| && !At(t, p, tag) { FindTagMeans(t, tag, p + 1); }
  }

  /** An occurrence inside the shared stretch is an occurrence in both texts. */
  lemma AtSame(t: string, a: nat, u: string, b: nat, m: nat, k: nat, tag: string)
    requires Same(t, a, u, b, m) && a <= k && k + |tag| <= a + m
    ensures At(t, k, tag) <==> At(u, b + (k - a), tag)
  {
    if At(u, b + (k - a), tag) {
      forall i | 0 <= i < |tag| ensures t[k + i] == tag[i] {
        assert u[b + (k - a) + i] == tag[i] && t[k + i] == u[b + ((k + i) - a)];
      }
    }
    if At(t, k, tag) {
      forall i | 0 <= i < |tag| ensures u[b + (k - a) + i] == tag[i] {
        assert t[k + i] == tag[i] && t[k + i] == u[b + ((k + i) - a)];
      }
    }
  }

  lemma SliceSame(t: string, a: nat, u: string, b: nat, m: nat, n: nat)
    requires Same(t, a, u, b, m) && n <= m
    ensures t[a..a + n] == u[b..b + n]
  {
    var x, y := t[a..a + n], u[b..b + n];
    forall k | 0 <= k < n ensures x[k] == y[k] {
      assert t[a + k] == u[b + (a + k - a)];
    }
  }

  /** The closing tag is found at the same place of the copy. */
  lemma FindTagWhole(t: string, i: nat, u: string, p: nat, n: nat, m: nat, tag: string)
    requires Same(t, i, u, p, m) && |tag| == n > 0 && i + n <= |t|
    requires var e := FindTag(t, tag, i + n); e < |t| && m == e + n - i
    ensures FindTag(u, tag, p + n) == p + m - n
  {
    hide At, Same;
    var e := FindTag(t, tag, i + n);
    FindTagMeans(t, tag, i + n);
    AtSame(t, i, u, p, m, e, tag);
    forall k: nat | p + n <= k < p + (e - i) ensures !At(u, k, tag) {
      AtSame(t, i, u, p, m, i + (k - p), tag);
    }
    SameLong(t, i, u, p, m);
    FindTagIs(u, tag, p + n, p + (e - i));
  }

  lemma SameLong(t: string, i: nat, u: string, p: nat, m: nat)
    requires Same(t, i, u, p, m)
    ensures i + m <= |t| && p + m <= |u|
  {
  }

  /** Behind the closing tag, or the end of the text. */
  function TagEnd(t: string, tag: string, p: nat): nat
    requires p <= |t|
  {
    var e := FindTag(t, tag, p); if e == |t| then e else e + |tag|
  }

  /** A dollar-quoted body, by its opening tag. */
  lemma DollarIs(t: string, i: nat, q: nat)
    requires i < |t| && TagRest(t, i + 1, false) == q > 0
    ensures i + 1 < q <= |t| && t[q - 1] == '$' && |t[i..q]| == q - i
    ensures DollarEnd(t, i) == TagEnd(t, t[i..q], q)
  {
    TagSolid(t, i + 1, false);
    hide FindTag, TagRest;
  }

  /** The copy opens with the same tag. */
  lemma SameTag(t: string, i: nat, u: string, p: nat, m: nat, q: nat)
    requires i < |t| && TagRest(t, i + 1, false) == q > 0 && q <= i + m && Same(t, i, u, p, m)
    ensures i + 1 < q <= |t| && p < |u| && p + (q - i) <= |u|
    ensures TagRest(u, p + 1, false) == p + (q - i) && u[p..p + (q - i)] == t[i..q]
  {
    hide Same, FindTag;
    DollarIs(t, i, q);
    SameLong(t, i, u, p, m);
    SameFrom(t, i, u, p, m, 1);
    TagWhole(t, i + 1, u, p + 1, false, m - 1);
    SliceSame(t, i, u, p, m, q - i);
  }

  lemma TagEndWhole(t: string, i: nat, u: string, p: nat, n: nat, j: nat, tag: string)
    requires |tag| == n > 0 && i + n <= |t| && TagEnd(t, tag, i + n) == j < |t| && Same(t, i, u, p, j - i) && j >= i + n
    ensures p + n <= |u| && TagEnd(u, tag, p + n) == p + (j - i) && j >= i + 2 * n && t[j - 1] == tag[n - 1]
  {
    var e := FindTag(t, tag, i + n);
    FindTagMeans(t, tag, i + n);
    hide At, Same, FindTag;
    SameLong(t, i, u, p, j - i);
    AtChar(t, e, tag, n - 1);
    FindTagWhole(t, i, u, p, n, j - i, tag);
  }

  lemma DollarWhole(t: string, i: nat, u: string, p: nat, j: nat)
    requires i < |t| && TagRest(t, i + 1, false) > 0 && DollarEnd(t, i) == j < |t| && Same(t, i, u, p, j - i)
    ensures p < |u| && TagRest(u, p + 1, false) > 0 && DollarEnd(u, p) == p + (j - i) && t[j - 1] == '$' && j >= i + 2
  {
    var q := TagRest(t, i + 1, false);
    hide At, Same, TagRest, DollarEnd;
    DollarIs(t, i, q);
    var n, tag := q - i, t[i..q];
    assert tag[n - 1] == '$';
    assert j >= q by { hide FindTag; }
    SameTag(t, i, u, p, j - i, q);
    DollarIs(u, p, p + n);
    hide TagEnd, FindTag;
    TagEndWhole(t, i, u, p, n, j, tag);
  }

  lemma FindTagCut(t: string, i: nat, u: string, p: nat, n: nat, tag: string)
    requires Ends(t, i, u, p) && i + n <= |t| && n <= |u| - p && |tag| == n > 0 && !IsSpace(tag[n - 1])
    requires var e := FindTag(t, tag, i + n); e == |t| || e + n == |t|
    ensures FindTag(u, tag, p + n) == if FindTag(t, tag, i + n) == |t| then |u| else |u| - n
  {
    hide At;
    var e, m := FindTag(t, tag, i + n), |u| - p;
    FindTagMeans(t, tag, i + n);
    if e < |t| {
      AtChar(t, e, tag, n - 1);
      EndsSolid(t, i, u, p, |t| - 1);
      AtSame(t, i, u, p, m, e, tag);
      forall k: nat | p + n <= k < |u| - n ensures !At(u, k, tag) {
        AtSame(t, i, u, p, m, i + (k - p), tag);
      }
      FindTagIs(u, tag, p + n, |u| - n);
    } else {
      forall k: nat | p + n <= k < |u| ensures !At(u, k, tag) {
        NoTagInside(t, i, u, p, m, k, tag);
      }
      FindTagIs(u, tag, p + n, |u|);
    }
  }

  lemma EndsSame(t: string, i: nat, u: string, p: nat)
    requires Ends(t, i, u, p)
    ensures p <= |u| && Same(t, i, u, p, |u| - p)
  {
  }

  lemma DollarCut(t: string, i: nat, u: string, p: nat)
    requires i < |t| && p < |u| && t[i] == '$' && TagRest(t, i + 1, false) > 0 && DollarEnd(t, i) == |t| && Ends(t, i, u, p)
    ensures TagRest(u, p + 1, false) > 0 && DollarEnd(u, p) == |u|
  {
    var q := TagRest(t, i + 1, false);
    hide At, TagRest, DollarEnd, FindTag, Same, Ends;
    DollarIs(t, i, q);
    var n, tag := q - i, t[i..q];
    assert tag[n - 1] == '$';
    EndsSame(t, i, u, p);
    EndsSolid(t, i, u, p, q - 1);
    SameTag(t, i, u, p, |u| - p, q);
    DollarIs(u, p, p + n);
    TagCutEnd(t, i, u, p, n, tag);
  }

  lemma TagCutEnd(t: string, i: nat, u: string, p: nat, n: nat, tag: string)
    requires Ends(t, i, u, p) && i + n <= |t| && n <= |u| - p && |tag| == n > 0 && !IsSpace(tag[n - 1])
    requires var e := FindTag(t, tag, i + n); e == |t| || e + n == |t|
    ensures var f := FindTag(u, tag, p + n); f == |u| || f + n == |u|
  {
    hide At, FindTag, Same, Ends;
    FindTagCut(t, i, u, p, n, tag);
  }

  lemma NoTagInside(t: string, i: nat, u: string, p: nat, m: nat, k: nat, tag: string)
    requires Same(t, i, u, p, m) && p + m == |u| && p <= k && !At(t, i + (k - p), tag)
    ensures !At(u, k, tag)
  {
    if k + |tag| <= |u| { AtSame(t, i, u, p, m, i + (k - p), tag); }
  }
}
