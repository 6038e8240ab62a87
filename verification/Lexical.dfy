/** Character classes and position-based scanning shared by the SQL lexers. */
module Lexical {

  /** White space and line terminators: what `\s` matches and `trim` removes. */
  predicate IsSpace(c: char) {
    var n := c as int;
    || 0x09 <= n <= 0x0D || n == 0x20 || n == 0xA0 || n == 0x1680 || 0x2000 <= n <= 0x200A
    || n == 0x2028 || n == 0x2029 || n == 0x202F || n == 0x205F || n == 0x3000 || n == 0xFEFF
  }

  predicate IsLetter(c: char) { 'a' <= c <= 'z' || 'A' <= c <= 'Z' }
  predicate IsWordStart(c: char) { IsLetter(c) || c == '_' }
  predicate IsWordChar(c: char) { IsWordStart(c) || '0' <= c <= '9' }

  function Upper(c: char): char {
    if 'a' <= c <= 'z' then (c as int - 32) as char else c
  }

  /** `t` carries `word` at `p`, letter case aside. */
  predicate Keyword(t: string, p: nat, word: string) {
    p + |word| <= |t| && forall k :: 0 <= k < |word| ==> Upper(t[p + k]) == word[k]
  }

  /** `t` carries exactly `s` at `p`. */
  predicate At(t: string, p: nat, s: string) {
    p + |s| <= |t| && forall k :: 0 <= k < |s| ==> t[p + k] == s[k]
  }

  lemma AtSplit(t: string, p: nat, a: string, b: string)
    requires At(t, p, a + b)
    ensures At(t, p, a) && At(t, p + |a|, b) && p + |a| + |b| <= |t|
  {
    var s := a + b;
    forall k | 0 <= k < |a| ensures t[p + k] == a[k] { assert s[k] == a[k]; }
    forall k | 0 <= k < |b| ensures t[p + |a| + k] == b[k] { assert t[p + (|a| + k)] == s[|a| + k]; }
  }

  lemma AtChar(t: string, p: nat, s: string, k: nat)
    requires At(t, p, s) && k < |s|
    ensures p + k < |t| && t[p + k] == s[k]
  {
  }

  lemma AtStart(t: string)
    ensures At(t, 0, t)
  {
  }

  lemma AtSlice(t: string, p: nat, s: string)
    requires At(t, p, s)
    ensures p + |s| <= |t| && t[p..p + |s|] == s
  {
    forall k | 0 <= k < |s| ensures t[p..p + |s|][k] == s[k] { AtChar(t, p, s, k); }
  }

  /** `c` does not occur in `t` from `p` up to `q`. */
  predicate Free(t: string, p: nat, q: nat, c: char)
    requires p <= q <= |t|
  {
    forall k :: p <= k < q ==> t[k] != c
  }

  lemma AtFree(t: string, p: nat, s: string, c: char)
    requires At(t, p, s) && c !in s
    ensures Free(t, p, p + |s|, c)
  {
    forall k | p <= k < p + |s| ensures t[k] != c { AtChar(t, p, s, k - p); }
  }

  /** Position of the first `c` from `p` on, or the length. */
  function Find(t: string, c: char, p: nat): (q: nat)
    requires p <= |t|
    ensures p <= q <= |t|
    decreases |t| - p
  {
    if p == |t| || t[p] == c then p else Find(t, c, p + 1)
  }

  /** Position after the first star and slash from `p` on, or the length. */
  function BlockEnd(t: string, p: nat): (q: nat)
    requires p <= |t|
    ensures p <= q <= |t|
    decreases |t| - p
  {
    if p + 1 >= |t| then |t| else if t[p] == '*' && t[p + 1] == '/' then p + 2 else BlockEnd(t, p + 1)
  }

  function Spaces(t: string, p: nat): (q: nat)
    requires p <= |t|
    ensures p <= q <= |t|
    decreases |t| - p
  {
    if p == |t| || !IsSpace(t[p]) then p else Spaces(t, p + 1)
  }

  function WordEnd(t: string, p: nat): (q: nat)
    requires p <= |t|
    ensures p <= q <= |t|
    decreases |t| - p
  {
    if p == |t| || !IsWordChar(t[p]) then p else WordEnd(t, p + 1)
  }

  lemma {:induction false} FindIs(t: string, c: char, p: nat, q: nat)
    requires p <= q < |t| && t[q] == c && Free(t, p, q, c)
    ensures Find(t, c, p) == q
    decreases q - p
  {
    if p < q { FindIs(t, c, p + 1, q); }
  }

  predicate EndsAt(t: string, k: nat) { k + 1 < |t| && t[k] == '*' && t[k + 1] == '/' }

  /** No comment end starts from `p` up to `q`. */
  predicate NoneEnd(t: string, p: nat, q: nat) { forall k: nat :: p <= k < q ==> !EndsAt(t, k) }

  lemma {:induction false} BlockEndIs(t: string, p: nat, q: nat)
    requires p <= q && EndsAt(t, q) && NoneEnd(t, p, q)
    ensures BlockEnd(t, p) == q + 2
    decreases q - p
  {
    if p < q {
      assert !EndsAt(t, p);
      BlockEndIs(t, p + 1, q);
    }
  }

  lemma {:induction false} SpacesIs(t: string, p: nat, q: nat)
    requires p <= q <= |t| && (forall k :: p <= k < q ==> IsSpace(t[k])) && (q == |t| || !IsSpace(t[q]))
    ensures Spaces(t, p) == q
    decreases q - p
  {
    if p < q { SpacesIs(t, p + 1, q); }
  }

  lemma {:induction false} WordEndIs(t: string, p: nat, q: nat)
    requires p <= q <= |t| && (forall k :: p <= k < q ==> IsWordChar(t[k])) && (q == |t| || !IsWordChar(t[q]))
    ensures WordEnd(t, p) == q
    decreases q - p
  {
    if p < q { WordEndIs(t, p + 1, q); }
  }
}
