/** What is left of a patch segment after stripping, and what its statements do to the transaction they run in. */
module PatchStatements {

  /** `EndTx` is a control that ends the transaction and survived stripping: whether it commits, and whether it chains, that
      is, opens the next transaction at once. `OpenTx` is a `BEGIN` that survived. */
  datatype Stmt = Effect(tag: int) | EndTx(commits: bool, chain: bool) | OpenTx

  function Effects(stmts: seq<Stmt>): seq<int> {
    if stmts == [] then []
    else (if stmts[0].Effect? then [stmts[0].tag] else []) + Effects(stmts[1..])
  }

  // ----- the statements sent inside an open transaction, read from the text alone

  /** Statement `k` stands in a transaction that was opened explicitly: every unchained control before it is followed, before
      `k`, by a `BEGIN`. */
  predicate InTx(stmts: seq<Stmt>, k: nat) {
    forall i :: 0 <= i < k && i < |stmts| && Unchained(stmts[i]) ==> Reopened(stmts, i, k)
  }

  predicate Unchained(s: Stmt) {
    s.EndTx? && !s.chain
  }

  predicate Reopened(stmts: seq<Stmt>, i: nat, k: nat) {
    exists j :: i < j < k && j < |stmts| && stmts[j].OpenTx?
  }

  /** A chained control outside such a transaction is an error. */
  predicate Refused(stmts: seq<Stmt>, k: nat) {
    k < |stmts| && stmts[k].EndTx? && stmts[k].chain && !InTx(stmts, k)
  }

  /** The first `k` statements are accepted. */
  predicate Accepted(stmts: seq<Stmt>, k: nat) {
    forall i :: 0 <= i < k ==> !Refused(stmts, i)
  }

  /** An effect with the control behind it. */
  predicate EndedBy(stmts: seq<Stmt>, i: nat, k: nat) {
    i < k < |stmts| && stmts[i].Effect? && stmts[k].EndTx? && forall x :: i < x < k ==> !stmts[x].EndTx?
  }

  /** A control commits an effect before the patch is registered. */
  predicate CommitsEarly(stmts: seq<Stmt>) {
    exists i, k :: 0 <= i < k < |stmts| && EndedBy(stmts, i, k) && stmts[k].commits && Accepted(stmts, k + 1)
  }

  predicate EffectsLast(stmts: seq<Stmt>) {
    forall i, k :: 0 <= i < k < |stmts| && stmts[i].Effect? ==> !stmts[k].EndTx?
  }

  /** Either every control stands before every effect and the last transaction is explicit, or the patch can never pass and
      commits nothing on its way. */
  predicate Harmless(stmts: seq<Stmt>) {
    if Accepted(stmts, |stmts|) then InTx(stmts, |stmts|) && EffectsLast(stmts) else !CommitsEarly(stmts)
  }

  predicate NoControls(stmts: seq<Stmt>) {
    forall i :: 0 <= i < |stmts| ==> stmts[i].Effect?
  }

  /** For example: nothing survived. */
  lemma NoControlsHarmless(stmts: seq<Stmt>)
    requires NoControls(stmts)
    ensures Harmless(stmts)
  {
  }

  /** When every control that survived chains: exactly when no effect stands before one. */
  lemma ChainedHarmless(stmts: seq<Stmt>)
    requires forall i :: 0 <= i < |stmts| ==> !Unchained(stmts[i])
    ensures Harmless(stmts) <==> EffectsLast(stmts)
  {
  }

  /** When none reopens and none is refused: exactly when all controls chain and stand before the effects. */
  lemma UnchainedHarmful(stmts: seq<Stmt>)
    requires Accepted(stmts, |stmts|) && forall i :: 0 <= i < |stmts| ==> !stmts[i].OpenTx?
    ensures Harmless(stmts) <==> EffectsLast(stmts) && forall i :: 0 <= i < |stmts| ==> !Unchained(stmts[i])
  {
  }

  /** A patch that is always refused is harmless, an unchained control in it or not. */
  lemma RefusedIsHarmless()
    ensures Harmless([EndTx(true, false), EndTx(true, true), Effect(1)])
  {
    var s := [EndTx(true, false), EndTx(true, true), Effect(1)];
    assert Unchained(s[0]) && !Reopened(s, 0, 1);
    assert Refused(s, 1);
  }

  // ----- the effects that are still pending

  /** Behind the last control among the first `k` statements. */
  function LastEnd(stmts: seq<Stmt>, k: nat): (e: nat)
    requires k <= |stmts|
    ensures e <= k && forall x :: e <= x < k ==> !stmts[x].EndTx?
    ensures e > 0 ==> stmts[e - 1].EndTx?
  {
    if k == 0 then 0 else if stmts[k - 1].EndTx? then k else LastEnd(stmts, k - 1)
  }

  function Held(stmts: seq<Stmt>, k: nat): seq<int>
    requires k <= |stmts|
  {
    Effects(stmts[LastEnd(stmts, k)..k])
  }

  lemma {:induction false} EffectsAppend(s: seq<Stmt>, t: Stmt)
    ensures Effects(s + [t]) == Effects(s) + (if t.Effect? then [t.tag] else [])
  {
    if s == [] { assert s + [t] == [t]; } else {
      assert (s + [t])[0] == s[0] && (s + [t])[1..] == s[1..] + [t];
      EffectsAppend(s[1..], t);
    }
  }

  lemma {:induction false} EffectsConcat(a: seq<Stmt>, b: seq<Stmt>)
    ensures Effects(a + b) == Effects(a) + Effects(b)
  {
    if a == [] { assert a + b == b && Effects(a) == [] && [] + Effects(b) == Effects(b); } else {
      assert (a + b)[0] == a[0] && (a + b)[1..] == a[1..] + b;
      EffectsConcat(a[1..], b);
    }
  }

  lemma HeldStep(stmts: seq<Stmt>, k: nat)
    requires k < |stmts|
    ensures Held(stmts, k + 1) == match stmts[k]
      case Effect(t) => Held(stmts, k) + [t]
      case EndTx(_, _) => []
      case OpenTx => Held(stmts, k)
  {
    var e := LastEnd(stmts, k);
    if !stmts[k].EndTx? {
      assert stmts[e..k + 1] == stmts[e..k] + [stmts[k]];
      EffectsAppend(stmts[e..k], stmts[k]);
    }
  }

  lemma {:induction false} SomeEffect(s: seq<Stmt>) returns (i: nat)
    requires Effects(s) != []
    ensures i < |s| && s[i].Effect?
  {
    if s[0].Effect? { i := 0; } else {
      i := SomeEffect(s[1..]);
      i := i + 1;
    }
  }

  lemma {:induction false} HasEffect(s: seq<Stmt>, i: nat)
    requires i < |s| && s[i].Effect?
    ensures Effects(s) != []
  {
    if i > 0 { HasEffect(s[1..], i - 1); }
  }

  /** What is pending at a control is what it ends. */
  lemma HeldAtEnd(stmts: seq<Stmt>, k: nat)
    requires k < |stmts| && stmts[k].EndTx?
    ensures Held(stmts, k) != [] <==> exists i :: 0 <= i < k && EndedBy(stmts, i, k)
  {
    var e := LastEnd(stmts, k);
    if Held(stmts, k) != [] {
      var i := SomeEffect(stmts[e..k]);
      assert stmts[e..k][i] == stmts[e + i];
      assert EndedBy(stmts, e + i, k);
    }
    if i :| 0 <= i < k && EndedBy(stmts, i, k) {
      assert i >= e;
      assert stmts[e..k][i - e] == stmts[i];
      HasEffect(stmts[e..k], i - e);
    }
  }

  lemma HeldCommitsEarly(stmts: seq<Stmt>, k: nat)
    requires k < |stmts| && stmts[k].EndTx? && stmts[k].commits && Accepted(stmts, k + 1) && Held(stmts, k) != []
    ensures CommitsEarly(stmts)
  {
    HeldAtEnd(stmts, k);
    hide Held, Accepted;
  }

  lemma HarmlessNeverEarly(stmts: seq<Stmt>)
    requires Harmless(stmts)
    ensures !CommitsEarly(stmts)
  {
    hide InTx, Accepted;
  }

  lemma {:induction false} NothingBeforeEnd(stmts: seq<Stmt>, e: nat)
    requires e <= |stmts| && (e > 0 ==> stmts[e - 1].EndTx?) && forall x :: e <= x < |stmts| ==> !stmts[x].EndTx?
    ensures Effects(stmts[..e]) == [] <==> EffectsLast(stmts)
  {
    var a := stmts[..e];
    if Effects(a) != [] {
      var i := SomeEffect(a);
      hide Effects;
      assert i < e - 1 && stmts[i].Effect? && stmts[e - 1].EndTx?;
    }
    if !EffectsLast(stmts) {
      var i, k :| 0 <= i < k < |stmts| && stmts[i].Effect? && stmts[k].EndTx?;
      assert a[i] == stmts[i];
      HasEffect(a, i);
    }
  }

  /** In the end everything is pending exactly when no effect stands before a control. */
  lemma {:induction false} AllHeld(stmts: seq<Stmt>)
    ensures Held(stmts, |stmts|) == Effects(stmts) <==> EffectsLast(stmts)
  {
    var e := LastEnd(stmts, |stmts|);
    NothingBeforeEnd(stmts, e);
    EffectsConcat(stmts[..e], stmts[e..|stmts|]);
    assert stmts[..e] + stmts[e..|stmts|] == stmts;
    hide *;
    Tail(Effects(stmts[..e]), Held(stmts, |stmts|));
  }

  lemma Tail(a: seq<int>, b: seq<int>)
    ensures b == a + b <==> a == []
  {
    if a == [] { assert a + b == b; } else { assert |a + b| > |b|; }
  }

  lemma InTxStep(stmts: seq<Stmt>, k: nat)
    requires k < |stmts|
    ensures InTx(stmts, k + 1) <==> stmts[k].OpenTx? || (InTx(stmts, k) && !Unchained(stmts[k]))
  {
    if stmts[k].OpenTx? {
      forall i | 0 <= i < k + 1 && Unchained(stmts[i]) ensures Reopened(stmts, i, k + 1) { assert i < k; }
    } else {
      forall i | 0 <= i < k ensures Reopened(stmts, i, k + 1) <==> Reopened(stmts, i, k) { }
      assert !Reopened(stmts, k, k + 1);
      if InTx(stmts, k + 1) {
        forall i | 0 <= i < k && Unchained(stmts[i]) ensures Reopened(stmts, i, k) { assert Reopened(stmts, i, k + 1); }
      }
    }
  }
}
