/** Namespacing of branch names: the names of the merged statement never collide. */
module DeferredNames {
  import opened Outcomes
  import opened DeferredMerge

  predicate IsDigit(c: char) { '0' <= c <= '9' }

  lemma {:induction false} DecDigits(n: nat)
    ensures |Dec(n)| > 0
    ensures forall k :: 0 <= k < |Dec(n)| ==> IsDigit(Dec(n)[k])
  {
    if n >= 10 {
      DecDigits(n / 10);
    }
  }

  lemma {:induction false} DecInjective(a: nat, b: nat)
    requires Dec(a) == Dec(b)
    ensures a == b
  {
    DecDigits(a / 10);
    DecDigits(b / 10);
    if a >= 10 && b >= 10 {
      var p, q := Dec(a), Dec(b);
      assert p[..|p| - 1] == Dec(a / 10) && q[..|q| - 1] == Dec(b / 10);
      assert p[|p| - 1] == Digit(a % 10) && q[|q| - 1] == Digit(b % 10);
      DecInjective(a / 10, b / 10);
    }
  }

  /** A namespaced name determines both the op and the local name. */
  lemma NsInjective(i: nat, a: string, j: nat, b: string)
    requires Ns(i) + a == Ns(j) + b
    ensures i == j && a == b
  {
    var x, y := Ns(i) + a, Ns(j) + b;
    var m, n := |Dec(i)|, |Dec(j)|;
    DecDigits(i);
    DecDigits(j);
    assert x[m + 1] == '_' && y[n + 1] == '_';
    assert forall k :: 0 <= k < m ==> x[k + 1] == Dec(i)[k];
    assert forall k :: 0 <= k < n ==> y[k + 1] == Dec(j)[k];
    assert m == n;
    assert x[1..m + 1] == Dec(i) && y[1..n + 1] == Dec(j);
    DecInjective(i, j);
    assert x[|Ns(i)|..] == a && y[|Ns(j)|..] == b;
  }

  lemma ResultNameInjective(i: nat, j: nat)
    requires ResultName(i) == ResultName(j)
    ensures i == j
  {
    assert ResultName(i)[3..] == Dec(i) && ResultName(j)[3..] == Dec(j);
    DecInjective(i, j);
  }

  lemma AbortNameInjective(i: nat, j: nat)
    requires AbortName(i) == AbortName(j)
    ensures i == j
  {
    assert AbortName(i)[4..] == Dec(i) && AbortName(j)[4..] == Dec(j);
    DecInjective(i, j);
  }

  lemma KindsDisjoint(i: nat, j: nat, a: string)
    ensures ResultName(i) != AbortName(j)
    ensures Ns(i) + a != ResultName(j) && Ns(i) + a != AbortName(j)
  {
    assert ResultName(i)[2] == 'r' && AbortName(j)[2] == 'a';
    assert (Ns(i) + a)[0] == 's' && ResultName(j)[0] == '_' && AbortName(j)[0] == '_';
  }

  // ----- whole-word replacement

  /** No branch name is a namespaced branch name, so later passes do not touch renamed words. */
  predicate PassesIndependent(names: seq<string>, ns: string) {
    forall a, b :: a in names && b in names ==> ns + a != b
  }

  lemma {:induction false} RenameOther(w: string, names: seq<string>, ns: string)
    requires w !in names
    ensures RenameWord(w, names, ns) == w
    decreases names
  {
    if names != [] {
      RenameOther(w, names[1..], ns);
    }
  }

  lemma {:induction false} RenameOwn(w: string, names: seq<string>, ns: string)
    requires w in names && PassesIndependent(names, ns)
    ensures RenameWord(w, names, ns) == ns + w
    decreases names
  {
    assert forall b :: b in names[1..] ==> b in names;
    if w == names[0] {
      RenameOther(ns + w, names[1..], ns);
    } else {
      RenameOwn(w, names[1..], ns);
    }
  }

  lemma {:induction false} RenameGrows(w: string, names: seq<string>, ns: string)
    ensures |RenameWord(w, names, ns)| >= |w|
    ensures w in names && ns != "" ==> |RenameWord(w, names, ns)| > |w|
    decreases names
  {
    if names != [] {
      RenameGrows(if w == names[0] then ns + w else w, names[1..], ns);
    }
  }

  /** A column, keyword or literal word survives renaming exactly when no branch carries its name. */
  lemma IdentSurvivesExactly(w: string, names: seq<string>, i: nat)
    ensures RenameTok(Ident(w), names, Ns(i)) == Ident(w) <==> w !in names
  {
    if w in names {
      RenameGrows(w, names, Ns(i));
    } else {
      RenameOther(w, names, Ns(i));
    }
  }

  // ----- the names of the merged statement

  predicate NoDup<T(==)>(s: seq<T>) {
    forall i, j :: 0 <= i < j < |s| ==> s[i] != s[j]
  }

  function BranchNames(bs: seq<MBranch>): seq<string> {
    seq(|bs|, j requires 0 <= j < |bs| => bs[j].name)
  }

  /** Op `i` introduces the name `w` into the merged statement. */
  ghost predicate OpName(w: string, i: nat, op: Op) {
    || w == ResultName(i)
    || (w == AbortName(i) && op.abort != NoAbort)
    || exists n :: n in Names(op.stmt.ctes) && w == Ns(i) + n
  }

  /** One of the first `n` ops introduces it. */
  ghost predicate OpNameBelow(w: string, n: nat, ops: seq<Op>)
    requires n <= |ops|
  {
    exists i :: 0 <= i < n && OpName(w, i, ops[i])
  }

  /** A branch of the merged statement that stands before the `j`-th branch of op `i` has this name. */
  ghost predicate Visible(w: string, i: nat, j: nat, ops: seq<Op>)
    requires i < |ops| && j <= |ops[i].stmt.ctes|
  {
    OpNameBelow(w, i, ops) || exists x :: 0 <= x < j && w == Ns(i) + ops[i].stmt.ctes[x].name
  }

  lemma OpNamesDisjoint(w: string, i: nat, a: Op, j: nat, b: Op)
    requires OpName(w, i, a) && OpName(w, j, b)
    ensures i == j
  {
    if w == ResultName(i) {
      forall n { KindsDisjoint(j, i, n); }
      KindsDisjoint(i, j, "");
      if w == ResultName(j) { ResultNameInjective(i, j); }
    } else if w == AbortName(i) {
      forall n { KindsDisjoint(j, i, n); }
      KindsDisjoint(j, i, "");
      if w == AbortName(j) { AbortNameInjective(i, j); }
    } else {
      var n :| n in Names(a.stmt.ctes) && w == Ns(i) + n;
      KindsDisjoint(i, j, n);
      var m :| m in Names(b.stmt.ctes) && w == Ns(j) + m;
      NsInjective(i, n, j, m);
    }
  }
}
