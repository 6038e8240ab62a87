/** Splitting is stable: the statements of a patch, joined again, split into themselves. */
module SqlRoundTrip {
  import opened Lexical
  import opened SqlSplitter
  import opened SqlRelex

  /** `u` carries at `p` the segment of `t` at `i`, up to trailing white space, and nothing else before
      its own end; it may go on behind a semicolon only where `t` does. */
  predicate Carries(t: string, i: nat, u: string, p: nat, s: string)
    requires i <= |t|
  {
    && s <= Rest(t, i) && AllSpace(Rest(t, i)[|s|..]) && At(u, p, s)
    && var e := p + |s|; e <= |u| && (e == |u| || (u[e] == ';' && SemiAt(t, i) < |t|))
  }

  lemma FirstOfRest(t: string, j: nat)
    requires j <= |t| && Rest(t, j) != ""
    ensures j < |t| && if Dashes(t, j) then Rest(t, j)[0] == '\n' else t[j] != ';' && Rest(t, j)[0] == t[j]
  {
    if Dashes(t, j) {
      assert t[j] != '\n' && Find(t, '\n', j) == Find(t, '\n', j + 1);
      FindStops(t, '\n', j);
    }
  }

  lemma {:induction false} FindStops(t: string, c: char, p: nat)
    requires p <= |t|
    ensures Find(t, c, p) < |t| ==> t[Find(t, c, p)] == c
    decreases |t| - p
  {
    if p < |t| && t[p] != c { FindStops(t, c, p + 1); }
  }

  /** What stands in `u` where `t` goes on at `j`. */
  predicate NextOk(t: string, j: nat, u: string, q: nat) {
    || q == |u|
    || (q < |u| && (u[q] == ';' || (j < |t| && if Dashes(t, j) then u[q] == '\n' else u[q] == t[j])))
  }

  lemma NextChar(t: string, j: nat, u: string, q: nat, s: string)
    requires j <= |t| && Carries(t, j, u, q, s)
    ensures NextOk(t, j, u, q)
  {
    hide Rest, SemiAt;
    if s != "" {
      FirstOfRest(t, j);
      AtChar(u, q, s, 0);
      assert s[0] == Rest(t, j)[0];
    }
  }

  /** One token further. */
  lemma CarriesStep(t: string, i: nat, u: string, p: nat, s: string)
    requires i < |t| && t[i] != ';' && !Dashes(t, i) && Carries(t, i, u, p, s) && |s| >= TokEnd(t, i) - i
    ensures var n := TokEnd(t, i) - i; Same(t, i, u, p, n) && Carries(t, i + n, u, p + n, s[n..])
  {
    hide TokEnd, AllSpace;
    var n := TokEnd(t, i) - i;
    var r := Rest(t, i + n);
    assert Rest(t, i) == t[i..i + n] + r;
    assert SemiAt(t, i) == SemiAt(t, i + n);
    assert s[..n] == t[i..i + n] && s[n..] == r[..|s| - n] && Rest(t, i)[|s|..] == r[|s[n..]|..];
    assert s == s[..n] + s[n..];
    AtSplit(u, p, s[..n], s[n..]);
    AtIsSame(t, i, u, p, n, s[..n]);
  }

  lemma AtIsSame(t: string, i: nat, u: string, p: nat, n: nat, s: string)
    requires i + n <= |t| && s == t[i..i + n] && At(u, p, s)
    ensures Same(t, i, u, p, n)
  {
    forall k | i <= k < i + n ensures t[k] == u[p + (k - i)] {
      AtChar(u, p, s, k - i);
    }
  }

  lemma {:induction false} TagNone(t: string, k: nat, u: string, q: nat, s: string, started: bool)
    requires k <= |t| && Carries(t, k, u, q, s) && TagRest(t, k, started) == 0
    ensures TagRest(u, q, started) == 0
    decreases |t| - k
  {
    hide Rest, SemiAt, AllSpace;
    NextChar(t, k, u, q, s);
    if s != "" && k < |t| && !Dashes(t, k) && (IsWordStart(t[k]) || (started && IsWordChar(t[k]))) {
      assert TokEnd(t, k) == k + 1;
      FirstOfRest(t, k);
      CarriesStep(t, k, u, q, s);
      AtChar(u, q, s, 0);
      TagNone(t, k + 1, u, q + 1, s[1..], true);
    }
  }

  // ----- one token in the other text

  predicate Starts(u: string, p: nat) { p < |u| && !Dashes(u, p) && u[p] != ';' }

  /** A token that is closed, or a single character that opens nothing. */
  lemma TokWhole(t: string, i: nat, u: string, p: nat, j: nat, s: string)
    requires Starts(t, i) && TokEnd(t, i) == j < |t| && Same(t, i, u, p, j - i)
    requires Carries(t, j, u, p + (j - i), s)
    ensures Starts(u, p) && TokEnd(u, p) == p + (j - i)
    ensures j - i >= 2 ==> !IsSpace(t[j - 1])
  {
    hide Rest, SemiAt, AllSpace, QuoteEnd, BlockEnd, DollarEnd, TagRest;
    assert t[i] == u[p + (i - i)];
    var q := p + (j - i);
    NextChar(t, j, u, q, s);
    if Opens(t, i) {
      assert t[i + 1] == u[p + (i + 1 - i)];
      SameFrom(t, i, u, p, j - i, 2);
      BlockWhole(t, i + 2, u, p + 2, j);
    } else if t[i] == '\'' || t[i] == '"' {
      QuoteTok(t, i, u, p, j);
    } else if t[i] == '$' && TagRest(t, i + 1, false) > 0 {
      DollarWhole(t, i, u, p, j);
    } else if t[i] == '$' {
      TagNone(t, j, u, q, s, false);
    }
  }

  lemma QuoteTok(t: string, i: nat, u: string, p: nat, j: nat)
    requires i < |t| && p < |u| && (t[i] == '\'' || t[i] == '"')
    requires QuoteEnd(t, t[i], i + 1) == j < |t| && Same(t, i, u, p, j - i) && NextOk(t, j, u, p + (j - i))
    ensures u[p] == t[i] && QuoteEnd(u, t[i], p + 1) == p + (j - i) && t[j - 1] == t[i] && j - i >= 2
  {
    hide Same, QuoteEnd;
    SameFrom(t, i, u, p, j - i, 1);
    SameAt(t, i, u, p, j - i, 0);
    var end := p + (j - i);
    QuoteNext(t, t[i], i + 1, j);
    QuoteWhole(t, t[i], i + 1, u, p + 1, j);
  }

  lemma SameAt(t: string, i: nat, u: string, p: nat, m: nat, k: nat)
    requires Same(t, i, u, p, m) && k < m
    ensures t[i + k] == u[p + k]
  {
    assert t[i + k] == u[p + ((i + k) - i)];
  }

  lemma {:induction false} QuoteNext(t: string, c: char, a: nat, j: nat)
    requires a <= |t| && QuoteEnd(t, c, a) == j < |t|
    ensures t[j] != c
    decreases |t| - a
  {
    if t[a] != c {
      QuoteNext(t, c, a + 1, j);
    } else if t[a + 1] == c {
      QuoteNext(t, c, a + 2, j);
    }
  }

  /** The last token of a text, possibly never closed, when white space at its end is gone. */
  lemma TokCut(t: string, i: nat, u: string, p: nat)
    requires Starts(t, i) && TokEnd(t, i) == |t| && p < |u| && Ends(t, i, u, p)
    ensures Starts(u, p) && TokEnd(u, p) == |u|
  {
    hide QuoteEnd, BlockEnd, DollarEnd, TagRest;
    EndsSame(t, i, u, p);
    SameAt(t, i, u, p, |u| - p, 0);
    if Opens(t, i) {
      EndsSolid(t, i, u, p, i + 1);
      EndsFrom(t, i, u, p, 2);
      BlockCut(t, i + 2, u, p + 2);
    } else if t[i] == '\'' || t[i] == '"' {
      EndsFrom(t, i, u, p, 1);
      QuoteCut(t, t[i], i + 1, u, p + 1);
    } else if t[i] == '$' && TagRest(t, i + 1, false) > 0 {
      DollarCut(t, i, u, p);
    } else {
      assert |u| == p + 1;
      NoTagAtEnd(u);
    }
  }

  lemma NoTagAtEnd(u: string)
    ensures TagRest(u, |u|, false) == 0
  {
  }

  // ----- a whole segment

  /** A segment lexes the same wherever it is carried. */
  lemma {:induction false} Relex(t: string, i: nat, u: string, p: nat, s: string)
    requires i <= |t| && Carries(t, i, u, p, s)
    ensures p <= |u| && Rest(u, p) == s && SemiAt(u, p) == p + |s|
    decreases |t| - i
  {
    hide TokEnd, AllSpace, At;
    if s == "" {
    } else {
      FirstOfRest(t, i);
      if Dashes(t, i) {
        assert t[i] != '\n' && Find(t, '\n', i) == Find(t, '\n', i + 1);
        Relex(t, Find(t, '\n', i), u, p, s);
      } else {
        var j := TokEnd(t, i);
        if j == |t| {
          LastToken(t, i, u, p, s);
        } else {
          WholeToken(t, i, u, p, s);
          CarriesStep(t, i, u, p, s);
          Relex(t, j, u, p + (j - i), s[j - i..]);
          SliceOf(u, p, s, j - i);
        }
      }
    }
  }

  lemma SliceOf(u: string, p: nat, s: string, n: nat)
    requires At(u, p, s) && n <= |s|
    ensures u[p..p + n] == s[..n] && s[..n] + s[n..] == s
  {
    assert s == s[..n] + s[n..];
    AtSplit(u, p, s[..n], s[n..]);
    AtSlice(u, p, s[..n]);
  }

  lemma LastToken(t: string, i: nat, u: string, p: nat, s: string)
    requires Starts(t, i) && Carries(t, i, u, p, s) && s != "" && TokEnd(t, i) == |t|
    ensures Rest(u, p) == s && SemiAt(u, p) == p + |s|
  {
    hide TokEnd;
    assert Rest(t, |t|) == "" && Rest(t, i) == t[i..] && SemiAt(t, i) == |t|;
    AtSlice(u, p, s);
    forall k | i <= k < i + |s| ensures t[k] == u[p + (k - i)] { AtChar(u, p, s, k - i); }
    forall k | i + |s| <= k < |t| ensures IsSpace(t[k]) { assert Rest(t, i)[|s|..][k - i - |s|] == t[k]; }
    TokCut(t, i, u, p);
    assert Rest(u, |u|) == "" && u[p..] == s;
  }

  /** A closed token is never cut by trimming. */
  lemma WholeToken(t: string, i: nat, u: string, p: nat, s: string)
    requires Starts(t, i) && Carries(t, i, u, p, s) && s != "" && TokEnd(t, i) < |t|
    ensures |s| >= TokEnd(t, i) - i
    ensures Starts(u, p) && TokEnd(u, p) == p + (TokEnd(t, i) - i)
  {
    hide TokEnd, At, SemiAt;
    var j := TokEnd(t, i);
    var n := j - i;
    assert Rest(t, i) == t[i..j] + Rest(t, j);
    if n >= 2 {
      ClosedEnd(t, i);
      assert Rest(t, i)[n - 1] == t[j - 1];
      var r := Rest(t, i);
      forall k | |s| <= k < |r| ensures IsSpace(r[k]) { assert r[|s|..][k - |s|] == r[k]; }
    }
    CarriesStep(t, i, u, p, s);
    TokWhole(t, i, u, p, j, s[n..]);
  }

  lemma ClosedEnd(t: string, i: nat)
    requires Starts(t, i) && TokEnd(t, i) < |t| && TokEnd(t, i) - i >= 2
    ensures !IsSpace(t[TokEnd(t, i) - 1])
  {
    hide QuoteEnd, BlockEnd, DollarEnd, TagRest;
    var j := TokEnd(t, i);
    SelfSame(t, i, j - i);
    if Opens(t, i) {
      SameFrom(t, i, t, i, j - i, 2);
      BlockWhole(t, i + 2, t, i + 2, j);
    } else if t[i] == '\'' || t[i] == '"' {
      SameFrom(t, i, t, i, j - i, 1);
      QuoteNext(t, t[i], i + 1, j);
      QuoteWhole(t, t[i], i + 1, t, i + 1, j);
    } else if t[i] == '$' && TagRest(t, i + 1, false) > 0 {
      DollarWhole(t, i, t, i, j);
    }
  }

  lemma SelfSame(t: string, i: nat, m: nat)
    requires i + m <= |t|
    ensures Same(t, i, t, i, m)
  {
  }

  // ----- statements

  /** A trimmed statement that, followed by a semicolon (`closed`) or by nothing, is one segment. */
  predicate Good(s: string, closed: bool) {
    var t := if closed then s + ";" else s;
    Trim(s) == s && Keep(s) && Rest(t, 0) == s && SemiAt(t, 0) == |s|
  }

  lemma {:induction false} TrimEndParts(s: string)
    ensures TrimEnd(s) <= s && AllSpace(s[|TrimEnd(s)|..])
    ensures TrimEnd(s) != "" ==> !IsSpace(TrimEnd(s)[|TrimEnd(s)| - 1])
    decreases s
  {
    if s != "" && IsSpace(s[|s| - 1]) {
      var u := s[..|s| - 1];
      TrimEndParts(u);
      forall k | |TrimEnd(s)| <= k < |s| ensures IsSpace(s[k]) {
        if k < |u| { assert u[|TrimEnd(u)|..][k - |TrimEnd(u)|] == s[k]; }
      }
    }
  }

  lemma {:induction false} TrimStartParts(s: string)
    ensures |TrimStart(s)| <= |s| && s[|s| - |TrimStart(s)|..] == TrimStart(s) && AllSpace(s[..|s| - |TrimStart(s)|])
    ensures TrimStart(s) != "" ==> !IsSpace(TrimStart(s)[0])
    decreases s
  {
    if s != "" && IsSpace(s[0]) {
      TrimStartParts(s[1..]);
      var n := |s| - |TrimStart(s)|;
      forall k | 0 <= k < n ensures IsSpace(s[..n][k]) {
        if k > 0 { assert s[1..][..n - 1][k - 1] == s[k]; }
      }
    }
  }

  lemma {:induction false} TrimEndKeeps(s: string)
    requires s == "" || !IsSpace(s[|s| - 1])
    ensures TrimEnd(s) == s
  {
  }

  lemma {:induction false} TrimStartSkips(a: string, s: string)
    requires AllSpace(a) && (s == "" || !IsSpace(s[0]))
    ensures TrimStart(a + s) == s
    decreases a
  {
    if a == "" {
      assert a + s == s;
    } else {
      assert (a + s)[1..] == a[1..] + s;
      TrimStartSkips(a[1..], s);
    }
  }

  /** A segment is white space, its trimmed text, white space. */
  lemma TrimParts(r: string) returns (a: string, b: string)
    ensures r == a + Trim(r) + b && AllSpace(a) && AllSpace(b)
    ensures Trim(r) != "" ==> !IsSpace(Trim(r)[0]) && !IsSpace(Trim(r)[|Trim(r)| - 1])
  {
    TrimStartParts(r);
    var m := TrimStart(r);
    TrimEndParts(m);
    a := r[..|r| - |m|];
    b := m[|Trim(r)|..];
    assert m == Trim(r) + b;
    if Trim(r) != "" { assert Trim(r)[0] == m[0]; }
  }

  lemma TrimAgain(a: string, s: string)
    requires AllSpace(a) && s != "" && !IsSpace(s[0]) && !IsSpace(s[|s| - 1])
    ensures Trim(a + s) == s
  {
    TrimStartSkips(a, s);
    TrimEndKeeps(s);
  }

  lemma TrimmedEnds(s: string)
    requires Trim(s) == s && s != ""
    ensures !IsSpace(s[0]) && !IsSpace(s[|s| - 1])
  {
    var a, b := TrimParts(s);
  }

  lemma SpaceToken(u: string, p: nat)
    requires p < |u| && IsSpace(u[p])
    ensures Rest(u, p) == [u[p]] + Rest(u, p + 1) && SemiAt(u, p) == SemiAt(u, p + 1)
  {
    var c := u[p..p + 1];
    assert |c| == 1 && c[0] == u[p];
    assert TokEnd(u, p) == p + 1;
  }

  /** White space before a segment's text is only white space. */
  lemma {:induction false} DropLead(u: string, p: nat, a: string, s: string)
    requires p <= |u| && Rest(u, p) == a + s && AllSpace(a) && At(u, p, a)
    ensures p + |a| <= |u| && Rest(u, p + |a|) == s && SemiAt(u, p + |a|) == SemiAt(u, p)
    decreases a
  {
    hide Rest, SemiAt, At;
    if a == "" {
      assert a + s == s;
    } else {
      assert a == [a[0]] + a[1..];
      AtSplit(u, p, [a[0]], a[1..]);
      AtChar(u, p, [a[0]], 0);
      SpaceToken(u, p);
      assert (a + s)[1..] == a[1..] + s && ([u[p]] + Rest(u, p + 1))[1..] == Rest(u, p + 1);
      DropLead(u, p + 1, a[1..], s);
    }
  }

  /** Every statement the splitter emits is good, closed when a semicolon ended it. */
  lemma StatementGood(t: string, p: nat)
    requires p <= |t| && Keep(Trim(Rest(t, p)))
    ensures Good(Trim(Rest(t, p)), SemiAt(t, p) < |t|)
  {
    hide Rest, SemiAt, Keep, Trim, At;
    var r := Rest(t, p);
    var a, b := TrimParts(r);
    var s := Trim(r);
    var follow := if SemiAt(t, p) < |t| then ";" else "";
    KeepSome(s);
    Extract(t, p, a, s, b, follow);
    TrimAgain("", s);
    assert "" + s == s && s + "" == s;
  }

  /** The trimmed text of a segment is a segment of its own. */
  lemma Extract(t: string, p: nat, a: string, s: string, b: string, follow: string)
    requires p <= |t| && Rest(t, p) == a + s + b && AllSpace(a) && AllSpace(b)
    requires follow == if SemiAt(t, p) < |t| then ";" else ""
    ensures Rest(s + follow, 0) == s && SemiAt(s + follow, 0) == |s|
  {
    hide Rest, SemiAt, At, AllSpace;
    var u := a + s + follow;
    assert u == (a + s) + follow && (a + s + b)[|a + s|..] == b;
    AtPrefix(u, a + s, follow);
    Relex(t, p, u, 0, a + s);
    AtSplit(u, 0, a, s);
    DropLead(u, 0, a, s);
    AtPrefix(s + follow, s, follow);
    NoSpaceLeft(s);
    Relex(u, |a|, s + follow, 0, s);
  }

  lemma NoSpaceLeft(s: string)
    ensures AllSpace(s[|s|..])
  {
  }

  lemma KeepSome(s: string)
    requires Keep(s)
    ensures s != ""
  {
  }

  lemma AtPrefix(u: string, a: string, b: string)
    requires u == a + b
    ensures At(u, 0, a)
  {
  }

  lemma OpenGood(s: string)
    requires Good(s, true)
    ensures Good(s, false)
  {
    hide Rest, SemiAt, Keep, Trim;
    AtStart(s);
    assert s[|s|..] == "";
    Relex(s + ";", 0, s, 0, s);
  }

  /** All but the last statement were ended by a semicolon. */
  predicate AllGood(ss: seq<string>) {
    forall k :: 0 <= k < |ss| ==> Good(ss[k], k + 1 < |ss|)
  }

  lemma ConsGood(s: string, closed: bool, ss: seq<string>)
    requires Good(s, closed) && AllGood(ss) && (ss != [] ==> closed)
    ensures AllGood([s] + ss)
  {
    hide Good;
    var all := [s] + ss;
    if ss == [] && closed { OpenGood(s); }
    forall k | 0 <= k < |all| ensures Good(all[k], k + 1 < |all|) {
      if k > 0 { assert all[k] == ss[k - 1]; }
    }
  }

  lemma {:induction false} SplitGood(t: string, p: nat)
    requires p <= |t|
    ensures AllGood(FlushAll(Segments(t, p, "")))
    decreases |t| - p
  {
    hide Good, Keep, Trim, Rest, SemiAt, Segments;
    SegmentsAre(t, p, "");
    var r, q := Rest(t, p), SemiAt(t, p);
    var later := if q < |t| then Segments(t, q + 1, "") else [];
    if q < |t| { SplitGood(t, q + 1); }
    assert "" + r == r && ([r] + later)[1..] == later;
    var ss := FlushAll(later);
    if Keep(Trim(r)) {
      StatementGood(t, p);
      ConsGood(Trim(r), q < |t|, ss);
    } else {
      assert [] + ss == ss;
    }
  }

  // ----- joining

  lemma {:induction false} JoinSplits(ss: seq<string>, u: string, p: nat, cur: string)
    requires ss != [] && AllGood(ss) && At(u, p, Join(ss)) && p + |Join(ss)| == |u| && AllSpace(cur)
    ensures FlushAll(Segments(u, p, cur)) == ss
    decreases ss
  {
    hide Keep, Trim, Rest, SemiAt, Segments, At;
    var s := ss[0];
    var closed := |ss| > 1;
    assert Good(s, closed);
    assert s[|s|..] == "";
    KeepSome(s);
    TrimmedEnds(s);
    TrimAgain(cur, s);
    if closed {
      AtSplit(u, p, s, ";\n" + Join(ss[1..]));
      AtSplit(u, p + |s|, ";\n", Join(ss[1..]));
      AtChar(u, p + |s|, ";\n", 0);
      AtChar(u, p + |s|, ";\n", 1);
      Relex(s + ";", 0, u, p, s);
      SegmentsAre(u, p, cur);
      NewlineFirst(u, p + |s| + 1);
      forall k | 0 <= k < |ss[1..]| ensures Good(ss[1..][k], k + 1 < |ss[1..]|) { assert ss[1..][k] == ss[k + 1]; }
      JoinSplits(ss[1..], u, p + |s| + 2, "\n");
      assert ([cur + s] + Segments(u, p + |s| + 1, ""))[1..] == Segments(u, p + |s| + 1, "");
    } else {
      Relex(s, 0, u, p, s);
      SegmentsAre(u, p, cur);
      assert [cur + s] + [] == [cur + s] && [cur + s][1..] == [] && [s] + [] == ss;
    }
  }

  lemma NewlineFirst(u: string, p: nat)
    requires p < |u| && u[p] == '\n'
    ensures Segments(u, p, "") == Segments(u, p + 1, "\n")
  {
    assert TokEnd(u, p) == p + 1 && u[p..p + 1] == [u[p]] && "" + u[p..p + 1] == u[p..p + 1];
  }

  lemma GoodJoinSplits(ss: seq<string>)
    requires AllGood(ss)
    ensures Split(Join(ss)) == ss
  {
    if ss == [] {
      assert Segments("", 0, "") == [""] && [""][1..] == [];
      assert Trim("") == "";
    } else {
      AtStart(Join(ss));
      JoinSplits(ss, Join(ss), 0, "");
    }
  }

  lemma {:induction false} FilterGood(ss: seq<string>)
    requires AllGood(ss)
    ensures AllGood(NonControl(ss))
    ensures NonControl(ss) != [] ==> ss != []
  {
    hide Good, IsTxControl;
    if ss != [] {
      var rest := ss[1..];
      forall k | 0 <= k < |rest| ensures Good(rest[k], k + 1 < |rest|) { assert rest[k] == ss[k + 1]; }
      FilterGood(rest);
      if IsTxControl(ss[0]) {
        assert [] + NonControl(rest) == NonControl(rest);
      } else {
        ConsGood(ss[0], |ss| > 1, NonControl(rest));
      }
    }
  }

  // ----- main results

  /** For every patch text, unterminated quotes, comments and dollar bodies included: joining its
      statements and splitting again gives the same statements. */
  lemma SplitJoinSplit(t: string)
    ensures Split(Join(Split(t))) == Split(t)
  {
    SplitGood(t, 0);
    GoodJoinSplits(Split(t));
  }

  /** What is executed after stripping is exactly the patch's statements that are no transaction
      control, in order. */
  lemma StripKeepsTheRest(t: string)
    ensures Split(StripTxControl(t)) == NonControl(Split(t))
  {
    SplitGood(t, 0);
    FilterGood(Split(t));
    GoodJoinSplits(NonControl(Split(t)));
  }

  lemma {:induction false} NonControlMeans(ss: seq<string>)
    ensures forall s :: s in NonControl(ss) <==> s in ss && !IsTxControl(s)
  {
    hide IsTxControl;
    if ss != [] { NonControlMeans(ss[1..]); }
  }

  /** Stripping is idempotent and leaves no statement the recognizer knows. */
  lemma StripIsClean(t: string)
    ensures forall s :: s in Split(StripTxControl(t)) ==> !IsTxControl(s)
    ensures StripTxControl(StripTxControl(t)) == StripTxControl(t)
  {
    hide IsTxControl, Join, Split;
    StripKeepsTheRest(t);
    NonControlMeans(Split(t));
    NonControlStable(NonControl(Split(t)));
  }

  lemma {:induction false} NonControlStable(ss: seq<string>)
    requires forall s :: s in ss ==> !IsTxControl(s)
    ensures NonControl(ss) == ss
  {
    hide IsTxControl;
    if ss != [] {
      assert ss[0] in ss && forall s :: s in ss[1..] ==> s in ss;
      NonControlStable(ss[1..]);
      assert [ss[0]] + ss[1..] == ss;
    }
  }
}
