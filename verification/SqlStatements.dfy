/** Which statements a patch has: for every text, what is written between its semicolons and holds code. */
module SqlStatements {
  import opened Lexical
  import opened SqlSplitter
  import opened SqlRelex
  import opened SqlRoundTrip
  import opened SqlGrammar

  // ----- every text is written in these items

  lemma {:induction false} FindMeans(t: string, c: char, p: nat)
    requires p <= |t|
    ensures var q := Find(t, c, p); (forall k :: p <= k < q ==> t[k] != c) && (q < |t| ==> t[q] == c)
    decreases |t| - p
  {
    if p < |t| && t[p] != c { FindMeans(t, c, p + 1); }
  }

  lemma {:induction false} BlockEndMeans(t: string, p: nat)
    requires p <= |t|
    ensures var e := BlockEnd(t, p);
      if exists k :: p <= k < |t| && EndsAt(t, k) then e >= p + 2 && EndsAt(t, e - 2) && NoneEnd(t, p, e - 2)
      else e == |t|
    decreases |t| - p
  {
    if p + 1 < |t| && !EndsAt(t, p) { BlockEndMeans(t, p + 1); }
  }

  lemma {:induction false} Undouble(t: string, q: char, p: nat) returns (v: string, closed: bool)
    requires p <= |t|
    ensures var e := QuoteEnd(t, q, p);
      if closed then t[p..e] == Twice(q, v) + [q] && !([q] <= t[e..]) else e == |t| && t[p..] == Twice(q, v)
    decreases |t| - p
  {
    if p == |t| {
      v, closed := "", false;
    } else if t[p] == q && !(p + 1 < |t| && t[p + 1] == q) {
      v, closed := "", true;
      assert t[p..p + 1] == [q];
    } else {
      var n := if t[p] == q then 2 else 1;
      v, closed := Undouble(t, q, p + n);
      var e := QuoteEnd(t, q, p + n);
      assert t[p..e] == t[p..p + n] + t[p + n..e];
      v := [t[p]] + v;
      assert t[p..p + n] == if n == 2 then [q, q] else [t[p]];
      assert v[1..] == v[1..] && Twice(q, v) == t[p..p + n] + Twice(q, v[1..]);
    }
  }

  /** Item `i` is what stands at `p`. */
  predicate Stands(t: string, p: nat, i: Item) {
    var q := p + |Print(i)|;
    p < q <= |t| && t[p..q] == Print(i) && Fits(i, t[q..])
  }

  lemma ReadItem(t: string, p: nat) returns (i: Item)
    requires p < |t|
    ensures Stands(t, p, i)
  {
    if Dashes(t, p) {
      i := ReadLine(t, p);
    } else if t[p] == ';' {
      i := Semicolon;
      assert t[p..p + 1] == ";";
    } else if Opens(t, p) {
      i := ReadBlock(t, p);
    } else if IsQuote(t[p]) {
      i := ReadQuoted(t, p);
    } else if t[p] == '$' && TagRest(t, p + 1, false) > 0 {
      i := ReadDollar(t, p);
    } else {
      i := Plain(t[p]);
      assert t[p..p + 1] == [t[p]];
      PlainFits(t, p);
    }
    hide TagRest, BlockEnd;
  }

  lemma PlainFits(t: string, p: nat)
    requires p < |t| && !Dashes(t, p) && t[p] != ';' && !Opens(t, p) && !IsQuote(t[p])
    requires t[p] == '$' ==> TagRest(t, p + 1, false) == 0
    ensures Fits(Plain(t[p]), t[p + 1..])
  {
    var more := t[p + 1..];
    assert more != "" ==> more[0] == t[p + 1];
    if t[p] == '$' && OpensTag(more) { TagOpened(t, p + 1, more); }
    hide OpensTag, TagRest;
  }

  lemma TagOpened(t: string, p: nat, more: string)
    requires Suffix(t, p, more) && OpensTag(more)
    ensures TagRest(t, p, false) > 0
  {
    var n :| 0 <= n < |more| && more[n] == '$' && IsTag(more[..n]);
    var w, rest := more[..n], more[n + 1..];
    assert more == w + "$" + rest;
    hide TagRest;
    TagReads(t, p, w, rest, false);
  }

  lemma ReadLine(t: string, p: nat) returns (i: Item)
    requires Dashes(t, p)
    ensures Stands(t, p, i)
  {
    var q := Find(t, '\n', p);
    FindMeans(t, '\n', p);
    hide Find;
    var body := t[p + 2..q];
    i := Line(body);
    assert t[p..q] == "--" + body;
  }

  lemma ReadBlock(t: string, p: nat) returns (i: Item)
    requires Opens(t, p)
    ensures Stands(t, p, i)
  {
    var e := BlockEnd(t, p + 2);
    BlockEndMeans(t, p + 2);
    hide BlockEnd, Stands;
    if Terminated(t, p + 2) {
      i := ClosedBlock(t, p, e);
    } else {
      i := UnclosedBlock(t, p);
    }
  }

  lemma ClosedBlock(t: string, p: nat, e: nat) returns (i: Item)
    requires Opens(t, p) && p + 4 <= e <= |t| && EndsAt(t, e - 2) && NoneEnd(t, p + 2, e - 2)
    ensures Stands(t, p, i)
  {
    var body, more := t[p + 2..e - 2], t[e..];
    i := Block(body);
    hide At, NotBefore;
    forall k: nat | p + 2 <= k < p + 2 + |body| ensures !At(t, k, "*/") { EndIsAt(t, k); }
    assert t[p + 2..] == body + "*/" + more;
    NoneBefore(t, p + 2, body, "*/", more);
    assert t[p..e] == "/*" + (body + "*/");
  }

  lemma UnclosedBlock(t: string, p: nat) returns (i: Item)
    requires Opens(t, p) && !Terminated(t, p + 2)
    ensures Stands(t, p, i)
  {
    var body := t[p + 2..];
    i := OpenBlock(body);
    assert t[p..] == "/*" + body && t[p..|t|] == t[p..];
    forall k | 0 <= k < |body| ensures !At(body, k, "*/") {
      EndIsAt(t, p + 2 + k);
      SuffixAt(t, p + 2, body, k, "*/");
    }
  }

  lemma ReadQuoted(t: string, p: nat) returns (i: Item)
    requires p < |t| && IsQuote(t[p])
    ensures Stands(t, p, i)
  {
    var e := QuoteEnd(t, t[p], p + 1);
    var v, closed := Undouble(t, t[p], p + 1);
    hide QuoteEnd, Twice, Stands;
    if closed {
      i := Quoted(t[p], v);
      ClosedQuote(t, p, v, e);
    } else {
      i := OpenQuoted(t[p], v);
      UnclosedQuote(t, p, v);
    }
  }

  lemma ClosedQuote(t: string, p: nat, v: string, e: nat)
    requires p < e <= |t| && IsQuote(t[p]) && t[p + 1..e] == Twice(t[p], v) + [t[p]] && !([t[p]] <= t[e..])
    ensures Stands(t, p, Quoted(t[p], v))
  {
    assert t[p..e] == [t[p]] + t[p + 1..e];
    hide Twice;
  }

  lemma UnclosedQuote(t: string, p: nat, v: string)
    requires p < |t| && IsQuote(t[p]) && t[p + 1..] == Twice(t[p], v)
    ensures Stands(t, p, OpenQuoted(t[p], v))
  {
    assert t[p..|t|] == [t[p]] + t[p + 1..];
    hide Twice;
  }

  lemma ReadDollar(t: string, p: nat) returns (i: Item)
    requires p < |t| && t[p] == '$' && TagRest(t, p + 1, false) > 0
    ensures Stands(t, p, i)
  {
    var q := TagRest(t, p + 1, false);
    TagWord(t, p + 1, false);
    var tag := t[p + 1..q - 1];
    var d := "$" + tag + "$";
    assert IsTag(tag) && t[p..q] == d;
    var e := FindTag(t, d, q);
    FindTagMeans(t, d, q);
    hide TagRest, FindTag, At, IsTag, Stands;
    if e < |t| {
      i := ClosedDollar(t, p, tag, e);
    } else {
      i := UnclosedDollar(t, p, tag);
    }
  }

  lemma ClosedDollar(t: string, p: nat, tag: string, e: nat) returns (i: Item)
    requires var d := "$" + tag + "$"; var q := p + |d|;
      q <= e < |t| && t[p..q] == d && At(t, e, d) && IsTag(tag) && forall k: nat :: q <= k < e ==> !At(t, k, d)
    ensures Stands(t, p, i)
  {
    var d := "$" + tag + "$";
    var q := p + |d|;
    var body := t[q..e];
    AtSlice(t, e, d);
    var more := t[e + |d|..];
    i := Dollar(tag, body);
    assert t[q..] == body + d + more;
    hide At, IsTag, NotBefore;
    NoneBefore(t, q, body, d, more);
    assert t[p..e + |d|] == d + (body + d);
  }

  lemma NoneBefore(t: string, q: nat, body: string, d: string, more: string)
    requires Suffix(t, q, body + d + more) && forall k: nat :: q <= k < q + |body| ==> !At(t, k, d)
    ensures NotBefore(body + d, d, |body|)
  {
    hide At;
    forall k | 0 <= k < |body| ensures !At(body + d, k, d) {
      SuffixAt(t, q, body + d + more, k, d);
      AtAppended(body + d, more, k, d);
    }
  }

  lemma UnclosedDollar(t: string, p: nat, tag: string) returns (i: Item)
    requires var d := "$" + tag + "$"; var q := p + |d|;
      q <= |t| && t[p..q] == d && IsTag(tag) && forall k: nat :: q <= k < |t| ==> !At(t, k, d)
    ensures Stands(t, p, i)
  {
    var d := "$" + tag + "$";
    var q := p + |d|;
    var body := t[q..];
    i := OpenDollar(tag, body);
    hide At, IsTag;
    forall k | 0 <= k < |body| ensures !At(body, k, d) { SuffixAt(t, q, body, k, d); }
    assert t[p..|t|] == d + body;
  }

  lemma {:induction false} ReadFrom(t: string, p: nat) returns (items: seq<Item>)
    requires p <= |t|
    ensures AllFit(items) && PrintAll(items) == t[p..]
    decreases |t| - p
  {
    hide Print, Fits, AllFit, PrintAll, Stands;
    if p == |t| {
      items := [];
      NoItems();
    } else {
      var i := ReadItem(t, p);
      var q := p + |Print(i)|;
      StandsWhere(t, p, i);
      var rest := ReadFrom(t, q);
      items := [i] + rest;
      MoreItems(i, rest);
      assert t[p..] == t[p..q] + t[q..];
    }
  }

  lemma NoItems()
    ensures AllFit([]) && PrintAll([]) == ""
  {
  }

  lemma StandsWhere(t: string, p: nat, i: Item)
    requires Stands(t, p, i)
    ensures var q := p + |Print(i)|; p < q <= |t| && t[p..q] == Print(i) && Fits(i, t[q..])
  {
  }

  lemma MoreItems(i: Item, rest: seq<Item>)
    requires AllFit(rest) && Fits(i, PrintAll(rest))
    ensures AllFit([i] + rest) && PrintAll([i] + rest) == Print(i) + PrintAll(rest)
  {
    assert ([i] + rest)[1..] == rest;
    hide Fits, Print;
  }

  // ----- what is code in a statement

  /** Position `k` is in a line comment: two dashes stand before it, or at it, in its line. */
  predicate InLine(s: string, k: nat) {
    k < |s| && exists i :: 0 <= i <= k && DashesIn(s, i, k)
  }

  /** Two dashes at `i`, and no end of a line from there to `k`. */
  predicate DashesIn(s: string, i: nat, k: nat) {
    i + 1 < |s| && s[i] == '-' && s[i + 1] == '-' && forall x :: i <= x <= k && x < |s| ==> s[x] != '\n'
  }

  predicate Increasing(ks: seq<nat>) {
    forall i, j :: 0 <= i < j < |ks| ==> ks[i] < ks[j]
  }

  /** The positions of `s` from `p` on that are in no line comment that begins there. */
  ghost predicate Uncommented(s: string, p: nat, ks: seq<nat>) {
    Increasing(ks)
    && forall k: nat :: k in ks <==> p <= k < |s| && !exists i :: p <= i <= k && DashesIn(s, i, k)
  }

  ghost predicate Picks(s: string, ks: seq<nat>, code: string) {
    |code| == |ks| && forall j :: 0 <= j < |ks| ==> ks[j] < |s| && code[j] == s[ks[j]]
  }

  /** `code` is `s` without its line comments. */
  ghost predicate WithoutLines(s: string, code: string) {
    exists ks: seq<nat> :: Increasing(ks) && (forall k: nat :: k in ks <==> k < |s| && !InLine(s, k)) && Picks(s, ks, code)
  }

  lemma {:induction false} LinesDropped(s: string, p: nat) returns (ks: seq<nat>)
    requires p <= |s|
    ensures Uncommented(s, p, ks) && Picks(s, ks, DropLineComments(s, p))
    decreases |s| - p
  {
    if p == |s| {
      ks := [];
    } else if Dashes(s, p) {
      assert s[p] != '\n' && Find(s, '\n', p) == Find(s, '\n', p + 1);
      var q := Find(s, '\n', p);
      FindMeans(s, '\n', p);
      ks := LinesDropped(s, q);
      LineSkipped(s, p, q, ks);
      hide DashesIn, Find;
    } else {
      var rest := LinesDropped(s, p + 1);
      ks := [p] + rest;
      CharKept(s, p, rest);
      hide DashesIn, Uncommented;
    }
  }

  lemma LineSkipped(s: string, p: nat, q: nat, ks: seq<nat>)
    requires Dashes(s, p) && p < q <= |s| && (forall k :: p <= k < q ==> s[k] != '\n') && (q < |s| ==> s[q] == '\n')
    requires Uncommented(s, q, ks)
    ensures Uncommented(s, p, ks)
  {
    forall k: nat ensures k in ks <==> p <= k < |s| && !exists i :: p <= i <= k && DashesIn(s, i, k) {
      if p <= k < q {
        assert DashesIn(s, p, k);
      } else if q <= k < |s| {
        assert forall i :: p <= i < q ==> !DashesIn(s, i, k);
      }
    }
  }

  lemma CharKept(s: string, p: nat, rest: seq<nat>)
    requires p < |s| && !Dashes(s, p) && Uncommented(s, p + 1, rest)
    ensures Uncommented(s, p, [p] + rest)
  {
    var ks := [p] + rest;
    assert !DashesIn(s, p, p);
    forall k: nat ensures k in ks <==> p <= k < |s| && !exists i :: p <= i <= k && DashesIn(s, i, k) {
      assert !DashesIn(s, p, k);
      assert k in ks <==> k == p || k in rest;
    }
    forall i, j | 0 <= i < j < |ks| ensures ks[i] < ks[j] {
      assert rest[j - 1] in rest && ks[j] == rest[j - 1];
    }
  }

  lemma HasMember(a: seq<nat>)
    ensures a == [] || exists k: nat :: k in a
  {
    if a != [] { assert a[0] in a; }
  }

  /** Only one increasing list has these members. */
  lemma {:induction false} IncreasingUnique(a: seq<nat>, b: seq<nat>)
    requires Increasing(a) && Increasing(b) && forall k: nat :: k in a <==> k in b
    ensures a == b
    decreases |a|
  {
    if a != [] && b != [] {
      var x, y := a[|a| - 1], b[|b| - 1];
      assert x in b && y in a;
      assert x == y;
      var a', b' := a[..|a| - 1], b[..|b| - 1];
      assert a == a' + [x] && b == b' + [y];
      forall k: nat ensures k in a' <==> k in b' {
        assert k in a <==> k in a' || k == x;
        assert k in b <==> k in b' || k == y;
      }
      IncreasingUnique(a', b');
    } else {
      HasMember(a);
      HasMember(b);
    }
  }

  lemma CodeIs(s: string, code: string)
    ensures WithoutLines(s, code) <==> code == DropLineComments(s, 0)
  {
    var ks := LinesDropped(s, 0);
    forall k: nat ensures k in ks <==> k < |s| && !InLine(s, k) { hide DashesIn; }
    assert WithoutLines(s, DropLineComments(s, 0));
    if WithoutLines(s, code) {
      var ls: seq<nat> :| Increasing(ls) && (forall k: nat :: k in ls <==> k < |s| && !InLine(s, k)) && Picks(s, ls, code);
      IncreasingUnique(ks, ls);
      assert code == DropLineComments(s, 0);
    }
  }

  // ----- block comments

  datatype Span = Span(from: nat, to: nat)

  /** A whole block comment stands from `a` to `b`. */
  ghost predicate Comment(t: string, a: nat, b: nat) {
    a + 4 <= b <= |t| && Opens(t, a) && EndsAt(t, b - 2) && forall k: nat :: a + 2 <= k < b - 2 ==> !EndsAt(t, k)
  }

  predicate Outside(spans: seq<Span>, p: nat) {
    forall i :: 0 <= i < |spans| ==> !(spans[i].from <= p < spans[i].to)
  }

  /** The comments of `t` from `p` on, read from the left: none begins outside of those listed. */
  ghost predicate CommentsFrom(t: string, p: nat, spans: seq<Span>) {
    (forall i :: 0 <= i < |spans| ==> p <= spans[i].from && Comment(t, spans[i].from, spans[i].to)) && Apart(spans)
    && forall a: nat, b: nat :: p <= a && Outside(spans, a) ==> !Comment(t, a, b)
  }

  ghost predicate Apart(spans: seq<Span>) {
    forall i, j :: 0 <= i < j < |spans| ==> spans[i].to <= spans[j].from
  }

  ghost predicate SolidOutside(t: string, p: nat, spans: seq<Span>) {
    exists k :: p <= k < |t| && !IsSpace(t[k]) && Outside(spans, k)
  }

  predicate Solid(s: string) {
    exists k :: 0 <= k < |s| && !IsSpace(s[k])
  }

  lemma CommentIs(t: string, p: nat)
    requires p <= |t|
    ensures forall b: nat :: Comment(t, p, b) <==> Opens(t, p) && Terminated(t, p + 2) && b == BlockEnd(t, p + 2)
  {
    forall b: nat ensures Comment(t, p, b) <==> Opens(t, p) && Terminated(t, p + 2) && b == BlockEnd(t, p + 2) {
      if Opens(t, p) && Terminated(t, p + 2) { BlockEndMeans(t, p + 2); }
      if Comment(t, p, b) { BlockEndIs(t, p + 2, b - 2); }
      hide BlockEnd;
    }
  }

  lemma NotFirst(t: string, p: nat, spans: seq<Span>, i: nat)
    requires CommentsFrom(t, p, spans) && 0 < i < |spans|
    ensures spans[0].to <= spans[i].from && spans[i].from >= p + 4
  {
    assert Comment(t, spans[0].from, spans[0].to);
  }

  /** Where a comment begins, it is the first one listed. */
  lemma CommentHere(t: string, p: nat, spans: seq<Span>, e: nat)
    requires CommentsFrom(t, p, spans) && Comment(t, p, e) && forall b: nat :: Comment(t, p, b) ==> b == e
    ensures spans != [] && spans[0] == Span(p, e)
  {
    assert !Outside(spans, p);
    var i: nat :| i < |spans| && spans[i].from <= p < spans[i].to;
    assert spans[i].from >= p && Comment(t, spans[i].from, spans[i].to);
    hide CommentsFrom, Comment;
    if i > 0 { NotFirst(t, p, spans, i); }
  }

  lemma NoCommentHere(t: string, p: nat, spans: seq<Span>)
    requires CommentsFrom(t, p, spans) && forall b: nat :: !Comment(t, p, b)
    ensures Outside(spans, p) && CommentsFrom(t, p + 1, spans)
  {
    forall i | 0 <= i < |spans| ensures p + 1 <= spans[i].from {
      assert spans[i].from >= p && Comment(t, spans[i].from, spans[i].to);
    }
    hide Comment;
  }

  /** The first listed comment begins here exactly when one does. */
  lemma FirstComment(t: string, p: nat, spans: seq<Span>)
    requires p < |t| && CommentsFrom(t, p, spans)
    ensures if Opens(t, p) && Terminated(t, p + 2) then spans != [] && spans[0] == Span(p, BlockEnd(t, p + 2))
            else Outside(spans, p) && CommentsFrom(t, p + 1, spans)
  {
    CommentIs(t, p);
    hide BlockEnd, Terminated, Opens, Comment, CommentsFrom, Outside;
    if Opens(t, p) && Terminated(t, p + 2) {
      CommentHere(t, p, spans, BlockEnd(t, p + 2));
    } else {
      NoCommentHere(t, p, spans);
    }
  }

  lemma OutsideFirst(first: Span, rest: seq<Span>, k: nat)
    ensures Outside([first] + rest, k) <==> !(first.from <= k < first.to) && Outside(rest, k)
  {
    var all := [first] + rest;
    assert all[0] == first && forall i :: 0 <= i < |rest| ==> all[i + 1] == rest[i];
    if !(first.from <= k < first.to) && Outside(rest, k) {
      forall i | 0 <= i < |all| ensures !(all[i].from <= k < all[i].to) {
        assert i == 0 || all[i] == rest[i - 1];
      }
    }
  }

  lemma LaterComments(t: string, p: nat, spans: seq<Span>)
    requires spans != [] && CommentsFrom(t, p, spans) && spans[0].from == p
    ensures CommentsFrom(t, spans[0].to, spans[1..])
    ensures forall k: nat :: p <= k ==> (Outside(spans, k) <==> k >= spans[0].to && Outside(spans[1..], k))
  {
    var first, rest := spans[0], spans[1..];
    assert spans == [first] + rest && Comment(t, first.from, first.to);
    assert p <= first.to;
    hide Comment, Outside;
    forall k: nat | p <= k ensures Outside(spans, k) <==> k >= first.to && Outside(rest, k) {
      OutsideFirst(first, rest, k);
    }
    LaterSpans(t, p, spans);
    forall a: nat, b: nat | first.to <= a && Outside(rest, a) ensures !Comment(t, a, b) {
      assert Outside(spans, a);
    }
  }

  lemma LaterSpans(t: string, p: nat, spans: seq<Span>)
    requires spans != [] && CommentsFrom(t, p, spans)
    ensures var rest := spans[1..];
      Apart(rest) && forall i :: 0 <= i < |rest| ==> spans[0].to <= rest[i].from && Comment(t, rest[i].from, rest[i].to)
  {
    hide Comment, Outside;
    var rest := spans[1..];
    forall i | 0 <= i < |rest| ensures spans[0].to <= rest[i].from && Comment(t, rest[i].from, rest[i].to) {
      assert rest[i] == spans[i + 1];
    }
    forall i, j | 0 <= i < j < |rest| ensures rest[i].to <= rest[j].from {
      assert rest[i] == spans[i + 1] && rest[j] == spans[j + 1];
    }
  }

  lemma EarlierComment(t: string, p: nat, e: nat, rest: seq<Span>)
    requires Comment(t, p, e) && CommentsFrom(t, e, rest)
    ensures CommentsFrom(t, p, [Span(p, e)] + rest)
  {
    var all := [Span(p, e)] + rest;
    assert p <= e;
    assert Apart(all) by { ApartMore(Span(p, e), rest); }
    forall i | 0 <= i < |all| ensures p <= all[i].from && Comment(t, all[i].from, all[i].to) {
      if i > 0 { assert all[i] == rest[i - 1]; }
    }
    forall a: nat, b: nat | p <= a && Outside(all, a) ensures !Comment(t, a, b) {
      OutsideFirst(Span(p, e), rest, a);
    }
    hide Comment, Outside, Apart;
  }

  lemma ApartMore(first: Span, rest: seq<Span>)
    requires Apart(rest) && forall i :: 0 <= i < |rest| ==> first.to <= rest[i].from
    ensures Apart([first] + rest)
  {
    var all := [first] + rest;
    forall i, j | 0 <= i < j < |all| ensures all[i].to <= all[j].from {
      assert all[j] == rest[j - 1];
      if i > 0 { assert all[i] == rest[i - 1]; }
    }
  }

  lemma {:induction false} SolidLeft(t: string, p: nat, spans: seq<Span>)
    requires p <= |t| && CommentsFrom(t, p, spans)
    ensures Solid(DropBlockComments(t, p)) <==> SolidOutside(t, p, spans)
    decreases |t| - p
  {
    hide CommentsFrom, Outside, Opens, Terminated, BlockEnd, Solid, SolidOutside, DropBlockComments;
    if p == |t| {
      NothingSolid(t, spans);
    } else {
      FirstComment(t, p, spans);
      BlocksStep(t, p);
      if Opens(t, p) && Terminated(t, p + 2) {
        var q := BlockEnd(t, p + 2);
        LaterComments(t, p, spans);
        SolidLeft(t, q, spans[1..]);
        SolidLater(t, p, q, spans);
      } else {
        SolidLeft(t, p + 1, spans);
        SolidMore(t[p], DropBlockComments(t, p + 1));
        SolidHere(t, p, spans);
      }
    }
  }

  lemma BlocksStep(t: string, p: nat)
    requires p < |t|
    ensures DropBlockComments(t, p) ==
      if Opens(t, p) && Terminated(t, p + 2) then DropBlockComments(t, BlockEnd(t, p + 2))
      else [t[p]] + DropBlockComments(t, p + 1)
  {
    hide Terminated, BlockEnd;
  }

  lemma SolidMore(c: char, d: string)
    ensures Solid([c] + d) <==> !IsSpace(c) || Solid(d)
  {
    assert ([c] + d)[0] == c && forall k :: 0 <= k < |d| ==> ([c] + d)[k + 1] == d[k];
  }

  lemma NothingSolid(t: string, spans: seq<Span>)
    ensures !Solid(DropBlockComments(t, |t|)) && !SolidOutside(t, |t|, spans)
  {
  }

  lemma SolidHere(t: string, p: nat, spans: seq<Span>)
    requires p < |t| && Outside(spans, p)
    ensures SolidOutside(t, p, spans) <==> !IsSpace(t[p]) || SolidOutside(t, p + 1, spans)
  {
    hide Outside;
  }

  lemma SolidLater(t: string, p: nat, q: nat, spans: seq<Span>)
    requires p <= q <= |t| && spans != []
    requires forall k: nat :: p <= k ==> (Outside(spans, k) <==> k >= q && Outside(spans[1..], k))
    ensures SolidOutside(t, p, spans) <==> SolidOutside(t, q, spans[1..])
  {
    hide Outside;
  }

  lemma {:induction false} CommentsListed(t: string, p: nat) returns (spans: seq<Span>)
    requires p <= |t|
    ensures CommentsFrom(t, p, spans)
    decreases |t| - p
  {
    if p == |t| {
      spans := [];
    } else {
      CommentIs(t, p);
      hide Comment, BlockEnd, Opens, Terminated, CommentsFrom;
      if Opens(t, p) && Terminated(t, p + 2) {
        var q := BlockEnd(t, p + 2);
        var rest := CommentsListed(t, q);
        EarlierComment(t, p, q, rest);
        spans := [Span(p, q)] + rest;
      } else {
        spans := CommentsListed(t, p + 1);
        NotListed(t, p, spans);
      }
    }
  }

  lemma NotListed(t: string, p: nat, spans: seq<Span>)
    requires CommentsFrom(t, p + 1, spans) && forall b: nat :: !Comment(t, p, b)
    ensures CommentsFrom(t, p, spans)
  {
    hide Comment, Outside;
  }

  // ----- which statements are kept

  /** The statement holds code: without its line comments, something that is neither white space nor a dash, and something that
      is no white space outside of the block comments. */
  ghost predicate HasCode(s: string) {
    exists code, spans: seq<Span> ::
      WithoutLines(s, code) && CommentsFrom(code, 0, spans) && SolidOutside(code, 0, spans)
      && exists k :: 0 <= k < |code| && code[k] != '-' && !IsSpace(code[k])
  }

  lemma SolidTrim(s: string)
    ensures Trim(s) != "" <==> Solid(s)
  {
    var a, b := TrimParts(s);
    var m := Trim(s);
    hide Trim;
    if m != "" { assert s[|a|] == m[0]; } else { assert s == a + b; }
  }

  /** The splitter keeps a trimmed text exactly when it holds code. */
  lemma KeepExactly(s: string)
    ensures Keep(s) <==> s != "" && HasCode(s)
  {
    var code := DropLineComments(s, 0);
    CodeIs(s, code);
    var spans := CommentsListed(code, 0);
    SolidLeft(code, 0, spans);
    SolidTrim(DropBlockComments(code, 0));
    hide DropBlockComments, DropLineComments, WithoutLines, Trim, CommentsFrom, SolidOutside;
    if HasCode(s) {
      var c, sp: seq<Span> :| WithoutLines(s, c) && CommentsFrom(c, 0, sp) && SolidOutside(c, 0, sp)
        && exists k :: 0 <= k < |c| && c[k] != '-' && !IsSpace(c[k]);
      CodeIs(s, c);
      SolidLeft(c, 0, sp);
    }
  }

  // ----- the statements of a patch

  /** `s` is `r` without the white space around it. */
  ghost predicate Trimmed(r: string, s: string) {
    (exists a, b :: r == a + s + b && AllSpace(a) && AllSpace(b)) && (s != "" ==> !IsSpace(s[0]) && !IsSpace(s[|s| - 1]))
  }

  lemma TrimExactly(r: string, s: string)
    ensures Trimmed(r, s) <==> s == Trim(r)
  {
    var a, b := TrimParts(r);
    if Trimmed(r, s) {
      var c, d :| r == c + s + d && AllSpace(c) && AllSpace(d);
      if s == "" {
        forall k | 0 <= k < |r| ensures IsSpace(r[k]) { assert k < |c| ==> r[k] == c[k]; }
        SolidTrim(r);
      } else {
        assert r == c + (s + d);
        TrimStartSkips(c, s + d);
        TrimEndSkips(s, d);
      }
    }
    hide Trim;
  }

  lemma {:induction false} TrimEndSkips(s: string, b: string)
    requires AllSpace(b) && s != "" && !IsSpace(s[|s| - 1])
    ensures TrimEnd(s + b) == s
    decreases b
  {
    if b == "" {
      assert s + b == s;
    } else {
      assert (s + b)[..|s + b| - 1] == s + b[..|b| - 1];
      TrimEndSkips(s, b[..|b| - 1]);
    }
  }

  /** `stmts` are, in order, the texts that hold code, each without the white space around it. */
  ghost predicate Selected(texts: seq<string>, stmts: seq<string>)
    decreases texts
  {
    if texts == [] then stmts == []
    else if Trim(texts[0]) != "" && HasCode(Trim(texts[0])) then
      stmts != [] && stmts[0] == Trim(texts[0]) && Selected(texts[1..], stmts[1..])
    else Selected(texts[1..], stmts)
  }

  lemma {:induction false} FlushSelects(texts: seq<string>)
    ensures Selected(texts, FlushAll(texts))
  {
    hide HasCode, Trim, Keep;
    if texts != [] {
      KeepExactly(Trim(texts[0]));
      FlushSelects(texts[1..]);
      var rest := FlushAll(texts[1..]);
      if Keep(Trim(texts[0])) {
        assert ([Trim(texts[0])] + rest)[1..] == rest;
      } else {
        assert [] + rest == rest;
      }
    }
  }

  /** Every text is written in items that fit. */
  lemma EveryTextReads(t: string) returns (items: seq<Item>)
    ensures AllFit(items) && PrintAll(items) == t
  {
    items := ReadFrom(t, 0);
    assert t[0..] == t;
  }

  /** Whatever items a text is written in, its statements are the texts between their semicolons that hold code. */
  lemma SplitExactly(items: seq<Item>)
    requires AllFit(items)
    ensures Selected(Texts(items), Split(PrintAll(items)))
  {
    var t := PrintAll(items);
    hide AllFit, PrintAll, Texts, Segments, FlushAll, Selected;
    assert t[0..] == t;
    SegmentsRead(t, 0, "", items);
    assert "" + Texts(items)[0] == Texts(items)[0];
    assert [Texts(items)[0]] + Texts(items)[1..] == Texts(items);
    FlushSelects(Texts(items));
  }

  // ----- what the recogniser of transaction control looks at

  /** `rest` is `t` without its block comments. */
  ghost predicate WithoutBlocks(t: string, rest: string) {
    exists spans: seq<Span>, ks: seq<nat> ::
      CommentsFrom(t, 0, spans) && Increasing(ks) && LeftOut(t, 0, spans, ks) && Picks(t, ks, rest)
  }

  /** The positions from `p` on that are in no listed comment. */
  ghost predicate LeftOut(t: string, p: nat, spans: seq<Span>, ks: seq<nat>) {
    forall k: nat :: k in ks <==> p <= k < |t| && Outside(spans, k)
  }

  lemma {:induction false} BlocksPicked(t: string, p: nat, spans: seq<Span>) returns (ks: seq<nat>)
    requires p <= |t| && CommentsFrom(t, p, spans)
    ensures Increasing(ks) && LeftOut(t, p, spans, ks) && Picks(t, ks, DropBlockComments(t, p))
    decreases |t| - p
  {
    hide Outside, CommentsFrom, Opens, Terminated, BlockEnd;
    if p == |t| {
      ks := [];
    } else {
      FirstComment(t, p, spans);
      if Opens(t, p) && Terminated(t, p + 2) {
        LaterComments(t, p, spans);
        ks := BlocksPicked(t, BlockEnd(t, p + 2), spans[1..]);
      } else {
        var rest := BlocksPicked(t, p + 1, spans);
        ks := [p] + rest;
        PickedMore(t, p, spans, rest);
      }
    }
  }

  lemma PickedMore(t: string, p: nat, spans: seq<Span>, rest: seq<nat>)
    requires p < |t| && Outside(spans, p) && Increasing(rest) && LeftOut(t, p + 1, spans, rest)
    ensures Increasing([p] + rest) && LeftOut(t, p, spans, [p] + rest)
  {
    var ks := [p] + rest;
    hide Outside;
    forall k: nat ensures k in ks <==> p <= k < |t| && Outside(spans, k) {
      assert k in ks <==> k == p || k in rest;
    }
    forall i, j | 0 <= i < j < |ks| ensures ks[i] < ks[j] {
      assert rest[j - 1] in rest && ks[j] == rest[j - 1];
    }
  }

  lemma BlocksAre(t: string, rest: string)
    ensures WithoutBlocks(t, rest) <==> rest == DropBlockComments(t, 0)
  {
    var spans := CommentsListed(t, 0);
    var ks := BlocksPicked(t, 0, spans);
    hide CommentsFrom, Outside, DropBlockComments;
    assert WithoutBlocks(t, DropBlockComments(t, 0));
    if WithoutBlocks(t, rest) {
      var sp: seq<Span>, ls: seq<nat> :| CommentsFrom(t, 0, sp) && Increasing(ls) && LeftOut(t, 0, sp, ls) && Picks(t, ls, rest);
      var ms := BlocksPicked(t, 0, sp);
      IncreasingUnique(ls, ms);
      assert rest == DropBlockComments(t, 0);
    }
  }

  /** It reads the statement without line comments, then without block comments, then without the white space around. */
  lemma CodeOnlyExactly(s: string, c: string)
    ensures c == CodeOnly(s) <==> exists code, rest :: WithoutLines(s, code) && WithoutBlocks(code, rest) && Trimmed(rest, c)
  {
    var code := DropLineComments(s, 0);
    var rest := DropBlockComments(code, 0);
    forall x ensures WithoutLines(s, x) <==> x == code { CodeIs(s, x); }
    forall x ensures WithoutBlocks(code, x) <==> x == rest { BlocksAre(code, x); }
    TrimExactly(rest, c);
    hide WithoutLines, WithoutBlocks, Trimmed, Trim, DropLineComments, DropBlockComments;
    if c == Trim(rest) {
      assert WithoutLines(s, code) && WithoutBlocks(code, rest) && Trimmed(rest, c);
    }
  }
}
