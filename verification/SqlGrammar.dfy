/** What a patch is made of, told by what is written in it: the splitter's statements are those, for every text. */
module SqlGrammar {
  import opened Lexical
  import opened SqlSplitter
  import opened SqlRelex
  import opened SqlRoundTrip

  /** A line comment goes up to the end of its line. What is never closed goes up to the end of the text. */
  datatype Item =
    | Plain(c: char)
    | Semicolon
    | Line(body: string)
    | Block(body: string)
    | Quoted(q: char, value: string)
    | Dollar(tag: string, body: string)
    | OpenBlock(body: string)
    | OpenQuoted(q: char, value: string)
    | OpenDollar(tag: string, body: string)

  /** Each `q` inside a quoted value is written twice. */
  function Twice(q: char, v: string): string {
    if v == "" then "" else (if v[0] == q then [q, q] else [v[0]]) + Twice(q, v[1..])
  }

  function Print(i: Item): string {
    match i
    case Plain(c) => [c]
    case Semicolon => ";"
    case Line(body) => "--" + body
    case Block(body) => "/*" + (body + "*/")
    case Quoted(q, v) => [q] + (Twice(q, v) + [q])
    case Dollar(tag, body) => ("$" + tag + "$") + (body + ("$" + tag + "$"))
    case OpenBlock(body) => "/*" + body
    case OpenQuoted(q, v) => [q] + Twice(q, v)
    case OpenDollar(tag, body) => ("$" + tag + "$") + body
  }

  function PrintAll(items: seq<Item>): string {
    if items == [] then "" else Print(items[0]) + PrintAll(items[1..])
  }

  /** Nothing, or a word. */
  predicate IsTag(w: string) {
    w == "" || (IsWordStart(w[0]) && forall k :: 0 <= k < |w| ==> IsWordChar(w[k]))
  }

  predicate OpensTag(s: string) {
    exists n :: 0 <= n < |s| && s[n] == '$' && IsTag(s[..n])
  }

  /** `s` does not occur in `text` before position `n`. */
  predicate NotBefore(text: string, s: string, n: nat) {
    forall k :: 0 <= k < n && k < |text| ==> !At(text, k, s)
  }

  predicate IsQuote(c: char) { c == '\'' || c == '"' }

  /** The item is read as itself when `more` follows. */
  predicate Fits(i: Item, more: string) {
    match i
    case Plain(c) =>
      c != ';' && !IsQuote(c) && (c == '-' ==> !("-" <= more)) && (c == '/' ==> !("*" <= more)) && (c == '$' ==> !OpensTag(more))
    case Semicolon => true
    case Line(body) => '\n' !in body && (more == "" || more[0] == '\n')
    case Block(body) => NotBefore(body + "*/", "*/", |body|)
    case Quoted(q, _) => IsQuote(q) && !([q] <= more)
    case Dollar(tag, body) => IsTag(tag) && NotBefore(body + ("$" + tag + "$"), "$" + tag + "$", |body|)
    case OpenBlock(body) => more == "" && NotBefore(body, "*/", |body|)
    case OpenQuoted(q, _) => more == "" && IsQuote(q)
    case OpenDollar(tag, body) => more == "" && IsTag(tag) && NotBefore(body, "$" + tag + "$", |body|)
  }

  predicate AllFit(items: seq<Item>) {
    items != [] ==> Fits(items[0], PrintAll(items[1..])) && AllFit(items[1..])
  }

  /** The texts between the semicolons, without the line comments. */
  function Texts(items: seq<Item>): (r: seq<string>)
    ensures r != []
  {
    if items == [] then [""]
    else
      var r := Texts(items[1..]);
      if items[0].Semicolon? then [""] + r else [(if items[0].Line? then "" else Print(items[0])) + r[0]] + r[1..]
  }

  // ----- one item

  /** From `p` on, the text is `s`. */
  predicate Suffix(t: string, p: nat, s: string) {
    p <= |t| && t[p..] == s
  }

  lemma SuffixTail(t: string, p: nat, a: string, b: string)
    requires Suffix(t, p, a + b)
    ensures Suffix(t, p + |a|, b)
  {
    assert t[p + |a|..] == t[p..][|a|..] && (a + b)[|a|..] == b;
  }

  lemma SuffixChar(t: string, p: nat, s: string, k: nat)
    requires Suffix(t, p, s) && k < |s|
    ensures p + k < |t| && t[p + k] == s[k]
  {
    assert t[p..][k] == t[p + k];
  }

  lemma SuffixAt(t: string, p: nat, s: string, k: nat, tag: string)
    requires Suffix(t, p, s) && k <= |s|
    ensures At(t, p + k, tag) <==> At(s, k, tag)
  {
    assert |t| == p + |s| && forall x :: 0 <= x < |s| ==> t[p + x] == s[x];
    if At(s, k, tag) {
      forall x | 0 <= x < |tag| ensures t[p + k + x] == tag[x] { assert s[k + x] == tag[x] && t[p + (k + x)] == s[k + x]; }
    }
    if At(t, p + k, tag) {
      forall x | 0 <= x < |tag| ensures s[k + x] == tag[x] { assert t[p + k + x] == tag[x] && t[p + (k + x)] == s[k + x]; }
    }
  }

  lemma {:induction false} QuoteReads(t: string, p: nat, q: char, v: string, more: string)
    requires Suffix(t, p, Twice(q, v) + [q] + more) && !([q] <= more)
    ensures QuoteEnd(t, q, p) == p + |Twice(q, v)| + 1
    decreases v
  {
    var s := Twice(q, v) + [q] + more;
    SuffixChar(t, p, s, 0);
    if v == "" {
      if more != "" { SuffixChar(t, p, s, 1); }
    } else {
      var n := if v[0] == q then 2 else 1;
      assert s == s[..n] + (Twice(q, v[1..]) + [q] + more);
      SuffixTail(t, p, s[..n], Twice(q, v[1..]) + [q] + more);
      if n == 2 { SuffixChar(t, p, s, 1); }
      QuoteReads(t, p + n, q, v[1..], more);
    }
  }

  lemma {:induction false} OpenQuoteReads(t: string, p: nat, q: char, v: string)
    requires Suffix(t, p, Twice(q, v))
    ensures QuoteEnd(t, q, p) == |t|
    decreases v
  {
    if v != "" {
      var s, n := Twice(q, v), if v[0] == q then 2 else 1;
      SuffixChar(t, p, s, 0);
      assert s == s[..n] + Twice(q, v[1..]);
      SuffixTail(t, p, s[..n], Twice(q, v[1..]));
      if n == 2 { SuffixChar(t, p, s, 1); }
      OpenQuoteReads(t, p + n, q, v[1..]);
    }
  }

  lemma EndIsAt(t: string, k: nat)
    ensures EndsAt(t, k) <==> At(t, k, "*/")
  {
    if At(t, k, "*/") {
      AtChar(t, k, "*/", 0);
      AtChar(t, k, "*/", 1);
    }
  }

  lemma BlockReads(t: string, p: nat, body: string, more: string)
    requires Suffix(t, p, body + "*/" + more) && NotBefore(body + "*/", "*/", |body|)
    ensures BlockEnd(t, p) == p + |body| + 2
  {
    var s := body + "*/" + more;
    SuffixChar(t, p, s, |body|);
    SuffixChar(t, p, s, |body| + 1);
    forall k: nat | p <= k < p + |body| ensures !EndsAt(t, k) {
      SuffixChar(t, p, s, k - p);
      SuffixChar(t, p, s, k - p + 1);
      assert !At(body + "*/", k - p, "*/");
      EndIsAt(body + "*/", k - p);
    }
    BlockEndIs(t, p, p + |body|);
  }

  lemma {:induction false} NoBlockEnd(t: string, p: nat)
    requires p <= |t| && forall k: nat :: p <= k < |t| ==> !EndsAt(t, k)
    ensures BlockEnd(t, p) == |t|
    decreases |t| - p
  {
    if p + 1 < |t| {
      assert !EndsAt(t, p);
      NoBlockEnd(t, p + 1);
    }
  }

  lemma OpenBlockReads(t: string, p: nat, body: string)
    requires Suffix(t, p, body) && NotBefore(body, "*/", |body|)
    ensures BlockEnd(t, p) == |t|
  {
    forall k: nat | p <= k < |t| ensures !EndsAt(t, k) {
      SuffixAt(t, p, body, k - p, "*/");
      EndIsAt(t, k);
    }
    NoBlockEnd(t, p);
  }

  lemma {:induction false} TagReads(t: string, p: nat, w: string, more: string, started: bool)
    requires Suffix(t, p, w + "$" + more)
    requires forall k :: 0 <= k < |w| ==> IsWordStart(w[k]) || ((started || k > 0) && IsWordChar(w[k]))
    ensures TagRest(t, p, started) == p + |w| + 1
    decreases w
  {
    var s := w + "$" + more;
    SuffixChar(t, p, s, 0);
    if w != "" {
      assert s == [w[0]] + (w[1..] + "$" + more);
      SuffixTail(t, p, [w[0]], w[1..] + "$" + more);
      TagReads(t, p + 1, w[1..], more, true);
    }
  }

  /** A dollar body: its end is where its tag comes again, or the end of the text. */
  lemma DollarReads(t: string, p: nat, tag: string, rest: string, n: nat)
    requires IsTag(tag) && Suffix(t, p, ("$" + tag + "$") + rest)
    requires n <= |rest| && NotBefore(rest, "$" + tag + "$", n) && (n == |rest| || At(rest, n, "$" + tag + "$"))
    ensures p < |t| && TagRest(t, p + 1, false) > 0
    ensures DollarEnd(t, p) == p + |tag| + 2 + n + if n == |rest| then 0 else |tag| + 2
  {
    var d := "$" + tag + "$";
    hide At, TagRest, FindTag, IsTag, NotBefore, DollarEnd;
    DollarTag(t, p, tag, rest);
    var q := p + |d|;
    SuffixTail(t, p, d, rest);
    DollarIs(t, p, q);
    TagFound(t, q, d, rest, n);
  }

  lemma DollarTag(t: string, p: nat, tag: string, rest: string)
    requires IsTag(tag) && Suffix(t, p, ("$" + tag + "$") + rest)
    ensures p < |t| && TagRest(t, p + 1, false) == p + |tag| + 2 <= |t| && t[p..p + |tag| + 2] == "$" + tag + "$"
  {
    var d := "$" + tag + "$";
    assert d + rest == "$" + (tag + "$" + rest);
    SuffixTail(t, p, "$", tag + "$" + rest);
    TagReads(t, p + 1, tag, rest, false);
    assert t[p..p + |d|] == t[p..][..|d|] && (d + rest)[..|d|] == d;
  }

  lemma TagFound(t: string, q: nat, d: string, rest: string, n: nat)
    requires Suffix(t, q, rest) && n <= |rest| && NotBefore(rest, d, n) && (n == |rest| || At(rest, n, d))
    ensures FindTag(t, d, q) == q + n
  {
    hide At, FindTag;
    forall k: nat | q <= k < q + n ensures !At(t, k, d) { SuffixAt(t, q, rest, k - q, d); }
    SuffixAt(t, q, rest, n, d);
    FindTagIs(t, d, q, q + n);
  }

  // ----- the splitter reads what is written

  /** At `p` stands a token of the splitter, `n` characters long. */
  predicate Token(t: string, p: nat, n: nat) {
    p < |t| && !Dashes(t, p) && t[p] != ';' && TokEnd(t, p) == p + n
  }

  lemma TokenReads(t: string, p: nat, i: Item, more: string)
    requires Suffix(t, p, Print(i) + more) && Fits(i, more) && !i.Semicolon? && !i.Line?
    ensures Token(t, p, |Print(i)|)
  {
    hide Fits, Print, Token, Suffix;
    match i
    case Plain(c) => PlainReads(t, p, c, more);
    case Block(body) => BlockToken(t, p, body, more);
    case OpenBlock(body) => OpenBlockToken(t, p, body, more);
    case Quoted(q, v) => QuoteToken(t, p, q, v, more);
    case OpenQuoted(q, v) => OpenQuoteToken(t, p, q, v, more);
    case Dollar(tag, body) => ClosedDollarReads(t, p, tag, body, more);
    case OpenDollar(tag, body) => OpenDollarToken(t, p, tag, body, more);
  }

  lemma BlockToken(t: string, p: nat, body: string, more: string)
    requires Suffix(t, p, Print(Block(body)) + more) && Fits(Block(body), more)
    ensures Token(t, p, |Print(Block(body))|)
  {
    var s := "/*" + (body + "*/" + more);
    assert Print(Block(body)) + more == s;
    SuffixChar(t, p, s, 0);
    SuffixChar(t, p, s, 1);
    SuffixTail(t, p, "/*", body + "*/" + more);
    BlockReads(t, p + 2, body, more);
  }

  lemma OpenBlockToken(t: string, p: nat, body: string, more: string)
    requires Suffix(t, p, Print(OpenBlock(body)) + more) && Fits(OpenBlock(body), more)
    ensures Token(t, p, |Print(OpenBlock(body))|)
  {
    assert Print(OpenBlock(body)) + more == "/*" + body;
    SuffixChar(t, p, "/*" + body, 0);
    SuffixChar(t, p, "/*" + body, 1);
    SuffixTail(t, p, "/*", body);
    OpenBlockReads(t, p + 2, body);
  }

  lemma QuoteToken(t: string, p: nat, q: char, v: string, more: string)
    requires Suffix(t, p, Print(Quoted(q, v)) + more) && Fits(Quoted(q, v), more)
    ensures Token(t, p, |Print(Quoted(q, v))|)
  {
    hide Twice;
    var s := [q] + (Twice(q, v) + [q] + more);
    assert Print(Quoted(q, v)) + more == s;
    SuffixChar(t, p, s, 0);
    SuffixTail(t, p, [q], Twice(q, v) + [q] + more);
    QuoteReads(t, p + 1, q, v, more);
  }

  lemma OpenQuoteToken(t: string, p: nat, q: char, v: string, more: string)
    requires Suffix(t, p, Print(OpenQuoted(q, v)) + more) && Fits(OpenQuoted(q, v), more)
    ensures Token(t, p, |Print(OpenQuoted(q, v))|)
  {
    hide Twice;
    assert Print(OpenQuoted(q, v)) + more == [q] + Twice(q, v);
    SuffixChar(t, p, [q] + Twice(q, v), 0);
    SuffixTail(t, p, [q], Twice(q, v));
    OpenQuoteReads(t, p + 1, q, v);
  }

  lemma OpenDollarToken(t: string, p: nat, tag: string, body: string, more: string)
    requires Suffix(t, p, Print(OpenDollar(tag, body)) + more) && Fits(OpenDollar(tag, body), more)
    ensures Token(t, p, |Print(OpenDollar(tag, body))|)
  {
    assert Print(OpenDollar(tag, body)) + more == ("$" + tag + "$") + body;
    SuffixChar(t, p, ("$" + tag + "$") + body, 0);
    hide NotBefore, TagRest, DollarEnd, IsTag;
    DollarReads(t, p, tag, body, |body|);
  }

  lemma ClosedDollarReads(t: string, p: nat, tag: string, body: string, more: string)
    requires Suffix(t, p, Print(Dollar(tag, body)) + more) && Fits(Dollar(tag, body), more)
    ensures Token(t, p, |Print(Dollar(tag, body))|)
  {
    var d := "$" + tag + "$";
    SuffixChar(t, p, Print(Dollar(tag, body)) + more, 0);
    hide At, NotBefore, TagRest, DollarEnd, IsTag;
    assert Print(Dollar(tag, body)) + more == d + (body + d + more);
    BodyEnds(body, d, more);
    DollarReads(t, p, tag, body + d + more, |body|);
  }

  lemma BodyEnds(body: string, d: string, more: string)
    requires d != "" && NotBefore(body + d, d, |body|)
    ensures At(body + d + more, |body|, d) && NotBefore(body + d + more, d, |body|)
  {
    var s := body + d + more;
    forall k | 0 <= k < |body| ensures !At(s, k, d) {
      assert !At(body + d, k, d);
      AtAppended(body + d, more, k, d);
    }
  }

  lemma AtAppended(a: string, b: string, k: nat, d: string)
    requires k + |d| <= |a|
    ensures At(a + b, k, d) <==> At(a, k, d)
  {
    if At(a + b, k, d) {
      forall x | 0 <= x < |d| ensures a[k + x] == d[x] { assert (a + b)[k + x] == d[x]; }
    }
  }

  lemma PlainReads(t: string, p: nat, c: char, more: string)
    requires Suffix(t, p, Print(Plain(c)) + more) && Fits(Plain(c), more)
    ensures Token(t, p, |Print(Plain(c))|)
  {
    var s := [c] + more;
    assert Print(Plain(c)) + more == s;
    SuffixChar(t, p, s, 0);
    SuffixTail(t, p, [c], more);
    if more != "" { SuffixChar(t, p, s, 1); }
    if c == '$' && TagRest(t, p + 1, false) > 0 { TagFollows(t, p + 1, more); }
  }

  lemma {:induction false} TagWord(t: string, p: nat, started: bool)
    requires p <= |t| && TagRest(t, p, started) > 0
    ensures p < TagRest(t, p, started) <= |t| && t[TagRest(t, p, started) - 1] == '$'
    ensures forall k :: p <= k < TagRest(t, p, started) - 1 ==> IsWordStart(t[k]) || ((started || k > p) && IsWordChar(t[k]))
    decreases |t| - p
  {
    if t[p] != '$' { TagWord(t, p + 1, true); }
  }

  lemma TagFollows(t: string, p: nat, more: string)
    requires Suffix(t, p, more) && TagRest(t, p, false) > 0
    ensures OpensTag(more)
  {
    var n := TagRest(t, p, false) - 1 - p;
    TagWord(t, p, false);
    assert more[n] == '$' && more[..n] == t[p..p + n];
    assert IsTag(more[..n]);
  }

  lemma LineReads(t: string, p: nat, body: string, more: string)
    requires Suffix(t, p, Print(Line(body)) + more) && Fits(Line(body), more)
    ensures Dashes(t, p) && Find(t, '\n', p) == p + |body| + 2
  {
    var s := "--" + body + more;
    assert Print(Line(body)) + more == s;
    SuffixChar(t, p, s, 0);
    SuffixChar(t, p, s, 1);
    var q := p + |body| + 2;
    forall k | p <= k < q ensures t[k] != '\n' { SuffixChar(t, p, s, k - p); }
    if more != "" {
      SuffixChar(t, p, s, |body| + 2);
      FindIs(t, '\n', p, q);
    } else {
      FindNone(t, '\n', p);
    }
  }

  lemma {:induction false} FindNone(t: string, c: char, p: nat)
    requires p <= |t| && forall k :: p <= k < |t| ==> t[k] != c
    ensures Find(t, c, p) == |t|
    decreases |t| - p
  {
    if p < |t| { FindNone(t, c, p + 1); }
  }

  /** The scan passes over `i` at `p`. */
  predicate Scanned(t: string, p: nat, cur: string, i: Item) {
    var q := p + |Print(i)|;
    p < q <= |t|
    && Segments(t, p, cur) ==
       if i.Semicolon? then [cur] + Segments(t, q, "") else Segments(t, q, cur + if i.Line? then "" else Print(i))
  }

  lemma ItemRead(t: string, p: nat, cur: string, i: Item, more: string)
    requires Suffix(t, p, Print(i) + more) && Fits(i, more)
    ensures Scanned(t, p, cur, i)
  {
    hide Segments, Fits, Print, Suffix, Scanned;
    if i.Line? {
      LineItem(t, p, cur, i.body, more);
    } else if i.Semicolon? {
      SemicolonItem(t, p, cur, more);
    } else {
      TokenItem(t, p, cur, i, more);
    }
  }

  lemma LineItem(t: string, p: nat, cur: string, body: string, more: string)
    requires Suffix(t, p, Print(Line(body)) + more) && Fits(Line(body), more)
    ensures Scanned(t, p, cur, Line(body))
  {
    LineReads(t, p, body, more);
    hide Segments, Fits, Suffix;
    InsideStatement(t, p, cur);
    assert cur + "" == cur;
  }

  lemma SemicolonItem(t: string, p: nat, cur: string, more: string)
    requires Suffix(t, p, Print(Semicolon) + more)
    ensures Scanned(t, p, cur, Semicolon)
  {
    SuffixChar(t, p, ";" + more, 0);
  }

  lemma TokenItem(t: string, p: nat, cur: string, i: Item, more: string)
    requires Suffix(t, p, Print(i) + more) && Fits(i, more) && !i.Line? && !i.Semicolon?
    ensures Scanned(t, p, cur, i)
  {
    hide Segments, Fits, Print, Suffix;
    TokenReads(t, p, i, more);
    SliceReads(t, p, Print(i), more);
    InsideStatement(t, p, cur);
  }

  lemma SliceReads(t: string, p: nat, s: string, more: string)
    requires Suffix(t, p, s + more)
    ensures p + |s| <= |t| && t[p..p + |s|] == s
  {
    assert t[p..p + |s|] == t[p..][..|s|] && (s + more)[..|s|] == s;
  }

  lemma FirstItem(items: seq<Item>)
    requires items != [] && AllFit(items)
    ensures PrintAll(items) == Print(items[0]) + PrintAll(items[1..])
    ensures Fits(items[0], PrintAll(items[1..])) && AllFit(items[1..])
    ensures var i, r := items[0], Texts(items[1..]);
      Texts(items) == if i.Semicolon? then [""] + r else [(if i.Line? then "" else Print(i)) + r[0]] + r[1..]
  {
    hide Print, Fits;
  }

  /** The texts between top-level semicolons are those of the items. */
  lemma {:induction false} SegmentsRead(t: string, p: nat, cur: string, items: seq<Item>)
    requires AllFit(items) && Suffix(t, p, PrintAll(items))
    ensures Segments(t, p, cur) == [cur + Texts(items)[0]] + Texts(items)[1..]
    decreases items
  {
    hide Fits, Print, Segments, Texts, PrintAll, AllFit, Suffix;
    if items == [] {
      SegmentsEnd(t, p, cur);
    } else {
      var i, rest := items[0], items[1..];
      var q, r := p + |Print(i)|, Texts(rest);
      FirstItem(items);
      SuffixTail(t, p, Print(i), PrintAll(rest));
      ItemRead(t, p, cur, i, PrintAll(rest));
      assert Scanned(t, p, cur, i);
      if i.Semicolon? {
        SegmentsRead(t, q, "", rest);
        Semi(cur, r);
      } else {
        var shown := if i.Line? then "" else Print(i);
        SegmentsRead(t, q, cur + shown, rest);
        Glue(cur, shown, r);
      }
    }
  }

  lemma SegmentsEnd(t: string, p: nat, cur: string)
    requires Suffix(t, p, PrintAll([]))
    ensures p <= |t| && Segments(t, p, cur) == [cur + Texts([])[0]] + Texts([])[1..]
  {
    assert |t[p..]| == |t| - p && cur + "" == cur;
  }

  lemma Semi(cur: string, r: seq<string>)
    requires r != []
    ensures [cur] + (["" + r[0]] + r[1..]) == [cur + ([""] + r)[0]] + ([""] + r)[1..]
  {
    assert "" + r[0] == r[0] && cur + "" == cur;
  }

  lemma Glue(cur: string, shown: string, r: seq<string>)
    requires r != []
    ensures var w := [shown + r[0]] + r[1..]; [cur + shown + r[0]] + r[1..] == [cur + w[0]] + w[1..]
  {
    assert cur + shown + r[0] == cur + (shown + r[0]);
  }
}
