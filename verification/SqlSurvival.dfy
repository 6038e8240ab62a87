/** When a statement survives the splitter. */
module SqlSurvival {
  import opened Lexical
  import opened SqlSplitter
  import opened SqlRelex
  import opened SqlRoundTrip
  import opened SqlGrammar
  import opened SqlStatements

  /** An item that is neither white space nor a comment that is closed. */
  predicate Stays(i: Item) {
    !(i.Plain? && IsSpace(i.c)) && !i.Line? && !i.Block?
  }

  /** One that is not only white space and dashes, comments included. */
  predicate Tells(i: Item) {
    !(i.Plain? && (i.c == '-' || IsSpace(i.c))) && !i.Line?
  }

  predicate OneStatement(items: seq<Item>) {
    forall k :: 0 <= k < |items| ==> !items[k].Semicolon?
  }

  function Shown(items: seq<Item>): string {
    if items == [] then "" else (if items[0].Line? then "" else Print(items[0])) + Shown(items[1..])
  }

  lemma {:induction false} ShownIsText(items: seq<Item>)
    requires OneStatement(items)
    ensures Texts(items) == [Shown(items)]
  {
    if items != [] { ShownIsText(items[1..]); hide Print; }
  }

  lemma PrintSome(i: Item)
    ensures Print(i) != ""
  {
  }

  /** Behind an item stands what the text goes on with, or the end of a line. */
  lemma ShownFirst(items: seq<Item>)
    requires AllFit(items) && OneStatement(items) && Shown(items) != ""
    ensures PrintAll(items) != "" && (Shown(items)[0] == PrintAll(items)[0] || Shown(items)[0] == '\n')
  {
    PrintSome(items[0]);
    if items[0].Line? {
      assert Shown(items) == Shown(items[1..]) && items[1..] != [];
      PrintSome(items[1]);
      assert PrintAll(items[1..])[0] == Print(items[1])[0] == '\n';
      assert !items[1].Line?;
    }
  }

  predicate AnyStays(items: seq<Item>) {
    exists k :: 0 <= k < |items| && Stays(items[k])
  }

  lemma AnyStaysFirst(items: seq<Item>)
    requires items != []
    ensures AnyStays(items) <==> Stays(items[0]) || AnyStays(items[1..])
  {
    assert forall k :: 0 <= k < |items[1..]| ==> items[1..][k] == items[k + 1];
    hide Stays;
    if AnyStays(items) {
      var k :| 0 <= k < |items| && Stays(items[k]);
      assert k == 0 || Stays(items[1..][k - 1]);
    }
  }

  /** What is left of a text when its block comments are removed is solid exactly when an item stays. */
  lemma {:induction false} BlocksLeave(x: string, p: nat, items: seq<Item>)
    requires AllFit(items) && OneStatement(items) && Suffix(x, p, Shown(items))
    ensures Solid(DropBlockComments(x, p)) <==> AnyStays(items)
    decreases items
  {
    hide Solid, DropBlockComments, AllFit, Shown, Suffix, Stays, AnyStays, OneStatement, Print;
    if items == [] {
      NothingLeft(x, p);
    } else {
      var i, rest := items[0], items[1..];
      AnyStaysFirst(items);
      FirstLeaves(x, p, items);
      if i.Line? {
        BlocksLeave(x, p, rest);
      } else if i.Plain? || i.Block? {
        BlocksLeave(x, p + |Print(i)|, rest);
      }
    }
  }

  lemma NothingLeft(x: string, p: nat)
    requires Suffix(x, p, Shown([]))
    ensures p <= |x| && !Solid(DropBlockComments(x, p)) && !AnyStays([])
  {
    assert |x[p..]| == |x| - p;
  }

  /** What `i` adds at `p`, before `rest`. */
  predicate Leaves(x: string, p: nat, i: Item, rest: seq<Item>) {
    if i.Line? then !Stays(i) && Suffix(x, p, Shown(rest))
    else if i.Plain? || i.Block? then
      var q := p + |Print(i)|;
      p < q <= |x| && Suffix(x, q, Shown(rest))
      && (Solid(DropBlockComments(x, p)) <==> Stays(i) || Solid(DropBlockComments(x, q)))
    else p < |x| && Stays(i) && Solid(DropBlockComments(x, p))
  }

  lemma FirstLeaves(x: string, p: nat, items: seq<Item>)
    requires items != [] && AllFit(items) && OneStatement(items) && Suffix(x, p, Shown(items))
    ensures AllFit(items[1..]) && OneStatement(items[1..]) && Leaves(x, p, items[0], items[1..])
  {
    var i, rest := items[0], items[1..];
    assert Fits(i, PrintAll(rest)) && AllFit(rest) && OneStatement(rest) && !i.Semicolon?;
    assert Shown(items) == (if i.Line? then "" else Print(i)) + Shown(rest);
    hide AllFit, Shown, Fits, Print, OneStatement;
    if i.Line? {
      assert "" + Shown(rest) == Shown(rest);
      hide Suffix;
    } else {
      hide Suffix, Leaves;
      ItemLeaves(x, p, i, rest);
    }
  }

  lemma ItemLeaves(x: string, p: nat, i: Item, rest: seq<Item>)
    requires Suffix(x, p, Print(i) + Shown(rest)) && Fits(i, PrintAll(rest)) && AllFit(rest) && OneStatement(rest)
    requires !i.Line? && !i.Semicolon?
    ensures Leaves(x, p, i, rest)
  {
    hide AllFit, OneStatement, Shown, DropBlockComments, Solid, NotBefore;
    SuffixTail(x, p, Print(i), Shown(rest));
    if i.Plain? {
      PlainLeaves(x, p, i.c, rest);
    } else if i.Block? {
      assert i == Block(i.body);
      BlockLeaves(x, p, i.body, Shown(rest));
    } else {
      TokenLeaves(x, p, i, rest);
    }
    hide Suffix, Fits;
  }

  lemma PlainLeaves(x: string, p: nat, c: char, rest: seq<Item>)
    requires Suffix(x, p, [c] + Shown(rest)) && AllFit(rest) && OneStatement(rest) && Fits(Plain(c), PrintAll(rest))
    ensures p < |x| && (Solid(DropBlockComments(x, p)) <==> !IsSpace(c) || Solid(DropBlockComments(x, p + 1)))
  {
    var s := [c] + Shown(rest);
    SuffixChar(x, p, s, 0);
    if Shown(rest) != "" {
      ShownFirst(rest);
      SuffixChar(x, p, s, 1);
    }
    hide Shown, OpensTag;
    assert !Opens(x, p);
    SolidMore(c, DropBlockComments(x, p + 1));
  }

  lemma BlockLeaves(x: string, p: nat, body: string, more: string)
    requires Suffix(x, p, Print(Block(body)) + more) && NotBefore(body + "*/", "*/", |body|)
    ensures p < |x| && p + |Print(Block(body))| <= |x|
    ensures DropBlockComments(x, p) == DropBlockComments(x, p + |Print(Block(body))|)
  {
    hide Terminated, BlockEnd, Opens, NotBefore, DropBlockComments, Suffix, Print;
    BlockStands(x, p, body, more);
    BlocksStep(x, p);
  }

  lemma BlockStands(x: string, p: nat, body: string, more: string)
    requires Suffix(x, p, Print(Block(body)) + more) && NotBefore(body + "*/", "*/", |body|)
    ensures Opens(x, p) && Terminated(x, p + 2) && BlockEnd(x, p + 2) == p + |Print(Block(body))|
  {
    var s, end := "/*" + (body + "*/" + more), "*/" + more;
    assert Print(Block(body)) + more == s;
    SuffixChar(x, p, s, 0);
    SuffixChar(x, p, s, 1);
    SuffixTail(x, p, "/*", body + "*/" + more);
    hide Terminated, BlockEnd, NotBefore, Suffix;
    BlockReads(x, p + 2, body, more);
    assert body + "*/" + more == body + end;
    SuffixTail(x, p + 2, body, end);
    SuffixChar(x, p + 2 + |body|, end, 0);
    SuffixChar(x, p + 2 + |body|, end, 1);
    EndTerminates(x, p + 2, p + 2 + |body|);
  }

  lemma TokenLeaves(x: string, p: nat, i: Item, rest: seq<Item>)
    requires Suffix(x, p, Print(i) + Shown(rest)) && Fits(i, PrintAll(rest)) && AllFit(rest)
    requires !i.Plain? && !i.Block? && !i.Line? && !i.Semicolon?
    ensures p < |x| && Solid(DropBlockComments(x, p))
  {
    var s := Print(i) + Shown(rest);
    SuffixChar(x, p, s, 0);
    var c := s[0];
    assert !IsSpace(c);
    if i.OpenBlock? {
      assert PrintAll(rest) == "";
      if rest != [] { PrintSome(rest[0]); }
      assert s == "/*" + i.body;
      SuffixChar(x, p, s, 1);
      SuffixTail(x, p, "/*", i.body);
      NotTerminated(x, p + 2, i.body);
    }
    hide Print, Shown, Fits, AllFit;
    SolidMore(c, DropBlockComments(x, p + 1));
  }

  lemma NotTerminated(x: string, p: nat, body: string)
    requires Suffix(x, p, body) && NotBefore(body, "*/", |body|)
    ensures !Terminated(x, p)
  {
    forall k | p <= k < |x| ensures !EndsAt(x, k) {
      SuffixAt(x, p, body, k - p, "*/");
      EndIsAt(x, k);
    }
  }

  // ----- the tests of the splitter on a text without dashes

  predicate NoDashes(x: string) {
    forall k :: 0 <= k < |x| ==> !Dashes(x, k)
  }

  lemma {:induction false} NothingDropped(x: string, p: nat)
    requires p <= |x| && forall k :: p <= k < |x| ==> !Dashes(x, k)
    ensures DropLineComments(x, p) == x[p..]
    decreases |x| - p
  {
    if p < |x| {
      assert !Dashes(x, p);
      NothingDropped(x, p + 1);
    }
  }

  /** A character that is neither white space nor a dash. */
  predicate Telling(x: string) {
    exists k :: 0 <= k < |x| && x[k] != '-' && !IsSpace(x[k])
  }

  predicate AnyTells(items: seq<Item>) {
    exists k :: 0 <= k < |items| && Tells(items[k])
  }

  lemma AnyTellsFirst(items: seq<Item>)
    requires items != []
    ensures AnyTells(items) <==> Tells(items[0]) || AnyTells(items[1..])
  {
    assert forall k :: 0 <= k < |items[1..]| ==> items[1..][k] == items[k + 1];
    hide Tells;
    if AnyTells(items) {
      var k :| 0 <= k < |items| && Tells(items[k]);
      assert k == 0 || Tells(items[1..][k - 1]);
    }
  }

  lemma TellingBoth(a: string, b: string)
    ensures Telling(a + b) <==> Telling(a) || Telling(b)
  {
    assert forall k :: 0 <= k < |a| ==> (a + b)[k] == a[k];
    assert forall k :: 0 <= k < |b| ==> (a + b)[|a| + k] == b[k];
  }

  lemma SpacesTellNothing(a: string)
    requires AllSpace(a)
    ensures !Telling(a) && !Solid(a)
  {
  }

  lemma {:induction false} ShownTells(items: seq<Item>)
    requires AllFit(items) && OneStatement(items)
    ensures Telling(Shown(items)) <==> AnyTells(items)
  {
    if items != [] {
      var i := items[0];
      AnyTellsFirst(items);
      ShownTells(items[1..]);
      TellingBoth(if i.Line? then "" else Print(i), Shown(items[1..]));
      assert Fits(i, PrintAll(items[1..]));
      ItemTells(i);
      hide Telling, AnyTells, Tells, Print;
    }
  }

  lemma ItemTells(i: Item)
    requires !i.Semicolon? && (i.Quoted? || i.OpenQuoted? ==> IsQuote(i.q))
    ensures !i.Line? ==> (Telling(Print(i)) <==> Tells(i))
    ensures !Telling("") && (i.Line? ==> !Tells(i))
  {
    if !i.Line? && !i.Plain? { FirstTells(i); }
    hide Telling;
    if i.Plain? { CharTells(i.c); }
  }

  lemma CharTells(c: char)
    ensures Telling([c]) <==> c != '-' && !IsSpace(c)
  {
    assert [c][0] == c;
  }

  lemma FirstTells(i: Item)
    requires !i.Semicolon? && !i.Line? && !i.Plain? && (i.Quoted? || i.OpenQuoted? ==> IsQuote(i.q))
    ensures Telling(Print(i))
  {
    var s := Print(i);
    match i {
      case Quoted(q, _) => assert s[0] == q;
      case OpenQuoted(q, _) => assert s[0] == q;
      case Block(_) => assert s[0] == '/';
      case OpenBlock(_) => assert s[0] == '/';
      case Dollar(_, _) => assert s[0] == '$';
      case OpenDollar(_, _) => assert s[0] == '$';
    }
  }

  // ----- white space around a statement changes none of these tests

  lemma {:induction false} BlockEndTail(a: string, m: string, p: nat)
    requires p <= |m|
    ensures BlockEnd(a + m, |a| + p) == |a| + BlockEnd(m, p)
    decreases |m| - p
  {
    if p + 1 < |m| {
      assert (a + m)[|a| + p] == m[p] && (a + m)[|a| + p + 1] == m[p + 1];
      BlockEndTail(a, m, p + 1);
    }
  }

  lemma TerminatedTail(a: string, m: string, p: nat)
    requires p <= |m|
    ensures Terminated(a + m, |a| + p) <==> Terminated(m, p)
  {
    var x := a + m;
    forall k | 0 <= k < |m| ensures EndsAt(x, |a| + k) <==> EndsAt(m, k) {
      assert x[|a| + k] == m[k];
      if k + 1 < |m| { assert x[|a| + k + 1] == m[k + 1]; }
    }
    if Terminated(m, p) {
      var k :| p <= k < |m| && EndsAt(m, k);
      assert EndsAt(x, |a| + k);
    }
    if Terminated(x, |a| + p) {
      var k :| |a| + p <= k < |x| && EndsAt(x, k);
      assert EndsAt(m, k - |a|);
    }
  }

  lemma {:induction false} BlocksTail(a: string, m: string, x: string, p: nat)
    requires p <= |m| && x == a + m
    ensures DropBlockComments(x, |a| + p) == DropBlockComments(m, p)
    decreases |m| - p
  {
    hide Terminated, BlockEnd, Opens, DropBlockComments;
    if p == |m| {
      BlocksNone(m);
      BlocksNone(x);
    } else {
      OpensTail(a, m, p);
      BlocksStep(m, p);
      BlocksStep(x, |a| + p);
      if Opens(m, p) && Terminated(m, p + 2) {
        BlocksTail(a, m, x, BlockEnd(m, p + 2));
      } else {
        BlocksTail(a, m, x, p + 1);
      }
    }
  }

  lemma BlocksNone(t: string)
    ensures DropBlockComments(t, |t|) == ""
  {
  }

  lemma OpensTail(a: string, m: string, p: nat)
    requires p < |m|
    ensures (a + m)[|a| + p] == m[p] && (Opens(a + m, |a| + p) <==> Opens(m, p))
    ensures Opens(m, p) ==> (Terminated(a + m, |a| + p + 2) <==> Terminated(m, p + 2))
    ensures Opens(m, p) ==> BlockEnd(a + m, |a| + p + 2) == |a| + BlockEnd(m, p + 2)
  {
    assert (a + m)[|a| + p] == m[p];
    if p + 1 < |m| { assert (a + m)[|a| + p + 1] == m[p + 1]; }
    if Opens(m, p) {
      TerminatedTail(a, m, p + 2);
      BlockEndTail(a, m, p + 2);
    }
    hide Terminated, BlockEnd;
  }

  lemma {:induction false} BlocksLead(a: string, m: string, p: nat)
    requires p <= |a| && AllSpace(a)
    ensures Solid(DropBlockComments(a + m, p)) <==> Solid(DropBlockComments(a + m, |a|))
    decreases |a| - p
  {
    if p < |a| {
      assert (a + m)[p] == a[p] && !Opens(a + m, p);
      BlocksLead(a, m, p + 1);
      SolidMore(a[p], DropBlockComments(a + m, p + 1));
      hide Solid;
    }
  }

  lemma EndsTrailing(m: string, b: string, k: nat)
    requires AllSpace(b)
    ensures EndsAt(m + b, k) <==> EndsAt(m, k)
  {
    if k + 1 < |m| {
      assert (m + b)[k] == m[k] && (m + b)[k + 1] == m[k + 1];
    } else if k + 1 < |m + b| {
      assert (m + b)[k + 1] == b[k + 1 - |m|];
    }
  }

  lemma BlockEndTrailing(m: string, b: string, p: nat)
    requires AllSpace(b) && p <= |m| && Terminated(m, p)
    ensures Terminated(m + b, p) && BlockEnd(m + b, p) == BlockEnd(m, p)
  {
    BlockEndMeans(m, p);
    var e := BlockEnd(m, p);
    hide AllSpace, BlockEnd, EndsAt, Terminated;
    forall k: nat | p <= k < e - 2 ensures !EndsAt(m + b, k) { EndsTrailing(m, b, k); }
    EndsTrailing(m, b, e - 2);
    BlockEndIs(m + b, p, e - 2);
    assert Terminated(m + b, p) by { EndTerminates(m + b, p, e - 2); }
  }

  lemma EndTerminates(t: string, p: nat, k: nat)
    requires p <= k && EndsAt(t, k)
    ensures Terminated(t, p)
  {
  }

  lemma {:induction false} BlocksTrailing(m: string, b: string, p: nat)
    requires AllSpace(b) && p <= |m|
    ensures Solid(DropBlockComments(m + b, p)) <==> Solid(DropBlockComments(m, p))
    decreases |m| - p
  {
    if p == |m| {
      assert DropBlockComments(m, p) == "";
      SpacesLeft(m, b, p);
    } else {
      OpensTrailing(m, b, p);
      hide Solid, Opens, Terminated, BlockEnd, AllSpace;
      if Opens(m, p) && Terminated(m, p + 2) {
        BlockEndTrailing(m, b, p + 2);
        BlocksTrailing(m, b, BlockEnd(m, p + 2));
      } else {
        assert (m + b)[p] == m[p];
        BlocksTrailing(m, b, p + 1);
        SolidMore(m[p], DropBlockComments(m, p + 1));
        SolidMore(m[p], DropBlockComments(m + b, p + 1));
      }
    }
  }

  lemma OpensTrailing(m: string, b: string, p: nat)
    requires AllSpace(b) && p < |m|
    ensures Opens(m + b, p) && Terminated(m + b, p + 2) <==> Opens(m, p) && Terminated(m, p + 2)
  {
    assert (m + b)[p] == m[p];
    if p + 1 < |m| { assert (m + b)[p + 1] == m[p + 1]; } else if b != "" { assert (m + b)[p + 1] == b[0]; }
    if Opens(m, p) && Terminated(m, p + 2) { BlockEndTrailing(m, b, p + 2); }
    if Terminated(m + b, p + 2) {
      var k :| p + 2 <= k < |m + b| && EndsAt(m + b, k);
      EndsTrailing(m, b, k);
      EndTerminates(m, p + 2, k);
    }
  }

  lemma {:induction false} SpacesLeft(m: string, b: string, p: nat)
    requires AllSpace(b) && |m| <= p <= |m + b|
    ensures !Solid(DropBlockComments(m + b, p))
    decreases |m + b| - p
  {
    if p < |m + b| {
      assert (m + b)[p] == b[p - |m|];
      SpacesLeft(m, b, p + 1);
      SolidMore((m + b)[p], DropBlockComments(m + b, p + 1));
      hide Solid;
    }
  }

  lemma TrimKeepsTests(x: string)
    requires NoDashes(x)
    ensures var m := Trim(x);
      NoDashes(m) && (Telling(m) <==> Telling(x)) && (Solid(DropBlockComments(m, 0)) <==> Solid(DropBlockComments(x, 0)))
  {
    var a, b := TrimParts(x);
    var m := Trim(x);
    hide Trim, DropBlockComments;
    forall k | 0 <= k < |m| ensures !Dashes(m, k) {
      assert !Dashes(x, |a| + k) && x[|a| + k] == m[k];
      if k + 1 < |m| { assert x[|a| + k + 1] == m[k + 1]; }
    }
    SpacesTellNothing(a);
    SpacesTellNothing(b);
    TellingBoth(a, m);
    TellingBoth(a + m, b);
    hide Telling, Solid, AllSpace;
    assert x == a + (m + b);
    BlocksLead(a, m + b, 0);
    BlocksTail(a, m + b, x, 0);
    BlocksTrailing(m, b, 0);
  }

  lemma KeepsTelling(m: string)
    requires NoDashes(m)
    ensures Keep(m) <==> Telling(m) && Solid(DropBlockComments(m, 0))
  {
    NothingDropped(m, 0);
    assert m[0..] == m;
    assert DropLineComments(m, 0) == m;
    SolidTrim(DropBlockComments(m, 0));
    assert Telling(m) ==> !AllSpace(m) && m != "";
    hide DropBlockComments, DropLineComments, Trim;
  }

  /** A statement in which two dashes stand nowhere but in line comments survives exactly when it is more than white space and
      closed comments, and more than white space and dashes. */
  lemma SurvivesExactly(items: seq<Item>)
    requires AllFit(items) && OneStatement(items) && NoDashes(Shown(items))
    ensures Split(PrintAll(items)) == if AnyStays(items) && AnyTells(items) then [Trim(Shown(items))] else []
  {
    var t, x := PrintAll(items), Shown(items);
    hide AllFit, OneStatement, NoDashes, AnyStays, AnyTells, Trim, Keep, DropBlockComments, Telling, Solid, Segments;
    ShownIsText(items);
    assert t[0..] == t && x[0..] == x && "" + x == x && [x] + [x][1..] == [x];
    SegmentsRead(t, 0, "", items);
    BlocksLeave(x, 0, items);
    ShownTells(items);
    TrimKeepsTests(x);
    KeepsTelling(Trim(x));
    assert Segments(t, 0, "") == [x];
    OneFlush(x);
  }

  lemma OneFlush(x: string)
    ensures FlushAll([x]) == if Keep(Trim(x)) then [Trim(x)] else []
  {
    assert [x][1..] == [] && FlushAll([]) == [] && Flush(x) + [] == Flush(x);
    hide Keep, Trim;
  }

  // ----- dashes

  const Swallowed := [Block("--"), Plain('\n'), Plain('a'), Block("")]
  const SwallowedText := "/*--*/\na/**/"

  lemma SwallowedFits()
    ensures AllFit(Swallowed) && PrintAll(Swallowed) == SwallowedText == Shown(Swallowed)
  {
    var one, two, three := Swallowed[1..], Swallowed[2..], Swallowed[3..];
    assert three == [Block("")] && two == [Plain('a')] + three && one == [Plain('\n')] + two && Swallowed == [Block("--")] + one;
    assert three[1..] == [] && two[1..] == three && one[1..] == two;
    assert Print(Block("")) == "/**/" && Print(Block("--")) == "/*--*/";
    assert PrintAll(three) == "/**/" == Shown(three);
    assert PrintAll(two) == "a/**/" == Shown(two);
    assert PrintAll(one) == "\na/**/" == Shown(one);
    assert PrintAll(Swallowed) == SwallowedText == Shown(Swallowed);
    hide Print, PrintAll, Shown, Fits;
    SwallowedItems();
    assert PrintAll([]) == "" && AllFit([]);
    assert AllFit(three) && AllFit(two) && AllFit(one);
  }

  lemma SwallowedItems()
    ensures Fits(Block("--"), "\na/**/") && Fits(Plain('\n'), "a/**/") && Fits(Plain('a'), "/**/") && Fits(Block(""), "")
  {
    assert "--" + "*/" == "--*/" && "--*/"[0] == '-' && "--*/"[1] == '-' && "*/"[0] == '*';
    assert !At("--*/", 0, "*/") && !At("--*/", 1, "*/");
  }

  lemma SwallowedCode()
    ensures DropLineComments(SwallowedText, 0) == "/*\na/**/"
  {
    var x := SwallowedText;
    assert !Dashes(x, 0) && !Dashes(x, 1) && Dashes(x, 2);
    FindIs(x, '\n', 2, 6);
    NothingDropped(x, 6);
    assert DropLineComments(x, 2) == "\na/**/";
    assert DropLineComments(x, 1) == "*\na/**/";
  }

  lemma SwallowedLeaves()
    ensures DropBlockComments("/*\na/**/", 0) == ""
  {
    var c := "/*\na/**/";
    assert c[2] == '\n' && c[3] == 'a' && c[4] == '/' && c[5] == '*' && c[6] == '*' && c[7] == '/';
    assert EndsAt(c, 6);
    BlockEndIs(c, 2, 6);
    EndTerminates(c, 2, 6);
    assert Opens(c, 0) && DropBlockComments(c, 8) == "";
    hide BlockEnd, Terminated;
  }

  /** With dashes in a comment it may not: here a comment with dashes and a later one swallow the statement between them. */
  lemma DashesLoseStatement()
    ensures AllFit(Swallowed) && OneStatement(Swallowed) && AnyStays(Swallowed) && AnyTells(Swallowed)
    ensures Split(PrintAll(Swallowed)) == []
  {
    var x := SwallowedText;
    SwallowedFits();
    assert Swallowed[2] == Plain('a');
    hide AllFit, PrintAll, Shown, DropBlockComments, DropLineComments, Segments, Trim;
    ShownIsText(Swallowed);
    TrimAgain("", x);
    assert "" + x == x && x[0..] == x && [x] + [x][1..] == [x];
    SegmentsRead(x, 0, "", Swallowed);
    SwallowedCode();
    SwallowedLeaves();
    SolidTrim("");
    assert !Keep(x);
    assert Segments(x, 0, "") == [x];
    OneFlush(x);
  }
}
