/** The search needle: what the user typed, as a LIKE pattern with ESCAPE '#'. */
module IlikeNeedle {

  /** What the user typed: `\*` is any run, `\?` any one character, everything else itself. */
  datatype Glob = Lit(c: char) | AnyOne | AnyRun

  predicate Escaped(raw: string, i: nat) {
    i + 1 < |raw| && raw[i] == '\\' && (raw[i + 1] == '*' || raw[i + 1] == '?')
  }

  function Globs(raw: string, i: nat): seq<Glob>
    requires i <= |raw|
    decreases |raw| - i
  {
    if i == |raw| then []
    else if Escaped(raw, i) then [if raw[i + 1] == '*' then AnyRun else AnyOne] + Globs(raw, i + 2)
    else [Lit(raw[i])] + Globs(raw, i + 1)
  }

  predicate GlobMatch(s: string, g: seq<Glob>, same: (char, char) -> bool) {
    if g == [] then s == ""
    else match g[0]
      case Lit(c) => s != "" && same(s[0], c) && GlobMatch(s[1..], g[1..], same)
      case AnyOne => s != "" && GlobMatch(s[1..], g[1..], same)
      case AnyRun => exists k :: 0 <= k <= |s| && GlobMatch(s[k..], g[1..], same)
  }

  // ----- LIKE

  /** SQL LIKE with ESCAPE '#'; `same` is character equality, up to case for ILIKE. */
  predicate Like(s: string, p: string, same: (char, char) -> bool)
    decreases |p|
  {
    if p == "" then s == ""
    else if p[0] == '#' then |p| > 1 && s != "" && same(s[0], p[1]) && Like(s[1..], p[2..], same)
    else if p[0] == '%' then exists k :: 0 <= k <= |s| && Like(s[k..], p[1..], same)
    else if p[0] == '_' then s != "" && Like(s[1..], p[1..], same)
    else s != "" && same(s[0], p[0]) && Like(s[1..], p[1..], same)
  }

  function Pattern(g: Glob): string {
    match g
    case AnyRun => "%"
    case AnyOne => "_"
    case Lit(c) => if c == '%' || c == '_' || c == '#' then ['#', c] else [c]
  }

  function Patterns(g: seq<Glob>): string {
    if g == [] then "" else Pattern(g[0]) + Patterns(g[1..])
  }

  /** How many UTF-16 units a character takes. */
  function Units(c: char): nat {
    if c as int < 0x10000 then 1 else 2
  }

  function GlobUnits(g: Glob): nat {
    if g.Lit? then Units(g.c) else 0
  }

  /** The UTF-16 units of the literal characters. */
  function Literals(g: seq<Glob>): nat {
    if g == [] then 0 else GlobUnits(g[0]) + Literals(g[1..])
  }

  predicate HasWildcard(g: seq<Glob>) {
    exists i :: 0 <= i < |g| && !g[i].Lit?
  }

  /** One character, or one escape: what it adds to the pattern and to the counts. */
  lemma NeedleStep(raw: string, i: nat)
    requires i < |raw|
    ensures var next := if Escaped(raw, i) then i + 2 else i + 1;
      var g := if Escaped(raw, i) then (if raw[i + 1] == '*' then AnyRun else AnyOne) else Lit(raw[i]);
      Patterns(Globs(raw, i)) == Pattern(g) + Patterns(Globs(raw, next))
      && Literals(Globs(raw, i)) == GlobUnits(g) + Literals(Globs(raw, next))
      && (HasWildcard(Globs(raw, i)) <==> !g.Lit? || HasWildcard(Globs(raw, next)))
  {
    var next := if Escaped(raw, i) then i + 2 else i + 1;
    assert Globs(raw, i)[1..] == Globs(raw, next);
    WildcardHere(Globs(raw, i));
  }

  lemma Assoc(a: string, b: string, c: string)
    ensures a + (b + c) == (a + b) + c
  {
  }

  method BuildIlikeNeedle(raw: string) returns (needle: string, trueChars: nat, hasEscapedWildcard: bool)
    ensures needle == "%" + Patterns(Globs(raw, 0)) + "%"
    ensures trueChars == Literals(Globs(raw, 0))
    ensures hasEscapedWildcard <==> HasWildcard(Globs(raw, 0))
  {
    var out := "";
    trueChars, hasEscapedWildcard := 0, false;
    var i := 0;
    assert "" + Patterns(Globs(raw, 0)) == Patterns(Globs(raw, 0));
    assert Patterns(Globs(raw, |raw|)) == "" && Literals(Globs(raw, |raw|)) == 0 && !HasWildcard(Globs(raw, |raw|));
    hide Globs, Patterns, Literals, HasWildcard;
    while i < |raw|
      invariant i <= |raw|
      invariant out + Patterns(Globs(raw, i)) == Patterns(Globs(raw, 0))
      invariant trueChars + Literals(Globs(raw, i)) == Literals(Globs(raw, 0))
      invariant hasEscapedWildcard || HasWildcard(Globs(raw, i)) <==> HasWildcard(Globs(raw, 0))
    {
      var ch := raw[i];
      NeedleStep(raw, i);
      var piece: string;
      if ch == '\\' && i + 1 < |raw| && (raw[i + 1] == '*' || raw[i + 1] == '?') {
        piece := if raw[i + 1] == '*' then "%" else "_";
        hasEscapedWildcard := true;
        Assoc(out, piece, Patterns(Globs(raw, i + 2)));
        i := i + 2;
      } else {
        piece := if ch == '%' then "#%" else if ch == '_' then "#_" else if ch == '#' then "##" else [ch];
        trueChars := trueChars + Units(ch);
        Assoc(out, piece, Patterns(Globs(raw, i + 1)));
        i := i + 1;
      }
      out := out + piece;
    }
    assert out + "" == out;
    needle := "%" + out + "%";
  }

  lemma WildcardHere(g: seq<Glob>)
    ensures HasWildcard(g) <==> g != [] && (!g[0].Lit? || HasWildcard(g[1..]))
  {
    if g != [] && HasWildcard(g[1..]) {
      var i :| 0 <= i < |g[1..]| && !g[1..][i].Lit?;
      assert !g[i + 1].Lit?;
    }
    if HasWildcard(g) && g[0].Lit? {
      var i :| 0 <= i < |g| && !g[i].Lit?;
      assert !g[1..][i - 1].Lit?;
    }
  }

  // ----- exactness

  /** A pattern followed by `%` matches exactly the strings with a matching prefix. */
  lemma {:induction false} PrefixExact(s: string, g: seq<Glob>, same: (char, char) -> bool)
    ensures Like(s, Patterns(g) + "%", same) <==> exists j :: 0 <= j <= |s| && GlobMatch(s[..j], g, same)
    decreases |g|
  {
    var p := Patterns(g) + "%";
    if g == [] {
      TrailingRun(s, same);
      assert p == "%";
      assert GlobMatch(s[..0], g, same);
    } else {
      assert p == Pattern(g[0]) + (Patterns(g[1..]) + "%");
      match g[0]
      case AnyRun => RunExact(s, g, same);
      case _ => OneExact(s, g, same);
    }
  }

  lemma TrailingRun(s: string, same: (char, char) -> bool)
    ensures Like(s, "%", same)
  {
    assert Like(s[|s|..], ""[..], same);
    assert "%"[1..] == "";
  }

  lemma {:induction false} OneExact(s: string, g: seq<Glob>, same: (char, char) -> bool)
    requires g != [] && !g[0].AnyRun?
    ensures Like(s, Patterns(g) + "%", same) <==> exists j :: 0 <= j <= |s| && GlobMatch(s[..j], g, same)
    decreases |g|, 0
  {
    var p, q := Patterns(g) + "%", Patterns(g[1..]) + "%";
    assert p == Pattern(g[0]) + q;
    assert p[|Pattern(g[0])|..] == q;
    if s != "" {
      PrefixExact(s[1..], g[1..], same);
      forall j | 1 <= j <= |s| ensures s[..j][1..] == s[1..][..j - 1] && s[..j][0] == s[0] { }
      if exists i :: 0 <= i <= |s[1..]| && GlobMatch(s[1..][..i], g[1..], same) {
        var i :| 0 <= i <= |s[1..]| && GlobMatch(s[1..][..i], g[1..], same);
        assert s[..i + 1][1..] == s[1..][..i];
        assert GlobMatch(s[..i + 1], g, same) <==> (g[0].AnyOne? || same(s[0], g[0].c));
      }
    }
  }

  lemma {:induction false} RunExact(s: string, g: seq<Glob>, same: (char, char) -> bool)
    requires g != [] && g[0].AnyRun?
    ensures Like(s, Patterns(g) + "%", same) <==> exists j :: 0 <= j <= |s| && GlobMatch(s[..j], g, same)
    decreases |g|, 0
  {
    var p, q := Patterns(g) + "%", Patterns(g[1..]) + "%";
    assert p == "%" + q && p[1..] == q;
    forall k | 0 <= k <= |s|
      ensures Like(s[k..], q, same) <==> exists j :: 0 <= j <= |s[k..]| && GlobMatch(s[k..][..j], g[1..], same)
    {
      PrefixExact(s[k..], g[1..], same);
    }
    if Like(s, p, same) {
      var k :| 0 <= k <= |s| && Like(s[k..], q, same);
      var j :| 0 <= j <= |s[k..]| && GlobMatch(s[k..][..j], g[1..], same);
      assert s[..k + j][k..] == s[k..][..j];
      assert GlobMatch(s[..k + j], g, same);
    }
    if exists j :: 0 <= j <= |s| && GlobMatch(s[..j], g, same) {
      var j :| 0 <= j <= |s| && GlobMatch(s[..j], g, same);
      var k :| 0 <= k <= |s[..j]| && GlobMatch(s[..j][k..], g[1..], same);
      assert s[..j][k..] == s[k..][..j - k];
      assert Like(s[k..], q, same);
    }
  }

  lemma FoundPart(s: string, g: seq<Glob>, k: nat, same: (char, char) -> bool)
    requires k <= |s| && Like(s[k..], Patterns(g) + "%", same)
    ensures exists j :: k <= j <= |s| && GlobMatch(s[k..j], g, same)
  {
    PrefixExact(s[k..], g, same);
    var j :| 0 <= j <= |s[k..]| && GlobMatch(s[k..][..j], g, same);
    hide GlobMatch, Like, Patterns;
    PartOfRest(s, k, j);
  }

  lemma PartOfRest(s: string, k: nat, j: nat)
    requires k + j <= |s|
    ensures s[k..][..j] == s[k..k + j]
  {
  }

  lemma PartFound(s: string, g: seq<Glob>, i: nat, j: nat, same: (char, char) -> bool)
    requires i <= j <= |s| && GlobMatch(s[i..j], g, same)
    ensures Like(s[i..], Patterns(g) + "%", same)
  {
    PartOfRest(s, i, j - i);
    PrefixExact(s[i..], g, same);
  }

  /** The needle matches a string exactly when some part of it is what the user asked for. */
  lemma NeedleIsExact(s: string, raw: string, same: (char, char) -> bool)
    ensures Like(s, "%" + Patterns(Globs(raw, 0)) + "%", same)
      <==> exists i, j :: 0 <= i <= j <= |s| && GlobMatch(s[i..j], Globs(raw, 0), same)
  {
    var g := Globs(raw, 0);
    var q := Patterns(g) + "%";
    var p := "%" + Patterns(g) + "%";
    assert p == "%" + q && p[1..] == q;
    hide Globs, Patterns, GlobMatch;
    if Like(s, p, same) {
      var k :| 0 <= k <= |s| && Like(s[k..], q, same);
      FoundPart(s, g, k, same);
    }
    if exists i, j :: 0 <= i <= j <= |s| && GlobMatch(s[i..j], g, same) {
      var i, j :| 0 <= i <= j <= |s| && GlobMatch(s[i..j], g, same);
      PartFound(s, g, i, j, same);
    }
  }

  predicate SameText(s: string, raw: string, i: nat, same: (char, char) -> bool)
    requires i <= |raw|
  {
    |s| == |raw| - i && forall k :: 0 <= k < |s| ==> same(s[k], raw[i + k])
  }

  lemma SameTextStep(s: string, raw: string, i: nat, same: (char, char) -> bool)
    requires i < |raw| && s != ""
    ensures SameText(s, raw, i, same) <==> same(s[0], raw[i]) && SameText(s[1..], raw, i + 1, same)
  {
    if SameText(s, raw, i, same) {
      assert forall k :: 0 <= k < |s[1..]| ==> s[1..][k] == s[k + 1] && same(s[k + 1], raw[i + (k + 1)]);
    }
    if same(s[0], raw[i]) && SameText(s[1..], raw, i + 1, same) {
      forall k | 0 <= k < |s| ensures same(s[k], raw[i + k]) {
        if k > 0 { assert s[k] == s[1..][k - 1]; }
      }
    }
  }

  /** The length of the text from `i` on, in UTF-16 units. */
  function TextUnits(raw: string, i: nat): nat
    requires i <= |raw|
    decreases |raw| - i
  {
    if i == |raw| then 0 else Units(raw[i]) + TextUnits(raw, i + 1)
  }

  /** Text without the two escapes is looked for as it stands, whatever LIKE characters it holds. */
  lemma {:induction false} PlainTextIsLiteral(raw: string, i: nat, s: string, same: (char, char) -> bool)
    requires i <= |raw| && forall k :: 0 <= k < |raw| ==> !Escaped(raw, k)
    ensures GlobMatch(s, Globs(raw, i), same) <==> SameText(s, raw, i, same)
    ensures Literals(Globs(raw, i)) == TextUnits(raw, i)
    decreases |raw| - i
  {
    if i < |raw| {
      var g := Globs(raw, i);
      assert g[1..] == Globs(raw, i + 1);
      PlainTextIsLiteral(raw, i + 1, if s == "" then s else s[1..], same);
      if s != "" { SameTextStep(s, raw, i, same); }
    }
  }

  /** Section 2.1 of RFC 2781: a high and a low surrogate stand for `c`. */
  predicate Surrogates(hi: int, lo: int, c: char) {
    0xD800 <= hi < 0xDC00 && 0xDC00 <= lo < 0xE000 && c as int == 0x10000 + (hi - 0xD800) * 0x400 + (lo - 0xDC00)
  }

  /** A character counts twice exactly when a pair of surrogates stands for it, else once. */
  lemma UnitsExactly(c: char)
    ensures Units(c) == 2 <==> exists hi, lo :: Surrogates(hi, lo, c)
    ensures Units(c) == 1 || Units(c) == 2
  {
    var n := c as int - 0x10000;
    if n >= 0 { assert Surrogates(0xD800 + n / 0x400, 0xDC00 + n % 0x400, c); }
  }
}
