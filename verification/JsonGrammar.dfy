/** The canonical text is JSON for its value: RFC 8259, without white space, keys in ascending order of their UTF-16 code units. */
module JsonGrammar {
  import opened JsonText
  import opened CanonicalText

  // ----- the order of keys

  function UnitsOf(c: char): seq<int> {
    var n := c as int;
    if n < 0x10000 then [n] else [0xD800 + (n - 0x10000) / 0x400, 0xDC00 + (n - 0x10000) % 0x400]
  }

  function Units(s: string): seq<int> {
    if s == "" then [] else UnitsOf(s[0]) + Units(s[1..])
  }

  predicate Precedes(u: seq<int>, v: seq<int>) {
    exists n :: 0 <= n <= |u| && n < |v| && u[..n] == v[..n] && (n == |u| || u[n] < v[n])
  }

  lemma PrecedesFirst(u: seq<int>, v: seq<int>, x: int, y: int)
    ensures Precedes([x] + u, [y] + v) <==> x < y || (x == y && Precedes(u, v))
    ensures !Precedes(u, []) && Precedes([], [y] + v)
  {
    var a, b := [x] + u, [y] + v;
    assert forall n :: 0 < n <= |a| ==> a[..n] == [x] + u[..n - 1];
    assert forall n :: 0 < n <= |b| ==> b[..n] == [y] + v[..n - 1];
    if x < y { assert a[..0] == b[..0]; }
    if x == y && Precedes(u, v) {
      var n :| 0 <= n <= |u| && n < |v| && u[..n] == v[..n] && (n == |u| || u[n] < v[n]);
      assert a[..n + 1] == b[..n + 1];
    }
    if Precedes(a, b) {
      var n :| 0 <= n <= |a| && n < |b| && a[..n] == b[..n] && (n == |a| || a[n] < b[n]);
      if n > 0 {
        assert a[..n][0] == x && b[..n][0] == y;
        assert u[..n - 1] == a[..n][1..] && v[..n - 1] == b[..n][1..];
      }
    }
    var none: seq<int> := [];
    assert none[..0] == b[..0];
  }

  /** The order of keys is that of their code units. */
  lemma {:induction false} LessExactly(a: string, b: string)
    ensures Less(a, b) <==> Precedes(Units(a), Units(b))
  {
    if a == "" || b == "" {
      if b != "" { PrecedesFirst([], UnitsOf(b[0])[1..] + Units(b[1..]), 0, UnitsOf(b[0])[0]); }
      assert b != "" ==> Units(b) == [UnitsOf(b[0])[0]] + (UnitsOf(b[0])[1..] + Units(b[1..]));
      PrecedesFirst(Units(a), [], 0, 0);
    } else {
      LessExactly(a[1..], b[1..]);
      CharsPrecede(a[0], b[0], Units(a[1..]), Units(b[1..]));
    }
  }

  lemma CharsPrecede(c: char, d: char, u: seq<int>, v: seq<int>)
    ensures Precedes(UnitsOf(c) + u, UnitsOf(d) + v) <==> Rank(c) < Rank(d) || (c == d && Precedes(u, v))
  {
    var x, y := UnitsOf(c), UnitsOf(d);
    var p, q := x[1..] + u, y[1..] + v;
    assert x + u == [x[0]] + p && y + v == [y[0]] + q;
    PrecedesFirst(p, q, x[0], y[0]);
    if x[0] == y[0] && c != d {
      assert p == [x[1]] + u && q == [y[1]] + v;
      PrecedesFirst(u, v, x[1], y[1]);
    } else if c == d && |x| == 2 {
      assert p == [x[1]] + u && q == [y[1]] + v;
      PrecedesFirst(u, v, x[1], y[1]);
    } else if c == d {
      assert p == u && q == v;
    }
    hide Precedes;
  }

  // ----- strings: section 7

  function HexValue(c: char): int {
    if '0' <= c <= '9' then c as int - '0' as int
    else if 'a' <= c <= 'f' then c as int - 'a' as int + 10
    else if 'A' <= c <= 'F' then c as int - 'A' as int + 10
    else -1
  }

  /** The character behind a backslash. */
  function Named(c: char): string {
    if c == '"' || c == '\\' || c == '/' then [c]
    else if c == 'b' then [8 as char] else if c == 'f' then [12 as char]
    else if c == 'n' then [10 as char] else if c == 'r' then [13 as char] else if c == 't' then [9 as char]
    else ""
  }

  /** The first character of the content of a string, and what is left of it; surrogates are outside of this grammar. */
  function OneChar(u: string): (string, string)
    requires u != ""
  {
    if u[0] == '\\' then
      if |u| >= 6 && u[1] == 'u' && (forall i :: 2 <= i < 6 ==> HexValue(u[i]) >= 0) then
        var n := ((HexValue(u[2]) * 16 + HexValue(u[3])) * 16 + HexValue(u[4])) * 16 + HexValue(u[5]);
        if 0 <= n < 0xD800 then ([n as char], u[6..]) else ("", u)
      else if |u| >= 2 then (Named(u[1]), u[2..])
      else ("", u)
    else if u[0] == '"' || (u[0] as int) < 32 then ("", u)
    else ([u[0]], u[1..])
  }

  /** `u`, between quotes, stands for `s`. */
  predicate Content(u: string, s: string)
    decreases s
  {
    if s == "" then u == ""
    else u != "" && OneChar(u).0 == [s[0]] && Content(OneChar(u).1, s[1..])
  }

  predicate StringText(t: string, s: string) {
    |t| >= 2 && t[0] == '"' && t[|t| - 1] == '"' && Content(t[1..|t| - 1], s)
  }

  lemma HexIs(i: nat)
    requires i < 16
    ensures HexValue(Hex[i]) == i && !('A' <= Hex[i] <= 'F')
  {
  }

  lemma EscapeReads(c: char, more: string)
    ensures EscapeChar(c) + more != "" && OneChar(EscapeChar(c) + more) == ([c], more)
  {
    var e := EscapeChar(c);
    var u := e + more;
    assert u[|e|..] == more && u[0] == e[0];
    assert |e| >= 2 ==> u[1] == e[1];
    if |e| == 6 {
      HexIs(c as int / 16);
      HexIs(c as int % 16);
      assert u[2] == e[2] == '0' && u[3] == e[3] == '0' && u[4] == e[4] == Hex[c as int / 16] && u[5] == e[5] == Hex[c as int % 16];
      assert HexValue('0') == 0;
      assert c as int / 16 * 16 + c as int % 16 == c as int;
    }
  }

  lemma {:induction false} EscapeIsContent(s: string)
    ensures Content(Escape(s), s)
  {
    if s != "" {
      EscapeIsContent(s[1..]);
      hide EscapeChar, OneChar;
      EscapeReads(s[0], Escape(s[1..]));
    }
  }

  lemma QuoteIsText(s: string)
    ensures StringText(Quote(s), s)
  {
    EscapeIsContent(s);
    var t := Quote(s);
    assert t[1..|t| - 1] == Escape(s);
    hide Escape, Content;
  }

  /** Nothing is escaped that need not be, the short forms are used, and hexadecimal digits are small letters. */
  lemma EscapesAreHosts(c: char)
    ensures EscapeChar(c) == [c] <==> c as int >= 32 && c != '"' && c != '\\'
    ensures |EscapeChar(c)| == 2 <==> c in {'"', '\\', 8 as char, 9 as char, 10 as char, 12 as char, 13 as char}
    ensures EscapeChar(c) != [c] ==> forall i :: 0 <= i < |EscapeChar(c)| ==> !('A' <= EscapeChar(c)[i] <= 'Z')
  {
    if |EscapeChar(c)| == 6 {
      HexIs(c as int / 16);
      HexIs(c as int % 16);
      assert forall i :: 0 <= i < 16 ==> !('A' <= Hex[i] <= 'Z');
    }
  }

  // ----- values

  function Commas(parts: seq<string>): string {
    if parts == [] then "" else if |parts| == 1 then parts[0] else parts[0] + ("," + Commas(parts[1..]))
  }

  /** `t` is a text of `v`. */
  ghost predicate Denotes(t: string, v: Json)
    decreases v
  {
    match v
    case JNull => t == "null"
    case JBool(b) => t == if b then "true" else "false"
    case JNum(text) => t == text
    case JStr(s) => StringText(t, s)
    case JArr(items) =>
      exists parts: seq<string> ::
        |parts| == |items| && t == "[" + Commas(parts) + "]" && forall i :: 0 <= i < |items| ==> Denotes(parts[i], items[i])
    case JObj(fields) =>
      exists keys: seq<string>, parts: seq<string>, values: seq<string> ::
        Listing(keys, parts, values, fields) && t == "{" + Commas(parts) + "}"
        && forall i :: 0 <= i < |fields| ==> Denotes(values[i], fields[i].value)
  }

  /** The members in ascending order of their keys, `values` being the texts of the fields' values. */
  ghost predicate Listing(keys: seq<string>, parts: seq<string>, values: seq<string>, fields: seq<Field>) {
    |parts| == |keys| == |fields| == |values| && Ascending(keys)
    && forall i :: 0 <= i < |fields| ==> Listed(keys, parts, fields[i].key, values[i])
  }

  ghost predicate Listed(keys: seq<string>, parts: seq<string>, key: string, x: string)
    requires |parts| == |keys|
  {
    exists k :: 0 <= k < |keys| && keys[k] == key && MemberText(parts[k], key, x)
  }

  ghost predicate Ascending(keys: seq<string>) {
    forall i, j :: 0 <= i < j < |keys| ==> Precedes(Units(keys[i]), Units(keys[j]))
  }

  /** A name, a colon, and the text `x` of its value. */
  ghost predicate MemberText(t: string, key: string, x: string) {
    exists name :: t == name + (":" + x) && StringText(name, key)
  }

  // ----- the canonical text

  lemma {:induction false} SortLength(keys: seq<string>)
    ensures |Sort(keys)| == |keys|
  {
    if keys != [] {
      SortLength(keys[1..]);
      InsertLength(keys[0], Sort(keys[1..]));
    }
  }

  lemma {:induction false} InsertLength(k: string, keys: seq<string>)
    ensures |Insert(k, keys)| == |keys| + 1
  {
    if keys != [] { InsertLength(k, keys[1..]); }
  }

  function ItemTexts(j: Json): (r: seq<string>)
    requires j.JArr?
    ensures |r| == |j.items| && forall i :: 0 <= i < |r| ==> r[i] == CanonicalJson(j.items[i])
  {
    seq(|j.items|, i requires 0 <= i < |j.items| => CanonicalJson(j.items[i]))
  }

  lemma {:induction false} ItemsAreCommas(j: Json, i: nat)
    requires j.JArr? && i <= |j.items|
    ensures ItemsFrom(j, i) == Commas(ItemTexts(j)[i..])
    decreases |j.items| - i
  {
    hide CanonicalJson;
    if i < |j.items| {
      ItemsAreCommas(j, i + 1);
      assert ItemTexts(j)[i..][1..] == ItemTexts(j)[i + 1..];
    }
  }

  function MemberTexts(j: Json, keys: seq<string>): (r: seq<string>)
    requires j.JObj? && forall k :: k in keys ==> k in Keys(j.fields)
    ensures |r| == |keys| && forall i :: 0 <= i < |r| ==> r[i] == Member(j, keys[i])
  {
    seq(|keys|, i requires 0 <= i < |keys| => Member(j, keys[i]))
  }

  lemma {:induction false} MembersAreCommas(j: Json, keys: seq<string>, i: nat)
    requires j.JObj? && i <= |keys| && forall k :: k in keys ==> k in Keys(j.fields)
    ensures MembersFrom(j, keys, i) == Commas(MemberTexts(j, keys)[i..])
    decreases |keys| - i
  {
    hide Member;
    if i < |keys| {
      MembersAreCommas(j, keys, i + 1);
      assert MemberTexts(j, keys)[i..][1..] == MemberTexts(j, keys)[i + 1..];
    }
  }

  lemma OrderedAscends(keys: seq<string>)
    requires Ordered(keys)
    ensures Ascending(keys)
  {
    forall i, j | 0 <= i < j < |keys| ensures Precedes(Units(keys[i]), Units(keys[j])) { LessExactly(keys[i], keys[j]); }
  }

  lemma MemberIsText(key: string, x: string)
    ensures MemberText(Quote(key) + ":" + x, key, x)
  {
    QuoteIsText(key);
    assert Quote(key) + ":" + x == Quote(key) + (":" + x);
    hide Quote, StringText;
  }

  /** The canonical text of a value is a text of it. */
  lemma {:induction false} CanonicalDenotes(j: Json)
    requires Valid(j)
    ensures Denotes(CanonicalJson(j), j)
  {
    match j
    case JStr(s) => QuoteIsText(s);
    case JArr(items) =>
      var parts := ItemTexts(j);
      ItemsAreCommas(j, 0);
      assert parts[0..] == parts;
      forall i | 0 <= i < |items| ensures Denotes(parts[i], items[i]) { CanonicalDenotes(items[i]); }
    case JObj(fields) => ObjectDenotes(j);
    case _ =>
  }

  function ValueTexts(j: Json): (r: seq<string>)
    requires j.JObj?
    ensures |r| == |j.fields| && forall i :: 0 <= i < |r| ==> r[i] == CanonicalJson(j.fields[i].value)
  {
    seq(|j.fields|, i requires 0 <= i < |j.fields| => CanonicalJson(j.fields[i].value))
  }

  lemma {:induction false} ObjectDenotes(j: Json)
    requires j.JObj? && Valid(j)
    ensures Denotes(CanonicalJson(j), j)
    decreases j, 0
  {
    var keys, values := Sort(Keys(j.fields)), ValueTexts(j);
    var parts := MemberTexts(j, keys);
    ObjectIsListed(j);
    assert CanonicalJson(j) == "{" + Commas(parts) + "}" by {
      MembersAreCommas(j, keys, 0);
      assert parts[0..] == parts;
      hide Member, MembersFrom;
    }
    hide CanonicalJson, MembersFrom, Sort, Listing, Commas;
    forall i | 0 <= i < |j.fields| ensures Denotes(values[i], j.fields[i].value) { CanonicalDenotes(j.fields[i].value); }
  }

  lemma ObjectIsListed(j: Json)
    requires j.JObj? && Valid(j)
    ensures var keys := Sort(Keys(j.fields)); Listing(keys, MemberTexts(j, keys), ValueTexts(j), j.fields)
  {
    var keys := Sort(Keys(j.fields));
    SortLength(Keys(j.fields));
    SortOrdered(Keys(j.fields));
    OrderedAscends(keys);
    hide Ordered, Sort, Ascending, CanonicalJson, Valid, Listed;
    assert Distinct(Keys(j.fields));
    forall i | 0 <= i < |j.fields| ensures Listed(keys, MemberTexts(j, keys), j.fields[i].key, ValueTexts(j)[i]) {
      MemberIsListed(j, keys, i);
    }
  }

  lemma MemberIsListed(j: Json, keys: seq<string>, i: nat)
    requires j.JObj? && Distinct(Keys(j.fields)) && i < |j.fields| && forall k :: k in keys <==> k in Keys(j.fields)
    ensures Listed(keys, MemberTexts(j, keys), j.fields[i].key, ValueTexts(j)[i])
  {
    var key, parts := j.fields[i].key, MemberTexts(j, keys);
    assert Keys(j.fields)[i] == key;
    assert key in keys;
    FindIs(j.fields, i);
    hide CanonicalJson, Quote, MemberText, Distinct, Keys, Find;
    var k :| 0 <= k < |keys| && keys[k] == key;
    MemberIsText(key, ValueTexts(j)[i]);
    assert parts[k] == Member(j, key);
  }
}
