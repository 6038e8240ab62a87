/** JSON values, their order-free equality, and the printed form with sorted keys. */
module JsonText {

  /** Numbers are the text the host prints for them. */
  datatype Json =
    | JNull
    | JBool(b: bool)
    | JNum(text: string)
    | JStr(s: string)
    | JArr(items: seq<Json>)
    | JObj(fields: seq<Field>)

  datatype Field = Field(key: string, value: Json)

  // ----- the order of keys

  /** Strings are compared by UTF-16 code units: a character beyond the first plane sorts by its high surrogate. */
  function Rank(c: char): int {
    var n := c as int;
    if 0xE000 <= n < 0x10000 then n + 0x110000 else n
  }

  lemma RankIsInjective(a: char, b: char)
    requires Rank(a) == Rank(b)
    ensures a == b
  {
  }

  predicate Less(a: string, b: string) {
    b != "" && (a == "" || Rank(a[0]) < Rank(b[0]) || (a[0] == b[0] && Less(a[1..], b[1..])))
  }

  lemma {:induction false} LessTotal(a: string, b: string)
    ensures a == b || Less(a, b) || Less(b, a)
  {
    if a != "" && b != "" {
      LessTotal(a[1..], b[1..]);
      if Rank(a[0]) == Rank(b[0]) {
        RankIsInjective(a[0], b[0]);
        assert a == [a[0]] + a[1..] && b == [b[0]] + b[1..];
      }
    }
  }

  lemma {:induction false} LessTransitive(a: string, b: string, c: string)
    requires Less(a, b) && Less(b, c)
    ensures Less(a, c)
  {
    if a != "" && a[0] == b[0] && b[0] == c[0] { LessTransitive(a[1..], b[1..], c[1..]); }
  }

  lemma {:induction false} LessIrreflexive(a: string)
    ensures !Less(a, a)
  {
    if a != "" { LessIrreflexive(a[1..]); }
  }

  predicate Ordered(keys: seq<string>) {
    forall i, j :: 0 <= i < j < |keys| ==> Less(keys[i], keys[j])
  }

  function Insert(k: string, keys: seq<string>): (r: seq<string>)
    ensures forall x :: x in r <==> x == k || x in keys
  {
    if keys == [] then [k] else if Less(k, keys[0]) then [k] + keys else [keys[0]] + Insert(k, keys[1..])
  }

  function Sort(keys: seq<string>): (r: seq<string>)
    ensures forall x :: x in r <==> x in keys
  {
    if keys == [] then [] else Insert(keys[0], Sort(keys[1..]))
  }

  lemma {:induction false} InsertOrdered(k: string, keys: seq<string>)
    requires Ordered(keys) && k !in keys
    ensures Ordered(Insert(k, keys))
  {
    if keys != [] {
      LessTotal(k, keys[0]);
      if Less(k, keys[0]) {
        forall j | 0 < j < |keys| ensures Less(k, keys[j]) { LessTransitive(k, keys[0], keys[j]); }
      } else {
        InsertOrdered(k, keys[1..]);
        assert forall x :: x in Insert(k, keys[1..]) ==> Less(keys[0], x);
      }
    }
  }

  predicate Distinct(keys: seq<string>) {
    forall i, j :: 0 <= i < j < |keys| ==> keys[i] != keys[j]
  }

  lemma {:induction false} SortOrdered(keys: seq<string>)
    requires Distinct(keys)
    ensures Ordered(Sort(keys))
  {
    if keys != [] {
      SortOrdered(keys[1..]);
      InsertOrdered(keys[0], Sort(keys[1..]));
    }
  }

  /** One set of keys has one sorted list. */
  lemma {:induction false} SortedIsUnique(a: seq<string>, b: seq<string>)
    requires Ordered(a) && Ordered(b) && forall x :: x in a <==> x in b
    ensures a == b
  {
    if a == [] {
      SomeMember(b);
    } else {
      assert a[0] in b;
      assert b != [] && b[0] in a;
      SameFirst(a, b);
      forall x ensures x in a[1..] <==> x in b[1..] { RestHas(a, x); RestHas(b, x); }
      SortedIsUnique(a[1..], b[1..]);
    }
  }

  lemma SomeMember(a: seq<string>)
    ensures a != [] ==> exists x :: x in a
  {
    if a != [] { assert a[0] in a; }
  }

  lemma SameFirst(a: seq<string>, b: seq<string>)
    requires Ordered(a) && Ordered(b) && a != [] && b != [] && a[0] in b && b[0] in a
    ensures a[0] == b[0]
  {
    var i :| 0 <= i < |b| && b[i] == a[0];
    var j :| 0 <= j < |a| && a[j] == b[0];
    if i > 0 && j > 0 {
      LessTransitive(a[0], b[0], a[0]);
      LessIrreflexive(a[0]);
    }
  }

  lemma RestHas(a: seq<string>, x: string)
    requires Ordered(a) && a != []
    ensures x in a[1..] <==> x in a && x != a[0]
  {
    LessIrreflexive(a[0]);
    assert a == [a[0]] + a[1..];
  }

  // ----- values up to key order

  function Keys(fields: seq<Field>): (r: seq<string>)
    ensures |r| == |fields| && forall i :: 0 <= i < |r| ==> r[i] == fields[i].key
  {
    seq(|fields|, i requires 0 <= i < |fields| => fields[i].key)
  }

  function Find(fields: seq<Field>, k: string): (i: nat)
    requires k in Keys(fields)
    ensures i < |fields| && fields[i].key == k
  {
    if fields[0].key == k then 0 else
      assert k in Keys(fields[1..]) by {
        var j :| 0 <= j < |fields| && Keys(fields)[j] == k;
        assert Keys(fields[1..])[j - 1] == k;
      }
      1 + Find(fields[1..], k)
  }

  predicate NumberText(t: string) {
    t != "" && (t[0] == '-' || '0' <= t[0] <= '9') && forall i :: 0 <= i < |t| ==> NumberChar(t[i])
  }

  predicate NumberChar(c: char) {
    '0' <= c <= '9' || c == '-' || c == '+' || c == '.' || c == 'e' || c == 'E'
  }

  /** Numbers are number texts, and no object holds a key twice. */
  predicate Valid(j: Json) {
    match j
    case JNum(t) => NumberText(t)
    case JArr(items) => forall i :: 0 <= i < |items| ==> Valid(items[i])
    case JObj(fields) => Distinct(Keys(fields)) && forall i :: 0 <= i < |fields| ==> Valid(fields[i].value)
    case _ => true
  }

  /** Equal, the keys of objects in any order. */
  predicate Same(a: Json, b: Json) {
    match a
    case JArr(items) =>
      b.JArr? && |items| == |b.items| && forall i :: 0 <= i < |items| ==> Same(items[i], b.items[i])
    case JObj(fields) =>
      b.JObj? && (forall k :: k in Keys(fields) ==> k in Keys(b.fields)) && (forall k :: k in Keys(b.fields) ==> k in Keys(fields))
      && forall i :: 0 <= i < |fields| && fields[i].key in Keys(b.fields) ==>
        Same(fields[i].value, b.fields[Find(b.fields, fields[i].key)].value)
    case _ => a == b
  }

  // ----- printing

  const Hex: string := "0123456789abcdef"

  /** Section 7 of RFC 8259, as the host prints it: short forms, `\u00xx` for the other control characters. */
  function EscapeChar(c: char): string {
    if c == '"' then "\\\"" else if c == '\\' then "\\\\"
    else if c == 8 as char then "\\b" else if c == 12 as char then "\\f"
    else if c == '\n' then "\\n" else if c == '\r' then "\\r" else if c == '\t' then "\\t"
    else if (c as int) < 32 then "\\u00" + [Hex[c as int / 16], Hex[c as int % 16]]
    else [c]
  }

  function Escape(s: string): string {
    if s == "" then "" else EscapeChar(s[0]) + Escape(s[1..])
  }

  function Quote(s: string): string {
    "\"" + Escape(s) + "\""
  }

  function CanonicalJson(j: Json): string
    decreases j, 2
  {
    match j
    case JNull => "null"
    case JBool(b) => if b then "true" else "false"
    case JNum(t) => t
    case JStr(s) => Quote(s)
    case JArr(items) => "[" + ItemsFrom(j, 0) + "]"
    case JObj(fields) => "{" + MembersFrom(j, Sort(Keys(fields)), 0) + "}"
  }

  function ItemsFrom(j: Json, i: nat): string
    requires j.JArr? && i <= |j.items|
    decreases j, 1, |j.items| - i
  {
    if i == |j.items| then ""
    else if i + 1 == |j.items| then CanonicalJson(j.items[i])
    else CanonicalJson(j.items[i]) + "," + ItemsFrom(j, i + 1)
  }

  function Member(j: Json, k: string): string
    requires j.JObj? && k in Keys(j.fields)
    decreases j, 0
  {
    Quote(k) + ":" + CanonicalJson(j.fields[Find(j.fields, k)].value)
  }

  function MembersFrom(j: Json, keys: seq<string>, i: nat): string
    requires j.JObj? && i <= |keys| && forall k :: k in keys ==> k in Keys(j.fields)
    decreases j, 1, |keys| - i
  {
    if i == |keys| then ""
    else if i + 1 == |keys| then Member(j, keys[i])
    else Member(j, keys[i]) + "," + MembersFrom(j, keys, i + 1)
  }
}
