/** Signing and verifying the patch manifest. */
module Manifest {
  import opened Outcomes
  import opened JsonText
  import opened CanonicalText

  type Trust = string
  type Signature = string

  datatype TrustedKey = TrustedKey(id: string, publicKey: string, trust: Trust)

  /** The signature scheme: what the library's `sign` and `verify` compute. */
  datatype Scheme = Scheme(sign: (string, string) -> Signature, verify: (string, string, Signature) -> bool)

  datatype Error = UntrustedKey | BadSignature

  function Get(j: Json, k: string): Option<Json> {
    if j.JObj? && k in Keys(j.fields) then Some(j.fields[Find(j.fields, k)].value) else None
  }

  function Drop(fields: seq<Field>, k: string): (r: seq<Field>)
    ensures forall i :: 0 <= i < |r| ==> r[i] in fields && r[i].key != k
    ensures forall i :: 0 <= i < |fields| && fields[i].key != k ==> fields[i] in r
  {
    if fields == [] then [] else (if fields[0].key == k then [] else [fields[0]]) + Drop(fields[1..], k)
  }

  /** Everything but the signature. */
  function Unsigned(m: Json): Json {
    if m.JObj? then JObj(Drop(m.fields, "signature")) else m
  }

  function SignManifest(body: Json, privateKey: string, scheme: Scheme): Json
    requires body.JObj?
  {
    JObj(Drop(body.fields, "signature") + [Field("signature", JStr(scheme.sign(CanonicalJson(body), privateKey)))])
  }

  predicate Usable(k: TrustedKey, id: Option<Json>, allowed: set<Trust>) {
    id == Some(JStr(k.id)) && k.trust in allowed
  }

  predicate FirstUsable(ring: seq<TrustedKey>, i: nat, id: Option<Json>, allowed: set<Trust>) {
    i < |ring| && Usable(ring[i], id, allowed) && forall j :: 0 <= j < i ==> !Usable(ring[j], id, allowed)
  }

  /** The first key of the ring with the manifest's key id and an allowed trust. */
  function Lookup(ring: seq<TrustedKey>, id: Option<Json>, allowed: set<Trust>): (r: Option<TrustedKey>)
    ensures r.Some? <==> exists i :: 0 <= i < |ring| && Usable(ring[i], id, allowed)
    ensures r.Some? ==> exists i :: 0 <= i < |ring| && ring[i] == r.value && FirstUsable(ring, i, id, allowed)
  {
    if ring == [] then None
    else if Usable(ring[0], id, allowed) then Some(ring[0])
    else
      var rest := Lookup(ring[1..], id, allowed);
      assert rest.Some? ==> forall i :: 0 <= i < |ring[1..]| ==> ring[1..][i] == ring[i + 1];
      rest
  }

  function SignatureOf(m: Json): Signature {
    var s := Get(m, "signature");
    if s.Some? && s.value.JStr? then s.value.s else ""
  }

  function VerifyManifest(m: Json, ring: seq<TrustedKey>, allowed: set<Trust>, scheme: Scheme): Result<TrustedKey, Error> {
    var key := Lookup(ring, Get(m, "key_id"), allowed);
    if key == None then Err(UntrustedKey)
    else if scheme.verify(CanonicalJson(Unsigned(m)), key.value.publicKey, SignatureOf(m)) then Ok(key.value)
    else Err(BadSignature)
  }

  // ----- key order

  lemma ConsKeys(f: Field, fields: seq<Field>)
    ensures Keys([f] + fields) == [f.key] + Keys(fields)
  {
  }

  lemma {:induction false} DropKeys(fields: seq<Field>, k: string, x: string)
    ensures x in Keys(Drop(fields, k)) <==> x in Keys(fields) && x != k
  {
    if fields != [] {
      var first, rest := fields[0], fields[1..];
      DropKeys(rest, k, x);
      var dropped := Drop(rest, k);
      assert fields == [first] + rest;
      assert Drop(fields, k) == if first.key == k then dropped else [first] + dropped;
      hide Drop, Keys;
      ConsKeys(first, rest);
      ConsKeys(first, dropped);
    }
  }

  lemma {:induction false} DropDistinct(fields: seq<Field>, k: string)
    requires Distinct(Keys(fields))
    ensures Distinct(Keys(Drop(fields, k)))
  {
    if fields != [] {
      var first, rest := fields[0], fields[1..];
      assert Keys(rest) == Keys(fields)[1..];
      assert first.key !in Keys(rest) by { assert Keys(fields)[0] == first.key; }
      assert Drop(fields, k) == if first.key == k then Drop(rest, k) else [first] + Drop(rest, k);
      LaterDistinct(Keys(fields));
      hide Drop, Keys, Distinct;
      DropDistinct(rest, k);
      DropKeys(rest, k, first.key);
      ConsKeys(first, Drop(rest, k));
      if first.key != k { ConsDistinct(first.key, Keys(Drop(rest, k))); }
    }
  }

  lemma LaterDistinct(keys: seq<string>)
    requires Distinct(keys) && keys != []
    ensures Distinct(keys[1..])
  {
  }

  lemma ConsDistinct(x: string, keys: seq<string>)
    requires Distinct(keys) && x !in keys
    ensures Distinct([x] + keys)
  {
  }

  lemma DropKeeps(fields: seq<Field>, k: string)
    requires Distinct(Keys(fields))
    ensures Distinct(Keys(Drop(fields, k)))
    ensures forall x :: x in Keys(Drop(fields, k)) <==> x in Keys(fields) && x != k
  {
    DropDistinct(fields, k);
    hide Drop;
    forall x ensures x in Keys(Drop(fields, k)) <==> x in Keys(fields) && x != k { DropKeys(fields, k, x); }
  }

  lemma DropValid(m: Json)
    requires m.JObj? && Valid(m)
    ensures Valid(Unsigned(m))
  {
    DropKeeps(m.fields, "signature");
    forall i | 0 <= i < |Drop(m.fields, "signature")| ensures Valid(Drop(m.fields, "signature")[i].value) {
      var f := Drop(m.fields, "signature")[i];
      var j :| 0 <= j < |m.fields| && m.fields[j] == f;
    }
  }

  /** Looking a key up after the signature is gone finds the same value. */
  lemma GetAfterDrop(fields: seq<Field>, k: string)
    requires Distinct(Keys(fields)) && k != "signature" && k in Keys(fields)
    ensures k in Keys(Drop(fields, "signature"))
    ensures Drop(fields, "signature")[Find(Drop(fields, "signature"), k)].value == fields[Find(fields, k)].value
  {
    DropKeeps(fields, "signature");
    var d := Drop(fields, "signature");
    var f := d[Find(d, k)];
    var j :| 0 <= j < |fields| && fields[j] == f;
    FindIs(fields, j);
  }

  lemma SameUnsigned(a: Json, b: Json)
    requires a.JObj? && b.JObj? && Valid(a) && Valid(b) && Same(a, b)
    ensures Same(Unsigned(a), Unsigned(b))
  {
    var da, db := Drop(a.fields, "signature"), Drop(b.fields, "signature");
    DropKeeps(a.fields, "signature");
    DropKeeps(b.fields, "signature");
    forall i | 0 <= i < |da| && da[i].key in Keys(db) ensures Same(da[i].value, db[Find(db, da[i].key)].value) {
      var k := da[i].key;
      assert Keys(da)[i] == k;
      var j :| 0 <= j < |a.fields| && a.fields[j] == da[i];
      assert Keys(a.fields)[j] == k;
      GetAfterDrop(b.fields, k);
    }
  }

  lemma SameGet(a: Json, b: Json, k: string)
    requires a.JObj? && b.JObj? && Valid(a) && Valid(b) && Same(a, b)
    ensures Get(a, k).Some? <==> Get(b, k).Some?
    ensures forall s :: Get(a, k) == Some(JStr(s)) <==> Get(b, k) == Some(JStr(s))
  {
    if k in Keys(a.fields) { SameValue(a, b, k); }
  }

  lemma {:induction false} SameLookup(ring: seq<TrustedKey>, x: Option<Json>, y: Option<Json>, allowed: set<Trust>)
    requires forall s :: x == Some(JStr(s)) <==> y == Some(JStr(s))
    ensures Lookup(ring, x, allowed) == Lookup(ring, y, allowed)
  {
    if ring != [] {
      assert Usable(ring[0], x, allowed) <==> Usable(ring[0], y, allowed);
      SameLookup(ring[1..], x, y, allowed);
    }
  }

  /** Reordering keys, at any depth, changes no verdict. */
  lemma VerdictIgnoresKeyOrder(a: Json, b: Json, ring: seq<TrustedKey>, allowed: set<Trust>, scheme: Scheme)
    requires a.JObj? && b.JObj? && Valid(a) && Valid(b) && Same(a, b)
    ensures VerifyManifest(a, ring, allowed, scheme) == VerifyManifest(b, ring, allowed, scheme)
  {
    SameGet(a, b, "key_id");
    SameGet(a, b, "signature");
    SameLookup(ring, Get(a, "key_id"), Get(b, "key_id"), allowed);
    SameUnsigned(a, b);
    DropValid(a);
    DropValid(b);
    CanonicalTextExact(Unsigned(a), Unsigned(b));
    assert SignatureOf(a) == SignatureOf(b) by { SameSignature(a, b); }
  }

  lemma SameSignature(a: Json, b: Json)
    requires forall s :: Get(a, "signature") == Some(JStr(s)) <==> Get(b, "signature") == Some(JStr(s))
    ensures SignatureOf(a) == SignatureOf(b)
  {
    var x, y := Get(a, "signature"), Get(b, "signature");
    if x.Some? && x.value.JStr? { assert x == Some(JStr(x.value.s)); }
    if y.Some? && y.value.JStr? { assert y == Some(JStr(y.value.s)); }
  }

  /** The private key belongs to the public key. */
  ghost predicate Pair(scheme: Scheme, privateKey: string, publicKey: string) {
    forall text :: scheme.verify(text, publicKey, scheme.sign(text, privateKey))
  }

  lemma {:induction false} DropNothing(fields: seq<Field>)
    requires "signature" !in Keys(fields)
    ensures Drop(fields, "signature") == fields
  {
    if fields != [] {
      assert Keys(fields)[0] == fields[0].key;
      assert Keys(fields[1..]) == Keys(fields)[1..];
      DropNothing(fields[1..]);
    }
  }

  lemma {:induction false} DropLast(fields: seq<Field>, f: Field)
    requires f.key == "signature"
    ensures Drop(fields + [f], "signature") == Drop(fields, "signature")
  {
    if fields == [] {
      assert fields + [f] == [f];
    } else {
      assert (fields + [f])[1..] == fields[1..] + [f];
      DropLast(fields[1..], f);
    }
  }

  lemma GetAppended(fields: seq<Field>, f: Field, k: string)
    requires Distinct(Keys(fields)) && f.key !in Keys(fields) && Distinct(Keys(fields + [f]))
    ensures Get(JObj(fields + [f]), f.key) == Some(f.value)
    ensures k != f.key ==> Get(JObj(fields + [f]), k) == Get(JObj(fields), k)
  {
    var all := fields + [f];
    assert Keys(all) == Keys(fields) + [f.key];
    assert all[|fields|] == f;
    FindIs(all, |fields|);
    if k in Keys(fields) {
      var i := Find(fields, k);
      assert all[i] == fields[i];
      FindIs(all, i);
    }
  }

  lemma AppendedDistinct(fields: seq<Field>, f: Field)
    requires Distinct(Keys(fields)) && f.key !in Keys(fields)
    ensures Distinct(Keys(fields + [f]))
  {
    assert Keys(fields + [f]) == Keys(fields) + [f.key];
  }

  lemma AppendedValid(fields: seq<Field>, s: string)
    requires Valid(JObj(fields)) && "signature" !in Keys(fields)
    ensures Valid(JObj(fields + [Field("signature", JStr(s))]))
  {
    AppendedDistinct(fields, Field("signature", JStr(s)));
    assert Valid(JStr(s));
    hide Keys, Distinct;
  }

  lemma SignatureAppended(fields: seq<Field>, s: string)
    requires Get(JObj(fields + [Field("signature", JStr(s))]), "signature") == Some(JStr(s))
    ensures SignatureOf(JObj(fields + [Field("signature", JStr(s))])) == s
  {
  }

  function SignatureField(body: Json, privateKey: string, scheme: Scheme): Field {
    Field("signature", JStr(scheme.sign(CanonicalJson(body), privateKey)))
  }

  lemma SignedForm(body: Json, privateKey: string, scheme: Scheme)
    requires body.JObj? && "signature" !in Keys(body.fields)
    ensures SignManifest(body, privateKey, scheme) == JObj(body.fields + [SignatureField(body, privateKey, scheme)])
    ensures Unsigned(SignManifest(body, privateKey, scheme)) == body
  {
    hide CanonicalJson, Drop, Keys;
    var f := SignatureField(body, privateKey, scheme);
    DropNothing(body.fields);
    DropLast(body.fields, f);
  }

  lemma SignedFields(body: Json, privateKey: string, scheme: Scheme)
    requires body.JObj? && Valid(body) && "signature" !in Keys(body.fields)
    ensures Distinct(Keys(body.fields))
    ensures Distinct(Keys(body.fields + [SignatureField(body, privateKey, scheme)]))
    ensures Valid(JObj(body.fields + [SignatureField(body, privateKey, scheme)]))
  {
    hide CanonicalJson, Keys, Distinct;
    AppendedDistinct(body.fields, SignatureField(body, privateKey, scheme));
    AppendedValid(body.fields, scheme.sign(CanonicalJson(body), privateKey));
  }

  lemma SignedIs(body: Json, privateKey: string, scheme: Scheme)
    requires body.JObj? && Valid(body) && "signature" !in Keys(body.fields)
    ensures Valid(SignManifest(body, privateKey, scheme)) && Unsigned(SignManifest(body, privateKey, scheme)) == body
    ensures SignatureOf(SignManifest(body, privateKey, scheme)) == scheme.sign(CanonicalJson(body), privateKey)
    ensures forall k :: k != "signature" ==> Get(SignManifest(body, privateKey, scheme), k) == Get(body, k)
  {
    SignedForm(body, privateKey, scheme);
    SignedFields(body, privateKey, scheme);
    var f := SignatureField(body, privateKey, scheme);
    assert f.key == "signature" && f.value == JStr(scheme.sign(CanonicalJson(body), privateKey));
    assert body == JObj(body.fields);
    hide *;
    GetAppended(body.fields, f, "key_id");
    SignatureAppended(body.fields, scheme.sign(CanonicalJson(body), privateKey));
    forall k | k != "signature" ensures Get(JObj(body.fields + [f]), k) == Get(body, k) { GetAppended(body.fields, f, k); }
  }

  /** A signed manifest verifies with the first usable key of its id, in any key order, if that key is the signer's. */
  lemma SignedVerifies(body: Json, privateKey: string, key: TrustedKey, m: Json, ring: seq<TrustedKey>, allowed: set<Trust>, scheme: Scheme)
    requires body.JObj? && Valid(body) && "signature" !in Keys(body.fields) && Pair(scheme, privateKey, key.publicKey)
    requires Lookup(ring, Get(body, "key_id"), allowed) == Some(key)
    requires m.JObj? && Valid(m) && Same(SignManifest(body, privateKey, scheme), m)
    ensures VerifyManifest(m, ring, allowed, scheme) == Ok(key)
  {
    SignedIs(body, privateKey, scheme);
    var signed := SignManifest(body, privateKey, scheme);
    hide CanonicalJson, SignManifest, Same, Valid, Lookup;
    VerdictIgnoresKeyOrder(signed, m, ring, allowed, scheme);
  }

  /** Under a scheme where a signature fits one text only, a manifest with a valid signature and other content, under
      the same key and signature, is refused. */
  lemma TamperedIsRefused(a: Json, b: Json, key: TrustedKey, ring: seq<TrustedKey>, allowed: set<Trust>, scheme: Scheme)
    requires a.JObj? && b.JObj? && Valid(a) && Valid(b) && SignatureOf(a) == SignatureOf(b)
    requires forall x, y, s :: scheme.verify(x, key.publicKey, s) && scheme.verify(y, key.publicKey, s) ==> x == y
    requires VerifyManifest(a, ring, allowed, scheme) == Ok(key) && Lookup(ring, Get(b, "key_id"), allowed) == Some(key)
    ensures VerifyManifest(b, ring, allowed, scheme) == (if Same(Unsigned(a), Unsigned(b)) then Ok(key) else Err(BadSignature))
  {
    DropValid(a);
    DropValid(b);
    CanonicalTextExact(Unsigned(a), Unsigned(b));
    hide Same, CanonicalJson, Unsigned;
  }

  // ----- the verdict, told by the members of the manifest

  predicate Trusts(m: Json, key: TrustedKey, allowed: set<Trust>)
    requires m.JObj?
  {
    Field("key_id", JStr(key.id)) in m.fields && key.trust in allowed
  }

  /** Key `i` is the first of the ring that the manifest names and the caller allows. */
  predicate FirstTrusted(m: Json, ring: seq<TrustedKey>, i: nat, allowed: set<Trust>)
    requires m.JObj?
  {
    i < |ring| && Trusts(m, ring[i], allowed) && forall j :: 0 <= j < i ==> !Trusts(m, ring[j], allowed)
  }

  lemma GetIs(m: Json, k: string, v: Json)
    requires m.JObj? && Valid(m)
    ensures Get(m, k) == Some(v) <==> Field(k, v) in m.fields
  {
    var f := Field(k, v);
    if f in m.fields {
      var i :| 0 <= i < |m.fields| && m.fields[i] == f;
      FindIs(m.fields, i);
    }
    hide Valid;
  }

  lemma SameSelf(j: Json)
    requires Valid(j)
    ensures Same(j, j)
  {
    CanonicalTextExact(j, j);
    hide Same, CanonicalJson;
  }

  /** Objects with the same members are the same up to order. */
  lemma SameFields(a: Json, b: Json)
    requires a.JObj? && b.JObj? && Valid(a) && Valid(b) && forall f :: f in a.fields <==> f in b.fields
    ensures Same(a, b)
  {
    KeysAmong(a, b);
    KeysAmong(b, a);
    forall i | 0 <= i < |a.fields| && a.fields[i].key in Keys(b.fields)
      ensures Same(a.fields[i].value, b.fields[Find(b.fields, a.fields[i].key)].value)
    {
      assert a.fields[i] in b.fields;
      var j :| 0 <= j < |b.fields| && b.fields[j] == a.fields[i];
      FindIs(b.fields, j);
      SameSelf(a.fields[i].value);
    }
  }

  lemma KeysAmong(a: Json, b: Json)
    requires a.JObj? && b.JObj? && forall f :: f in a.fields ==> f in b.fields
    ensures forall k :: k in Keys(a.fields) ==> k in Keys(b.fields)
  {
    forall k | k in Keys(a.fields) ensures k in Keys(b.fields) {
      var i :| 0 <= i < |Keys(a.fields)| && Keys(a.fields)[i] == k;
      assert a.fields[i] in b.fields;
      var j :| 0 <= j < |b.fields| && b.fields[j] == a.fields[i];
      assert Keys(b.fields)[j] == k;
    }
  }

  /** `u` has the members of the manifest `m` other than its signature `s`. */
  ghost predicate SignedBy(m: Json, u: Json, s: string) {
    m.JObj? && u.JObj? && Valid(m) && Valid(u) && Field("signature", JStr(s)) in m.fields
    && forall f :: f in u.fields <==> f in m.fields && f.key != "signature"
  }

  /** A manifest is accepted exactly when the first key that it names and the caller allows verifies its signature over the
      canonical text of its other members; without such a key it is untrusted. */
  lemma VerdictExactly(m: Json, u: Json, s: string, ring: seq<TrustedKey>, allowed: set<Trust>, scheme: Scheme, key: TrustedKey)
    requires SignedBy(m, u, s)
    ensures var v := VerifyManifest(m, ring, allowed, scheme);
      (v == Err(UntrustedKey) <==> forall i :: 0 <= i < |ring| ==> !Trusts(m, ring[i], allowed))
      && (v == Ok(key) <==>
            exists i: nat :: FirstTrusted(m, ring, i, allowed) && ring[i] == key && scheme.verify(CanonicalJson(u), key.publicKey, s))
  {
    GetIs(m, "signature", JStr(s));
    DropValid(m);
    UnsignedIs(m, u);
    CanonicalTextExact(u, Unsigned(m));
    LookupIs(m, ring, allowed, key);
    assert SignatureOf(m) == s;
    hide Get, Valid, Same, CanonicalJson, Unsigned, Lookup, SignatureOf, FirstTrusted, Trusts;
  }

  lemma LookupIs(m: Json, ring: seq<TrustedKey>, allowed: set<Trust>, key: TrustedKey)
    requires m.JObj? && Valid(m)
    ensures var found := Lookup(ring, Get(m, "key_id"), allowed);
      (found == None <==> forall i :: 0 <= i < |ring| ==> !Trusts(m, ring[i], allowed))
      && (found == Some(key) <==> exists i: nat :: FirstTrusted(m, ring, i, allowed) && ring[i] == key)
  {
    var id := Get(m, "key_id");
    forall i | 0 <= i < |ring| ensures Usable(ring[i], id, allowed) <==> Trusts(m, ring[i], allowed) {
      GetIs(m, "key_id", JStr(ring[i].id));
    }
    hide Get, Valid, Trusts, Usable;
    forall i: nat ensures FirstTrusted(m, ring, i, allowed) <==> FirstUsable(ring, i, id, allowed) {
    }
    OneFirst(ring, id, allowed);
    hide FirstTrusted, FirstUsable;
    var found := Lookup(ring, id, allowed);
    if found == Some(key) {
      var i :| 0 <= i < |ring| && ring[i] == key && FirstUsable(ring, i, id, allowed);
      assert FirstTrusted(m, ring, i, allowed);
    }
  }

  lemma UnsignedIs(m: Json, u: Json)
    requires m.JObj? && u.JObj? && Valid(m) && Valid(u) && forall f :: f in u.fields <==> f in m.fields && f.key != "signature"
    ensures Same(u, Unsigned(m))
  {
    DropValid(m);
    forall f ensures f in Unsigned(m).fields <==> f in u.fields { }
    hide Valid, Same;
    SameFields(u, Unsigned(m));
  }

  lemma OneFirst(ring: seq<TrustedKey>, id: Option<Json>, allowed: set<Trust>)
    ensures var r := Lookup(ring, id, allowed);
      forall i: nat :: FirstUsable(ring, i, id, allowed) ==> r == Some(ring[i])
  {
    hide Usable;
    var r := Lookup(ring, id, allowed);
    forall i: nat | FirstUsable(ring, i, id, allowed) ensures r == Some(ring[i]) {
      var j :| 0 <= j < |ring| && ring[j] == r.value && FirstUsable(ring, j, id, allowed);
      assert i == j;
    }
  }
}
