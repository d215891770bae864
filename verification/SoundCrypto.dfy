// A model of the cryptographic assumptions: encodings and hashes on which every
// clause of `Sound` holds, so that what is proved under it is not vacuous.
module SoundCrypto {
  import opened Wrappers
  import opened Json
  import opened Disclose
  import opened SdJwt
  import L = DecisionLedger

  // ---- A prefix-free text for every JSON value, without '~' ----

  function EncString(s: string): string {
    if s == [] then "e"
    else (if s[0] == '~' then "t" else ['c', s[0]]) + EncString(s[1..])
  }

  function EncNat(n: nat): string {
    if n == 0 then "e" else "u" + EncNat(n - 1)
  }

  function EncInt(n: int): string {
    if n < 0 then "-" + EncNat(-n) else "+" + EncNat(n)
  }

  function Enc(j: Json): string
    decreases j, 0
  {
    match j
    case Null => "n"
    case Bool(b) => if b then "y" else "f"
    case Num(n) => "d" + (EncInt(n.units) + EncNat(n.scale))
    case Str(s) => "s" + EncString(s)
    case Arr(items) => "a" + EncItems(items, 0)
    case Obj(fields) => "o" + EncFields(fields, 0)
  }

  function EncItems(items: seq<Json>, i: nat): string
    requires i <= |items|
    decreases items, |items| - i
  {
    if i == |items| then "]" else "," + (Enc(items[i]) + EncItems(items, i + 1))
  }

  function EncFields(fields: seq<Field>, i: nat): string
    requires i <= |fields|
    decreases fields, |fields| - i
  {
    if i == |fields| then "]"
    else "," + (EncString(fields[i].key) + (Enc(fields[i].value) + EncFields(fields, i + 1)))
  }

  // ---- Reading back is unambiguous, whatever follows ----

  lemma {:induction false} StringPrefix(a: string, b: string, r: string, t: string)
    requires EncString(a) + r == EncString(b) + t
    ensures a == b && r == t
  {
    var x, y := EncString(a) + r, EncString(b) + t;
    assert x[0] == y[0];
    if a == [] || b == [] {
      assert x[1..] == r && y[1..] == t;
    } else {
      var k := if a[0] == '~' then 1 else 2;
      assert x[k - 1] == y[k - 1];
      assert x[k..] == EncString(a[1..]) + r && y[k..] == EncString(b[1..]) + t;
      StringPrefix(a[1..], b[1..], r, t);
      assert a == [a[0]] + a[1..] && b == [b[0]] + b[1..];
    }
  }

  lemma {:induction false} NatPrefix(a: nat, b: nat, r: string, t: string)
    requires EncNat(a) + r == EncNat(b) + t
    ensures a == b && r == t
  {
    var x, y := EncNat(a) + r, EncNat(b) + t;
    assert x[0] == y[0];
    if a == 0 || b == 0 {
      assert x[1..] == r && y[1..] == t;
    } else {
      assert x[1..] == EncNat(a - 1) + r && y[1..] == EncNat(b - 1) + t;
      NatPrefix(a - 1, b - 1, r, t);
    }
  }

  function Magnitude(n: int): nat { if n < 0 then -n else n }

  // Dropping an equal head, and regrouping what is left.
  lemma Tail(c: char, u: string, r: string, x: string)
    requires x == ([c] + u) + r
    ensures x[1..] == u + r && x[0] == c
  {
  }

  lemma IntShape(n: int)
    ensures EncInt(n) == [if n < 0 then '-' else '+'] + EncNat(Magnitude(n))
  {
  }

  lemma IntPrefix(a: int, b: int, r: string, t: string)
    requires EncInt(a) + r == EncInt(b) + t
    ensures a == b && r == t
  {
    IntShape(a);
    IntShape(b);
    Tail(if a < 0 then '-' else '+', EncNat(Magnitude(a)), r, EncInt(a) + r);
    Tail(if b < 0 then '-' else '+', EncNat(Magnitude(b)), t, EncInt(b) + t);
    NatPrefix(Magnitude(a), Magnitude(b), r, t);
  }

  lemma Reassociate(a: string, b: string, r: string)
    ensures (a + b) + r == a + (b + r)
  {
  }

  lemma NumPrefix(a: Number, b: Number, r: string, t: string)
    requires (EncInt(a.units) + EncNat(a.scale)) + r == (EncInt(b.units) + EncNat(b.scale)) + t
    ensures a == b && r == t
  {
    Reassociate(EncInt(a.units), EncNat(a.scale), r);
    Reassociate(EncInt(b.units), EncNat(b.scale), t);
    IntPrefix(a.units, b.units, EncNat(a.scale) + r, EncNat(b.scale) + t);
    NatPrefix(a.scale, b.scale, r, t);
  }

  function Tag(j: Json): char {
    match j
    case Null => 'n'
    case Bool(b) => if b then 'y' else 'f'
    case Num(_) => 'd'
    case Str(_) => 's'
    case Arr(_) => 'a'
    case Obj(_) => 'o'
  }

  function Body(j: Json): string {
    match j
    case Null => ""
    case Bool(_) => ""
    case Num(n) => EncInt(n.units) + EncNat(n.scale)
    case Str(s) => EncString(s)
    case Arr(items) => EncItems(items, 0)
    case Obj(fields) => EncFields(fields, 0)
  }

  lemma TagBody(j: Json, r: string)
    ensures Enc(j) == [Tag(j)] + Body(j)
    ensures (Enc(j) + r)[0] == Tag(j) && (Enc(j) + r)[1..] == Body(j) + r
  {
  }

  lemma {:induction false} JsonPrefix(a: Json, b: Json, r: string, t: string)
    requires Enc(a) + r == Enc(b) + t
    ensures a == b && r == t
    decreases a, 0
  {
    TagBody(a, r);
    TagBody(b, t);
    assert Tag(a) == Tag(b) && Body(a) + r == Body(b) + t;
    match a
    case Num(n) => NumPrefix(n, b.n, r, t);
    case Str(s) => StringPrefix(s, b.s, r, t);
    case Arr(items) => ItemsPrefix(items, 0, b.items, 0, r, t); assert items[0..] == items && b.items[0..] == b.items;
    case Obj(fields) =>
      FieldsPrefix(fields, 0, b.fields, 0, r, t);
      assert fields[0..] == fields && b.fields[0..] == b.fields;
    case _ => assert Body(a) == "" && Body(b) == ""; assert "" + r == r && "" + t == t;
  }

  lemma {:induction false} ItemsPrefix(a: seq<Json>, i: nat, b: seq<Json>, k: nat, r: string, t: string)
    requires i <= |a| && k <= |b| && EncItems(a, i) + r == EncItems(b, k) + t
    ensures a[i..] == b[k..] && r == t
    decreases a, |a| - i
  {
    var x, y := EncItems(a, i) + r, EncItems(b, k) + t;
    assert x[0] == y[0];
    if i == |a| || k == |b| {
      assert x[1..] == r && y[1..] == t;
    } else {
      Tail(',', Enc(a[i]) + EncItems(a, i + 1), r, x);
      Tail(',', Enc(b[k]) + EncItems(b, k + 1), t, y);
      Reassociate(Enc(a[i]), EncItems(a, i + 1), r);
      Reassociate(Enc(b[k]), EncItems(b, k + 1), t);
      JsonPrefix(a[i], b[k], EncItems(a, i + 1) + r, EncItems(b, k + 1) + t);
      ItemsPrefix(a, i + 1, b, k + 1, r, t);
      assert a[i..] == [a[i]] + a[i + 1..] && b[k..] == [b[k]] + b[k + 1..];
    }
  }

  lemma {:induction false} FieldsPrefix(a: seq<Field>, i: nat, b: seq<Field>, k: nat, r: string, t: string)
    requires i <= |a| && k <= |b| && EncFields(a, i) + r == EncFields(b, k) + t
    ensures a[i..] == b[k..] && r == t
    decreases a, |a| - i
  {
    var x, y := EncFields(a, i) + r, EncFields(b, k) + t;
    assert x[0] == y[0];
    if i == |a| || k == |b| {
      assert x[1..] == r && y[1..] == t;
    } else {
      var u, v := Enc(a[i].value) + EncFields(a, i + 1), Enc(b[k].value) + EncFields(b, k + 1);
      Tail(',', EncString(a[i].key) + u, r, x);
      Tail(',', EncString(b[k].key) + v, t, y);
      Reassociate(EncString(a[i].key), u, r);
      Reassociate(EncString(b[k].key), v, t);
      StringPrefix(a[i].key, b[k].key, u + r, v + t);
      Reassociate(Enc(a[i].value), EncFields(a, i + 1), r);
      Reassociate(Enc(b[k].value), EncFields(b, k + 1), t);
      JsonPrefix(a[i].value, b[k].value, EncFields(a, i + 1) + r, EncFields(b, k + 1) + t);
      FieldsPrefix(a, i + 1, b, k + 1, r, t);
      assert a[i..] == [a[i]] + a[i + 1..] && b[k..] == [b[k]] + b[k + 1..];
    }
  }

  // ---- No separator, and room for every digest ----

  lemma {:induction false} StringClean(s: string)
    ensures '~' !in EncString(s) && |EncString(s)| > |s|
  {
    if s == [] {
    } else {
      StringClean(s[1..]);
    }
  }

  lemma {:induction false} NatClean(n: nat)
    ensures '~' !in EncNat(n) && EncNat(n) != ""
  {
    if n == 0 {
    } else {
      NatClean(n - 1);
    }
  }

  lemma {:induction false} JsonClean(j: Json)
    ensures '~' !in Enc(j) && Enc(j) != ""
    decreases j, 0
  {
    match j
    case Num(n) => NatClean(Magnitude(n.units)); NatClean(n.scale);
    case Str(s) => StringClean(s);
    case Arr(items) => ItemsClean(items, 0);
    case Obj(fields) => FieldsClean(fields, 0);
    case _ =>
  }

  lemma {:induction false} ItemsClean(items: seq<Json>, i: nat)
    requires i <= |items|
    ensures '~' !in EncItems(items, i)
    decreases items, |items| - i
  {
    if i == |items| {
    } else {
      JsonClean(items[i]);
      ItemsClean(items, i + 1);
    }
  }

  lemma {:induction false} FieldsClean(fields: seq<Field>, i: nat)
    requires i <= |fields|
    ensures '~' !in EncFields(fields, i)
    decreases fields, |fields| - i
  {
    if i == |fields| {
    } else {
      StringClean(fields[i].key);
      JsonClean(fields[i].value);
      FieldsClean(fields, i + 1);
    }
  }

  lemma {:induction false} RefsFit(j: Json, r: Ref)
    requires r in Refs(j)
    ensures |r.digest| <= |Enc(j)|
    decreases j, 0
  {
    match j
    case Arr(items) =>
      var k := ItemRef(items, |items|, r);
      ItemFits(items, 0, k);
    case Obj(fields) =>
      var k := FieldRef(fields, |fields|, r);
      FieldFits(fields, 0, k);
    case _ =>
  }

  lemma {:induction false} ItemRef(items: seq<Json>, n: nat, r: Ref) returns (k: nat)
    requires n <= |items| && r in ItemRefs(items, n)
    ensures k < |items| && |r.digest| <= |Enc(items[k])|
    decreases items, n
  {
    if r in OneItemRefs(items, n - 1) {
      k := n - 1;
      if IsPlaceholder(items[k]) {
        PlaceholderFits(items[k]);
      } else {
        RefsFit(items[k], r);
      }
    } else {
      k := ItemRef(items, n - 1, r);
    }
  }

  lemma PlaceholderFits(item: Json)
    requires IsPlaceholder(item) && item.fields[0].value.Str?
    ensures |item.fields[0].value.s| <= |Enc(item)|
  {
    StringClean(item.fields[0].value.s);
    FieldFits(item.fields, 0, 0);
  }

  lemma {:induction false} FieldRef(fields: seq<Field>, n: nat, r: Ref) returns (k: nat)
    requires n <= |fields| && r in FieldRefs(fields, n)
    ensures k < |fields| && |r.digest| <= |Enc(fields[k].value)|
    decreases fields, n
  {
    var f := fields[n - 1];
    if r in FieldRefs(fields, n - 1) {
      k := FieldRef(fields, n - 1, r);
    } else {
      k := n - 1;
      if f.key == SD { LookupFits(f.value, r.digest); } else { RefsFit(f.value, r); }
    }
  }

  // Iterating a list of strings, a text, or a dictionary.
  lemma LookupFits(v: Json, g: string)
    requires g in Lookups(v)
    ensures |g| <= |Enc(v)|
  {
    match v
    case Arr(items) =>
      var k := StringItem(items, g);
      StringClean(g);
      ItemFits(items, 0, k);
    case Str(s) => StringClean(s);
    case Obj(fields) =>
      var k :| 0 <= k < |fields| && fields[k].key == g;
      KeyFits(fields, 0, k);
    case _ =>
  }

  lemma {:induction false} StringItem(items: seq<Json>, g: string) returns (k: nat)
    requires g in Strings(items)
    ensures k < |items| && items[k] == Str(g)
  {
    if items[0] == Str(g) {
      k := 0;
    } else {
      k := StringItem(items[1..], g);
      k := k + 1;
    }
  }

  lemma {:induction false} ItemFits(items: seq<Json>, i: nat, k: nat)
    requires i <= k < |items|
    ensures |Enc(items[k])| <= |EncItems(items, i)|
    decreases k - i
  {
    if i == k {
    } else {
      ItemFits(items, i + 1, k);
    }
  }

  lemma {:induction false} FieldFits(fields: seq<Field>, i: nat, k: nat)
    requires i <= k < |fields|
    ensures |Enc(fields[k].value)| <= |EncFields(fields, i)|
    decreases k - i
  {
    if i == k {
    } else {
      FieldFits(fields, i + 1, k);
    }
  }

  lemma {:induction false} KeyFits(fields: seq<Field>, i: nat, k: nat)
    requires i <= k < |fields|
    ensures |fields[k].key| <= |EncFields(fields, i)|
    decreases k - i
  {
    StringClean(fields[i].key);
    if i == k {
    } else {
      KeyFits(fields, i + 1, k);
    }
  }

  // ---- Disclosures, signatures and keys over these texts ----

  function PropertyText(salt: string, key: string, v: Json): string {
    "p" + (EncString(salt) + (EncString(key) + Enc(v)))
  }

  function ElementText(salt: string, v: Json): string {
    "l" + (EncString(salt) + Enc(v))
  }

  function JwsText(header: Json, payload: Json, key: string): string {
    "j" + (Enc(header) + (Enc(payload) + EncString(key)))
  }

  lemma PropertyRead(salt: string, key: string, v: Json, salt': string, key': string, v': Json)
    requires PropertyText(salt, key, v) == PropertyText(salt', key', v')
    ensures key == key' && v == v'
  {
    var x, y := PropertyText(salt, key, v), PropertyText(salt', key', v');
    assert x[1..] == EncString(salt) + (EncString(key) + Enc(v))
      && y[1..] == EncString(salt') + (EncString(key') + Enc(v'));
    StringPrefix(salt, salt', EncString(key) + Enc(v), EncString(key') + Enc(v'));
    StringPrefix(key, key', Enc(v), Enc(v'));
    assert Enc(v) + "" == Enc(v) && Enc(v') + "" == Enc(v');
    JsonPrefix(v, v', "", "");
  }

  lemma ElementRead(salt: string, v: Json, salt': string, v': Json)
    requires ElementText(salt, v) == ElementText(salt', v')
    ensures v == v'
  {
    var x, y := ElementText(salt, v), ElementText(salt', v');
    assert x[1..] == EncString(salt) + Enc(v) && y[1..] == EncString(salt') + Enc(v');
    StringPrefix(salt, salt', Enc(v), Enc(v'));
    assert Enc(v) + "" == Enc(v) && Enc(v') + "" == Enc(v');
    JsonPrefix(v, v', "", "");
  }

  lemma JwsRead(h: Json, p: Json, k: string, h': Json, p': Json, k': string)
    requires JwsText(h, p, k) == JwsText(h', p', k')
    ensures h == h' && p == p' && k == k'
  {
    var x, y := JwsText(h, p, k), JwsText(h', p', k');
    assert x[1..] == Enc(h) + (Enc(p) + EncString(k)) && y[1..] == Enc(h') + (Enc(p') + EncString(k'));
    JsonPrefix(h, h', Enc(p) + EncString(k), Enc(p') + EncString(k'));
    JsonPrefix(p, p', EncString(k), EncString(k'));
    assert EncString(k) + "" == EncString(k) && EncString(k') + "" == EncString(k');
    StringPrefix(k, k', "", "");
  }

  ghost function ParseDisclosure(raw: string): Option<Disclosure> {
    if exists salt, key, v :: raw == PropertyText(salt, key, v) then
      var salt, key, v :| raw == PropertyText(salt, key, v);
      Some(Disclosure(Property, key, v))
    else if exists salt, v :: raw == ElementText(salt, v) then
      var salt, v :| raw == ElementText(salt, v);
      Some(Disclosure(Element, "", v))
    else None
  }

  ghost function ParseText(compact: string): Option<Jws> {
    if exists h, p, k :: compact == JwsText(h, p, k) then
      var h, p, k :| compact == JwsText(h, p, k);
      Some(Jws(h, p))
    else None
  }

  ghost predicate SignedBy(compact: string, pub: string) {
    exists h, p :: compact == JwsText(h, p, pub)
  }

  function Jwk(pub: string): Json { Obj([Field("x", Str(pub))]) }

  function RawKey(jwk: Json): Option<string> {
    if jwk.Obj? && |jwk.fields| == 1 && jwk.fields[0].value.Str? then Some(jwk.fields[0].value.s) else None
  }

  ghost function Concrete(): Crypto {
    Crypto(Codec(raw => ParseDisclosure(raw), (s: string) => "#" + s, (g: string) => |g|),
           (salt, key, v) => PropertyText(salt, key, v),
           (salt, v) => ElementText(salt, v),
           (h, p, k) => JwsText(WithAlg(h), p, k),
           compact => ParseText(compact),
           (compact, pub) => SignedBy(compact, pub),
           (k: string) => k,
           pub => Jwk(pub),
           jwk => RawKey(jwk))
  }

  lemma PropertyParses(salt: string, key: string, v: Json)
    ensures ParseDisclosure(PropertyText(salt, key, v)) == Some(Disclosure(Property, key, v))
    ensures Plain(PropertyText(salt, key, v))
  {
    var raw := PropertyText(salt, key, v);
    var salt', key', v' :| raw == PropertyText(salt', key', v')
      && ParseDisclosure(raw) == Some(Disclosure(Property, key', v'));
    PropertyRead(salt, key, v, salt', key', v');
    StringClean(salt);
    StringClean(key);
    JsonClean(v);
  }

  lemma ElementParses(salt: string, v: Json)
    ensures ParseDisclosure(ElementText(salt, v)) == Some(Disclosure(Element, "", v))
    ensures Plain(ElementText(salt, v))
  {
    var raw := ElementText(salt, v);
    assert raw[0] == 'l';
    forall s, key, w ensures raw != PropertyText(s, key, w) { assert PropertyText(s, key, w)[0] == 'p'; }
    var salt', v' :| raw == ElementText(salt', v') && ParseDisclosure(raw) == Some(Disclosure(Element, "", v'));
    ElementRead(salt, v, salt', v');
    StringClean(salt);
    JsonClean(v);
  }

  lemma JwsParses(h: Json, p: Json, k: string)
    ensures ParseText(JwsText(h, p, k)) == Some(Jws(h, p)) && SignedBy(JwsText(h, p, k), k)
    ensures Plain(JwsText(h, p, k))
  {
    var text := JwsText(h, p, k);
    var h', p', k' :| text == JwsText(h', p', k') && ParseText(text) == Some(Jws(h', p'));
    JwsRead(h, p, k, h', p', k');
    JsonClean(h);
    JsonClean(p);
    StringClean(k);
  }

  // A disclosure is longer than any digest in its value.
  lemma DisclosureFits(raw: string, r: Ref)
    requires ParseDisclosure(raw).Some? && r in Refs(ParseDisclosure(raw).value.value)
    ensures |r.digest| < |"#" + raw|
  {
    RefsFit(ParseDisclosure(raw).value.value, r);
  }

  // Every assumption about encodings, hashes and signatures can be met at once.
  lemma SoundIsPossible() returns (c: Crypto)
    ensures c.Sound()
  {
    c := Concrete();
    forall raw, r | c.codec.parse(raw).Some? && r in Refs(c.codec.parse(raw).value.value)
      ensures c.codec.rank(r.digest) < c.codec.rank(c.codec.hash(raw))
    {
      DisclosureFits(raw, r);
    }
    forall a, b | c.codec.hash(a) == c.codec.hash(b) ensures a == b {
      assert ("#" + a)[1..] == a && ("#" + b)[1..] == b;
    }
    forall salt, key, v ensures c.codec.parse(c.encodeProperty(salt, key, v)) == Some(Disclosure(Property, key, v))
      && Plain(c.encodeProperty(salt, key, v))
    {
      PropertyParses(salt, key, v);
    }
    forall salt, v ensures c.codec.parse(c.encodeElement(salt, v)) == Some(Disclosure(Element, "", v))
      && Plain(c.encodeElement(salt, v))
    {
      ElementParses(salt, v);
    }
    forall h, p, k ensures c.parseJws(c.signJws(h, p, k)) == Some(Jws(WithAlg(h), p))
      && c.checkSignature(c.signJws(h, p, k), c.pub(k)) && Plain(c.signJws(h, p, k))
    {
      JwsParses(WithAlg(h), p, k);
    }
  }

  // ---- The ledger's hash and signatures ----

  function SealText<C>(x: L.Sealed<C>, text: C -> string): string {
    "h" + (EncString(x.body.decisionId)
           + (EncString(text(x.body.content)) + (EncString(x.body.prevHash) + EncString(x.signature))))
  }

  lemma SealRead<C>(x: L.Sealed<C>, y: L.Sealed<C>, text: C -> string)
    requires SealText(x, text) == SealText(y, text)
    ensures x.(body := x.body.(content := y.body.content)) == y && text(x.body.content) == text(y.body.content)
  {
    var a, b := text(x.body.content), text(y.body.content);
    var xs, ys :=
      EncString(x.body.prevHash) + EncString(x.signature), EncString(y.body.prevHash) + EncString(y.signature);
    assert SealText(x, text)[1..] == EncString(x.body.decisionId) + (EncString(a) + xs);
    assert SealText(y, text)[1..] == EncString(y.body.decisionId) + (EncString(b) + ys);
    StringPrefix(x.body.decisionId, y.body.decisionId, EncString(a) + xs, EncString(b) + ys);
    StringPrefix(a, b, xs, ys);
    StringPrefix(x.body.prevHash, y.body.prevHash, EncString(x.signature), EncString(y.signature));
    assert EncString(x.signature) + "" == EncString(x.signature)
      && EncString(y.signature) + "" == EncString(y.signature);
    StringPrefix(x.signature, y.signature, "", "");
  }

  // Different contents in these lists have different texts.
  ghost predicate TextsTell<C(!new)>(text: C -> string, a: seq<L.Entry<C>>, b: seq<L.Entry<C>>) {
    forall x, y :: x in a && y in b && text(x.sealed.body.content) == text(y.sealed.body.content) ==>
      x.sealed.body.content == y.sealed.body.content
  }

  // The assumptions on the ledger's hash and signatures can be met too, for
  // contents of any kind: own signatures verify, and chains collide only where
  // different contents have one text.
  lemma LedgerSuiteIsPossible<C(!new)>(text: C -> string) returns (suite: L.Suite<C>)
    ensures suite.SignsOwn()
    ensures forall a, b :: TextsTell(text, a, b) ==> suite.NoCollision(a, b)
  {
    suite := L.Suite(
      (x: L.Sealed<C>) => SealText(x, text), (key: string, body: L.Body<C>) => key,
      (pub: string, body: L.Body<C>, signature: string) => signature == pub, (key: string) => key);
    forall x ensures suite.hash(x) != L.GenesisHash() {
      assert SealText(x, text)[0] == 'h' && L.GenesisHash()[0] == '0';
    }
    forall a, b | TextsTell(text, a, b) ensures suite.NoCollision(a, b) {
      forall x: L.Entry<C>, y: L.Entry<C> | x in a && y in b && suite.hash(x.sealed) == suite.hash(y.sealed)
        ensures x.sealed == y.sealed
      {
        SealRead(x.sealed, y.sealed, text);
      }
    }
  }
}
