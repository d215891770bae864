// aegis/ap2/sdjwt.py: the container, its text form, and the primitives it rests on.
module SdJwt {
  import opened Wrappers
  import opened Json
  import opened Disclose

  // ---- Cryptography and encodings, as functions of what they are applied to ----

  datatype Jws = Jws(header: Json, payload: Json)

  datatype Crypto = Crypto(
    codec: Codec,
    encodeProperty: (string, string, Json) -> string,
    encodeElement: (string, Json) -> string,
    signJws: (Json, Json, string) -> string,
    parseJws: string -> Option<Jws>,
    checkSignature: (string, string) -> bool,
    pub: string -> string,
    jwk: string -> Json,
    rawKey: Json -> Option<string>)
  {
    function Hash(s: string): string { codec.hash(s) }

    // SHA-256 without collisions, encodings that decode, signatures that
    // verify under the signer's key, and compact texts free of '~'.
    ghost predicate Sound() {
      && codec.Acyclic()
      && (forall a, b :: codec.hash(a) == codec.hash(b) ==> a == b)
      && (forall salt, key, v :: codec.parse(encodeProperty(salt, key, v)) == Some(Disclosure(Property, key, v)))
      && (forall salt, v :: codec.parse(encodeElement(salt, v)) == Some(Disclosure(Element, "", v)))
      && (forall salt, key, v :: Plain(encodeProperty(salt, key, v)))
      && (forall salt, v :: Plain(encodeElement(salt, v)))
      && (forall h, p, k :: parseJws(signJws(h, p, k)) == Some(Jws(WithAlg(h), p)))
      && (forall h, p, k :: checkSignature(signJws(h, p, k), pub(k)))
      && (forall h, p, k :: Plain(signJws(h, p, k)))
      && (forall k :: rawKey(jwk(pub(k))) == Some(pub(k)) && Truthy(jwk(pub(k))))
    }
  }

  // `h.setdefault("alg", "EdDSA")`.
  function WithAlg(header: Json): Json {
    if header.Obj? && Get(header.fields, "alg").None? then Obj(Put(header.fields, "alg", Str("EdDSA"))) else header
  }

  predicate VerifyJws(c: Crypto, compact: string, pub: string) {
    c.parseJws(compact).Some? && c.checkSignature(compact, pub)
  }

  // ---- Text form ----

  datatype SDJWT = SDJWT(issuerJwt: string, disclosures: seq<string>, kbJwt: Option<string>)

  // A segment that survives: not empty, and without the separator.
  predicate Plain(s: string) {
    s != [] && '~' !in s
  }

  // Each part followed by '~'; "~".join(parts) + "~" in the source.
  function TildeEach(parts: seq<string>): string {
    if parts == [] then [] else parts[0] + "~" + TildeEach(parts[1..])
  }

  function Split(s: string): (segments: seq<string>)
    ensures segments != []
  {
    if s == [] then [[]]
    else if s[0] == '~' then [[]] + Split(s[1..])
    else
      var rest := Split(s[1..]);
      [[s[0]] + rest[0]] + rest[1..]
  }

  function PresentationWithoutKb(sd: SDJWT): string {
    TildeEach([sd.issuerJwt] + sd.disclosures)
  }

  function Serialize(sd: SDJWT): string {
    PresentationWithoutKb(sd) + match sd.kbJwt case Some(kb) => kb case None => ""
  }

  function NonEmpty(parts: seq<string>): seq<string> {
    if parts == [] then []
    else if parts[0] != [] then [parts[0]] + NonEmpty(parts[1..])
    else NonEmpty(parts[1..])
  }

  function Parse(s: string): SDJWT {
    var segments := Split(s);
    var rest := segments[1..];
    if rest != [] && rest[|rest| - 1] != [] then
      SDJWT(segments[0], NonEmpty(rest[..|rest| - 1]), Some(rest[|rest| - 1]))
    else if rest != [] then SDJWT(segments[0], NonEmpty(rest[..|rest| - 1]), None)
    else SDJWT(segments[0], [], None)
  }

  predicate AllPlain(parts: seq<string>) {
    forall i :: 0 <= i < |parts| ==> Plain(parts[i])
  }

  // What the text form can carry.
  predicate Carriable(sd: SDJWT) {
    '~' !in sd.issuerJwt && AllPlain(sd.disclosures) && (sd.kbJwt.Some? ==> Plain(sd.kbJwt.value))
  }

  lemma {:induction false} SplitSegment(a: string, s: string)
    requires '~' !in a
    ensures Split(a + "~" + s) == [a] + Split(s)
  {
    var t := a + "~" + s;
    if a == [] {
      assert t[0] == '~' && t[1..] == s;
    } else {
      assert t[0] == a[0] && t[1..] == a[1..] + "~" + s;
      SplitSegment(a[1..], s);
      assert [a[0]] + a[1..] == a;
    }
  }

  lemma {:induction false} SplitPlain(s: string)
    requires '~' !in s
    ensures Split(s) == [s]
  {
    if s == [] {
    } else {
      SplitPlain(s[1..]);
      assert [s[0]] + s[1..] == s;
    }
  }

  lemma {:induction false} SplitTildeEach(parts: seq<string>, tail: string)
    requires forall i :: 0 <= i < |parts| ==> '~' !in parts[i]
    requires '~' !in tail
    ensures Split(TildeEach(parts) + tail) == parts + [tail]
  {
    if parts == [] {
      SplitPlain(tail);
      assert TildeEach(parts) + tail == tail;
    } else {
      SplitTildeEach(parts[1..], tail);
      SplitSegment(parts[0], TildeEach(parts[1..]) + tail);
      Regroup(parts[0], TildeEach(parts[1..]), tail);
      assert parts + [tail] == [parts[0]] + (parts[1..] + [tail]);
    }
  }

  lemma Regroup(a: string, b: string, tail: string)
    ensures (a + "~" + b) + tail == a + "~" + (b + tail)
  {
  }

  lemma {:induction false} SplitHasNoTilde(s: string)
    ensures forall i :: 0 <= i < |Split(s)| ==> '~' !in Split(s)[i]
  {
    if s == [] {
    } else {
      SplitHasNoTilde(s[1..]);
    }
  }

  lemma {:induction false} NonEmptyPlain(parts: seq<string>)
    requires forall i :: 0 <= i < |parts| ==> '~' !in parts[i]
    ensures AllPlain(NonEmpty(parts))
    ensures AllPlain(parts) ==> NonEmpty(parts) == parts
  {
    if parts == [] {
    } else {
      NonEmptyPlain(parts[1..]);
    }
  }

  lemma ParseIsCarriable(s: string)
    ensures Carriable(Parse(s))
  {
    SplitHasNoTilde(s);
    var rest := Split(s)[1..];
    assert forall i :: 0 <= i < |rest| ==> rest[i] == Split(s)[i + 1];
    if rest != [] { NonEmptyPlain(rest[..|rest| - 1]); }
  }

  // Parsing the serialised form gives the container back exactly when its
  // parts avoid the separator and none of the optional ones is empty.
  lemma RoundTrip(sd: SDJWT)
    ensures Parse(Serialize(sd)) == sd <==> Carriable(sd)
  {
    ParseIsCarriable(Serialize(sd));
    if Carriable(sd) {
      var parts := [sd.issuerJwt] + sd.disclosures;
      var tail := match sd.kbJwt case Some(kb) => kb case None => "";
      SplitTildeEach(parts, tail);
      var rest := (parts + [tail])[1..];
      assert rest == sd.disclosures + [tail];
      assert rest[..|rest| - 1] == sd.disclosures;
      NonEmptyPlain(sd.disclosures);
    }
  }

  // ---- Hashes and presentation ----

  function SdHash(c: Crypto, sd: SDJWT): string { c.Hash(PresentationWithoutKb(sd)) }

  // Of the issuer-signed part alone, so that it is stable under selective disclosure.
  function IssuerHash(c: Crypto, sd: SDJWT): string { c.Hash(sd.issuerJwt) }

  function Kept(c: Crypto, raws: seq<string>, keep: set<string>): seq<string> {
    if raws == [] then []
    else if c.Hash(raws[|raws| - 1]) in keep then Kept(c, raws[..|raws| - 1], keep) + [raws[|raws| - 1]]
    else Kept(c, raws[..|raws| - 1], keep)
  }

  function Present(c: Crypto, sd: SDJWT, keep: set<string>): SDJWT {
    sd.(disclosures := Kept(c, sd.disclosures, keep))
  }

  // Distinct texts have distinct serialisations of the part that is hashed.
  lemma PresentationDetermines(c: Crypto, a: SDJWT, b: SDJWT)
    requires c.Sound() && Carriable(a) && Carriable(b) && SdHash(c, a) == SdHash(c, b)
    ensures a.issuerJwt == b.issuerJwt && a.disclosures == b.disclosures
  {
    var a', b' := a.(kbJwt := None), b.(kbJwt := None);
    RoundTrip(a');
    RoundTrip(b');
    assert Serialize(a') == PresentationWithoutKb(a) + "" == PresentationWithoutKb(a);
    assert Serialize(b') == PresentationWithoutKb(b) + "" == PresentationWithoutKb(b);
  }

  // ---- Key binding ----

  function MakeKbJwt(c: Crypto, holderKey: string, nonce: string, aud: string, iat: Json, sdHash: string): string {
    c.signJws(Obj([Field("typ", Str("kb+jwt")), Field("alg", Str("EdDSA"))]),
              Obj([Field("nonce", Str(nonce)), Field("aud", Str(aud)), Field("iat", iat),
                   Field("sd_hash", Str(sdHash))]),
              holderKey)
  }

  predicate VerifyKbJwt(c: Crypto, kb: string, cnf: Json, nonce: string, sdHash: string) {
    && c.parseJws(kb).Some?
    && var jws := c.parseJws(kb).value;
       && GetMember(jws.header, "typ") == Some(Str("kb+jwt"))
       && GetMember(jws.payload, "nonce") == Some(Str(nonce))
       && GetMember(jws.payload, "sd_hash") == Some(Str(sdHash))
       && c.rawKey(cnf).Some? && VerifyJws(c, kb, c.rawKey(cnf).value)
  }

  // A key-binding JWT is accepted exactly for the nonce and presentation it was made for.
  lemma KbBinds(c: Crypto, key: string, nonce: string, aud: string, iat: Json, sdHash: string,
                nonce': string, sdHash': string)
    requires c.Sound()
    ensures VerifyKbJwt(c, MakeKbJwt(c, key, nonce, aud, iat, sdHash), c.jwk(c.pub(key)), nonce', sdHash')
       <==> nonce == nonce' && sdHash == sdHash'
  {
    var header := [Field("typ", Str("kb+jwt")), Field("alg", Str("EdDSA"))];
    var payload :=
      [Field("nonce", Str(nonce)), Field("aud", Str(aud)), Field("iat", iat), Field("sd_hash", Str(sdHash))];
    assert header[1..] == [Field("alg", Str("EdDSA"))];
    assert WithAlg(Obj(header)) == Obj(header);
    assert DistinctKeys(payload);
    GetAt(payload, 0);
    GetAt(payload, 3);
    assert c.parseJws(MakeKbJwt(c, key, nonce, aud, iat, sdHash)) == Some(Jws(Obj(header), Obj(payload)));
  }
}
