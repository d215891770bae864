// aegis/ap2/sdjwt.py, `issue_sd_jwt`, followed by `present` and `disclose`:
// selective disclosure reveals exactly what was kept.
module Issue {
  import opened Wrappers
  import opened Json
  import opened Disclose
  import opened SdJwt

  // ---- What is issued ----

  datatype Prop = Prop(salt: string, key: string, value: Json)
  datatype Elem = Elem(salt: string, value: Json)

  // `slots`: the digests of the elements and the decoys, as shuffled.
  datatype ArrayClaim = ArrayClaim(name: string, elems: seq<Elem>, decoys: seq<string>, slots: seq<string>)

  // `listed`: the digests of the properties and the decoys, as sorted.
  datatype Request = Request(
    claims: seq<Field>, props: seq<Prop>, decoys: seq<string>, listed: seq<string>, arrays: seq<ArrayClaim>)

  function PropRaw(c: Crypto, p: Prop): string { c.encodeProperty(p.salt, p.key, p.value) }
  function ElemRaw(c: Crypto, e: Elem): string { c.encodeElement(e.salt, e.value) }
  function PropDigest(c: Crypto, p: Prop): string { c.Hash(PropRaw(c, p)) }
  function ElemDigest(c: Crypto, e: Elem): string { c.Hash(ElemRaw(c, e)) }

  function PropRaws(c: Crypto, props: seq<Prop>): seq<string> {
    if props == [] then [] else PropRaws(c, props[..|props| - 1]) + [PropRaw(c, props[|props| - 1])]
  }

  function ElemRaws(c: Crypto, elems: seq<Elem>): seq<string> {
    if elems == [] then [] else ElemRaws(c, elems[..|elems| - 1]) + [ElemRaw(c, elems[|elems| - 1])]
  }

  function ArrayRaws(c: Crypto, arrays: seq<ArrayClaim>): seq<string> {
    if arrays == [] then []
    else ArrayRaws(c, arrays[..|arrays| - 1]) + ElemRaws(c, arrays[|arrays| - 1].elems)
  }

  function Raws(c: Crypto, rq: Request): seq<string> {
    PropRaws(c, rq.props) + ArrayRaws(c, rq.arrays)
  }

  function Hashes(c: Crypto, raws: seq<string>): seq<string> {
    if raws == [] then [] else Hashes(c, raws[..|raws| - 1]) + [c.Hash(raws[|raws| - 1])]
  }

  // Sorting and shuffling only rearrange.
  ghost predicate Shuffled(c: Crypto, rq: Request) {
    && multiset(rq.listed) == multiset(Hashes(c, PropRaws(c, rq.props)) + rq.decoys)
    && forall a :: a in rq.arrays ==> multiset(a.slots) == multiset(Hashes(c, ElemRaws(c, a.elems)) + a.decoys)
  }

  function Strs(ds: seq<string>): seq<Json> {
    seq(|ds|, i requires 0 <= i < |ds| => Str(ds[i]))
  }

  function Placeholders(slots: seq<string>): seq<Json> {
    seq(|slots|, i requires 0 <= i < |slots| => Obj([Field(ELLIPSIS, Str(slots[i]))]))
  }

  function WithSd(rq: Request): seq<Field> {
    if rq.listed != [] then Put(rq.claims, SD, Arr(Strs(rq.listed))) else rq.claims
  }

  function WithArrays(fields: seq<Field>, arrays: seq<ArrayClaim>): seq<Field> {
    if arrays == [] then fields
    else
      var a := arrays[|arrays| - 1];
      Put(WithArrays(fields, arrays[..|arrays| - 1]), a.name, Arr(Placeholders(a.slots)))
  }

  function PayloadFields(rq: Request): seq<Field> {
    WithArrays(WithSd(rq), rq.arrays)
  }

  function Issued(c: Crypto, signerKey: string, header: Json, rq: Request): SDJWT {
    SDJWT(c.signJws(header, Obj(PayloadFields(rq)), signerKey), Raws(c, rq), None)
  }

  lemma HashesSnoc(c: Crypto, raws: seq<string>, raw: string)
    ensures Hashes(c, raws + [raw]) == Hashes(c, raws) + [c.Hash(raw)]
  {
    assert (raws + [raw])[..|raws|] == raws;
  }

  method MakeProperties(c: Crypto, props: seq<Prop>) returns (disclosures: seq<string>, digests: seq<string>)
    ensures disclosures == PropRaws(c, props) && digests == Hashes(c, disclosures)
  {
    disclosures, digests := [], [];
    for i := 0 to |props|
      invariant disclosures == PropRaws(c, props[..i]) && digests == Hashes(c, disclosures)
    {
      assert props[..i + 1][..i] == props[..i];
      var raw := PropRaw(c, props[i]);
      HashesSnoc(c, disclosures, raw);
      disclosures := disclosures + [raw];
      digests := digests + [c.Hash(raw)];
    }
    assert props[..|props|] == props;
  }

  method MakeElements(c: Crypto, elems: seq<Elem>) returns (disclosures: seq<string>)
    ensures disclosures == ElemRaws(c, elems)
  {
    disclosures := [];
    for i := 0 to |elems|
      invariant disclosures == ElemRaws(c, elems[..i])
    {
      assert elems[..i + 1][..i] == elems[..i];
      disclosures := disclosures + [ElemRaw(c, elems[i])];
    }
    assert elems[..|elems|] == elems;
  }

  method AddArrays(c: Crypto, fields: seq<Field>, arrays: seq<ArrayClaim>)
    returns (payload: seq<Field>, disclosures: seq<string>)
    ensures payload == WithArrays(fields, arrays) && disclosures == ArrayRaws(c, arrays)
  {
    payload, disclosures := fields, [];
    for i := 0 to |arrays|
      invariant payload == WithArrays(fields, arrays[..i]) && disclosures == ArrayRaws(c, arrays[..i])
    {
      assert arrays[..i + 1][..i] == arrays[..i];
      var made := MakeElements(c, arrays[i].elems);
      disclosures := disclosures + made;
      payload := Put(payload, arrays[i].name, Arr(Placeholders(arrays[i].slots)));
    }
    assert arrays[..|arrays|] == arrays;
  }

  lemma SameLength(a: seq<string>, b: seq<string>)
    requires multiset(a) == multiset(b)
    ensures |a| == |b|
  {
    assert |multiset(a)| == |a| && |multiset(b)| == |b|;
  }

  method IssueSdJwt(c: Crypto, signerKey: string, header: Json, rq: Request) returns (sd: SDJWT)
    requires Shuffled(c, rq)
    ensures sd == Issued(c, signerKey, header, rq)
  {
    var payload := rq.claims;
    var disclosures, sdDigests := MakeProperties(c, rq.props);
    SameLength(rq.listed, sdDigests + rq.decoys);
    if sdDigests + rq.decoys != [] {
      payload := Put(payload, SD, Arr(Strs(rq.listed)));
    }
    var elements;
    payload, elements := AddArrays(c, payload, rq.arrays);
    return SDJWT(c.signJws(header, Obj(payload), signerKey), disclosures + elements, None);
  }

  // ---- Values without markers ----

  // No `_sd` key and no placeholder anywhere, and dictionaries have distinct keys.
  predicate Tame(node: Json) {
    match node
    case Obj(fields) =>
      && (forall i, j :: 0 <= i < j < |fields| ==> fields[i].key != fields[j].key)
      && forall f :: f in fields ==> f.key != SD && Tame(f.value)
    case Arr(items) => forall item :: item in items ==> !IsPlaceholder(item) && Tame(item)
    case _ => true
  }

  lemma {:induction false} TameHasNoRefs(node: Json)
    requires Tame(node)
    ensures Refs(node) == {} && !Raises(node)
    decreases node, 0
  {
    match node
    case Obj(fields) =>
      forall f | f in fields ensures Refs(f.value) == {} && !Raises(f.value) { TameHasNoRefs(f.value); }
      TameFieldRefs(fields, |fields|);
    case Arr(items) =>
      forall item | item in items ensures Refs(item) == {} && !Raises(item) { TameHasNoRefs(item); }
      TameItemRefs(items, |items|);
    case _ =>
  }

  lemma {:induction false} TameFieldRefs(fields: seq<Field>, n: nat)
    requires n <= |fields| && forall f :: f in fields ==> f.key != SD && Refs(f.value) == {}
    ensures FieldRefs(fields, n) == {}
  {
    if n == 0 {
    } else {
      TameFieldRefs(fields, n - 1);
    }
  }

  lemma {:induction false} TameItemRefs(items: seq<Json>, n: nat)
    requires n <= |items| && forall item :: item in items ==> !IsPlaceholder(item) && Refs(item) == {}
    ensures ItemRefs(items, n) == {}
  {
    if n == 0 {
    } else {
      TameItemRefs(items, n - 1);
    }
  }

  // The walk leaves such a value as it is.
  lemma {:induction false} WalkTame(node: Json, dmap: DMap, rank: string -> nat, bound: nat)
    requires Tame(node) && Ranked(dmap, rank) && Below(Refs(node), dmap, rank, bound)
    ensures Walk(node, dmap, rank, bound) == Walked(node, {})
    decreases node, 1
  {
    match node
    case Obj(fields) => WalkTameFields(fields, |fields|, dmap, rank, bound); assert fields[..|fields|] == fields;
    case Arr(items) => WalkTameItems(items, |items|, dmap, rank, bound); assert items[..|items|] == items;
    case _ =>
  }

  lemma {:induction false} WalkTameFields(fields: seq<Field>, n: nat, dmap: DMap, rank: string -> nat, bound: nat)
    requires n <= |fields| && DistinctKeys(fields) && forall f :: f in fields ==> f.key != SD && Tame(f.value)
    requires Ranked(dmap, rank) && Below(FieldRefs(fields, n), dmap, rank, bound)
    ensures WalkFields(fields, n, dmap, rank, bound) == WalkedFields(fields[..n], {})
    decreases fields, n
  {
    if n == 0 {
    } else {
      WalkTameFields(fields, n - 1, dmap, rank, bound);
      WalkTame(fields[n - 1].value, dmap, rank, bound);
      PutNew(fields[..n - 1], fields[n - 1].key, fields[n - 1].value);
    }
  }

  lemma {:induction false} WalkTameItems(items: seq<Json>, n: nat, dmap: DMap, rank: string -> nat, bound: nat)
    requires n <= |items| && forall item :: item in items ==> !IsPlaceholder(item) && Tame(item)
    requires Ranked(dmap, rank) && Below(ItemRefs(items, n), dmap, rank, bound)
    ensures WalkItems(items, n, dmap, rank, bound) == WalkedItems(items[..n], {})
    decreases items, n
  {
    if n == 0 {
    } else {
      WalkTameItems(items, n - 1, dmap, rank, bound);
      assert OneItemRefs(items, n - 1) == Refs(items[n - 1]);
      WalkTame(items[n - 1], dmap, rank, bound);
    }
  }
}
