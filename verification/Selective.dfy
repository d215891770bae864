// Presenting a kept set of digests and disclosing the result reveals the plain
// claims, the kept properties, and the kept array elements in slot order.
module Selective {
  import opened Wrappers
  import opened Json
  import opened Disclose
  import opened SdJwt
  import opened Issue

  // ---- Flat disclosures ----

  ghost predicate FlatMap(dmap: DMap) {
    forall g :: g in dmap ==> Tame(dmap[g].value)
  }

  predicate IsSlotArray(v: Json) {
    v.Arr? && forall item :: item in v.items ==> IsPlaceholder(item) && item.fields[0].value.Str?
  }

  // The elements revealed by a list of placeholders, in their order.
  function ShownItems(items: seq<Json>, dmap: DMap): seq<Json> {
    if items == [] then []
    else
      var front := ShownItems(items[..|items| - 1], dmap);
      var last := items[|items| - 1];
      if IsPlaceholder(last) && last.fields[0].value.Str? && Resolves(dmap, Ref(Element, last.fields[0].value.s))
      then front + [dmap[last.fields[0].value.s].value] else front
  }

  function Shown(v: Json, dmap: DMap): Json {
    if IsSlotArray(v) then Arr(ShownItems(v.items, dmap)) else v
  }

  predicate Presentable(v: Json) {
    Tame(v) || IsSlotArray(v)
  }

  lemma {:induction false} WalkSlots(items: seq<Json>, n: nat, dmap: DMap, rank: string -> nat, bound: nat)
    requires n <= |items| && IsSlotArray(Arr(items)) && FlatMap(dmap)
    requires Ranked(dmap, rank) && Below(ItemRefs(items, n), dmap, rank, bound)
    ensures WalkItems(items, n, dmap, rank, bound).items == ShownItems(items[..n], dmap)
  {
    if n == 0 {
    } else {
      WalkSlots(items, n - 1, dmap, rank, bound);
      assert items[..n][..n - 1] == items[..n - 1];
      assert items[n - 1] in items;
      var x := items[n - 1].fields[0].value;
      assert OneItemRefs(items, n - 1) <= ItemRefs(items, n);
      if Resolves(dmap, Ref(Element, x.s)) { WalkTame(dmap[x.s].value, dmap, rank, rank(x.s)); }
    }
  }

  lemma WalkShown(v: Json, dmap: DMap, rank: string -> nat, bound: nat)
    requires Presentable(v) && FlatMap(dmap) && Ranked(dmap, rank) && Below(Refs(v), dmap, rank, bound)
    ensures Walk(v, dmap, rank, bound).value == Shown(v, dmap)
  {
    if IsSlotArray(v) {
      WalkSlots(v.items, |v.items|, dmap, rank, bound);
      assert v.items[..|v.items|] == v.items;
    } else {
      WalkTame(v, dmap, rank, bound);
    }
  }

  // ---- Lookups in the walked dictionary ----

  predicate Names(dmap: DMap, g: string, key: string) {
    Resolves(dmap, Ref(Property, g)) && dmap[g].key == key
  }

  // Property names are used once, and not by the plain entries.
  ghost predicate NoClash(fields: seq<Field>, dmap: DMap) {
    && (forall g, h, key :: Names(dmap, g, key) && Names(dmap, h, key) ==> g == h)
    && (forall g, f :: f in fields && f.key != SD ==> !Names(dmap, g, f.key))
  }

  lemma {:induction false} WalkDigestsGet(fields: seq<Field>, k: nat, n: nat, before: WalkedFields, dmap: DMap,
                                         rank: string -> nat, bound: nat, key: string)
    requires k < |fields| && fields[k].key == SD && n <= |Lookups(fields[k].value)|
    requires Ranked(dmap, rank) && Below(FieldRefs(fields, k + 1), dmap, rank, bound)
    requires FlatMap(dmap) && NoClash(fields, dmap)
    ensures var found := Get(WalkDigests(fields, k, n, before, dmap, rank, bound).fields, key);
      && (forall g :: g in Lookups(fields[k].value)[..n] && Names(dmap, g, key) ==> found == Some(dmap[g].value))
      && ((forall g :: g in Lookups(fields[k].value)[..n] ==> !Names(dmap, g, key)) ==>
        found == Get(before.fields, key))
    decreases n
  {
    if n == 0 {
    } else {
      var ds := Lookups(fields[k].value);
      WalkDigestsGet(fields, k, n - 1, before, dmap, rank, bound, key);
      var w := WalkDigests(fields, k, n - 1, before, dmap, rank, bound);
      var g := ds[n - 1];
      assert ds[..n] == ds[..n - 1] + [g];
      assert Ref(Property, g) in FieldRefs(fields, k + 1);
      if Resolves(dmap, Ref(Property, g)) {
        WalkTame(dmap[g].value, dmap, rank, rank(g));
        GetPut(w.fields, dmap[g].key, dmap[g].value, key);
      }
      OneMoreDigest(fields, ds, n, dmap, Get(before.fields, key), Get(w.fields, key), key);
    }
  }

  lemma OneMoreDigest(fields: seq<Field>, ds: seq<string>, n: nat, dmap: DMap,
                      before: Option<Json>, found: Option<Json>, key: string)
    requires 0 < n <= |ds| && NoClash(fields, dmap)
    requires forall g :: g in ds[..n - 1] && Names(dmap, g, key) ==> found == Some(dmap[g].value)
    requires (forall g :: g in ds[..n - 1] ==> !Names(dmap, g, key)) ==> found == before
    ensures var after := if Names(dmap, ds[n - 1], key) then Some(dmap[ds[n - 1]].value) else found;
      && (forall g :: g in ds[..n] && Names(dmap, g, key) ==> after == Some(dmap[g].value))
      && ((forall g :: g in ds[..n] ==> !Names(dmap, g, key)) ==> after == before)
  {
    assert ds[..n] == ds[..n - 1] + [ds[n - 1]];
    forall g | g in ds[..n] ensures g in ds[..n - 1] || g == ds[n - 1] {}
  }

  // g is listed under one of the first n entries.
  ghost predicate Listed(fields: seq<Field>, n: nat, g: string)
    requires n <= |fields|
  {
    exists i :: 0 <= i < n && fields[i].key == SD && g in Lookups(fields[i].value)
  }

  ghost predicate HasEntry(fields: seq<Field>, n: nat, key: string)
    requires n <= |fields|
  {
    key != SD && exists i :: 0 <= i < n && fields[i].key == key
  }

  // What the walked dictionary holds under a key, entry by entry.
  ghost predicate WalkedHolds(fields: seq<Field>, n: nat, dmap: DMap, found: Option<Json>, key: string)
    requires n <= |fields|
  {
    && (forall i :: 0 <= i < n && fields[i].key == key != SD ==> found == Some(Shown(fields[i].value, dmap)))
    && (forall g :: Listed(fields, n, g) && Names(dmap, g, key) ==> found == Some(dmap[g].value))
    && (!HasEntry(fields, n, key) && (forall g :: Listed(fields, n, g) ==> !Names(dmap, g, key)) ==> found.None?)
  }

  lemma {:induction false} WalkGet(fields: seq<Field>, n: nat, dmap: DMap, rank: string -> nat, bound: nat, key: string)
    requires n <= |fields| && DistinctKeys(fields) && NoClash(fields, dmap) && FlatMap(dmap)
    requires forall f :: f in fields && f.key != SD ==> Presentable(f.value)
    requires Ranked(dmap, rank) && Below(FieldRefs(fields, n), dmap, rank, bound)
    ensures WalkedHolds(fields, n, dmap, Get(WalkFields(fields, n, dmap, rank, bound).fields, key), key)
  {
    if n == 0 {
    } else {
      WalkGet(fields, n - 1, dmap, rank, bound, key);
      var before := WalkFields(fields, n - 1, dmap, rank, bound);
      var f := fields[n - 1];
      if f.key == SD {
        WalkGetSd(fields, n, before, dmap, rank, bound, key);
      } else {
        WalkGetEntry(fields, n, before, dmap, rank, bound, key);
      }
    }
  }

  lemma WalkGetEntry(fields: seq<Field>, n: nat, before: WalkedFields, dmap: DMap, rank: string -> nat, bound: nat,
                     key: string)
    requires 0 < n <= |fields| && fields[n - 1].key != SD && DistinctKeys(fields)
    requires NoClash(fields, dmap) && FlatMap(dmap) && Presentable(fields[n - 1].value)
    requires Ranked(dmap, rank) && Below(FieldRefs(fields, n), dmap, rank, bound)
    requires Below(Refs(fields[n - 1].value), dmap, rank, bound)
    requires WalkedHolds(fields, n - 1, dmap, Get(before.fields, key), key)
    ensures var f := fields[n - 1];
      WalkedHolds(fields, n, dmap, Get(Put(before.fields, f.key, Walk(f.value, dmap, rank, bound).value), key), key)
  {
    var f := fields[n - 1];
    WalkShown(f.value, dmap, rank, bound);
    GetPut(before.fields, f.key, Shown(f.value, dmap), key);
    EntryStep(fields, n, dmap, Get(before.fields, key), key);
  }

  lemma WalkGetSd(fields: seq<Field>, n: nat, before: WalkedFields, dmap: DMap, rank: string -> nat, bound: nat,
                  key: string)
    requires 0 < n <= |fields| && fields[n - 1].key == SD && NoClash(fields, dmap) && FlatMap(dmap)
    requires Ranked(dmap, rank) && Below(FieldRefs(fields, n), dmap, rank, bound)
    requires WalkedHolds(fields, n - 1, dmap, Get(before.fields, key), key)
    ensures var ds := Lookups(fields[n - 1].value);
      var w := WalkDigests(fields, n - 1, |ds|, before, dmap, rank, bound);
      WalkedHolds(fields, n, dmap, Get(w.fields, key), key)
  {
    var ds := Lookups(fields[n - 1].value);
    WalkDigestsGet(fields, n - 1, |ds|, before, dmap, rank, bound, key);
    var w := WalkDigests(fields, n - 1, |ds|, before, dmap, rank, bound);
    SdStep(fields, n, dmap, Get(before.fields, key), Get(w.fields, key), key);
  }

  lemma SdStep(fields: seq<Field>, n: nat, dmap: DMap, before: Option<Json>, after: Option<Json>, key: string)
    requires 0 < n <= |fields| && fields[n - 1].key == SD && NoClash(fields, dmap)
    requires WalkedHolds(fields, n - 1, dmap, before, key)
    requires var ds := Lookups(fields[n - 1].value);
      && (forall g :: g in ds[..|ds|] && Names(dmap, g, key) ==> after == Some(dmap[g].value))
      && ((forall g :: g in ds[..|ds|] ==> !Names(dmap, g, key)) ==> after == before)
    ensures WalkedHolds(fields, n, dmap, after, key)
  {
    var ds := Lookups(fields[n - 1].value);
    assert ds[..|ds|] == ds;
    forall g ensures Listed(fields, n, g) <==> Listed(fields, n - 1, g) || g in ds {
      if Listed(fields, n - 1, g) {
        var i :| 0 <= i < n - 1 && fields[i].key == SD && g in Lookups(fields[i].value);
      }
    }
    forall i, g | 0 <= i < n && fields[i].key != SD && Names(dmap, g, key) ensures fields[i].key != key {
      assert fields[i] in fields;
    }
    assert HasEntry(fields, n, key) <==> HasEntry(fields, n - 1, key);
  }

  lemma EntryStep(fields: seq<Field>, n: nat, dmap: DMap, before: Option<Json>, key: string)
    requires 0 < n <= |fields| && fields[n - 1].key != SD && NoClash(fields, dmap) && DistinctKeys(fields)
    requires WalkedHolds(fields, n - 1, dmap, before, key)
    ensures var f := fields[n - 1];
      WalkedHolds(fields, n, dmap, if key == f.key then Some(Shown(f.value, dmap)) else before, key)
  {
    var f := fields[n - 1];
    assert f in fields;
    forall g ensures Listed(fields, n, g) <==> Listed(fields, n - 1, g) {
      if Listed(fields, n, g) {
        var i :| 0 <= i < n && fields[i].key == SD && g in Lookups(fields[i].value);
        assert i < n - 1;
      }
    }
    if key == f.key {
      assert HasEntry(fields, n, key);
    } else {
      assert HasEntry(fields, n, key) <==> HasEntry(fields, n - 1, key);
    }
  }

  // ---- The issued payload ----

  function ArrayFields(arrays: seq<ArrayClaim>): seq<Field> {
    seq(|arrays|, i requires 0 <= i < |arrays| => Field(arrays[i].name, Arr(Placeholders(arrays[i].slots))))
  }

  function SdFields(rq: Request): seq<Field> {
    if rq.listed != [] then [Field(SD, Arr(Strs(rq.listed)))] else []
  }

  // Names are used once, no name is a marker, and no value holds a marker.
  ghost predicate WellPosed(rq: Request) {
    && DistinctKeys(rq.claims)
    && (forall i, j :: 0 <= i < j < |rq.props| ==> rq.props[i].key != rq.props[j].key)
    && (forall i, j :: 0 <= i < j < |rq.arrays| ==> rq.arrays[i].name != rq.arrays[j].name)
    && (forall f, p :: f in rq.claims && p in rq.props ==> f.key != p.key)
    && (forall f, a :: f in rq.claims && a in rq.arrays ==> f.key != a.name)
    && (forall p, a :: p in rq.props && a in rq.arrays ==> p.key != a.name)
    && (forall f :: f in rq.claims ==> f.key != SD && Tame(f.value))
    && (forall p :: p in rq.props ==> p.key != SD && Tame(p.value))
    && (forall a :: a in rq.arrays ==> a.name != SD && forall e :: e in a.elems ==> Tame(e.value))
  }

  lemma {:induction false} ArraysAppended(fields: seq<Field>, arrays: seq<ArrayClaim>)
    requires forall i, j :: 0 <= i < j < |arrays| ==> arrays[i].name != arrays[j].name
    requires forall f, a :: f in fields && a in arrays ==> f.key != a.name
    ensures WithArrays(fields, arrays) == fields + ArrayFields(arrays)
  {
    if arrays == [] {
    } else {
      var front, last := arrays[..|arrays| - 1], arrays[|arrays| - 1];
      ArraysAppended(fields, front);
      var before := fields + ArrayFields(front);
      forall i | 0 <= i < |before| ensures before[i].key != last.name {
        if i < |fields| { assert before[i] in fields && last in arrays; }
      }
      PutNew(before, last.name, Arr(Placeholders(last.slots)));
      assert ArrayFields(arrays) == ArrayFields(front) + [Field(last.name, Arr(Placeholders(last.slots)))];
    }
  }

  lemma PayloadShape(rq: Request)
    requires WellPosed(rq)
    ensures PayloadFields(rq) == rq.claims + SdFields(rq) + ArrayFields(rq.arrays)
    ensures DistinctKeys(PayloadFields(rq))
  {
    if rq.listed != [] {
      forall i | 0 <= i < |rq.claims| ensures rq.claims[i].key != SD { assert rq.claims[i] in rq.claims; }
      PutNew(rq.claims, SD, Arr(Strs(rq.listed)));
    }
    assert WithSd(rq) == rq.claims + SdFields(rq);
    ArraysAppended(WithSd(rq), rq.arrays);
    var n, m := |rq.claims|, |rq.claims + SdFields(rq)|;
    var fields := PayloadFields(rq);
    forall i, j | 0 <= i < j < |fields| ensures fields[i].key != fields[j].key {
      if i < n { assert fields[i] == rq.claims[i] && rq.claims[i] in rq.claims; }
      if j >= m { assert rq.arrays[j - m] in rq.arrays; }
    }
  }

  lemma PayloadPresentable(rq: Request)
    requires WellPosed(rq)
    ensures forall f :: f in PayloadFields(rq) && f.key != SD ==> Presentable(f.value)
  {
    PayloadShape(rq);
    forall f | f in PayloadFields(rq) && f.key != SD ensures Presentable(f.value) {
      if f !in rq.claims {
        assert f !in SdFields(rq);
        var i :| 0 <= i < |rq.arrays| && ArrayFields(rq.arrays)[i] == f;
        SlotsPresentable(rq.arrays[i].slots);
      }
    }
  }

  lemma SlotsPresentable(slots: seq<string>)
    ensures Presentable(Arr(Placeholders(slots)))
  {
  }

  // ---- The kept disclosures ----

  function KeptMap(c: Crypto, rq: Request, keep: set<string>): DMap {
    var kept := Kept(c, Raws(c, rq), keep);
    DMapOf(c.codec, kept, |kept|)
  }

  lemma {:induction false} KeptMembers(c: Crypto, raws: seq<string>, keep: set<string>)
    ensures forall raw :: raw in Kept(c, raws, keep) <==> raw in raws && c.Hash(raw) in keep
  {
    if raws == [] {
    } else {
      KeptMembers(c, raws[..|raws| - 1], keep);
      assert raws == raws[..|raws| - 1] + [raws[|raws| - 1]];
    }
  }

  lemma {:induction false} PropRawsMembers(c: Crypto, props: seq<Prop>)
    ensures forall raw :: raw in PropRaws(c, props) <==> exists p :: p in props && PropRaw(c, p) == raw
    ensures forall p :: p in props ==> PropDigest(c, p) in Hashes(c, PropRaws(c, props))
  {
    if props == [] {
    } else {
      var front, last := props[..|props| - 1], props[|props| - 1];
      PropRawsMembers(c, front);
      assert props == front + [last];
      HashesSnoc(c, PropRaws(c, front), PropRaw(c, last));
      forall raw ensures raw in PropRaws(c, props) <==> exists p :: p in props && PropRaw(c, p) == raw {
        if p :| p in props && PropRaw(c, p) == raw { assert p in front || p == last; }
        if raw in PropRaws(c, front) { var p :| p in front && PropRaw(c, p) == raw; assert p in props; }
        if raw == PropRaw(c, last) { assert last in props; }
      }
    }
  }

  lemma {:induction false} ElemRawsMembers(c: Crypto, elems: seq<Elem>)
    ensures forall raw :: raw in ElemRaws(c, elems) <==> exists e :: e in elems && ElemRaw(c, e) == raw
    ensures forall g :: g in Hashes(c, ElemRaws(c, elems)) <==> exists e :: e in elems && ElemDigest(c, e) == g
  {
    if elems == [] {
    } else {
      var front, last := elems[..|elems| - 1], elems[|elems| - 1];
      ElemRawsMembers(c, front);
      assert elems == front + [last];
      HashesSnoc(c, ElemRaws(c, front), ElemRaw(c, last));
      forall raw ensures raw in ElemRaws(c, elems) <==> exists e :: e in elems && ElemRaw(c, e) == raw {
        if e :| e in elems && ElemRaw(c, e) == raw { assert e in front || e == last; }
        if raw in ElemRaws(c, front) { var e :| e in front && ElemRaw(c, e) == raw; assert e in elems; }
        if raw == ElemRaw(c, last) { assert last in elems; }
      }
      forall g ensures g in Hashes(c, ElemRaws(c, elems)) <==> exists e :: e in elems && ElemDigest(c, e) == g {
        if e :| e in elems && ElemDigest(c, e) == g { assert e in front || e == last; }
        if g in Hashes(c, ElemRaws(c, front)) { var e :| e in front && ElemDigest(c, e) == g; assert e in elems; }
        if g == ElemDigest(c, last) { assert last in elems; }
      }
    }
  }

  ghost predicate ElementOf(arrays: seq<ArrayClaim>, e: Elem) {
    exists a :: a in arrays && e in a.elems
  }

  lemma {:induction false} ArrayRawsMembers(c: Crypto, arrays: seq<ArrayClaim>)
    ensures forall raw :: raw in ArrayRaws(c, arrays) <==> exists e :: ElementOf(arrays, e) && ElemRaw(c, e) == raw
  {
    if arrays == [] {
    } else {
      var front, last := arrays[..|arrays| - 1], arrays[|arrays| - 1];
      ArrayRawsMembers(c, front);
      ElemRawsMembers(c, last.elems);
      assert arrays == front + [last];
      forall e ensures ElementOf(arrays, e) <==> ElementOf(front, e) || e in last.elems {
        if ElementOf(arrays, e) { var a :| a in arrays && e in a.elems; assert a in front || a == last; }
        if ElementOf(front, e) { var a :| a in front && e in a.elems; assert a in arrays; }
        if e in last.elems { assert last in arrays; }
      }
    }
  }

  // A disclosure string is kept when it was issued and its digest is asked for.
  lemma KeptRaws(c: Crypto, rq: Request, keep: set<string>, raw: string)
    ensures raw in Kept(c, Raws(c, rq), keep) <==>
      c.Hash(raw) in keep &&
      ((exists p :: p in rq.props && PropRaw(c, p) == raw)
        || (exists e :: ElementOf(rq.arrays, e) && ElemRaw(c, e) == raw))
  {
    KeptMembers(c, Raws(c, rq), keep);
    PropRawsMembers(c, rq.props);
    ArrayRawsMembers(c, rq.arrays);
  }

  // An entry of the kept map is a kept property or a kept element.
  ghost predicate Origin(c: Crypto, rq: Request, g: string, d: Disclosure) {
    || (exists p :: p in rq.props && PropDigest(c, p) == g && d == Disclosure(Property, p.key, p.value))
    || (exists e :: ElementOf(rq.arrays, e) && ElemDigest(c, e) == g && d == Disclosure(Element, "", e.value))
  }

  lemma KeptMapOrigins(c: Crypto, rq: Request, keep: set<string>)
    requires c.Sound()
    ensures forall g :: g in KeptMap(c, rq, keep) ==> g in keep && Origin(c, rq, g, KeptMap(c, rq, keep)[g])
  {
    var kept := Kept(c, Raws(c, rq), keep);
    var dmap := KeptMap(c, rq, keep);
    DMapFacts(c.codec, kept, |kept|);
    forall g | g in dmap ensures g in keep && Origin(c, rq, g, dmap[g]) {
      var i :| 0 <= i < |kept| && c.codec.hash(kept[i]) == g && c.codec.parse(kept[i]) == Some(dmap[g]);
      assert kept[i] in kept;
      KeptRaws(c, rq, keep, kept[i]);
    }
  }

  lemma KeptMapHas(c: Crypto, rq: Request, keep: set<string>, raw: string)
    requires c.Sound() && c.codec.parse(raw).Some? && raw in Kept(c, Raws(c, rq), keep)
    ensures c.Hash(raw) in KeptMap(c, rq, keep) && KeptMap(c, rq, keep)[c.Hash(raw)] == c.codec.parse(raw).value
  {
    var kept := Kept(c, Raws(c, rq), keep);
    DMapFacts(c.codec, kept, |kept|);
    var i :| 0 <= i < |kept| && kept[i] == raw;
    assert c.codec.hash(kept[i]) in KeptMap(c, rq, keep);
  }

  lemma KeptProp(c: Crypto, rq: Request, keep: set<string>, p: Prop)
    requires c.Sound() && p in rq.props && PropDigest(c, p) in keep
    ensures PropDigest(c, p) in KeptMap(c, rq, keep)
    ensures KeptMap(c, rq, keep)[PropDigest(c, p)] == Disclosure(Property, p.key, p.value)
  {
    KeptRaws(c, rq, keep, PropRaw(c, p));
    KeptMapHas(c, rq, keep, PropRaw(c, p));
  }

  lemma KeptElem(c: Crypto, rq: Request, keep: set<string>, e: Elem)
    requires c.Sound() && ElementOf(rq.arrays, e) && ElemDigest(c, e) in keep
    ensures ElemDigest(c, e) in KeptMap(c, rq, keep)
    ensures KeptMap(c, rq, keep)[ElemDigest(c, e)] == Disclosure(Element, "", e.value)
  {
    KeptRaws(c, rq, keep, ElemRaw(c, e));
    KeptMapHas(c, rq, keep, ElemRaw(c, e));
  }

  lemma KeptMapFlat(c: Crypto, rq: Request, keep: set<string>)
    requires c.Sound() && WellPosed(rq)
    ensures FlatMap(KeptMap(c, rq, keep)) && NoClash(PayloadFields(rq), KeptMap(c, rq, keep))
  {
    var dmap := KeptMap(c, rq, keep);
    KeptMapOrigins(c, rq, keep);
    PayloadShape(rq);
    forall g | g in dmap ensures Tame(dmap[g].value) {
      if e :| ElementOf(rq.arrays, e) && ElemDigest(c, e) == g && dmap[g] == Disclosure(Element, "", e.value) {
        var a :| a in rq.arrays && e in a.elems;
      }
    }
    forall g, h, key | Names(dmap, g, key) && Names(dmap, h, key) ensures g == h {
      var p :| p in rq.props && PropDigest(c, p) == g && p.key == key;
      var q :| q in rq.props && PropDigest(c, q) == h && q.key == key;
      SameProp(rq.props, p, q);
    }
    forall g, f | f in PayloadFields(rq) && f.key != SD ensures !Names(dmap, g, f.key) {
      if Names(dmap, g, f.key) {
        var p :| p in rq.props && PropDigest(c, p) == g && p.key == f.key;
        PropKeyUnused(rq, p, f);
      }
    }
  }

  lemma SameProp(props: seq<Prop>, p: Prop, q: Prop)
    requires forall i, j :: 0 <= i < j < |props| ==> props[i].key != props[j].key
    requires p in props && q in props && p.key == q.key
    ensures p == q
  {
    var i :| 0 <= i < |props| && props[i] == p;
    var j :| 0 <= j < |props| && props[j] == q;
  }

  lemma PropKeyUnused(rq: Request, p: Prop, f: Field)
    requires WellPosed(rq) && p in rq.props && f in PayloadFields(rq)
    ensures f.key != p.key
  {
    PayloadShape(rq);
    if f in ArrayFields(rq.arrays) {
      var i :| 0 <= i < |rq.arrays| && ArrayFields(rq.arrays)[i] == f;
      assert rq.arrays[i] in rq.arrays;
    }
  }

  // ---- What a listed or slotted digest refers to ----

  lemma {:induction false} StrsBack(ds: seq<string>)
    ensures Strings(Strs(ds)) == ds
  {
    if ds == [] {
    } else {
      StrsBack(ds[1..]);
      assert Strs(ds)[1..] == Strs(ds[1..]);
    }
  }

  lemma SdListed(rq: Request, g: string)
    requires WellPosed(rq)
    ensures Listed(PayloadFields(rq), |PayloadFields(rq)|, g) <==> g in rq.listed
  {
    var fields := PayloadFields(rq);
    PayloadShape(rq);
    StrsBack(rq.listed);
    if g in rq.listed {
      assert fields[|rq.claims|] == Field(SD, Arr(Strs(rq.listed)));
    }
    if i :| 0 <= i < |fields| && fields[i].key == SD && g in Lookups(fields[i].value) {
      NotAPlainName(rq, i);
    }
  }

  // The only entry under the marker is the digest list.
  lemma NotAPlainName(rq: Request, i: nat)
    requires WellPosed(rq) && i < |PayloadFields(rq)| && PayloadFields(rq)[i].key == SD
    ensures PayloadFields(rq)[i] == Field(SD, Arr(Strs(rq.listed)))
  {
    PayloadShape(rq);
    var n, m := |rq.claims|, |rq.claims + SdFields(rq)|;
    forall k | 0 <= k < n ensures rq.claims[k].key != SD { assert rq.claims[k] in rq.claims; }
    forall k | 0 <= k < |rq.arrays| ensures rq.arrays[k].name != SD { assert rq.arrays[k] in rq.arrays; }
  }

  lemma ListedProps(c: Crypto, rq: Request, p: Prop)
    requires Shuffled(c, rq) && p in rq.props
    ensures PropDigest(c, p) in rq.listed
  {
    PropRawsMembers(c, rq.props);
    assert PropDigest(c, p) in multiset(Hashes(c, PropRaws(c, rq.props)) + rq.decoys);
    assert PropDigest(c, p) in multiset(rq.listed);
  }

  lemma SlotMembers(c: Crypto, rq: Request, a: ArrayClaim, g: string)
    requires Shuffled(c, rq) && a in rq.arrays
    ensures g in a.slots <==> g in a.decoys || exists e :: e in a.elems && ElemDigest(c, e) == g
  {
    ElemRawsMembers(c, a.elems);
    assert g in a.slots <==> g in multiset(a.slots);
    assert g in multiset(Hashes(c, ElemRaws(c, a.elems)) + a.decoys)
      <==> g in Hashes(c, ElemRaws(c, a.elems)) + a.decoys;
  }

  // ---- `ok` ----

  lemma {:induction false} FieldRefsHas(fields: seq<Field>, n: nat, i: nat, r: Ref)
    requires i < n <= |fields|
    requires if fields[i].key == SD then r.kind == Property && r.digest in Lookups(fields[i].value)
             else r in Refs(fields[i].value)
    ensures r in FieldRefs(fields, n)
  {
    if i == n - 1 {
    } else {
      FieldRefsHas(fields, n - 1, i, r);
    }
  }

  lemma {:induction false} SlotRefs(slots: seq<string>, n: nat, i: nat)
    requires i < n <= |slots|
    ensures Ref(Element, slots[i]) in ItemRefs(Placeholders(slots), n)
  {
    if i == n - 1 {
    } else {
      SlotRefs(slots, n - 1, i);
    }
  }

  lemma OneHopReached(node: Json, dmap: DMap, r: Ref)
    requires r in Refs(node) && Resolves(dmap, r)
    ensures Reached(node, dmap, r.digest)
  {
    var p := [r.digest];
    assert Trail(Refs(node), dmap, p) && p[|p| - 1] == r.digest;
  }

  lemma PropertyPlaced(c: Crypto, rq: Request, p: Prop)
    requires Shuffled(c, rq) && WellPosed(rq) && p in rq.props
    ensures Ref(Property, PropDigest(c, p)) in Refs(Obj(PayloadFields(rq)))
  {
    var fields, g := PayloadFields(rq), PropDigest(c, p);
    ListedProps(c, rq, p);
    SdListed(rq, g);
    var i :| 0 <= i < |fields| && fields[i].key == SD && g in Lookups(fields[i].value);
    FieldRefsHas(fields, |fields|, i, Ref(Property, g));
  }

  lemma ArrayPlace(rq: Request, a: ArrayClaim) returns (at: nat)
    requires WellPosed(rq) && a in rq.arrays
    ensures at < |PayloadFields(rq)| && PayloadFields(rq)[at] == Field(a.name, Arr(Placeholders(a.slots)))
  {
    PayloadShape(rq);
    var i :| 0 <= i < |rq.arrays| && rq.arrays[i] == a;
    at := |rq.claims + SdFields(rq)| + i;
  }

  lemma SlotPlaced(rq: Request, a: ArrayClaim, g: string)
    requires WellPosed(rq) && a in rq.arrays && g in a.slots
    ensures Ref(Element, g) in Refs(Obj(PayloadFields(rq)))
  {
    var fields := PayloadFields(rq);
    var k :| 0 <= k < |a.slots| && a.slots[k] == g;
    SlotRefs(a.slots, |a.slots|, k);
    var at := ArrayPlace(rq, a);
    FieldRefsHas(fields, |fields|, at, Ref(Element, g));
  }

  lemma ElementPlaced(c: Crypto, rq: Request, e: Elem)
    requires Shuffled(c, rq) && WellPosed(rq) && ElementOf(rq.arrays, e)
    ensures Ref(Element, ElemDigest(c, e)) in Refs(Obj(PayloadFields(rq)))
  {
    var a :| a in rq.arrays && e in a.elems;
    SlotMembers(c, rq, a, ElemDigest(c, e));
    SlotPlaced(rq, a, ElemDigest(c, e));
  }

  lemma KeptReached(c: Crypto, rq: Request, keep: set<string>, raw: string)
    requires c.Sound() && Shuffled(c, rq) && WellPosed(rq) && raw in Kept(c, Raws(c, rq), keep)
    ensures c.codec.parse(raw).Some?
    ensures Reached(Obj(PayloadFields(rq)), KeptMap(c, rq, keep), c.Hash(raw))
  {
    KeptRaws(c, rq, keep, raw);
    var payload := Obj(PayloadFields(rq));
    if p :| p in rq.props && PropRaw(c, p) == raw {
      KeptProp(c, rq, keep, p);
      PropertyPlaced(c, rq, p);
      OneHopReached(payload, KeptMap(c, rq, keep), Ref(Property, c.Hash(raw)));
    } else {
      var e :| ElementOf(rq.arrays, e) && ElemRaw(c, e) == raw;
      KeptElem(c, rq, keep, e);
      ElementPlaced(c, rq, e);
      OneHopReached(payload, KeptMap(c, rq, keep), Ref(Element, c.Hash(raw)));
    }
  }

  // Nothing in an issued payload, and nothing it discloses, makes `disclose` raise.
  lemma PayloadQuiet(rq: Request)
    requires WellPosed(rq)
    ensures !Raises(Obj(PayloadFields(rq)))
  {
    PayloadShape(rq);
    forall f | f in PayloadFields(rq)
      ensures if f.key == SD then !BadDigestList(f.value) else !Raises(f.value)
    {
      if f in rq.claims {
        TameHasNoRefs(f.value);
      } else if f in ArrayFields(rq.arrays) {
        var i :| 0 <= i < |rq.arrays| && ArrayFields(rq.arrays)[i] == f;
        assert rq.arrays[i] in rq.arrays;
      }
    }
  }

  // ---- Exactness ----

  function ValueBehind(c: Crypto, elems: seq<Elem>, g: string): Option<Json> {
    if elems == [] then None
    else if ElemDigest(c, elems[|elems| - 1]) == g then Some(elems[|elems| - 1].value)
    else ValueBehind(c, elems[..|elems| - 1], g)
  }

  // The values of the kept elements, in the order of their slots.
  function KeptValues(c: Crypto, elems: seq<Elem>, keep: set<string>, slots: seq<string>): seq<Json> {
    if slots == [] then []
    else
      var front := KeptValues(c, elems, keep, slots[..|slots| - 1]);
      var g := slots[|slots| - 1];
      if g in keep && ValueBehind(c, elems, g).Some? then front + [ValueBehind(c, elems, g).value] else front
  }

  // A decoy is the digest of nothing that was issued.
  ghost predicate FreshDecoys(c: Crypto, rq: Request) {
    forall a, g, e :: a in rq.arrays && g in a.decoys && ElementOf(rq.arrays, e) ==> ElemDigest(c, e) != g
  }

  lemma {:induction false} ValueBehindIs(c: Crypto, elems: seq<Elem>, g: string)
    ensures ValueBehind(c, elems, g).None? <==> forall e :: e in elems ==> ElemDigest(c, e) != g
    ensures ValueBehind(c, elems, g).Some? ==>
      exists e :: e in elems && ElemDigest(c, e) == g && e.value == ValueBehind(c, elems, g).value
  {
    if elems == [] {
    } else {
      var front, last := elems[..|elems| - 1], elems[|elems| - 1];
      ValueBehindIs(c, front, g);
      assert elems == front + [last];
      assert last in elems;
    }
  }

  // A slot shows its element exactly when the element was kept.
  lemma SlotShows(c: Crypto, rq: Request, keep: set<string>, a: ArrayClaim, g: string)
    requires c.Sound() && Shuffled(c, rq) && FreshDecoys(c, rq) && a in rq.arrays && g in a.slots
    ensures var dmap := KeptMap(c, rq, keep);
      && (Resolves(dmap, Ref(Element, g)) <==> g in keep && ValueBehind(c, a.elems, g).Some?)
      && (Resolves(dmap, Ref(Element, g)) ==> dmap[g].value == ValueBehind(c, a.elems, g).value)
  {
    var dmap := KeptMap(c, rq, keep);
    ValueBehindIs(c, a.elems, g);
    SlotMembers(c, rq, a, g);
    if g in keep && ValueBehind(c, a.elems, g).Some? {
      var e :| e in a.elems && ElemDigest(c, e) == g && e.value == ValueBehind(c, a.elems, g).value;
      assert ElementOf(rq.arrays, e);
      KeptElem(c, rq, keep, e);
    } else if Resolves(dmap, Ref(Element, g)) {
      KeptMapOrigins(c, rq, keep);
    }
  }

  lemma ShownSnoc(front: seq<string>, g: string, dmap: DMap)
    ensures ShownItems(Placeholders(front + [g]), dmap)
         == ShownItems(Placeholders(front), dmap) + if Resolves(dmap, Ref(Element, g)) then [dmap[g].value] else []
  {
    assert Placeholders(front + [g])[..|front|] == Placeholders(front);
  }

  lemma {:induction false} ShownIsKept(c: Crypto, rq: Request, keep: set<string>, a: ArrayClaim, slots: seq<string>)
    requires c.Sound() && Shuffled(c, rq) && FreshDecoys(c, rq) && a in rq.arrays
    requires forall g :: g in slots ==> g in a.slots
    ensures ShownItems(Placeholders(slots), KeptMap(c, rq, keep)) == KeptValues(c, a.elems, keep, slots)
  {
    if slots == [] {
    } else {
      var front, g := slots[..|slots| - 1], slots[|slots| - 1];
      ShownIsKept(c, rq, keep, a, front);
      SlotShows(c, rq, keep, a, g);
      assert slots == front + [g];
      ShownSnoc(front, g, KeptMap(c, rq, keep));
    }
  }

  function Presented(c: Crypto, rq: Request, keep: set<string>): Outcome
    requires c.Sound()
  {
    Outcomes(c.codec, Obj(PayloadFields(rq)), Kept(c, Raws(c, rq), keep))
  }

  lemma PresentedWalk(c: Crypto, rq: Request, keep: set<string>, key: string)
    requires c.Sound() && Shuffled(c, rq) && WellPosed(rq)
    ensures Presented(c, rq, keep).Disclosed? && Presented(c, rq, keep).ok && Presented(c, rq, keep).claims.Obj?
    ensures WalkedHolds(PayloadFields(rq), |PayloadFields(rq)|, KeptMap(c, rq, keep),
                        Get(Presented(c, rq, keep).claims.fields, key), key)
  {
    var fields, dmap := PayloadFields(rq), KeptMap(c, rq, keep);
    var kept := Kept(c, Raws(c, rq), keep);
    PayloadQuiet(rq);
    KeptMapFlat(c, rq, keep);
    forall g | g in dmap ensures !Raises(dmap[g].value) { TameHasNoRefs(dmap[g].value); }
    assert Presented(c, rq, keep).Disclosed?;
    forall i | 0 <= i < |kept|
      ensures c.codec.parse(kept[i]).Some? && Reached(Obj(fields), dmap, c.Hash(kept[i]))
    {
      KeptReached(c, rq, keep, kept[i]);
    }
    OkExactly(c.codec, Obj(fields), kept);
    PayloadShape(rq);
    PayloadPresentable(rq);
    DMapRanked(c.codec, kept, Obj(fields));
    WalkGet(fields, |fields|, dmap, c.codec.rank, RankSum(c.codec, kept, |kept|), key);
  }

  lemma ShownTame(v: Json, dmap: DMap)
    requires Tame(v)
    ensures Shown(v, dmap) == v
  {
    if IsSlotArray(v) {
      assert forall i :: 0 <= i < |v.items| ==> v.items[i] in v.items;
    }
  }

  // Whatever subset of digests is kept and however decoys and slots were
  // arranged, the disclosure is ok and holds the plain claims as they were,
  lemma ClaimsSurvive(c: Crypto, rq: Request, keep: set<string>, f: Field)
    requires c.Sound() && Shuffled(c, rq) && WellPosed(rq) && f in rq.claims
    ensures Presented(c, rq, keep).Disclosed? && Presented(c, rq, keep).ok
    ensures GetMember(Presented(c, rq, keep).claims, f.key) == Some(f.value)
  {
    PresentedWalk(c, rq, keep, f.key);
    PayloadShape(rq);
    var i :| 0 <= i < |rq.claims| && rq.claims[i] == f;
    assert PayloadFields(rq)[i] == f;
    ShownTame(f.value, KeptMap(c, rq, keep));
  }

  // each property exactly when its digest is kept,
  lemma PropertiesAsKept(c: Crypto, rq: Request, keep: set<string>, p: Prop)
    requires c.Sound() && Shuffled(c, rq) && WellPosed(rq) && p in rq.props
    ensures Presented(c, rq, keep).Disclosed? && Presented(c, rq, keep).ok
    ensures GetMember(Presented(c, rq, keep).claims, p.key)
         == if PropDigest(c, p) in keep then Some(p.value) else None
  {
    var fields, dmap := PayloadFields(rq), KeptMap(c, rq, keep);
    PresentedWalk(c, rq, keep, p.key);
    if PropDigest(c, p) in keep {
      KeptProp(c, rq, keep, p);
      ListedProps(c, rq, p);
      SdListed(rq, PropDigest(c, p));
      assert Names(dmap, PropDigest(c, p), p.key);
    } else {
      forall i | 0 <= i < |fields| ensures fields[i].key != p.key { PropKeyUnused(rq, p, fields[i]); }
      KeptMapOrigins(c, rq, keep);
      forall g ensures !Names(dmap, g, p.key) {
        if Names(dmap, g, p.key) {
          var q :| q in rq.props && PropDigest(c, q) == g && q.key == p.key;
          SameProp(rq.props, p, q);
        }
      }
    }
  }

  // each array with just its kept elements in slot order,
  lemma ArraysAsKept(c: Crypto, rq: Request, keep: set<string>, a: ArrayClaim)
    requires c.Sound() && Shuffled(c, rq) && WellPosed(rq) && FreshDecoys(c, rq) && a in rq.arrays
    ensures Presented(c, rq, keep).Disclosed? && Presented(c, rq, keep).ok
    ensures GetMember(Presented(c, rq, keep).claims, a.name) == Some(Arr(KeptValues(c, a.elems, keep, a.slots)))
  {
    PresentedWalk(c, rq, keep, a.name);
    var at := ArrayPlace(rq, a);
    ShownIsKept(c, rq, keep, a, a.slots);
    assert IsSlotArray(Arr(Placeholders(a.slots)));
  }

  // and nothing else.
  lemma NothingElse(c: Crypto, rq: Request, keep: set<string>, key: string)
    requires c.Sound() && Shuffled(c, rq) && WellPosed(rq)
    requires forall f :: f in rq.claims ==> f.key != key
    requires forall p :: p in rq.props ==> p.key != key
    requires forall a :: a in rq.arrays ==> a.name != key
    ensures Presented(c, rq, keep).Disclosed? && Presented(c, rq, keep).ok
    ensures GetMember(Presented(c, rq, keep).claims, key) == None
  {
    var fields, dmap := PayloadFields(rq), KeptMap(c, rq, keep);
    PresentedWalk(c, rq, keep, key);
    PayloadShape(rq);
    KeptMapOrigins(c, rq, keep);
    if HasEntry(fields, |fields|, key) {
      var i :| 0 <= i < |fields| && fields[i].key == key;
      EntryOrigin(rq, fields[i]);
    }
  }

  lemma EntryOrigin(rq: Request, f: Field)
    requires WellPosed(rq) && f in PayloadFields(rq) && f.key != SD
    ensures f in rq.claims || exists a :: a in rq.arrays && a.name == f.key
  {
    PayloadShape(rq);
    if f !in rq.claims {
      var i :| 0 <= i < |rq.arrays| && ArrayFields(rq.arrays)[i] == f;
      assert rq.arrays[i] in rq.arrays;
    }
  }

  // A value shows in the array exactly when an element with it was kept.
  lemma KeptValuesExactly(c: Crypto, rq: Request, a: ArrayClaim, keep: set<string>, v: Json)
    requires c.Sound() && Shuffled(c, rq) && a in rq.arrays
    ensures v in KeptValues(c, a.elems, keep, a.slots)
       <==> exists e :: e in a.elems && ElemDigest(c, e) in keep && e.value == v
  {
    KeptValuesFrom(c, a.elems, keep, a.slots, v);
    if e :| e in a.elems && ElemDigest(c, e) in keep && e.value == v {
      SlotMembers(c, rq, a, ElemDigest(c, e));
      assert Shows(c, a.elems, keep, ElemDigest(c, e), v) by {
        ValueBehindIs(c, a.elems, ElemDigest(c, e));
        SameDigestSameValue(c, a.elems, e);
      }
    }
    if g :| g in a.slots && Shows(c, a.elems, keep, g, v) {
      ValueBehindIs(c, a.elems, g);
    }
  }

  predicate Shows(c: Crypto, elems: seq<Elem>, keep: set<string>, g: string, v: Json) {
    g in keep && ValueBehind(c, elems, g) == Some(v)
  }

  lemma SameDigestSameValue(c: Crypto, elems: seq<Elem>, e: Elem)
    requires c.Sound() && e in elems
    ensures ValueBehind(c, elems, ElemDigest(c, e)) == Some(e.value)
  {
    ValueBehindIs(c, elems, ElemDigest(c, e));
    var x :| x in elems && ElemDigest(c, x) == ElemDigest(c, e)
      && x.value == ValueBehind(c, elems, ElemDigest(c, e)).value;
    assert c.codec.parse(ElemRaw(c, x)) == Some(Disclosure(Element, "", x.value));
    assert c.codec.parse(ElemRaw(c, e)) == Some(Disclosure(Element, "", e.value));
    assert c.codec.hash(ElemRaw(c, x)) == c.codec.hash(ElemRaw(c, e));
  }

  lemma {:induction false} KeptValuesFrom(c: Crypto, elems: seq<Elem>, keep: set<string>, slots: seq<string>, v: Json)
    ensures v in KeptValues(c, elems, keep, slots) <==> exists g :: g in slots && Shows(c, elems, keep, g, v)
  {
    if slots == [] {
    } else {
      var front, last := slots[..|slots| - 1], slots[|slots| - 1];
      KeptValuesFrom(c, elems, keep, front, v);
      assert slots == front + [last];
      if g :| g in slots && Shows(c, elems, keep, g, v) { assert g in front || g == last; }
      if g :| g in front && Shows(c, elems, keep, g, v) { assert g in slots; }
      if Shows(c, elems, keep, last, v) { assert last in slots; }
    }
  }
}
