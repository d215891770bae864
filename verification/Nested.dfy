// aegis/ap2/sdjwt.py, `disclose`, level by level: what it shows of a payload is
// made of what it shows of the parts, each taken as a payload of its own.
module Nested {
  import opened Wrappers
  import opened Json
  import opened Disclose

  // ---- The walk does not depend on its bound ----

  lemma {:induction false} WalkAnyBound(node: Json, dmap: DMap, rank: string -> nat, b1: nat, b2: nat)
    requires Ranked(dmap, rank) && Below(Refs(node), dmap, rank, b1) && Below(Refs(node), dmap, rank, b2)
    ensures Walk(node, dmap, rank, b1) == Walk(node, dmap, rank, b2)
    decreases node, 0
  {
    match node
    case Obj(fields) => FieldsAnyBound(fields, |fields|, dmap, rank, b1, b2);
    case Arr(items) => ItemsAnyBound(items, |items|, dmap, rank, b1, b2);
    case _ =>
  }

  lemma {:induction false} FieldsAnyBound(fields: seq<Field>, n: nat, dmap: DMap, rank: string -> nat, b1: nat, b2: nat)
    requires n <= |fields| && Ranked(dmap, rank)
    requires Below(FieldRefs(fields, n), dmap, rank, b1) && Below(FieldRefs(fields, n), dmap, rank, b2)
    ensures WalkFields(fields, n, dmap, rank, b1) == WalkFields(fields, n, dmap, rank, b2)
    decreases fields, n
  {
    if n == 0 {
    } else {
      FieldsAnyBound(fields, n - 1, dmap, rank, b1, b2);
      var before, f := WalkFields(fields, n - 1, dmap, rank, b1), fields[n - 1];
      if f.key == SD {
        DigestsAnyBound(fields, n - 1, |Lookups(f.value)|, before, dmap, rank, b1, b2);
      } else {
        WalkAnyBound(f.value, dmap, rank, b1, b2);
      }
    }
  }

  lemma {:induction false} DigestsAnyBound(fields: seq<Field>, k: nat, n: nat, before: WalkedFields,
                                           dmap: DMap, rank: string -> nat, b1: nat, b2: nat)
    requires k < |fields| && fields[k].key == SD && n <= |Lookups(fields[k].value)| && Ranked(dmap, rank)
    requires Below(FieldRefs(fields, k + 1), dmap, rank, b1) && Below(FieldRefs(fields, k + 1), dmap, rank, b2)
    ensures WalkDigests(fields, k, n, before, dmap, rank, b1) == WalkDigests(fields, k, n, before, dmap, rank, b2)
    decreases n
  {
    if n == 0 {
    } else {
      DigestsAnyBound(fields, k, n - 1, before, dmap, rank, b1, b2);
      assert Ref(Property, Lookups(fields[k].value)[n - 1]) in FieldRefs(fields, k + 1);
    }
  }

  lemma {:induction false} ItemsAnyBound(items: seq<Json>, n: nat, dmap: DMap, rank: string -> nat, b1: nat, b2: nat)
    requires n <= |items| && Ranked(dmap, rank)
    requires Below(ItemRefs(items, n), dmap, rank, b1) && Below(ItemRefs(items, n), dmap, rank, b2)
    ensures WalkItems(items, n, dmap, rank, b1) == WalkItems(items, n, dmap, rank, b2)
    decreases items, n
  {
    if n == 0 {
    } else {
      ItemsAnyBound(items, n - 1, dmap, rank, b1, b2);
      assert OneItemRefs(items, n - 1) <= ItemRefs(items, n);
      if !IsPlaceholder(items[n - 1]) { WalkAnyBound(items[n - 1], dmap, rank, b1, b2); }
    }
  }

  // What the presented disclosures show of a node.
  function Part(c: Codec, node: Json, raws: seq<string>): Json
    requires c.Acyclic()
  {
    WalkPayload(c, node, raws).value
  }

  lemma WalkIsPart(c: Codec, node: Json, raws: seq<string>, bound: nat)
    requires c.Acyclic() && Below(Refs(node), DMapOf(c, raws, |raws|), c.rank, bound)
    requires Ranked(DMapOf(c, raws, |raws|), c.rank)
    ensures Walk(node, DMapOf(c, raws, |raws|), c.rank, bound).value == Part(c, node, raws)
  {
    DMapRanked(c, raws, node);
    WalkAnyBound(node, DMapOf(c, raws, |raws|), c.rank, bound, RankSum(c, raws, |raws|));
  }

  // ---- One level ----

  // What becomes of an array item.
  function ItemParts(c: Codec, item: Json, raws: seq<string>): seq<Json>
    requires c.Acyclic()
  {
    var dmap := DMapOf(c, raws, |raws|);
    if IsPlaceholder(item) then
      var x := item.fields[0].value;
      if x.Str? && Resolves(dmap, Ref(Element, x.s)) then [Part(c, dmap[x.s].value, raws)] else []
    else [Part(c, item, raws)]
  }

  function ArrayParts(c: Codec, items: seq<Json>, n: nat, raws: seq<string>): seq<Json>
    requires c.Acyclic() && n <= |items|
  {
    if n == 0 then [] else ArrayParts(c, items, n - 1, raws) + ItemParts(c, items[n - 1], raws)
  }

  // What a field sets: itself, or the properties that its digests disclose.
  function DigestParts(c: Codec, ds: seq<string>, n: nat, raws: seq<string>): seq<Field>
    requires c.Acyclic() && n <= |ds|
  {
    if n == 0 then []
    else
      var dmap, before := DMapOf(c, raws, |raws|), DigestParts(c, ds, n - 1, raws);
      if Resolves(dmap, Ref(Property, ds[n - 1]))
      then before + [Field(dmap[ds[n - 1]].key, Part(c, dmap[ds[n - 1]].value, raws))] else before
  }

  function FieldParts(c: Codec, f: Field, raws: seq<string>): seq<Field>
    requires c.Acyclic()
  {
    if f.key == SD then DigestParts(c, Lookups(f.value), |Lookups(f.value)|, raws)
    else [Field(f.key, Part(c, f.value, raws))]
  }

  // One after the other, each overwriting what has its key.
  function PutAll(fields: seq<Field>, parts: seq<Field>): seq<Field> {
    if parts == [] then fields
    else Put(PutAll(fields, parts[..|parts| - 1]), parts[|parts| - 1].key, parts[|parts| - 1].value)
  }

  lemma {:induction false} PutAllConcat(fields: seq<Field>, a: seq<Field>, b: seq<Field>)
    ensures PutAll(fields, a + b) == PutAll(PutAll(fields, a), b)
  {
    if b == [] {
      assert a + b == a;
    } else {
      PutAllConcat(fields, a, b[..|b| - 1]);
      assert (a + b)[..|a + b| - 1] == a + b[..|b| - 1];
    }
  }

  function ObjectParts(c: Codec, fields: seq<Field>, n: nat, raws: seq<string>): seq<Field>
    requires c.Acyclic() && n <= |fields|
  {
    if n == 0 then [] else ObjectParts(c, fields, n - 1, raws) + FieldParts(c, fields[n - 1], raws)
  }

  lemma {:induction false} ItemsAreParts(c: Codec, items: seq<Json>, n: nat, raws: seq<string>, bound: nat)
    requires c.Acyclic() && n <= |items| && Ranked(DMapOf(c, raws, |raws|), c.rank)
    requires Below(ItemRefs(items, n), DMapOf(c, raws, |raws|), c.rank, bound)
    ensures WalkItems(items, n, DMapOf(c, raws, |raws|), c.rank, bound).items == ArrayParts(c, items, n, raws)
  {
    if n == 0 {
    } else {
      ItemsAreParts(c, items, n - 1, raws, bound);
      var dmap, item := DMapOf(c, raws, |raws|), items[n - 1];
      assert OneItemRefs(items, n - 1) <= ItemRefs(items, n);
      if IsPlaceholder(item) {
        var x := item.fields[0].value;
        if x.Str? && Resolves(dmap, Ref(Element, x.s)) { WalkIsPart(c, dmap[x.s].value, raws, c.rank(x.s)); }
      } else {
        WalkIsPart(c, item, raws, bound);
      }
    }
  }

  lemma {:induction false} DigestsAreParts(c: Codec, fields: seq<Field>, k: nat, n: nat, before: WalkedFields,
                                           raws: seq<string>, bound: nat)
    requires c.Acyclic() && k < |fields| && fields[k].key == SD && n <= |Lookups(fields[k].value)|
    requires Ranked(DMapOf(c, raws, |raws|), c.rank)
    requires Below(FieldRefs(fields, k + 1), DMapOf(c, raws, |raws|), c.rank, bound)
    ensures WalkDigests(fields, k, n, before, DMapOf(c, raws, |raws|), c.rank, bound).fields
         == PutAll(before.fields, DigestParts(c, Lookups(fields[k].value), n, raws))
    decreases n
  {
    if n == 0 {
    } else {
      DigestsAreParts(c, fields, k, n - 1, before, raws, bound);
      var dmap, ds := DMapOf(c, raws, |raws|), Lookups(fields[k].value);
      assert Ref(Property, ds[n - 1]) in FieldRefs(fields, k + 1);
      if Resolves(dmap, Ref(Property, ds[n - 1])) {
        WalkIsPart(c, dmap[ds[n - 1]].value, raws, c.rank(ds[n - 1]));
        PutLast(before.fields, DigestParts(c, ds, n - 1, raws), dmap[ds[n - 1]].key,
                Part(c, dmap[ds[n - 1]].value, raws));
      }
    }
  }

  lemma PutLast(fields: seq<Field>, parts: seq<Field>, key: string, value: Json)
    ensures PutAll(fields, parts + [Field(key, value)]) == Put(PutAll(fields, parts), key, value)
  {
    assert (parts + [Field(key, value)])[..|parts|] == parts;
  }

  lemma {:induction false} FieldsAreParts(c: Codec, fields: seq<Field>, n: nat, raws: seq<string>, bound: nat)
    requires c.Acyclic() && n <= |fields| && Ranked(DMapOf(c, raws, |raws|), c.rank)
    requires Below(FieldRefs(fields, n), DMapOf(c, raws, |raws|), c.rank, bound)
    ensures WalkFields(fields, n, DMapOf(c, raws, |raws|), c.rank, bound).fields
         == PutAll([], ObjectParts(c, fields, n, raws))
  {
    if n == 0 {
    } else {
      FieldRefsGrow(fields, n - 1, n);
      FieldsAreParts(c, fields, n - 1, raws, bound);
      FieldIsParts(c, fields, n - 1, raws, bound);
      var dmap := DMapOf(c, raws, |raws|);
      OneMoreField(c, fields, n, raws, WalkFields(fields, n - 1, dmap, c.rank, bound).fields,
                   WalkFields(fields, n, dmap, c.rank, bound).fields);
    }
  }

  lemma OneMoreField(c: Codec, fields: seq<Field>, n: nat, raws: seq<string>, before: seq<Field>, after: seq<Field>)
    requires c.Acyclic() && 0 < n <= |fields|
    requires before == PutAll([], ObjectParts(c, fields, n - 1, raws))
    requires after == PutAll(before, FieldParts(c, fields[n - 1], raws))
    ensures after == PutAll([], ObjectParts(c, fields, n, raws))
  {
    PutAllConcat([], ObjectParts(c, fields, n - 1, raws), FieldParts(c, fields[n - 1], raws));
  }

  lemma FieldIsParts(c: Codec, fields: seq<Field>, k: nat, raws: seq<string>, bound: nat)
    requires c.Acyclic() && k < |fields| && Ranked(DMapOf(c, raws, |raws|), c.rank)
    requires Below(FieldRefs(fields, k), DMapOf(c, raws, |raws|), c.rank, bound)
    requires Below(FieldRefs(fields, k + 1), DMapOf(c, raws, |raws|), c.rank, bound)
    ensures WalkFields(fields, k + 1, DMapOf(c, raws, |raws|), c.rank, bound).fields
         == PutAll(WalkFields(fields, k, DMapOf(c, raws, |raws|), c.rank, bound).fields,
                   FieldParts(c, fields[k], raws))
  {
    var dmap, f := DMapOf(c, raws, |raws|), fields[k];
    var before := WalkFields(fields, k, dmap, c.rank, bound);
    if f.key == SD {
      DigestsAreParts(c, fields, k, |Lookups(f.value)|, before, raws, bound);
    } else {
      WalkIsPart(c, f.value, raws, bound);
      PutOne(before.fields, f.key, Part(c, f.value, raws));
    }
  }

  lemma PutOne(fields: seq<Field>, key: string, value: Json)
    ensures PutAll(fields, [Field(key, value)]) == Put(fields, key, value)
  {
    assert [Field(key, value)][..0] == [];
  }

  function MadeOfParts(c: Codec, node: Json, raws: seq<string>): Json
    requires c.Acyclic()
  {
    match node
    case Obj(fields) => Obj(PutAll([], ObjectParts(c, fields, |fields|, raws)))
    case Arr(items) => Arr(ArrayParts(c, items, |items|, raws))
    case _ => node
  }

  // What is shown of a node is made of what is shown of its parts: without
  // used sets, ranks or bounds.
  lemma OneLevel(c: Codec, node: Json, raws: seq<string>)
    requires c.Acyclic()
    ensures Part(c, node, raws) == MadeOfParts(c, node, raws)
  {
    DMapRanked(c, raws, node);
    match node
    case Obj(fields) => FieldsAreParts(c, fields, |fields|, raws, RankSum(c, raws, |raws|));
    case Arr(items) => ItemsAreParts(c, items, |items|, raws, RankSum(c, raws, |raws|));
    case _ =>
  }

  // ---- Where the whole is disclosed, so are its parts ----

  lemma ReachedFrom(part: Json, whole: Json, dmap: DMap, g: string)
    requires Refs(part) <= Refs(whole) && Reached(part, dmap, g)
    ensures Reached(whole, dmap, g)
  {
    var p :| Trail(Refs(part), dmap, p) && p[|p| - 1] == g;
    assert Trail(Refs(whole), dmap, p);
  }

  lemma ReachedThrough(whole: Json, dmap: DMap, r: Ref, g: string)
    requires r in Refs(whole) && Resolves(dmap, r) && Reached(dmap[r.digest].value, dmap, g)
    ensures Reached(whole, dmap, g)
  {
    var p :| Trail(Refs(dmap[r.digest].value), dmap, p) && p[|p| - 1] == g;
    var q := [r.digest] + p;
    assert q[1..] == p && q[|q| - 1] == g;
    assert Trail(Refs(whole), dmap, q);
  }

  lemma Itself(whole: Json, dmap: DMap, r: Ref)
    requires r in Refs(whole) && Resolves(dmap, r)
    ensures Reached(whole, dmap, r.digest)
  {
    assert Trail(Refs(whole), dmap, [r.digest]);
  }

  // Uses no more than the whole and does not raise by itself.
  lemma PartDiscloses(c: Codec, whole: Json, part: Json, raws: seq<string>)
    requires c.Acyclic() && Outcomes(c, whole, raws).Disclosed? && !Raises(part)
    requires forall g :: Reached(part, DMapOf(c, raws, |raws|), g) ==> Reached(whole, DMapOf(c, raws, |raws|), g)
    ensures Outcomes(c, part, raws).Disclosed? && Outcomes(c, part, raws).claims == Part(c, part, raws)
  {
    UsedByPayload(c, whole, raws);
    UsedByPayload(c, part, raws);
  }

  lemma InsideDiscloses(c: Codec, whole: Json, part: Json, raws: seq<string>)
    requires c.Acyclic() && Outcomes(c, whole, raws).Disclosed? && !Raises(part) && Refs(part) <= Refs(whole)
    ensures Outcomes(c, part, raws).Disclosed? && Outcomes(c, part, raws).claims == Part(c, part, raws)
  {
    var dmap := DMapOf(c, raws, |raws|);
    forall g | Reached(part, dmap, g) ensures Reached(whole, dmap, g) { ReachedFrom(part, whole, dmap, g); }
    PartDiscloses(c, whole, part, raws);
  }

  lemma ValueDiscloses(c: Codec, whole: Json, r: Ref, raws: seq<string>)
    requires c.Acyclic() && Outcomes(c, whole, raws).Disclosed?
    requires r in Refs(whole) && Resolves(DMapOf(c, raws, |raws|), r)
    ensures var value := DMapOf(c, raws, |raws|)[r.digest].value;
      Outcomes(c, value, raws).Disclosed? && Outcomes(c, value, raws).claims == Part(c, value, raws)
  {
    var dmap := DMapOf(c, raws, |raws|);
    var value := dmap[r.digest].value;
    Itself(whole, dmap, r);
    UsedByPayload(c, whole, raws);
    forall g | Reached(value, dmap, g) ensures Reached(whole, dmap, g) { ReachedThrough(whole, dmap, r, g); }
    PartDiscloses(c, whole, value, raws);
  }

  lemma {:induction false} FieldRefsIn(fields: seq<Field>, n: nat, k: nat)
    requires k < n <= |fields|
    ensures fields[k].key == SD ==>
      forall g :: g in Lookups(fields[k].value) ==> Ref(Property, g) in FieldRefs(fields, n)
    ensures fields[k].key != SD ==> Refs(fields[k].value) <= FieldRefs(fields, n)
  {
    if k == n - 1 {
    } else {
      FieldRefsIn(fields, n - 1, k);
    }
  }

  // ---- What an object shows under a key ----

  // g is listed in an `_sd` field and resolves to a property of this name.
  ghost predicate Sets(c: Codec, fields: seq<Field>, raws: seq<string>, g: string, key: string) {
    var dmap := DMapOf(c, raws, |raws|);
    && Resolves(dmap, Ref(Property, g)) && dmap[g].key == key
    && exists i :: 0 <= i < |fields| && fields[i].key == SD && g in Lookups(fields[i].value)
  }

  lemma {:induction false} GetPutAll(parts: seq<Field>, key: string)
    ensures Get(PutAll([], parts), key).None? <==> forall i :: 0 <= i < |parts| ==> parts[i].key != key
    ensures Get(PutAll([], parts), key).Some? ==>
      exists i :: 0 <= i < |parts| && parts[i] == Field(key, Get(PutAll([], parts), key).value)
  {
    if parts == [] {
    } else {
      var n := |parts| - 1;
      GetPutAll(parts[..n], key);
      GetPut(PutAll([], parts[..n]), parts[n].key, parts[n].value, key);
      if parts[n].key != key && Get(PutAll([], parts), key).Some? {
        var i :| 0 <= i < n && parts[..n][i] == Field(key, Get(PutAll([], parts), key).value);
        assert parts[i] == parts[..n][i];
      }
    }
  }

  lemma {:induction false} DigestPartsAre(c: Codec, ds: seq<string>, n: nat, raws: seq<string>, p: Field)
    requires c.Acyclic() && n <= |ds|
    ensures var dmap := DMapOf(c, raws, |raws|);
      p in DigestParts(c, ds, n, raws) <==>
        exists g :: g in ds[..n] && Resolves(dmap, Ref(Property, g)) && dmap[g].key == p.key
          && p.value == Part(c, dmap[g].value, raws)
  {
    if n == 0 {
    } else {
      DigestPartsAre(c, ds, n - 1, raws, p);
      assert ds[..n] == ds[..n - 1] + [ds[n - 1]];
    }
  }

  // Sets the key to this: an entry of that name, or a digest.
  ghost predicate Writes(c: Codec, fields: seq<Field>, raws: seq<string>, p: Field)
    requires c.Acyclic()
  {
    var dmap := DMapOf(c, raws, |raws|);
    || (exists i :: 0 <= i < |fields| && fields[i].key == p.key != SD && p.value == Part(c, fields[i].value, raws))
    || (exists g :: Sets(c, fields, raws, g, p.key) && p.value == Part(c, dmap[g].value, raws))
  }

  lemma {:induction false} ObjectPartsIn(c: Codec, fields: seq<Field>, n: nat, raws: seq<string>, p: Field)
    requires c.Acyclic() && n <= |fields|
    ensures p in ObjectParts(c, fields, n, raws) <==> exists i :: 0 <= i < n && p in FieldParts(c, fields[i], raws)
  {
    if n == 0 {
    } else {
      ObjectPartsIn(c, fields, n - 1, raws, p);
    }
  }

  lemma FieldPartsAre(c: Codec, f: Field, raws: seq<string>, p: Field)
    requires c.Acyclic()
    ensures var dmap := DMapOf(c, raws, |raws|);
      p in FieldParts(c, f, raws) <==>
        if f.key != SD then f.key == p.key && p.value == Part(c, f.value, raws)
        else (exists g :: g in Lookups(f.value) && Resolves(dmap, Ref(Property, g)) && dmap[g].key == p.key
               && p.value == Part(c, dmap[g].value, raws))
  {
    var ds := Lookups(f.value);
    if f.key == SD { DigestPartsAre(c, ds, |ds|, raws, p); }
    assert ds[..|ds|] == ds;
  }

  lemma ObjectPartsAre(c: Codec, fields: seq<Field>, raws: seq<string>, p: Field)
    requires c.Acyclic()
    ensures p in ObjectParts(c, fields, |fields|, raws) <==> Writes(c, fields, raws, p)
  {
    var dmap := DMapOf(c, raws, |raws|);
    ObjectPartsIn(c, fields, |fields|, raws, p);
    if i :| 0 <= i < |fields| && p in FieldParts(c, fields[i], raws) {
      FieldPartsAre(c, fields[i], raws, p);
      if fields[i].key == SD {
        var g :| g in Lookups(fields[i].value) && Resolves(dmap, Ref(Property, g)) && dmap[g].key == p.key
          && p.value == Part(c, dmap[g].value, raws);
        assert Sets(c, fields, raws, g, p.key);
      }
    }
    if i :| 0 <= i < |fields| && fields[i].key == p.key != SD && p.value == Part(c, fields[i].value, raws) {
      FieldPartsAre(c, fields[i], raws, p);
    }
    if g :| Sets(c, fields, raws, g, p.key) && p.value == Part(c, dmap[g].value, raws) {
      var i :| 0 <= i < |fields| && fields[i].key == SD && g in Lookups(fields[i].value);
      FieldPartsAre(c, fields[i], raws, p);
    }
  }

  // The keys shown are those of the entries and of the properties disclosed,
  lemma KeysShown(c: Codec, fields: seq<Field>, raws: seq<string>, key: string)
    requires c.Acyclic() && Outcomes(c, Obj(fields), raws).Disclosed?
    ensures GetMember(Outcomes(c, Obj(fields), raws).claims, key).Some? <==>
      (exists i :: 0 <= i < |fields| && fields[i].key == key != SD) || (exists g :: Sets(c, fields, raws, g, key))
  {
    var parts, dmap := ObjectParts(c, fields, |fields|, raws), DMapOf(c, raws, |raws|);
    OneLevel(c, Obj(fields), raws);
    GetPutAll(parts, key);
    if i :| 0 <= i < |parts| && parts[i].key == key { ObjectPartsAre(c, fields, raws, parts[i]); }
    if i :| 0 <= i < |fields| && fields[i].key == key != SD {
      ObjectPartsAre(c, fields, raws, Field(key, Part(c, fields[i].value, raws)));
    }
    if g :| Sets(c, fields, raws, g, key) {
      ObjectPartsAre(c, fields, raws, Field(key, Part(c, dmap[g].value, raws)));
    }
  }

  lemma OnlyWriter(c: Codec, fields: seq<Field>, raws: seq<string>, key: string, value: Json)
    requires c.Acyclic() && Writes(c, fields, raws, Field(key, value))
    requires forall w :: Writes(c, fields, raws, Field(key, w)) ==> w == value
    ensures Get(PutAll([], ObjectParts(c, fields, |fields|, raws)), key) == Some(value)
  {
    var parts := ObjectParts(c, fields, |fields|, raws);
    ObjectPartsAre(c, fields, raws, Field(key, value));
    forall w | Field(key, w) in parts ensures w == value { ObjectPartsAre(c, fields, raws, Field(key, w)); }
    OnlyPart(parts, key, value);
  }

  lemma OnlyPart(parts: seq<Field>, key: string, value: Json)
    requires Field(key, value) in parts && forall w :: Field(key, w) in parts ==> w == value
    ensures Get(PutAll([], parts), key) == Some(value)
  {
    GetPutAll(parts, key);
  }

  // A property disclosed is shown as disclosing its value, with the same
  // disclosures, shows it; unless something else sets the same key.
  lemma PropertyShown(c: Codec, fields: seq<Field>, raws: seq<string>, g: string, key: string)
    requires c.Acyclic() && Outcomes(c, Obj(fields), raws).Disclosed? && Sets(c, fields, raws, g, key)
    requires forall i :: 0 <= i < |fields| ==> fields[i].key != key || key == SD
    requires forall h :: Sets(c, fields, raws, h, key) ==> h == g
    ensures var value := Outcomes(c, DMapOf(c, raws, |raws|)[g].value, raws);
      value.Disclosed? && GetMember(Outcomes(c, Obj(fields), raws).claims, key) == Some(value.claims)
  {
    var dmap := DMapOf(c, raws, |raws|);
    OneLevel(c, Obj(fields), raws);
    var i :| 0 <= i < |fields| && fields[i].key == SD && g in Lookups(fields[i].value);
    FieldRefsIn(fields, |fields|, i);
    ValueDiscloses(c, Obj(fields), Ref(Property, g), raws);
    OnlyWriter(c, fields, raws, key, Part(c, dmap[g].value, raws));
  }

  // And so is an entry.
  lemma EntryShown(c: Codec, fields: seq<Field>, raws: seq<string>, i: nat)
    requires c.Acyclic() && Outcomes(c, Obj(fields), raws).Disclosed? && i < |fields| && fields[i].key != SD
    requires forall j :: 0 <= j < |fields| && fields[j].key == fields[i].key ==> j == i
    requires forall h :: !Sets(c, fields, raws, h, fields[i].key)
    ensures var value := Outcomes(c, fields[i].value, raws);
      value.Disclosed? && GetMember(Outcomes(c, Obj(fields), raws).claims, fields[i].key) == Some(value.claims)
  {
    OneLevel(c, Obj(fields), raws);
    FieldRefsIn(fields, |fields|, i);
    assert fields[i] in fields;
    InsideDiscloses(c, Obj(fields), fields[i].value, raws);
    OnlyWriter(c, fields, raws, fields[i].key, Part(c, fields[i].value, raws));
  }

  // ---- What an array shows ----

  function ItemClaims(c: Codec, item: Json, raws: seq<string>): seq<Json>
    requires c.Acyclic()
  {
    var dmap := DMapOf(c, raws, |raws|);
    if !IsPlaceholder(item) then ClaimsOf(Outcomes(c, item, raws))
    else if item.fields[0].value.Str? && Resolves(dmap, Ref(Element, item.fields[0].value.s))
    then ClaimsOf(Outcomes(c, dmap[item.fields[0].value.s].value, raws))
    else []
  }

  function ClaimsOf(outcome: Outcome): seq<Json> {
    match outcome case Disclosed(claims, _) => [claims] case TypeError => []
  }

  function ArrayClaims(c: Codec, items: seq<Json>, n: nat, raws: seq<string>): seq<Json>
    requires c.Acyclic() && n <= |items|
  {
    if n == 0 then [] else ArrayClaims(c, items, n - 1, raws) + ItemClaims(c, items[n - 1], raws)
  }

  lemma ItemShown(c: Codec, items: seq<Json>, k: nat, raws: seq<string>)
    requires c.Acyclic() && Outcomes(c, Arr(items), raws).Disclosed? && k < |items|
    ensures ItemClaims(c, items[k], raws) == ItemParts(c, items[k], raws)
  {
    var item, dmap := items[k], DMapOf(c, raws, |raws|);
    ItemRefsGrow(items, k + 1, |items|);
    assert OneItemRefs(items, k) <= ItemRefs(items, k + 1);
    assert item in items;
    if IsPlaceholder(item) {
      var x := item.fields[0].value;
      if x.Str? && Resolves(dmap, Ref(Element, x.s)) { ValueDiscloses(c, Arr(items), Ref(Element, x.s), raws); }
    } else {
      InsideDiscloses(c, Arr(items), item, raws);
    }
  }

  lemma {:induction false} ItemsShown(c: Codec, items: seq<Json>, n: nat, raws: seq<string>)
    requires c.Acyclic() && Outcomes(c, Arr(items), raws).Disclosed? && n <= |items|
    ensures ArrayClaims(c, items, n, raws) == ArrayParts(c, items, n, raws)
  {
    if n == 0 {
    } else {
      ItemsShown(c, items, n - 1, raws);
      ItemShown(c, items, n - 1, raws);
    }
  }

  // Item by item: a placeholder gives way to what disclosing its element shows,
  // or to nothing; any other item to what disclosing it shows.
  lemma ArrayShown(c: Codec, items: seq<Json>, raws: seq<string>)
    requires c.Acyclic() && Outcomes(c, Arr(items), raws).Disclosed?
    ensures Outcomes(c, Arr(items), raws).claims == Arr(ArrayClaims(c, items, |items|, raws))
  {
    OneLevel(c, Arr(items), raws);
    ItemsShown(c, items, |items|, raws);
  }

  // ---- No marker is left ----

  // None of these keys at any depth.
  predicate Avoids(node: Json, keys: set<string>) {
    match node
    case Obj(fields) => forall f :: f in fields ==> f.key !in keys && Avoids(f.value, keys)
    case Arr(items) => forall item :: item in items ==> Avoids(item, keys)
    case _ => true
  }

  // None of them but `_sd`, and outside of placeholders.
  predicate Orderly(node: Json, keys: set<string>) {
    match node
    case Obj(fields) => forall f :: f in fields ==> f.key == SD || (f.key !in keys && Orderly(f.value, keys))
    case Arr(items) => forall item :: item in items ==> IsPlaceholder(item) || Orderly(item, keys)
    case _ => true
  }

  ghost predicate OrderlyMap(dmap: DMap, keys: set<string>) {
    forall g :: g in dmap ==> Orderly(dmap[g].value, keys) && (dmap[g].kind == Property ==> dmap[g].key !in keys)
  }

  ghost predicate FieldsAvoid(fields: seq<Field>, keys: set<string>) {
    forall f :: f in fields ==> f.key !in keys && Avoids(f.value, keys)
  }

  lemma {:induction false} PutAvoids(fields: seq<Field>, key: string, value: Json, keys: set<string>)
    requires FieldsAvoid(fields, keys) && key !in keys && Avoids(value, keys)
    ensures FieldsAvoid(Put(fields, key, value), keys)
  {
    if fields == [] || fields[0].key == key {
    } else {
      PutAvoids(fields[1..], key, value, keys);
    }
  }

  lemma {:induction false} WalkAvoids(node: Json, dmap: DMap, rank: string -> nat, bound: nat, keys: set<string>)
    requires Ranked(dmap, rank) && Below(Refs(node), dmap, rank, bound)
    requires OrderlyMap(dmap, keys) && Orderly(node, keys) && SD in keys
    ensures Avoids(Walk(node, dmap, rank, bound).value, keys)
    decreases bound, node, 0
  {
    match node
    case Obj(fields) => WalkFieldsAvoid(fields, |fields|, dmap, rank, bound, keys);
    case Arr(items) => WalkItemsAvoid(items, |items|, dmap, rank, bound, keys);
    case _ =>
  }

  lemma {:induction false} WalkFieldsAvoid(fields: seq<Field>, n: nat, dmap: DMap, rank: string -> nat, bound: nat,
                                           keys: set<string>)
    requires n <= |fields| && Ranked(dmap, rank) && Below(FieldRefs(fields, n), dmap, rank, bound)
    requires OrderlyMap(dmap, keys) && Orderly(Obj(fields), keys) && SD in keys
    ensures FieldsAvoid(WalkFields(fields, n, dmap, rank, bound).fields, keys)
    decreases bound, fields, n, 0
  {
    if n == 0 {
    } else {
      WalkFieldsAvoid(fields, n - 1, dmap, rank, bound, keys);
      var before, f := WalkFields(fields, n - 1, dmap, rank, bound), fields[n - 1];
      assert f in fields;
      if f.key == SD {
        WalkDigestsAvoid(fields, n - 1, |Lookups(f.value)|, before, dmap, rank, bound, keys);
      } else {
        WalkAvoids(f.value, dmap, rank, bound, keys);
        PutAvoids(before.fields, f.key, Walk(f.value, dmap, rank, bound).value, keys);
      }
    }
  }

  lemma {:induction false} WalkDigestsAvoid(fields: seq<Field>, k: nat, n: nat, before: WalkedFields, dmap: DMap,
                                            rank: string -> nat, bound: nat, keys: set<string>)
    requires k < |fields| && fields[k].key == SD && n <= |Lookups(fields[k].value)|
    requires Ranked(dmap, rank) && Below(FieldRefs(fields, k + 1), dmap, rank, bound)
    requires OrderlyMap(dmap, keys) && FieldsAvoid(before.fields, keys) && SD in keys
    ensures FieldsAvoid(WalkDigests(fields, k, n, before, dmap, rank, bound).fields, keys)
    decreases bound, fields, k, n + 1
  {
    if n == 0 {
    } else {
      WalkDigestsAvoid(fields, k, n - 1, before, dmap, rank, bound, keys);
      var g := Lookups(fields[k].value)[n - 1];
      assert Ref(Property, g) in FieldRefs(fields, k + 1);
      if Resolves(dmap, Ref(Property, g)) {
        WalkAvoids(dmap[g].value, dmap, rank, rank(g), keys);
        PutAvoids(WalkDigests(fields, k, n - 1, before, dmap, rank, bound).fields, dmap[g].key,
                  Walk(dmap[g].value, dmap, rank, rank(g)).value, keys);
      }
    }
  }

  lemma {:induction false} WalkItemsAvoid(items: seq<Json>, n: nat, dmap: DMap, rank: string -> nat, bound: nat,
                                          keys: set<string>)
    requires n <= |items| && Ranked(dmap, rank) && Below(ItemRefs(items, n), dmap, rank, bound)
    requires OrderlyMap(dmap, keys) && Orderly(Arr(items), keys) && SD in keys
    ensures forall item :: item in WalkItems(items, n, dmap, rank, bound).items ==> Avoids(item, keys)
    decreases bound, items, n, 0
  {
    if n == 0 {
    } else {
      WalkItemsAvoid(items, n - 1, dmap, rank, bound, keys);
      var item := items[n - 1];
      assert OneItemRefs(items, n - 1) <= ItemRefs(items, n) && item in items;
      if IsPlaceholder(item) {
        var x := item.fields[0].value;
        if x.Str? && Resolves(dmap, Ref(Element, x.s)) { WalkAvoids(dmap[x.s].value, dmap, rank, rank(x.s), keys); }
      } else {
        WalkAvoids(item, dmap, rank, bound, keys);
      }
    }
  }

  lemma {:induction false} AlwaysOrderly(node: Json)
    ensures Orderly(node, {SD})
  {
    match node
    case Obj(fields) => forall f | f in fields ensures Orderly(f.value, {SD}) { AlwaysOrderly(f.value); }
    case Arr(items) => forall item | item in items ensures Orderly(item, {SD}) { AlwaysOrderly(item); }
    case _ =>
  }

  ghost predicate NoneNamed(dmap: DMap, key: string) {
    forall g :: g in dmap && dmap[g].kind == Property ==> dmap[g].key != key
  }

  // Where no disclosed property is called `_sd`, the claims hold no `_sd` key
  // at any depth, whatever the payload.
  lemma NoDigestListLeft(c: Codec, payload: Json, raws: seq<string>)
    requires c.Acyclic() && Outcomes(c, payload, raws).Disclosed?
    requires NoneNamed(DMapOf(c, raws, |raws|), SD)
    ensures Avoids(Outcomes(c, payload, raws).claims, {SD})
  {
    DMapRanked(c, raws, payload);
    AlwaysOrderlyMap(DMapOf(c, raws, |raws|));
    AlwaysOrderly(payload);
    WalkAvoids(payload, DMapOf(c, raws, |raws|), c.rank, RankSum(c, raws, |raws|), {SD});
  }

  lemma AlwaysOrderlyMap(dmap: DMap)
    requires NoneNamed(dmap, SD)
    ensures OrderlyMap(dmap, {SD})
  {
    forall g | g in dmap ensures Orderly(dmap[g].value, {SD}) { AlwaysOrderly(dmap[g].value); }
  }

  // Nor a placeholder, if "..." is a key of array placeholders only.
  lemma NoMarkerLeft(c: Codec, payload: Json, raws: seq<string>)
    requires c.Acyclic() && Outcomes(c, payload, raws).Disclosed?
    requires Orderly(payload, {SD, ELLIPSIS}) && OrderlyMap(DMapOf(c, raws, |raws|), {SD, ELLIPSIS})
    ensures Avoids(Outcomes(c, payload, raws).claims, {SD, ELLIPSIS})
  {
    DMapRanked(c, raws, payload);
    WalkAvoids(payload, DMapOf(c, raws, |raws|), c.rank, RankSum(c, raws, |raws|), {SD, ELLIPSIS});
  }

  // The condition is needed: an item with an `_sd` list beside "..." is no
  // placeholder, and what is left of it is one.
  lemma StrayEllipsis(c: Codec)
    requires c.Acyclic()
    ensures var stray := Obj([Field(ELLIPSIS, Str("x"))]);
      Outcomes(c, Arr([Obj([Field(SD, Arr([])), Field(ELLIPSIS, Str("x"))])]), []) == Disclosed(Arr([stray]), true)
  {
    var fields := [Field(SD, Arr([])), Field(ELLIPSIS, Str("x"))];
    var items := [Obj(fields)];
    OneLevel(c, Arr(items), []);
    OneLevel(c, Obj(fields), []);
    OneLevel(c, Str("x"), []);
    StrayParts(c, fields);
    assert ArrayParts(c, items, 0, []) == [];
    assert ArrayParts(c, items, 1, []) == ItemParts(c, items[0], []);
    UsedByPayload(c, Arr(items), []);
    assert DMapOf(c, [], 0) == map[];
    assert !Raises(Obj(fields));
  }

  lemma StrayParts(c: Codec, fields: seq<Field>)
    requires c.Acyclic() && fields == [Field(SD, Arr([])), Field(ELLIPSIS, Str("x"))]
    ensures PutAll([], ObjectParts(c, fields, 2, [])) == [Field(ELLIPSIS, Part(c, Str("x"), []))]
  {
    var part := Field(ELLIPSIS, Part(c, Str("x"), []));
    assert ObjectParts(c, fields, 0, []) == [];
    assert FieldParts(c, fields[0], []) == [];
    assert ObjectParts(c, fields, 1, []) == [];
    assert FieldParts(c, fields[1], []) == [part];
    assert ObjectParts(c, fields, 2, []) == [part];
    PutOne([], part.key, part.value);
  }

  // ---- When it raises ----

  // Not iterable, or a list of what cannot be hashed.
  predicate NoDigests(v: Json) {
    match v
    case Arr(items) => exists item :: item in items && (item.Arr? || item.Obj?)
    case Str(_) => false
    case Obj(_) => false
    case _ => true
  }

  ghost predicate Fails(c: Codec, node: Json, raws: seq<string>)
    requires c.Acyclic()
  {
    Outcomes(c, node, raws).TypeError?
  }

  // Some placeholder in it resolves to a value that fails to be disclosed.
  ghost predicate LeadsToFailure(c: Codec, node: Json, raws: seq<string>)
    requires c.Acyclic()
  {
    var dmap := DMapOf(c, raws, |raws|);
    exists r :: r in Refs(node) && Resolves(dmap, r) && Fails(c, dmap[r.digest].value, raws)
  }

  lemma RaisingUsed(c: Codec, node: Json, raws: seq<string>)
    requires c.Acyclic()
    ensures var dmap := DMapOf(c, raws, |raws|);
      Fails(c, node, raws) <==> Raises(node) || exists g :: Reached(node, dmap, g) && g in dmap && Raises(dmap[g].value)
  {
    UsedByPayload(c, node, raws);
  }

  lemma FirstHop(c: Codec, node: Json, raws: seq<string>, g: string)
    returns (r: Ref)
    requires c.Acyclic() && Reached(node, DMapOf(c, raws, |raws|), g)
    ensures r in Refs(node) && Resolves(DMapOf(c, raws, |raws|), r)
    ensures r.digest == g || Reached(DMapOf(c, raws, |raws|)[r.digest].value, DMapOf(c, raws, |raws|), g)
  {
    var dmap := DMapOf(c, raws, |raws|);
    var p :| Trail(Refs(node), dmap, p) && p[|p| - 1] == g;
    r :| r in Refs(node) && Resolves(dmap, r) && r.digest == p[0];
    if |p| > 1 { assert Trail(Refs(dmap[p[0]].value), dmap, p[1..]) && p[1..][|p[1..]| - 1] == g; }
  }

  // Disclosing fails exactly where the node itself cannot be walked, or a value
  // that one of its placeholders resolves to fails.
  lemma FailsExactly(c: Codec, node: Json, raws: seq<string>)
    requires c.Acyclic()
    ensures Fails(c, node, raws) <==> Raises(node) || LeadsToFailure(c, node, raws)
  {
    var dmap := DMapOf(c, raws, |raws|);
    RaisingUsed(c, node, raws);
    if g :| Reached(node, dmap, g) && g in dmap && Raises(dmap[g].value) {
      var r := FirstHop(c, node, raws, g);
      RaisingUsed(c, dmap[r.digest].value, raws);
      assert Fails(c, dmap[r.digest].value, raws);
    }
    if r :| r in Refs(node) && Resolves(dmap, r) && Fails(c, dmap[r.digest].value, raws) {
      Itself(node, dmap, r);
      RaisingUsed(c, dmap[r.digest].value, raws);
      if g :| Reached(dmap[r.digest].value, dmap, g) && g in dmap && Raises(dmap[g].value) {
        ReachedThrough(node, dmap, r, g);
      }
    }
  }

  predicate PlacesUnhashable(item: Json) {
    IsPlaceholder(item) && (item.fields[0].value.Arr? || item.fields[0].value.Obj?)
  }

  // And a node cannot be walked exactly where it has an `_sd` field that lists
  // no digests, a placeholder of something unhashable, or a part like that.
  lemma RaisesExactly(node: Json)
    ensures Raises(node) <==>
      || (node.Obj? && exists f :: f in node.fields && f.key == "_sd" && NoDigests(f.value))
      || (node.Obj? && exists f :: f in node.fields && f.key != "_sd" && Raises(f.value))
      || (node.Arr? && exists item :: item in node.items && PlacesUnhashable(item))
      || (node.Arr? && exists item :: item in node.items && !IsPlaceholder(item) && Raises(item))
  {
    if node.Obj? {
      forall f | f in node.fields ensures BadDigestList(f.value) <==> NoDigests(f.value) {}
    }
  }
}
