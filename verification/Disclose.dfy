// aegis/ap2/sdjwt.py, `disclose`: rebuilding the revealed claims by following
// digests into disclosures (RFC 9901, sections 4.2.6 and 7.1).
module Disclose {
  import opened Wrappers
  import opened Json

  const SD := "_sd"
  const ELLIPSIS := "..."

  datatype Kind = Property | Element

  // What a disclosure string decodes to; `key` is "" for an array element.
  datatype Disclosure = Disclosure(kind: Kind, key: string, value: Json)

  // Presented disclosures by digest.
  type DMap = map<string, Disclosure>

  // ---- Placeholders ----

  // `for digest in v`: the strings that iterating v yields. Other hashable
  // items match no digest.
  function Lookups(v: Json): seq<string> {
    match v
    case Arr(items) => Strings(items)
    case Str(s) => seq(|s|, i requires 0 <= i < |s| => [s[i]])
    case Obj(fields) => seq(|fields|, i requires 0 <= i < |fields| => fields[i].key)
    case _ => []
  }

  function Strings(items: seq<Json>): seq<string> {
    if items == [] then []
    else if items[0].Str? then [items[0].s] + Strings(items[1..])
    else Strings(items[1..])
  }

  // An array item {"...": x}; x is looked up when it is a string.
  predicate IsPlaceholder(item: Json) {
    item.Obj? && |item.fields| == 1 && item.fields[0].key == ELLIPSIS
  }

  // A digest met where a disclosure of this kind is expected.
  datatype Ref = Ref(kind: Kind, digest: string)

  // The placeholders in node itself, without following any disclosure.
  function Refs(node: Json): set<Ref>
    decreases node, 0
  {
    match node
    case Obj(fields) => FieldRefs(fields, |fields|)
    case Arr(items) => ItemRefs(items, |items|)
    case _ => {}
  }

  function FieldRefs(fields: seq<Field>, n: nat): set<Ref>
    requires n <= |fields|
    decreases fields, n
  {
    if n == 0 then {}
    else
      var f := fields[n - 1];
      FieldRefs(fields, n - 1)
      + if f.key == SD then set g | g in Lookups(f.value) :: Ref(Property, g) else Refs(f.value)
  }

  function ItemRefs(items: seq<Json>, n: nat): set<Ref>
    requires n <= |items|
    decreases items, n
  {
    if n == 0 then {} else ItemRefs(items, n - 1) + OneItemRefs(items, n - 1)
  }

  function OneItemRefs(items: seq<Json>, k: nat): set<Ref>
    requires k < |items|
    decreases items, k
  {
    if IsPlaceholder(items[k]) then
      var x := items[k].fields[0].value;
      if x.Str? then {Ref(Element, x.s)} else {}
    else Refs(items[k])
  }

  predicate Resolves(dmap: DMap, r: Ref) {
    r.digest in dmap && dmap[r.digest].kind == r.kind
  }

  // Digests are acyclic: a rank goes down along every followed placeholder.
  ghost predicate Ranked(dmap: DMap, rank: string -> nat) {
    forall g, r :: g in dmap && r in Refs(dmap[g].value) && Resolves(dmap, r) ==> rank(r.digest) < rank(g)
  }

  ghost predicate Below(refs: set<Ref>, dmap: DMap, rank: string -> nat, bound: nat) {
    forall r :: r in refs && Resolves(dmap, r) ==> rank(r.digest) < bound
  }

  // ---- The walk ----

  datatype Walked = Walked(value: Json, used: set<string>)
  datatype WalkedFields = WalkedFields(fields: seq<Field>, used: set<string>)
  datatype WalkedItems = WalkedItems(items: seq<Json>, used: set<string>)

  function Walk(node: Json, dmap: DMap, rank: string -> nat, bound: nat): Walked
    requires Ranked(dmap, rank) && Below(Refs(node), dmap, rank, bound)
    decreases bound, node, 0
  {
    match node
    case Obj(fields) =>
      var w := WalkFields(fields, |fields|, dmap, rank, bound);
      Walked(Obj(w.fields), w.used)
    case Arr(items) =>
      var w := WalkItems(items, |items|, dmap, rank, bound);
      Walked(Arr(w.items), w.used)
    case _ => Walked(node, {})
  }

  function WalkFields(fields: seq<Field>, n: nat, dmap: DMap, rank: string -> nat, bound: nat): WalkedFields
    requires n <= |fields| && Ranked(dmap, rank) && Below(FieldRefs(fields, n), dmap, rank, bound)
    decreases bound, fields, n, 0
  {
    if n == 0 then WalkedFields([], {})
    else
      var before := WalkFields(fields, n - 1, dmap, rank, bound);
      var f := fields[n - 1];
      if f.key == SD then WalkDigests(fields, n - 1, |Lookups(f.value)|, before, dmap, rank, bound)
      else
        var w := Walk(f.value, dmap, rank, bound);
        WalkedFields(Put(before.fields, f.key, w.value), before.used + w.used)
  }

  // The first n digests of the `_sd` list at field k.
  function WalkDigests(fields: seq<Field>, k: nat, n: nat, before: WalkedFields,
                       dmap: DMap, rank: string -> nat, bound: nat): WalkedFields
    requires k < |fields| && fields[k].key == SD && n <= |Lookups(fields[k].value)|
    requires Ranked(dmap, rank) && Below(FieldRefs(fields, k + 1), dmap, rank, bound)
    decreases bound, fields, k, n + 1
  {
    if n == 0 then before
    else
      var w := WalkDigests(fields, k, n - 1, before, dmap, rank, bound);
      var g := Lookups(fields[k].value)[n - 1];
      assert Ref(Property, g) in FieldRefs(fields, k + 1);
      if Resolves(dmap, Ref(Property, g)) then
        var v := Walk(dmap[g].value, dmap, rank, rank(g));
        WalkedFields(Put(w.fields, dmap[g].key, v.value), w.used + v.used + {g})
      else w
  }

  function WalkItems(items: seq<Json>, n: nat, dmap: DMap, rank: string -> nat, bound: nat): WalkedItems
    requires n <= |items| && Ranked(dmap, rank) && Below(ItemRefs(items, n), dmap, rank, bound)
    decreases bound, items, n, 0
  {
    if n == 0 then WalkedItems([], {})
    else
      var before := WalkItems(items, n - 1, dmap, rank, bound);
      var item := items[n - 1];
      assert OneItemRefs(items, n - 1) <= ItemRefs(items, n);
      if IsPlaceholder(item) then
        var x := item.fields[0].value;
        if x.Str? && Resolves(dmap, Ref(Element, x.s)) then
          var v := Walk(dmap[x.s].value, dmap, rank, rank(x.s));
          WalkedItems(before.items + [v.value], before.used + v.used + {x.s})
        else before
      else
        var v := Walk(item, dmap, rank, bound);
        WalkedItems(before.items + [v.value], before.used + v.used)
  }

  // ---- Which disclosures the walk uses ----

  // g is h, or is used while h's own value is walked.
  ghost predicate Through(g: string, h: string, dmap: DMap, rank: string -> nat)
    requires Ranked(dmap, rank)
  {
    h in dmap && (g == h || g in Walk(dmap[h].value, dmap, rank, rank(h)).used)
  }

  ghost predicate UsedVia(g: string, refs: set<Ref>, dmap: DMap, rank: string -> nat)
    requires Ranked(dmap, rank)
  {
    exists r :: r in refs && Resolves(dmap, r) && Through(g, r.digest, dmap, rank)
  }

  lemma {:induction false} UsedUnfolds(node: Json, dmap: DMap, rank: string -> nat, bound: nat, g: string)
    requires Ranked(dmap, rank) && Below(Refs(node), dmap, rank, bound)
    ensures g in Walk(node, dmap, rank, bound).used <==> UsedVia(g, Refs(node), dmap, rank)
    decreases node, 0
  {
    match node
    case Obj(fields) => FieldsUsed(fields, |fields|, dmap, rank, bound, g);
    case Arr(items) => ItemsUsed(items, |items|, dmap, rank, bound, g);
    case _ =>
  }

  lemma {:induction false} FieldsUsed(fields: seq<Field>, n: nat, dmap: DMap, rank: string -> nat, bound: nat,
                                      g: string)
    requires n <= |fields| && Ranked(dmap, rank) && Below(FieldRefs(fields, n), dmap, rank, bound)
    ensures g in WalkFields(fields, n, dmap, rank, bound).used <==> UsedVia(g, FieldRefs(fields, n), dmap, rank)
    decreases fields, n
  {
    if n == 0 {
    } else {
      FieldsUsed(fields, n - 1, dmap, rank, bound, g);
      var f := fields[n - 1];
      var before := WalkFields(fields, n - 1, dmap, rank, bound);
      if f.key == SD {
        var ds := Lookups(f.value);
        DigestsUsed(fields, n - 1, |ds|, before, dmap, rank, bound, g);
        assert ds[..|ds|] == ds;
        UnionUsed(g, FieldRefs(fields, n - 1), PropertyRefs(ds), dmap, rank);
      } else {
        UsedUnfolds(f.value, dmap, rank, bound, g);
        UnionUsed(g, FieldRefs(fields, n - 1), Refs(f.value), dmap, rank);
      }
    }
  }

  ghost function PropertyRefs(ds: seq<string>): set<Ref> {
    set g | g in ds :: Ref(Property, g)
  }

  lemma UnionUsed(g: string, a: set<Ref>, b: set<Ref>, dmap: DMap, rank: string -> nat)
    requires Ranked(dmap, rank)
    ensures UsedVia(g, a + b, dmap, rank) <==> UsedVia(g, a, dmap, rank) || UsedVia(g, b, dmap, rank)
  {
    if UsedVia(g, a, dmap, rank) {
      var r :| r in a && Resolves(dmap, r) && Through(g, r.digest, dmap, rank);
      assert r in a + b;
    }
    if UsedVia(g, b, dmap, rank) {
      var r :| r in b && Resolves(dmap, r) && Through(g, r.digest, dmap, rank);
      assert r in a + b;
    }
  }

  lemma OneUsed(g: string, r: Ref, dmap: DMap, rank: string -> nat)
    requires Ranked(dmap, rank)
    ensures UsedVia(g, {r}, dmap, rank) <==> Resolves(dmap, r) && Through(g, r.digest, dmap, rank)
  {
    assert r in {r};
  }

  lemma {:induction false} DigestsUsed(fields: seq<Field>, k: nat, n: nat, before: WalkedFields,
                                      dmap: DMap, rank: string -> nat, bound: nat, g: string)
    requires k < |fields| && fields[k].key == SD && n <= |Lookups(fields[k].value)|
    requires Ranked(dmap, rank) && Below(FieldRefs(fields, k + 1), dmap, rank, bound)
    ensures g in WalkDigests(fields, k, n, before, dmap, rank, bound).used
       <==> g in before.used || UsedVia(g, PropertyRefs(Lookups(fields[k].value)[..n]), dmap, rank)
    decreases n
  {
    var ds := Lookups(fields[k].value);
    if n == 0 {
    } else {
      DigestsUsed(fields, k, n - 1, before, dmap, rank, bound, g);
      assert Ref(Property, ds[n - 1]) in FieldRefs(fields, k + 1);
      assert PropertyRefs(ds[..n]) == PropertyRefs(ds[..n - 1]) + {Ref(Property, ds[n - 1])} by {
        assert ds[..n] == ds[..n - 1] + [ds[n - 1]];
      }
      UnionUsed(g, PropertyRefs(ds[..n - 1]), {Ref(Property, ds[n - 1])}, dmap, rank);
      OneUsed(g, Ref(Property, ds[n - 1]), dmap, rank);
    }
  }

  lemma {:induction false} ItemsUsed(items: seq<Json>, n: nat, dmap: DMap, rank: string -> nat, bound: nat, g: string)
    requires n <= |items| && Ranked(dmap, rank) && Below(ItemRefs(items, n), dmap, rank, bound)
    ensures g in WalkItems(items, n, dmap, rank, bound).used <==> UsedVia(g, ItemRefs(items, n), dmap, rank)
    decreases items, n
  {
    if n == 0 {
    } else {
      ItemsUsed(items, n - 1, dmap, rank, bound, g);
      var item := items[n - 1];
      UnionUsed(g, ItemRefs(items, n - 1), OneItemRefs(items, n - 1), dmap, rank);
      if IsPlaceholder(item) {
        var x := item.fields[0].value;
        if x.Str? { OneUsed(g, Ref(Element, x.s), dmap, rank); }
      } else {
        UsedUnfolds(item, dmap, rank, bound, g);
      }
    }
  }

  // ---- Reached through placeholders ----

  // A trail of digests: the first is held by a placeholder among refs, each
  // next one by a placeholder in the value disclosed just before it, and every
  // placeholder is of the kind of the disclosure it names.
  ghost predicate Trail(refs: set<Ref>, dmap: DMap, p: seq<string>)
    decreases |p|
  {
    && p != []
    && (exists r :: r in refs && Resolves(dmap, r) && r.digest == p[0])
    && (|p| > 1 ==> Trail(Refs(dmap[p[0]].value), dmap, p[1..]))
  }

  ghost predicate Reached(node: Json, dmap: DMap, g: string) {
    exists p :: Trail(Refs(node), dmap, p) && p[|p| - 1] == g
  }

  lemma {:induction false} UsedHasTrail(g: string, refs: set<Ref>, dmap: DMap, rank: string -> nat, bound: nat)
    returns (p: seq<string>)
    requires Ranked(dmap, rank) && Below(refs, dmap, rank, bound) && UsedVia(g, refs, dmap, rank)
    ensures Trail(refs, dmap, p) && p[|p| - 1] == g
    decreases bound
  {
    var r :| r in refs && Resolves(dmap, r) && Through(g, r.digest, dmap, rank);
    var h := r.digest;
    if g == h {
      p := [h];
    } else {
      UsedUnfolds(dmap[h].value, dmap, rank, rank(h), g);
      var rest := UsedHasTrail(g, Refs(dmap[h].value), dmap, rank, rank(h));
      p := [h] + rest;
      assert p[1..] == rest;
    }
  }

  lemma {:induction false} TrailIsUsed(g: string, refs: set<Ref>, dmap: DMap, rank: string -> nat, p: seq<string>)
    requires Ranked(dmap, rank) && Trail(refs, dmap, p) && p[|p| - 1] == g
    ensures UsedVia(g, refs, dmap, rank)
    decreases |p|
  {
    var r :| r in refs && Resolves(dmap, r) && r.digest == p[0];
    if |p| == 1 {
    } else {
      var next := Refs(dmap[p[0]].value);
      TrailIsUsed(g, next, dmap, rank, p[1..]);
      UsedUnfolds(dmap[p[0]].value, dmap, rank, rank(p[0]), g);
    }
    assert Through(g, r.digest, dmap, rank);
  }

  // The walk uses exactly the disclosures it can reach.
  lemma UsedIsReached(node: Json, dmap: DMap, rank: string -> nat, bound: nat, g: string)
    requires Ranked(dmap, rank) && Below(Refs(node), dmap, rank, bound)
    ensures g in Walk(node, dmap, rank, bound).used <==> Reached(node, dmap, g)
  {
    UsedUnfolds(node, dmap, rank, bound, g);
    if UsedVia(g, Refs(node), dmap, rank) {
      var p := UsedHasTrail(g, Refs(node), dmap, rank, bound);
    }
    if p :| Trail(Refs(node), dmap, p) && p[|p| - 1] == g {
      TrailIsUsed(g, Refs(node), dmap, rank, p);
    }
  }

  // ---- `disclose` ----

  // Decoding and digest of disclosure strings, and an order on digests along
  // which every disclosed value only refers downwards: no hash cycles.
  datatype Codec = Codec(parse: string -> Option<Disclosure>, hash: string -> string, rank: string -> nat) {
    ghost predicate Acyclic() {
      forall raw, r :: parse(raw).Some? && r in Refs(parse(raw).value.value) ==> rank(r.digest) < rank(hash(raw))
    }
  }

  // The well-formed ones among the first n disclosures, by digest.
  function DMapOf(c: Codec, raws: seq<string>, n: nat): DMap
    requires n <= |raws|
  {
    if n == 0 then map[]
    else
      var before := DMapOf(c, raws, n - 1);
      var raw := raws[n - 1];
      if c.parse(raw).Some? then before[c.hash(raw) := c.parse(raw).value] else before
  }

  function RankSum(c: Codec, raws: seq<string>, n: nat): nat
    requires n <= |raws|
  {
    if n == 0 then 0 else RankSum(c, raws, n - 1) + c.rank(c.hash(raws[n - 1])) + 1
  }

  lemma {:induction false} DMapFacts(c: Codec, raws: seq<string>, n: nat)
    requires n <= |raws|
    ensures forall g :: g in DMapOf(c, raws, n) <==>
      exists i :: 0 <= i < n && c.parse(raws[i]).Some? && c.hash(raws[i]) == g
    ensures forall g :: g in DMapOf(c, raws, n) ==> c.rank(g) < RankSum(c, raws, n)
    ensures forall g :: g in DMapOf(c, raws, n) ==>
      exists i :: 0 <= i < n && c.hash(raws[i]) == g && c.parse(raws[i]) == Some(DMapOf(c, raws, n)[g])
  {
    if n == 0 {
    } else {
      DMapFacts(c, raws, n - 1);
    }
  }

  lemma DMapRanked(c: Codec, raws: seq<string>, node: Json)
    requires c.Acyclic()
    ensures Ranked(DMapOf(c, raws, |raws|), c.rank)
    ensures Below(Refs(node), DMapOf(c, raws, |raws|), c.rank, RankSum(c, raws, |raws|))
  {
    DMapFacts(c, raws, |raws|);
  }

  // Where iterating or hashing raises TypeError instead of going on.
  predicate BadDigestList(v: Json) {
    v.Null? || v.Bool? || v.Num? || (v.Arr? && exists item :: item in v.items && Unhashable(item))
  }

  predicate Unhashable(v: Json) {
    v.Arr? || v.Obj?
  }

  predicate Raises(node: Json) {
    match node
    case Obj(fields) =>
      exists f :: f in fields && (if f.key == SD then BadDigestList(f.value) else Raises(f.value))
    case Arr(items) =>
      exists item :: item in items && (if IsPlaceholder(item) then Unhashable(item.fields[0].value) else Raises(item))
    case _ => false
  }

  datatype Outcome = TypeError | Disclosed(claims: Json, ok: bool)

  function WalkPayload(c: Codec, payload: Json, raws: seq<string>): Walked
    requires c.Acyclic()
  {
    DMapRanked(c, raws, payload);
    Walk(payload, DMapOf(c, raws, |raws|), c.rank, RankSum(c, raws, |raws|))
  }

  function Outcomes(c: Codec, payload: Json, raws: seq<string>): Outcome
    requires c.Acyclic()
  {
    var dmap := DMapOf(c, raws, |raws|);
    var w := WalkPayload(c, payload, raws);
    if Raises(payload) || exists g :: g in w.used && g in dmap && Raises(dmap[g].value) then TypeError
    else Disclosed(w.value, (forall i :: 0 <= i < |raws| ==> c.parse(raws[i]).Some?) && w.used == dmap.Keys)
  }

  lemma AllConsumed(c: Codec, raws: seq<string>, used: set<string>)
    requires used <= DMapOf(c, raws, |raws|).Keys
    ensures (forall i :: 0 <= i < |raws| ==> c.parse(raws[i]).Some?) && used == DMapOf(c, raws, |raws|).Keys
       <==> forall i :: 0 <= i < |raws| ==> c.parse(raws[i]).Some? && c.hash(raws[i]) in used
  {
    var dmap := DMapOf(c, raws, |raws|);
    DMapFacts(c, raws, |raws|);
    if forall i :: 0 <= i < |raws| ==> c.parse(raws[i]).Some? && c.hash(raws[i]) in used {
      forall g | g in dmap ensures g in used {
        var i :| 0 <= i < |raws| && c.hash(raws[i]) == g;
      }
    }
  }

  // `ok` holds exactly when every presented disclosure decodes and is reached
  // from the payload through placeholders of its own kind.
  lemma OkExactly(c: Codec, payload: Json, raws: seq<string>)
    requires c.Acyclic() && Outcomes(c, payload, raws).Disclosed?
    ensures Outcomes(c, payload, raws).ok <==>
      forall i :: 0 <= i < |raws| ==>
        c.parse(raws[i]).Some? && Reached(payload, DMapOf(c, raws, |raws|), c.hash(raws[i]))
  {
    UsedByPayload(c, payload, raws);
    AllConsumed(c, raws, WalkPayload(c, payload, raws).used);
  }

  lemma UsedByPayload(c: Codec, payload: Json, raws: seq<string>)
    requires c.Acyclic()
    ensures forall g :: g in WalkPayload(c, payload, raws).used <==> Reached(payload, DMapOf(c, raws, |raws|), g)
    ensures WalkPayload(c, payload, raws).used <= DMapOf(c, raws, |raws|).Keys
  {
    var dmap, bound := DMapOf(c, raws, |raws|), RankSum(c, raws, |raws|);
    DMapRanked(c, raws, payload);
    forall g ensures g in WalkPayload(c, payload, raws).used <==> Reached(payload, dmap, g) {
      UsedIsReached(payload, dmap, c.rank, bound, g);
    }
    forall g | g in WalkPayload(c, payload, raws).used ensures g in dmap {
      UsedArePresented(payload, dmap, c.rank, bound, g);
    }
  }

  lemma {:induction false} UsedArePresented(node: Json, dmap: DMap, rank: string -> nat, bound: nat, g: string)
    requires Ranked(dmap, rank) && Below(Refs(node), dmap, rank, bound)
    requires g in Walk(node, dmap, rank, bound).used
    ensures g in dmap
    decreases bound
  {
    UsedUnfolds(node, dmap, rank, bound, g);
    var r :| r in Refs(node) && Resolves(dmap, r) && Through(g, r.digest, dmap, rank);
    var h := r.digest;
    if g == h {
    } else {
      UsedArePresented(dmap[h].value, dmap, rank, rank(h), g);
    }
  }

  // ---- The loops ----

  // The closure of `walk`: the presented disclosures, and the ones used so far.
  class Walker {
    const dmap: DMap
    var used: set<string>

    constructor (dmap: DMap)
      ensures this.dmap == dmap && used == {}
    {
      this.dmap := dmap;
      used := {};
    }

    method WalkNode(node: Json, ghost rank: string -> nat, ghost bound: nat) returns (out: Json)
      requires Ranked(dmap, rank) && Below(Refs(node), dmap, rank, bound)
      modifies this
      ensures out == Walk(node, dmap, rank, bound).value
      ensures used == old(used) + Walk(node, dmap, rank, bound).used
      decreases bound, node, 1
    {
      match node {
        case Obj(fields) =>
          var outFields := WalkDict(fields, rank, bound);
          out := Obj(outFields);
        case Arr(items) =>
          var outItems := WalkList(items, rank, bound);
          out := Arr(outItems);
        case _ => out := node;
      }
    }

    method WalkDict(fields: seq<Field>, ghost rank: string -> nat, ghost bound: nat) returns (out: seq<Field>)
      requires Ranked(dmap, rank) && Below(FieldRefs(fields, |fields|), dmap, rank, bound)
      modifies this
      ensures out == WalkFields(fields, |fields|, dmap, rank, bound).fields
      ensures used == old(used) + WalkFields(fields, |fields|, dmap, rank, bound).used
      decreases bound, fields, 1
    {
      out := [];
      ghost var walked := WalkedFields([], {});
      for i := 0 to |fields|
        invariant Below(FieldRefs(fields, i), dmap, rank, bound)
        invariant walked == WalkFields(fields, i, dmap, rank, bound)
        invariant out == walked.fields && used == old(used) + walked.used
      {
        FieldRefsGrow(fields, i + 1, |fields|);
        if fields[i].key == SD {
          out := WalkDigestList(fields, i, out, walked, old(used), rank, bound);
        } else {
          out := WalkEntry(fields, i, out, walked, old(used), rank, bound);
        }
        walked := WalkFields(fields, i + 1, dmap, rank, bound);
      }
    }

    // An ordinary entry, field k.
    method WalkEntry(fields: seq<Field>, k: nat, outSoFar: seq<Field>, ghost before: WalkedFields,
                     ghost atStart: set<string>, ghost rank: string -> nat, ghost bound: nat)
      returns (out: seq<Field>)
      requires k < |fields| && fields[k].key != SD
      requires Ranked(dmap, rank) && Below(FieldRefs(fields, k + 1), dmap, rank, bound)
      requires Below(FieldRefs(fields, k), dmap, rank, bound) && before == WalkFields(fields, k, dmap, rank, bound)
      requires before.fields == outSoFar && used == atStart + before.used
      modifies this
      ensures var w := WalkFields(fields, k + 1, dmap, rank, bound);
        out == w.fields && used == atStart + w.used
      decreases bound, fields, 0
    {
      var v := WalkNode(fields[k].value, rank, bound);
      out := Put(outSoFar, fields[k].key, v);
    }

    // The `_sd` list at field k.
    method WalkDigestList(fields: seq<Field>, k: nat, outSoFar: seq<Field>, ghost before: WalkedFields,
                          ghost atStart: set<string>, ghost rank: string -> nat, ghost bound: nat)
      returns (out: seq<Field>)
      requires k < |fields| && fields[k].key == SD
      requires Ranked(dmap, rank) && Below(FieldRefs(fields, k + 1), dmap, rank, bound)
      requires before.fields == outSoFar && used == atStart + before.used
      modifies this
      ensures var w := WalkDigests(fields, k, |Lookups(fields[k].value)|, before, dmap, rank, bound);
        out == w.fields && used == atStart + w.used
      decreases bound, fields, 0
    {
      out := outSoFar;
      var ds := Lookups(fields[k].value);
      for j := 0 to |ds|
        invariant out == WalkDigests(fields, k, j, before, dmap, rank, bound).fields
        invariant used == atStart + WalkDigests(fields, k, j, before, dmap, rank, bound).used
      {
        var g := ds[j];
        assert Ref(Property, g) in FieldRefs(fields, k + 1);
        if g in dmap && dmap[g].kind == Property {
          used := used + {g};
          var v := WalkNode(dmap[g].value, rank, rank(g));
          out := Put(out, dmap[g].key, v);
        }
      }
    }

    method WalkList(items: seq<Json>, ghost rank: string -> nat, ghost bound: nat) returns (out: seq<Json>)
      requires Ranked(dmap, rank) && Below(ItemRefs(items, |items|), dmap, rank, bound)
      modifies this
      ensures out == WalkItems(items, |items|, dmap, rank, bound).items
      ensures used == old(used) + WalkItems(items, |items|, dmap, rank, bound).used
      decreases bound, items, 1
    {
      out := [];
      for i := 0 to |items|
        invariant Below(ItemRefs(items, i), dmap, rank, bound)
        invariant out == WalkItems(items, i, dmap, rank, bound).items
        invariant used == old(used) + WalkItems(items, i, dmap, rank, bound).used
      {
        ItemRefsGrow(items, i + 1, |items|);
        var elem := items[i];
        assert OneItemRefs(items, i) <= ItemRefs(items, i + 1);
        if IsPlaceholder(elem) {
          var x := elem.fields[0].value;
          if x.Str? && x.s in dmap && dmap[x.s].kind == Element {
            used := used + {x.s};
            var v := WalkNode(dmap[x.s].value, rank, rank(x.s));
            out := out + [v];
          }
        } else {
          var v := WalkNode(elem, rank, bound);
          out := out + [v];
        }
      }
    }
  }

  lemma {:induction false} FieldRefsGrow(fields: seq<Field>, m: nat, n: nat)
    requires m <= n <= |fields|
    ensures FieldRefs(fields, m) <= FieldRefs(fields, n)
  {
    if m == n {
    } else {
      FieldRefsGrow(fields, m, n - 1);
    }
  }

  lemma {:induction false} ItemRefsGrow(items: seq<Json>, m: nat, n: nat)
    requires m <= n <= |items|
    ensures ItemRefs(items, m) <= ItemRefs(items, n)
  {
    if m == n {
    } else {
      ItemRefsGrow(items, m, n - 1);
    }
  }

  method DisclosePayload(c: Codec, payload: Json, raws: seq<string>) returns (outcome: Outcome)
    requires c.Acyclic()
    ensures outcome == Outcomes(c, payload, raws)
  {
    var dmap: DMap := map[];
    var malformed := false;
    for i := 0 to |raws|
      invariant dmap == DMapOf(c, raws, i)
      invariant malformed <==> exists j :: 0 <= j < i && c.parse(raws[j]).None?
    {
      var d := c.parse(raws[i]);
      if d.Some? { dmap := dmap[c.hash(raws[i]) := d.value]; } else { malformed := true; }
    }
    DMapRanked(c, raws, payload);
    var walker := new Walker(dmap);
    var processed := walker.WalkNode(payload, c.rank, RankSum(c, raws, |raws|));
    if Raises(payload) || exists g :: g in walker.used && g in dmap && Raises(dmap[g].value) { return TypeError; }
    return Disclosed(processed, !malformed && walker.used == dmap.Keys);
  }
}
