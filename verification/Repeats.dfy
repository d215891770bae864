// aegis/ap2/sdjwt.py, `disclose`, on payloads in which a digest occurs more than
// once: they are treated as if each digest occurred once (RFC 9901, section 7.1,
// has the verifier reject them).
module Repeats {
  import opened Wrappers
  import opened Json
  import opened Disclose
  import opened Issue

  // ---- The same items, however often ----

  // Alike up to how often, and where, an item stands in an array, at any depth.
  ghost predicate Alike(a: Json, b: Json)
    decreases a, 0
  {
    match a
    case Obj(fields) => b.Obj? && AlikeFields(fields, b.fields)
    case Arr(items) =>
      && b.Arr?
      && (forall x {:trigger HasLike(x, b.items)} :: x in items ==> HasLike(x, b.items))
      && (forall y {:trigger IsLiked(items, y)} :: y in b.items ==> IsLiked(items, y))
    case _ => a == b
  }

  ghost predicate AlikeFields(fields: seq<Field>, others: seq<Field>)
    decreases fields, 1
  {
    && |others| == |fields|
    && forall i :: 0 <= i < |fields| ==> fields[i].key == others[i].key && Alike(fields[i].value, others[i].value)
  }

  ghost predicate HasLike(x: Json, ys: seq<Json>)
    decreases x, 1
  {
    exists y :: y in ys && Alike(x, y)
  }

  ghost predicate IsLiked(xs: seq<Json>, y: Json)
    decreases xs, 1
  {
    exists x :: x in xs && Alike(x, y)
  }

  lemma {:induction false} AlikeItself(a: Json)
    ensures Alike(a, a)
  {
    match a
    case Obj(fields) =>
      forall i | 0 <= i < |fields| ensures Alike(fields[i].value, fields[i].value) { AlikeItself(fields[i].value); }
    case Arr(items) =>
      forall x | x in items ensures HasLike(x, items) && IsLiked(items, x) { AlikeItself(x); }
    case _ =>
  }

  // The i-th item once more, at place k.
  function Repeated(items: seq<Json>, i: nat, k: nat): seq<Json>
    requires i < |items| && k <= |items|
  {
    items[..k] + [items[i]] + items[k..]
  }

  lemma RepeatedAlike(items: seq<Json>, i: nat, k: nat)
    requires i < |items| && k <= |items|
    ensures Alike(Arr(items), Arr(Repeated(items, i, k)))
  {
    var more := Repeated(items, i, k);
    forall x ensures x in more <==> x in items { assert items == items[..k] + items[k..]; }
    forall x | x in items ensures HasLike(x, more) && IsLiked(items, x) { AlikeItself(x); }
  }

  // One field changed for something alike changes nothing else.
  lemma FieldAlike(fields: seq<Field>, f: nat, value: Json)
    requires f < |fields| && Alike(fields[f].value, value)
    ensures Alike(Obj(fields), Obj(fields[f := Field(fields[f].key, value)]))
  {
    var others := fields[f := Field(fields[f].key, value)];
    forall i | 0 <= i < |fields| ensures fields[i].key == others[i].key && Alike(fields[i].value, others[i].value) {
      AlikeItself(fields[i].value);
    }
    assert AlikeFields(fields, others);
  }

  // ---- They hold the same placeholders, and raise alike ----

  lemma {:induction false} StringsIn(items: seq<Json>, s: string)
    ensures s in Strings(items) <==> Str(s) in items
  {
    if items == [] {
    } else {
      StringsIn(items[1..], s);
      assert items == [items[0]] + items[1..];
    }
  }

  lemma AlikeString(a: Json, b: Json)
    requires Alike(a, b)
    ensures a.Str? || b.Str? ==> a == b
    ensures Unhashable(a) <==> Unhashable(b)
    ensures IsPlaceholder(a) <==> IsPlaceholder(b)
  {
  }

  lemma StringsAlike(xs: seq<Json>, ys: seq<Json>, s: string)
    requires Alike(Arr(xs), Arr(ys))
    ensures s in Strings(xs) <==> s in Strings(ys)
  {
    StringsIn(xs, s);
    StringsIn(ys, s);
    if Str(s) in xs { assert HasLike(Str(s), ys); }
    if Str(s) in ys {
      assert IsLiked(xs, Str(s));
      var x :| x in xs && Alike(x, Str(s));
      AlikeString(x, Str(s));
    }
  }

  lemma AlikeLookups(a: Json, b: Json, s: string)
    requires Alike(a, b)
    ensures s in Lookups(a) <==> s in Lookups(b)
  {
    match a
    case Arr(items) => StringsAlike(items, b.items, s);
    case Obj(fields) => assert Lookups(a) == Lookups(b);
    case _ =>
  }

  lemma AlikeDigestList(a: Json, b: Json)
    requires Alike(a, b)
    ensures BadDigestList(a) <==> BadDigestList(b)
  {
    if a.Arr? {
      if x :| x in a.items && Unhashable(x) {
        assert HasLike(x, b.items);
        var y :| y in b.items && Alike(x, y);
        AlikeString(x, y);
      }
      if y :| y in b.items && Unhashable(y) {
        assert IsLiked(a.items, y);
        var x :| x in a.items && Alike(x, y);
        AlikeString(x, y);
      }
    }
  }

  lemma {:induction false} ItemRefsAre(items: seq<Json>, n: nat, r: Ref)
    requires n <= |items|
    ensures r in ItemRefs(items, n) <==> exists k :: 0 <= k < n && r in OneItemRefs(items, k)
  {
    if n == 0 {
    } else {
      ItemRefsAre(items, n - 1, r);
      assert ItemRefs(items, n) == ItemRefs(items, n - 1) + OneItemRefs(items, n - 1);
    }
  }

  // What the item at place k holds depends on the item alone.
  ghost function RefsOfItem(item: Json): set<Ref> {
    if IsPlaceholder(item) then
      var x := item.fields[0].value;
      if x.Str? then {Ref(Element, x.s)} else {}
    else Refs(item)
  }

  lemma ArrayRefs(items: seq<Json>, r: Ref)
    ensures r in Refs(Arr(items)) <==> exists x :: x in items && r in RefsOfItem(x)
  {
    ItemRefsAre(items, |items|, r);
    if r in Refs(Arr(items)) {
      var k :| 0 <= k < |items| && r in OneItemRefs(items, k);
      var x := items[k];
      assert x in items;
      assert r in RefsOfItem(x);
    }
    if x :| x in items && r in RefsOfItem(x) {
      var k :| 0 <= k < |items| && items[k] == x;
      ItemRefsGrow(items, k + 1, |items|);
      assert ItemRefs(items, k + 1) == ItemRefs(items, k) + OneItemRefs(items, k);
      assert r in OneItemRefs(items, k);
    }
  }

  lemma {:induction false} AlikeRefs(a: Json, b: Json, r: Ref)
    requires Alike(a, b)
    ensures r in Refs(a) <==> r in Refs(b)
    decreases a, 1
  {
    match a
    case Obj(fields) => AlikeFieldRefs(fields, b.fields, |fields|, r);
    case Arr(items) => AlikeArrayRefs(items, b.items, r);
    case _ =>
  }

  lemma {:induction false} AlikeArrayRefs(xs: seq<Json>, ys: seq<Json>, r: Ref)
    requires Alike(Arr(xs), Arr(ys))
    ensures r in Refs(Arr(xs)) <==> r in Refs(Arr(ys))
    decreases xs, 3
  {
    ArrayRefs(xs, r);
    ArrayRefs(ys, r);
    if x :| x in xs && r in RefsOfItem(x) {
      assert HasLike(x, ys);
      var y :| y in ys && Alike(x, y);
      AlikeItemRefs(x, y, r);
    }
    if y :| y in ys && r in RefsOfItem(y) {
      assert IsLiked(xs, y);
      var x :| x in xs && Alike(x, y);
      AlikeItemRefs(x, y, r);
    }
  }

  lemma {:induction false} AlikeItemRefs(x: Json, y: Json, r: Ref)
    requires Alike(x, y)
    ensures r in RefsOfItem(x) <==> r in RefsOfItem(y)
    decreases x, 2
  {
    AlikeString(x, y);
    if IsPlaceholder(x) { AlikeString(x.fields[0].value, y.fields[0].value); } else { AlikeRefs(x, y, r); }
  }

  lemma {:induction false} AlikeFieldRefs(fields: seq<Field>, others: seq<Field>, n: nat, r: Ref)
    requires n <= |fields| == |others|
    requires forall i :: 0 <= i < n ==> fields[i].key == others[i].key && Alike(fields[i].value, others[i].value)
    ensures r in FieldRefs(fields, n) <==> r in FieldRefs(others, n)
    decreases fields, n
  {
    if n == 0 {
    } else {
      AlikeFieldRefs(fields, others, n - 1, r);
      var v, w := fields[n - 1].value, others[n - 1].value;
      if fields[n - 1].key == SD { AlikeLookups(v, w, r.digest); } else { AlikeRefs(v, w, r); }
    }
  }

  lemma {:induction false} AlikeRaises(a: Json, b: Json)
    requires Alike(a, b)
    ensures Raises(a) <==> Raises(b)
    decreases a, 1
  {
    match a
    case Obj(fields) =>
      forall i | 0 <= i < |fields| ensures FieldRaises(fields[i]) <==> FieldRaises(b.fields[i]) {
        AlikeRaises(fields[i].value, b.fields[i].value);
        AlikeDigestList(fields[i].value, b.fields[i].value);
      }
      FieldsRaise(fields, b.fields);
    case Arr(items) => AlikeItemsRaise(items, b.items);
    case _ =>
  }

  lemma {:induction false} AlikeItemsRaise(xs: seq<Json>, ys: seq<Json>)
    requires Alike(Arr(xs), Arr(ys))
    ensures Raises(Arr(xs)) <==> Raises(Arr(ys))
    decreases xs, 3
  {
    if x :| x in xs && ItemRaises(x) {
      assert HasLike(x, ys);
      var y :| y in ys && Alike(x, y);
      AlikeItemRaises(x, y);
    }
    if y :| y in ys && ItemRaises(y) {
      assert IsLiked(xs, y);
      var x :| x in xs && Alike(x, y);
      AlikeItemRaises(x, y);
    }
  }

  lemma {:induction false} AlikeItemRaises(x: Json, y: Json)
    requires Alike(x, y)
    ensures ItemRaises(x) <==> ItemRaises(y)
    decreases x, 2
  {
    AlikeString(x, y);
    if IsPlaceholder(x) { AlikeString(x.fields[0].value, y.fields[0].value); } else { AlikeRaises(x, y); }
  }

  predicate FieldRaises(f: Field) {
    if f.key == SD then BadDigestList(f.value) else Raises(f.value)
  }

  predicate ItemRaises(item: Json) {
    if IsPlaceholder(item) then Unhashable(item.fields[0].value) else Raises(item)
  }

  lemma FieldsRaise(fields: seq<Field>, others: seq<Field>)
    requires |fields| == |others|
    requires forall i :: 0 <= i < |fields| ==> (FieldRaises(fields[i]) <==> FieldRaises(others[i]))
    ensures Raises(Obj(fields)) <==> Raises(Obj(others))
  {
    if f :| f in fields && FieldRaises(f) {
      var i :| 0 <= i < |fields| && fields[i] == f;
      assert others[i] in others && FieldRaises(others[i]);
    }
    if f :| f in others && FieldRaises(f) {
      var i :| 0 <= i < |others| && others[i] == f;
      assert fields[i] in fields && FieldRaises(fields[i]);
    }
  }

  // ---- So `disclose` makes no difference between them ----

  ghost predicate SameVerdict(a: Outcome, b: Outcome) {
    match a
    case TypeError => b.TypeError?
    case Disclosed(_, ok) => b.Disclosed? && b.ok == ok
  }

  lemma AlikeUsed(c: Codec, a: Json, b: Json, raws: seq<string>)
    requires c.Acyclic() && Alike(a, b)
    ensures WalkPayload(c, a, raws).used == WalkPayload(c, b, raws).used
  {
    UsedByPayload(c, a, raws);
    UsedByPayload(c, b, raws);
    assert Refs(a) == Refs(b) by { forall r ensures r in Refs(a) <==> r in Refs(b) { AlikeRefs(a, b, r); } }
  }

  // How often a digest occurs decides nothing: payloads alike in this sense
  // both raise, or are both accepted, or are both refused.
  lemma AlikeSameVerdict(c: Codec, a: Json, b: Json, raws: seq<string>)
    requires c.Acyclic() && Alike(a, b)
    ensures SameVerdict(Outcomes(c, a, raws), Outcomes(c, b, raws))
  {
    AlikeUsed(c, a, b, raws);
    AlikeRaises(a, b);
  }

  // In particular a placeholder, or any other item of an array field, may be
  // repeated anywhere in it; likewise a digest in an `_sd` list.
  lemma RepeatChangesNothing(c: Codec, fields: seq<Field>, f: nat, i: nat, k: nat, raws: seq<string>)
    requires c.Acyclic() && f < |fields| && fields[f].value.Arr?
    requires i < |fields[f].value.items| && k <= |fields[f].value.items|
    ensures var items := fields[f].value.items;
      var more := fields[f := Field(fields[f].key, Arr(Repeated(items, i, k)))];
      SameVerdict(Outcomes(c, Obj(fields), raws), Outcomes(c, Obj(more), raws))
  {
    var value := Arr(Repeated(fields[f].value.items, i, k));
    RepeatedAlike(fields[f].value.items, i, k);
    FieldAlike(fields, f, value);
    AlikeSameVerdict(c, Obj(fields), Obj(fields[f := Field(fields[f].key, value)]), raws);
  }

  // ---- A payload to be rejected that is accepted ----

  function Placeholder(digest: string): Json {
    Obj([Field(ELLIPSIS, Str(digest))])
  }

  function Both(digest: string): Json {
    Arr([Placeholder(digest), Placeholder(digest)])
  }

  // One digest in two places and its one disclosure: accepted, and the value
  // is shown twice.
  lemma DuplicateAccepted(c: Codec, raw: string, key: string, value: Json)
    requires c.Acyclic() && key != SD && Tame(value) && c.parse(raw) == Some(Disclosure(Element, "", value))
    ensures Outcomes(c, Obj([Field(key, Both(c.hash(raw)))]), [raw])
         == Disclosed(Obj([Field(key, Arr([value, value]))]), true)
  {
    var g := c.hash(raw);
    var payload := Obj([Field(key, Both(g))]);
    var dmap, bound := DMapOf(c, [raw], 1), RankSum(c, [raw], 1);
    DMapRanked(c, [raw], payload);
    assert DMapOf(c, [raw], 0) == map[];
    assert dmap == map[g := Disclosure(Element, "", value)];
    TameHasNoRefs(value);
    TwoShown(g, value, dmap, c.rank, bound);
    OneField(key, Both(g), dmap, c.rank, bound);
    NothingRaised(key, g);
  }

  lemma OneField(key: string, v: Json, dmap: DMap, rank: string -> nat, bound: nat)
    requires key != SD && Ranked(dmap, rank) && Below(Refs(Obj([Field(key, v)])), dmap, rank, bound)
    ensures Below(Refs(v), dmap, rank, bound)
    ensures var w := Walk(v, dmap, rank, bound);
      Walk(Obj([Field(key, v)]), dmap, rank, bound) == Walked(Obj([Field(key, w.value)]), w.used)
  {
    var fields := [Field(key, v)];
    assert FieldRefs(fields, 0) == {} && FieldRefs(fields, 1) == Refs(v);
    assert WalkFields(fields, 0, dmap, rank, bound) == WalkedFields([], {});
  }

  lemma TwoShown(g: string, value: Json, dmap: DMap, rank: string -> nat, bound: nat)
    requires Ranked(dmap, rank) && Tame(value) && g in dmap && dmap[g] == Disclosure(Element, "", value)
    requires rank(g) < bound
    ensures Refs(Both(g)) == {Ref(Element, g)} && Below(Refs(Both(g)), dmap, rank, bound)
    ensures Walk(Both(g), dmap, rank, bound) == Walked(Arr([value, value]), {g})
  {
    var items := Both(g).items;
    TameHasNoRefs(value);
    WalkTame(value, dmap, rank, rank(g));
    assert OneItemRefs(items, 0) == {Ref(Element, g)} && OneItemRefs(items, 1) == {Ref(Element, g)};
    assert ItemRefs(items, 0) == {} && ItemRefs(items, 1) == {Ref(Element, g)}
      && ItemRefs(items, 2) == {Ref(Element, g)};
    assert WalkItems(items, 0, dmap, rank, bound) == WalkedItems([], {});
    assert WalkItems(items, 1, dmap, rank, bound) == WalkedItems([value], {g});
    assert WalkItems(items, 2, dmap, rank, bound) == WalkedItems([value, value], {g});
  }

  lemma NothingRaised(key: string, g: string)
    requires key != SD
    ensures !Raises(Obj([Field(key, Both(g))]))
  {
    assert !Raises(Both(g));
  }
}
