// JSON values as the mandate code handles them: objects are dictionaries that
// remember the order in which their keys were set.
module Json {
  import opened Wrappers

  datatype Json =
    | Null
    | Bool(b: bool)
    | Num(n: Number)
    | Str(s: string)
    | Arr(items: seq<Json>)
    | Obj(fields: seq<Field>)

  datatype Field = Field(key: string, value: Json)

  // ---- Numbers: finite decimals, as JSON text writes them ----

  datatype Decimal = Decimal(units: int, scale: nat) {
    function Value(): real { units as real / PowerOfTen(scale) }
  }

  // Without trailing zeros, so that numbers are equal when written alike.
  type Number = d: Decimal | d.scale == 0 || d.units % 10 != 0 witness Decimal(0, 0)

  function PowerOfTen(n: nat): (r: real)
    ensures r >= 1.0
  {
    if n == 0 then 1.0 else 10.0 * PowerOfTen(n - 1)
  }

  // ---- Dictionaries ----

  function Get(fields: seq<Field>, key: string): Option<Json> {
    if fields == [] then None
    else if fields[0].key == key then Some(fields[0].value)
    else Get(fields[1..], key)
  }

  function GetOr(fields: seq<Field>, key: string, otherwise: Json): Json {
    match Get(fields, key) case Some(v) => v case None => otherwise
  }

  // Overwrites in place, or adds at the end.
  function Put(fields: seq<Field>, key: string, value: Json): seq<Field> {
    if fields == [] then [Field(key, value)]
    else if fields[0].key == key then [Field(key, value)] + fields[1..]
    else [fields[0]] + Put(fields[1..], key, value)
  }

  ghost predicate DistinctKeys(fields: seq<Field>) {
    forall i, j :: 0 <= i < j < |fields| ==> fields[i].key != fields[j].key
  }

  lemma {:induction false} GetPut(fields: seq<Field>, key: string, value: Json, other: string)
    ensures Get(Put(fields, key, value), other) == if other == key then Some(value) else Get(fields, other)
  {
    if fields == [] || fields[0].key == key {
    } else {
      GetPut(fields[1..], key, value, other);
    }
  }

  lemma {:induction false} GetFinds(fields: seq<Field>, key: string)
    ensures Get(fields, key).None? <==> forall i :: 0 <= i < |fields| ==> fields[i].key != key
    ensures Get(fields, key).Some? ==>
      exists i :: 0 <= i < |fields| && fields[i] == Field(key, Get(fields, key).value)
  {
    if fields == [] || fields[0].key == key {
    } else {
      GetFinds(fields[1..], key);
      if Get(fields, key).Some? {
        var i :| 0 <= i < |fields[1..]| && fields[1..][i] == Field(key, Get(fields, key).value);
        assert fields[i + 1] == Field(key, Get(fields, key).value);
      }
    }
  }

  lemma {:induction false} GetAt(fields: seq<Field>, i: nat)
    requires DistinctKeys(fields) && i < |fields|
    ensures Get(fields, fields[i].key) == Some(fields[i].value)
  {
    if i == 0 {
    } else {
      GetAt(fields[1..], i - 1);
    }
  }

  // Setting a new key adds it at the end.
  lemma {:induction false} PutNew(fields: seq<Field>, key: string, value: Json)
    requires forall i :: 0 <= i < |fields| ==> fields[i].key != key
    ensures Put(fields, key, value) == fields + [Field(key, value)]
  {
    if fields == [] {
    } else {
      PutNew(fields[1..], key, value);
    }
  }

  function GetMember(j: Json, key: string): Option<Json> {
    if j.Obj? then Get(j.fields, key) else None
  }

  // What Python calls truthy.
  predicate Truthy(j: Json) {
    match j
    case Null => false
    case Bool(b) => b
    case Num(n) => n.units != 0
    case Str(s) => s != ""
    case Arr(items) => items != []
    case Obj(fields) => fields != []
  }
}
