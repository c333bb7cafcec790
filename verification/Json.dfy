/** JSON trees as serde_json holds them, and the lookups the server does on them. */
module Json {
  import opened Wrappers

  /** A number is kept as its text, with its value when it is an unsigned 64-bit integer. */
  datatype Json =
    | Null
    | Bool(b: bool)
    | Number(text: string, u64: Option<nat>)
    | Str(s: string)
    | Array(items: seq<Json>)
    | Object(fields: seq<Field>)

  /** Keys of an object are unique; lookups take the first. */
  datatype Field = Field(key: string, value: Json)

  function Find(fields: seq<Field>, key: string): (r: Option<nat>)
    ensures r.Some? ==> r.value < |fields| && fields[r.value].key == key && forall i :: 0 <= i < r.value ==> fields[i].key != key
    ensures r.None? ==> forall i :: 0 <= i < |fields| ==> fields[i].key != key
  {
    if fields == [] then None
    else if fields[0].key == key then Some(0)
    else match Find(fields[1..], key) case Some(i) => Some(i + 1) case None => None
  }

  /** `v.get(key)`. */
  function Get(v: Json, key: string): Option<Json> {
    if v.Object? && Find(v.fields, key).Some? then Some(v.fields[Find(v.fields, key).value].value) else None
  }

  /** The value of the first field of that key, if `v` is an object that has one. */
  lemma {:induction false} GetFinds(v: Json, key: string)
    ensures Get(v, key).Some? <==> v.Object? && exists i :: 0 <= i < |v.fields| && v.fields[i].key == key
    ensures forall i :: v.Object? && 0 <= i < |v.fields| && v.fields[i].key == key && (forall j :: 0 <= j < i ==> v.fields[j].key != key) ==>
                          Get(v, key) == Some(v.fields[i].value)
  {
  }

  /** `v` with the value under `key`, if there is one, replaced by `w`. */
  function Put(v: Json, key: string, w: Json): Json {
    if v.Object? && Find(v.fields, key).Some? then Object(v.fields[Find(v.fields, key).value := Field(key, w)]) else v
  }

  lemma {:induction false} FindCons(f: Field, rest: seq<Field>, k: string)
    ensures Find([f] + rest, k) == if f.key == k then Some(0) else match Find(rest, k) case Some(i) => Some(i + 1) case None => None
  {
    assert ([f] + rest)[1..] == rest;
  }

  lemma {:induction false} FindAfterPut(fields: seq<Field>, key: string, w: Json, k: string)
    requires Find(fields, key).Some?
    ensures Find(fields[Find(fields, key).value := Field(key, w)], k) == Find(fields, k)
  {
    var at, f, rest := Find(fields, key).value, fields[0], fields[1..];
    assert fields == [f] + rest;
    FindCons(f, rest, k);
    if at == 0 {
      assert fields[at := Field(key, w)] == [Field(key, w)] + rest;
      FindCons(Field(key, w), rest, k);
    } else {
      FindAfterPut(rest, key, w, k);
      assert fields[at := Field(key, w)] == [f] + rest[at - 1 := Field(key, w)];
      FindCons(f, rest[at - 1 := Field(key, w)], k);
    }
  }

  /** Only the value under `key` is different after `Put`. */
  lemma {:induction false} GetAfterPut(v: Json, key: string, w: Json, k: string)
    ensures Get(Put(v, key, w), k) == if k == key && Get(v, key).Some? then Some(w) else Get(v, k)
  {
    if v.Object? && Find(v.fields, key).Some? { FindAfterPut(v.fields, key, w, k); }
  }

  lemma {:induction false} PutTwice(v: Json, key: string, a: Json, b: Json)
    ensures Put(Put(v, key, a), key, b) == Put(v, key, b)
  {
    if v.Object? && Find(v.fields, key).Some? {
      FindAfterPut(v.fields, key, a, key);
      var at := Find(v.fields, key).value;
      assert v.fields[at := Field(key, a)][at := Field(key, b)] == v.fields[at := Field(key, b)];
    }
  }

  lemma {:induction false} PutSwap(v: Json, key: string, a: Json, other: string, b: Json)
    requires key != other
    ensures Put(Put(v, key, a), other, b) == Put(Put(v, other, b), key, a)
  {
    if v.Object? && Find(v.fields, key).Some? && Find(v.fields, other).Some? {
      FindAfterPut(v.fields, key, a, other);
      FindAfterPut(v.fields, other, b, key);
      var i, j := Find(v.fields, key).value, Find(v.fields, other).value;
      assert v.fields[i := Field(key, a)][j := Field(other, b)] == v.fields[j := Field(other, b)][i := Field(key, a)];
    } else if v.Object? && Find(v.fields, key).Some? {
      FindAfterPut(v.fields, key, a, other);
    } else if v.Object? && Find(v.fields, other).Some? {
      FindAfterPut(v.fields, other, b, key);
    }
  }

  /** Descend through object keys, as a JSON pointer of non-numeric tokens does. */
  function Pointer(v: Json, path: seq<string>): Option<Json> {
    if path == [] then Some(v)
    else match Get(v, path[0]) case Some(w) => Pointer(w, path[1..]) case None => None
  }

  /** The tree with every string emptied: what scrubbing may not change. */
  function Shape(v: Json): Json {
    match v
    case Str(_) => Str("")
    case Array(items) => Array(Shapes(items))
    case Object(fields) => Object(FieldShapes(fields))
    case _ => v
  }

  function Shapes(items: seq<Json>): (r: seq<Json>)
    ensures |r| == |items|
  {
    if items == [] then [] else [Shape(items[0])] + Shapes(items[1..])
  }

  function FieldShapes(fields: seq<Field>): (r: seq<Field>)
    ensures |r| == |fields|
  {
    if fields == [] then [] else [Field(fields[0].key, Shape(fields[0].value))] + FieldShapes(fields[1..])
  }
}
