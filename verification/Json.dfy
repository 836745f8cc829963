/** JSON values, the dictionary operations the code uses on them, and the references they contain. */
module Json {
  import opened Common

  /** A mapping keeps its entries in insertion order; the first entry of a key is the one a lookup sees. */
  datatype Value = Null | Bool(b: bool) | Num(n: int) | Str(s: string) | Arr(items: seq<Value>) | Obj(fields: Fields)

  datatype Entry = Entry(key: string, value: Value)

  type Fields = seq<Entry>

  function Find(fields: Fields, key: string): (r: Option<Value>)
    ensures r.Some? ==> exists i :: 0 <= i < |fields| && fields[i].key == key && fields[i].value == r.value
    ensures r.None? <==> forall i :: 0 <= i < |fields| ==> fields[i].key != key
  {
    if fields == [] then None
    else if fields[0].key == key then Some(fields[0].value)
    else
      assert forall i :: 0 <= i < |fields[1..]| ==> fields[1..][i] == fields[i + 1];
      Find(fields[1..], key)
  }

  /** `node.get(key)`: nothing if the node is not a mapping. */
  function Get(node: Value, key: string): Option<Value>
  {
    if node.Obj? then Find(node.fields, key) else None
  }

  /** `node.get(key, {})` and its entries; a node that is no mapping has none. */
  function Sub(node: Value, key: string): Fields
  {
    match Get(node, key) case Some(Obj(fields)) => fields case _ => []
  }

  /** `fields[key] = value`. */
  function Put(fields: Fields, key: string, value: Value): Fields
  {
    if fields == [] then [Entry(key, value)]
    else if fields[0].key == key then [Entry(key, value)] + fields[1..]
    else [fields[0]] + Put(fields[1..], key, value)
  }

  /** `fields.pop(key, None)`. */
  function Drop(fields: Fields, key: string): Fields
  {
    if fields == [] then []
    else if fields[0].key == key then Drop(fields[1..], key)
    else [fields[0]] + Drop(fields[1..], key)
  }

  lemma {:induction false} PutFinds(fields: Fields, key: string, value: Value, k: string)
    ensures Find(Put(fields, key, value), k) == if k == key then Some(value) else Find(fields, k)
  {
    if fields != [] && fields[0].key != key {
      PutFinds(fields[1..], key, value, k);
    }
  }

  lemma {:induction false} DropFinds(fields: Fields, key: string, k: string)
    ensures Find(Drop(fields, key), k) == if k == key then None else Find(fields, k)
  {
    if fields != [] {
      DropFinds(fields[1..], key, k);
    }
  }

  // ----- references -----

  const REF := "$ref"

  /** The reference a node makes: a mapping whose `$ref` is a string. */
  function RefOf(node: Value): Option<string>
  {
    match Get(node, REF) case Some(Str(s)) => Some(s) case _ => None
  }

  /** Every reference made at any depth below a node. */
  function Refs(node: Value): set<string>
    decreases node, 1
  {
    match node
    case Obj(fields) => (if RefOf(node).Some? then {RefOf(node).value} else {}) + RefsOfFields(fields)
    case Arr(items) => RefsOfItems(items)
    case _ => {}
  }

  function RefsOfFields(fields: Fields): set<string>
    decreases fields, 0
  {
    if fields == [] then {} else
    var first := fields[0];
    assert first in fields && first.value < first;
    Refs(first.value) + RefsOfFields(fields[1..])
  }

  function RefsOfItems(items: seq<Value>): set<string>
    decreases items, 0
  {
    if items == [] then {} else Refs(items[0]) + RefsOfItems(items[1..])
  }

  lemma {:induction false} RefsOfPut(fields: Fields, key: string, value: Value)
    ensures RefsOfFields(Put(fields, key, value)) <= RefsOfFields(fields) + Refs(value)
  {
    if fields == [] {
      assert Put(fields, key, value)[1..] == [];
    } else if fields[0].key == key {
      assert Put(fields, key, value)[1..] == fields[1..];
    } else {
      RefsOfPut(fields[1..], key, value);
      assert Put(fields, key, value)[1..] == Put(fields[1..], key, value);
    }
  }

  lemma {:induction false} RefsOfDrop(fields: Fields, key: string)
    ensures RefsOfFields(Drop(fields, key)) <= RefsOfFields(fields)
  {
    if fields != [] {
      RefsOfDrop(fields[1..], key);
      if fields[0].key != key {
        assert Drop(fields, key)[1..] == Drop(fields[1..], key);
      }
    }
  }

  lemma {:induction false} RefsOfConcat(a: Fields, b: Fields)
    ensures RefsOfFields(a + b) == RefsOfFields(a) + RefsOfFields(b)
  {
    if a == [] {
      assert a + b == b;
    } else {
      RefsOfConcat(a[1..], b);
      assert (a + b)[1..] == a[1..] + b;
    }
  }
}
