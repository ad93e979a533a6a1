/** Positions inside a JSON value, independent of how a path is spelled. */
module JsonPath {
  import opened Results
  import opened Json

  datatype Step = Key(key: string) | Index(index: nat)

  /** The index of `key` in a field list, or its length if there is none. */
  function FieldIndex(fields: seq<Field>, key: string): (i: nat)
    ensures i <= |fields|
    ensures i < |fields| ==> fields[i].key == key
    ensures forall j :: 0 <= j < i ==> fields[j].key != key
  {
    if fields == [] || fields[0].key == key then 0 else 1 + FieldIndex(fields[1..], key)
  }

  lemma FieldIndexCons(first: Field, rest: seq<Field>, key: string)
    ensures FieldIndex([first] + rest, key) == if first.key == key then 0 else 1 + FieldIndex(rest, key)
  {
    assert ([first] + rest)[1..] == rest;
  }

  /** The child of `v` at one step. */
  function Child(v: Value, step: Step): Option<Value> {
    match (v, step)
    case (Object(fields), Key(key)) =>
      var i := FieldIndex(fields, key);
      if i < |fields| then Some(fields[i].value) else None
    case (Array(items), Index(i)) => if i < |items| then Some(items[i]) else None
    case _ => None
  }

  /** The value at a position. */
  function At(v: Value, path: seq<Step>): Option<Value>
    decreases |path|
  {
    if path == [] then Some(v)
    else match Child(v, path[0])
      case None => None
      case Some(child) => At(child, path[1..])
  }

  lemma {:induction false} AtAppend(v: Value, p: seq<Step>, q: seq<Step>)
    ensures At(v, p + q) == match At(v, p) case None => None case Some(w) => At(w, q)
    decreases |p|
  {
    if p == [] {
      assert p + q == q;
    } else {
      assert (p + q)[0] == p[0] && (p + q)[1..] == p[1..] + q;
      match Child(v, p[0])
      case None =>
      case Some(child) => AtAppend(child, p[1..], q);
    }
  }
}
