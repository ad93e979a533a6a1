/** The canonical text of a call's arguments: every object's keys sorted, recursively,
    then written compactly. Two argument values are bound to the same approval exactly
    when they differ in nothing but the order of object keys. */
module Canonical {
  import opened Results
  import opened Text
  import opened Json

  /** What a JSON value means: objects are unordered (RFC 8259, section 4). */
  datatype Meaning =
    | Atom(v: Value)
    | Items(items: seq<Meaning>)
    | Members(members: map<string, Meaning>)

  function Denote(v: Value): Meaning {
    match v
    case Array(items) => Items(DenoteItems(items))
    case Object(fields) => Members(DenoteFields(fields))
    case _ => Atom(v)
  }

  function DenoteItems(items: seq<Value>): (r: seq<Meaning>)
    ensures |r| == |items|
  {
    if items == [] then [] else [Denote(items[0])] + DenoteItems(items[1..])
  }

  function DenoteFields(fields: seq<Field>): (r: map<string, Meaning>)
    ensures forall k :: k in r <==> HasKey(fields, k)
  {
    if fields == [] then map[]
    else DenoteFields(fields[1..])[fields[0].key := Denote(fields[0].value)]
  }

  predicate HasKey(fields: seq<Field>, k: string) {
    fields != [] && (fields[0].key == k || HasKey(fields[1..], k))
  }

  // ----- sorting keys -----

  function InsertField(f: Field, fields: seq<Field>): seq<Field> {
    if fields == [] || Less(f.key, fields[0].key) then [f] + fields
    else [fields[0]] + InsertField(f, fields[1..])
  }

  function Norm(v: Value): Value {
    match v
    case Array(items) => Array(NormItems(items))
    case Object(fields) => Object(NormFields(fields))
    case _ => v
  }

  function NormItems(items: seq<Value>): seq<Value> {
    if items == [] then [] else [Norm(items[0])] + NormItems(items[1..])
  }

  function NormFields(fields: seq<Field>): seq<Field> {
    if fields == [] then []
    else InsertField(Field(fields[0].key, Norm(fields[0].value)), NormFields(fields[1..]))
  }

  function Canonicalize(v: Value): string {
    Print(Norm(v))
  }

  // ----- sorted field lists -----

  predicate Sorted(fields: seq<Field>) {
    fields == [] || (AllAbove(fields[0].key, fields[1..]) && Sorted(fields[1..]))
  }

  predicate AllAbove(k: string, fields: seq<Field>) {
    fields == [] || (Less(k, fields[0].key) && AllAbove(k, fields[1..]))
  }

  lemma {:induction false} AboveNotIn(k: string, fields: seq<Field>)
    requires AllAbove(k, fields)
    ensures !HasKey(fields, k)
  {
    LessIrreflexive(k);
    if fields != [] { AboveNotIn(k, fields[1..]); }
  }

  lemma {:induction false} AboveTransitive(k: string, l: string, fields: seq<Field>)
    requires Less(k, l) && AllAbove(l, fields)
    ensures AllAbove(k, fields)
  {
    if fields != [] {
      LessTransitive(k, l, fields[0].key);
      AboveTransitive(k, l, fields[1..]);
    }
  }

  lemma {:induction false} InsertAbove(k: string, f: Field, fields: seq<Field>)
    requires Less(k, f.key) && AllAbove(k, fields)
    ensures AllAbove(k, InsertField(f, fields))
  {
    if fields != [] && !Less(f.key, fields[0].key) { InsertAbove(k, f, fields[1..]); }
  }

  /** Insertion keeps a list sorted and adds exactly the new field. */
  lemma {:induction false} InsertCorrect(f: Field, fields: seq<Field>)
    requires Sorted(fields) && !HasKey(fields, f.key)
    ensures Sorted(InsertField(f, fields))
    ensures DenoteFields(InsertField(f, fields)) == DenoteFields(fields)[f.key := Denote(f.value)]
    ensures ValidFields(fields) && Valid(f.value) ==> ValidFields(InsertField(f, fields))
  {
    var r := InsertField(f, fields);
    assert r[1..] == if fields == [] || Less(f.key, fields[0].key) then fields else InsertField(f, fields[1..]);
    if fields != [] {
      if Less(f.key, fields[0].key) {
        AboveTransitive(f.key, fields[0].key, fields[1..]);
      } else {
        LessTotal(f.key, fields[0].key);
        InsertCorrect(f, fields[1..]);
        InsertAbove(fields[0].key, f, fields[1..]);
      }
    }
  }

  lemma {:induction false} UniqueTail(fields: seq<Field>)
    requires fields != [] && UniqueKeys(fields)
    ensures UniqueKeys(fields[1..]) && !HasKey(fields[1..], fields[0].key)
  {
    NotIn(fields[1..], fields[0].key);
  }

  lemma {:induction false} NotIn(fields: seq<Field>, k: string)
    requires forall i :: 0 <= i < |fields| ==> fields[i].key != k
    ensures !HasKey(fields, k)
  {
    if fields != [] { NotIn(fields[1..], k); }
  }

  lemma {:induction false} SortedUnique(fields: seq<Field>)
    requires Sorted(fields)
    ensures UniqueKeys(fields)
  {
    if fields != [] {
      SortedUnique(fields[1..]);
      AboveNotIn(fields[0].key, fields[1..]);
      InIndex(fields[1..], fields[0].key);
    }
  }

  lemma {:induction false} InIndex(fields: seq<Field>, k: string)
    requires !HasKey(fields, k)
    ensures forall i :: 0 <= i < |fields| ==> fields[i].key != k
  {
    if fields != [] { InIndex(fields[1..], k); }
  }

  // ----- normalisation keeps the meaning -----

  lemma {:induction false} NormKeepsMeaning(v: Value)
    requires Valid(v)
    ensures Denote(Norm(v)) == Denote(v) && Valid(Norm(v))
    decreases v, 1
  {
    match v
    case Array(items) => NormItemsKeepMeaning(items);
    case Object(fields) =>
      NormFieldsKeepMeaning(fields);
      SortedUnique(NormFields(fields));
    case _ =>
  }

  lemma {:induction false} NormItemsKeepMeaning(items: seq<Value>)
    requires ValidItems(items)
    ensures DenoteItems(NormItems(items)) == DenoteItems(items) && ValidItems(NormItems(items))
    decreases items
  {
    if items != [] {
      NormKeepsMeaning(items[0]);
      NormItemsKeepMeaning(items[1..]);
      assert NormItems(items)[1..] == NormItems(items[1..]);
    }
  }

  lemma {:induction false} NormFieldsKeepMeaning(fields: seq<Field>)
    requires ValidFields(fields) && UniqueKeys(fields)
    ensures DenoteFields(NormFields(fields)) == DenoteFields(fields)
    ensures Sorted(NormFields(fields)) && ValidFields(NormFields(fields))
    decreases fields
  {
    if fields != [] {
      UniqueTail(fields);
      NormKeepsMeaning(fields[0].value);
      NormFieldsKeepMeaning(fields[1..]);
      assert !HasKey(NormFields(fields[1..]), fields[0].key) by {
        assert fields[0].key !in DenoteFields(fields[1..]);
      }
      InsertCorrect(Field(fields[0].key, Norm(fields[0].value)), NormFields(fields[1..]));
    }
  }

  // ----- the meaning determines the canonical form -----

  /** In canonical form: keys sorted at every depth. */
  predicate Canonical(v: Value) {
    match v
    case Array(items) => CanonicalItems(items)
    case Object(fields) => Sorted(fields) && CanonicalFields(fields)
    case _ => true
  }

  predicate CanonicalItems(items: seq<Value>) {
    items == [] || (Canonical(items[0]) && CanonicalItems(items[1..]))
  }

  predicate CanonicalFields(fields: seq<Field>) {
    fields == [] || (Canonical(fields[0].value) && CanonicalFields(fields[1..]))
  }

  lemma {:induction false} NormIsCanonical(v: Value)
    requires Valid(v)
    ensures Canonical(Norm(v))
    decreases v, 1
  {
    match v
    case Array(items) => NormItemsCanonical(items);
    case Object(fields) =>
      NormFieldsKeepMeaning(fields);
      NormFieldsCanonical(fields);
    case _ =>
  }

  lemma {:induction false} NormItemsCanonical(items: seq<Value>)
    requires ValidItems(items)
    ensures CanonicalItems(NormItems(items))
    decreases items
  {
    if items != [] {
      NormIsCanonical(items[0]);
      NormItemsCanonical(items[1..]);
      assert NormItems(items)[1..] == NormItems(items[1..]);
    }
  }

  lemma {:induction false} NormFieldsCanonical(fields: seq<Field>)
    requires ValidFields(fields)
    ensures CanonicalFields(NormFields(fields))
    decreases fields
  {
    if fields != [] {
      NormIsCanonical(fields[0].value);
      NormFieldsCanonical(fields[1..]);
      InsertCanonical(Field(fields[0].key, Norm(fields[0].value)), NormFields(fields[1..]));
    }
  }

  lemma {:induction false} InsertCanonical(f: Field, fields: seq<Field>)
    requires Canonical(f.value) && CanonicalFields(fields)
    ensures CanonicalFields(InsertField(f, fields))
  {
    var r := InsertField(f, fields);
    if fields == [] || Less(f.key, fields[0].key) {
      assert r[1..] == fields;
    } else {
      InsertCanonical(f, fields[1..]);
      assert r[1..] == InsertField(f, fields[1..]);
    }
  }

  /** Canonical values with the same meaning are the same value. */
  lemma {:induction false} CanonicalUnique(a: Value, b: Value)
    requires Canonical(a) && Canonical(b) && Denote(a) == Denote(b)
    ensures a == b
    decreases a, 1
  {
    match a
    case Array(items) => CanonicalItemsUnique(items, b.items);
    case Object(fields) => CanonicalFieldsUnique(fields, b.fields);
    case _ =>
  }

  lemma {:induction false} CanonicalItemsUnique(a: seq<Value>, b: seq<Value>)
    requires CanonicalItems(a) && CanonicalItems(b) && DenoteItems(a) == DenoteItems(b)
    ensures a == b
    decreases a
  {
    if a != [] {
      assert DenoteItems(a)[0] == Denote(a[0]) && DenoteItems(b)[0] == Denote(b[0]);
      assert DenoteItems(a)[1..] == DenoteItems(a[1..]) && DenoteItems(b)[1..] == DenoteItems(b[1..]);
      CanonicalUnique(a[0], b[0]);
      CanonicalItemsUnique(a[1..], b[1..]);
      assert a == [a[0]] + a[1..] && b == [b[0]] + b[1..];
    }
  }

  lemma {:induction false} CanonicalFieldsUnique(a: seq<Field>, b: seq<Field>)
    requires Sorted(a) && CanonicalFields(a) && Sorted(b) && CanonicalFields(b)
    requires DenoteFields(a) == DenoteFields(b)
    ensures a == b
    decreases a
  {
    if a == [] {
      if b != [] { NonEmptyDenotation(b); }
    } else {
      assert a[0].key in DenoteFields(b);
      SameHead(a, b);
      CanonicalUnique(a[0].value, b[0].value);
      AboveNotIn(a[0].key, a[1..]);
      AboveNotIn(b[0].key, b[1..]);
      assert DenoteFields(a[1..]) == DenoteFields(a) - {a[0].key};
      assert DenoteFields(b[1..]) == DenoteFields(b) - {b[0].key};
      CanonicalFieldsUnique(a[1..], b[1..]);
      assert a == [a[0]] + a[1..] && b == [b[0]] + b[1..];
    }
  }

  lemma NonEmptyDenotation(fields: seq<Field>)
    requires fields != []
    ensures DenoteFields(fields) != map[]
  {
    assert fields[0].key in DenoteFields(fields);
  }

  /** Sorted lists over the same keys start with the same, least key. */
  lemma SameHead(a: seq<Field>, b: seq<Field>)
    requires a != [] && b != [] && Sorted(a) && Sorted(b) && DenoteFields(a) == DenoteFields(b)
    ensures a[0].key == b[0].key && Denote(a[0].value) == Denote(b[0].value)
  {
    assert a[0].key in DenoteFields(b) && b[0].key in DenoteFields(a);
    if a[0].key != b[0].key {
      HeadIsLeast(a, b[0].key);
      HeadIsLeast(b, a[0].key);
      LessTransitive(a[0].key, b[0].key, a[0].key);
      LessIrreflexive(a[0].key);
    }
  }

  lemma HeadIsLeast(fields: seq<Field>, k: string)
    requires fields != [] && Sorted(fields) && HasKey(fields, k) && k != fields[0].key
    ensures Less(fields[0].key, k)
  {
    AboveEach(fields[0].key, fields[1..], k);
  }

  lemma {:induction false} AboveEach(l: string, fields: seq<Field>, k: string)
    requires AllAbove(l, fields) && HasKey(fields, k)
    ensures Less(l, k)
  {
    if fields[0].key != k { AboveEach(l, fields[1..], k); }
  }

  /** Two argument values share a canonical text exactly when they mean the same. */
  lemma CanonicalTextIffSameMeaning(a: Value, b: Value)
    requires Valid(a) && Valid(b)
    ensures Canonicalize(a) == Canonicalize(b) <==> Denote(a) == Denote(b)
  {
    NormKeepsMeaning(a);
    NormKeepsMeaning(b);
    if Canonicalize(a) == Canonicalize(b) {
      RoundTrip(Norm(a));
      RoundTrip(Norm(b));
    }
    if Denote(a) == Denote(b) {
      NormIsCanonical(a);
      NormIsCanonical(b);
      CanonicalUnique(Norm(a), Norm(b));
    }
  }

  /** What is read back from the stored text means what the caller sent. */
  lemma StoredArgumentsMeanTheCall(v: Value)
    requires Valid(v)
    ensures Parse(Canonicalize(v)) == Some(Norm(v)) && Denote(Norm(v)) == Denote(v)
  {
    NormKeepsMeaning(v);
    RoundTrip(Norm(v));
  }
}
