/** Redaction and bounding of the JSON that reaches the audit log and the approval table. */
module Redaction {
  import opened Results
  import opened Text
  import opened Json
  import opened JsonPath
  import Canonical

  const MAX_STR: nat := 256
  const MAX_SUMMARY_BYTES: nat := 2048
  const MAX_RESULT_JSON_BYTES: nat := 4096
  const MAX_ARRAY: nat := 20
  const MAX_OBJECT_KEYS: nat := 40
  const MAX_DEPTH: nat := 6

  const ELLIPSIS: char := '\U{2026}'
  const DEPTH_LIMITED: Value := Str("[depth-limited]")
  const REDACTED: Value := Str("[redacted]")

  // ----- bounding one string -----

  /** Whole characters up to `max` bytes, then an ellipsis if anything was cut. */
  function Clamped(s: string, max: nat): string {
    if Utf8Len(s) <= max then s else FitPrefix(s, max) + [ELLIPSIS]
  }

  method Clamp(s: string, max: nat) returns (r: string)
    ensures r == Clamped(s, max)
  {
    if Utf8Len(s) <= max {
      return s;
    }
    FitIsLastBoundary(s, max);
    var end := max;
    while !CharBoundary(s, end)
      invariant Utf8Len(FitPrefix(s, max)) <= end <= max
      invariant forall n :: end < n <= max ==> !CharBoundary(s, n)
      decreases end
    {
      end := end - 1;
    }
    r := BytePrefix(s, end) + [ELLIPSIS];
  }

  /** The strings clamping leaves alone: short ones, and those it has already cut. */
  predicate ClampStable(s: string, max: nat) {
    Utf8Len(s) <= max ||
    (s != "" && s[|s| - 1] == ELLIPSIS && Utf8Len(s[..|s| - 1]) <= max)
  }

  /** The output may exceed the limit by the three bytes of the ellipsis, yet clamping it
      again changes nothing; and only such strings are left alone. */
  lemma ClampIdempotent(s: string, max: nat)
    ensures Clamped(Clamped(s, max), max) == Clamped(s, max)
    ensures Utf8Len(Clamped(s, max)) <= max + 3
    ensures ClampStable(Clamped(s, max), max)
  {
    if Utf8Len(s) > max {
      var p := FitPrefix(s, max);
      Utf8LenConcat(p, [ELLIPSIS]);
      assert (p + [ELLIPSIS])[..|p|] == p;
      if Utf8Len(p) + 3 > max {
        FitPrefixAppend(p, ELLIPSIS, max);
      }
    }
  }

  lemma ClampFixedIff(s: string, max: nat)
    ensures Clamped(s, max) == s <==> ClampStable(s, max)
  {
    ClampIdempotent(s, max);
    if ClampStable(s, max) && Utf8Len(s) > max {
      var p := s[..|s| - 1];
      assert s == p + [ELLIPSIS];
      Utf8LenConcat(p, [ELLIPSIS]);
      FitPrefixAppend(p, ELLIPSIS, max);
    }
  }

  // ----- sensitive keys -----

  function LowerChar(c: char): char {
    if 'A' <= c <= 'Z' then (c as int + 32) as char else c
  }

  function Lower(s: string): string {
    if s == "" then "" else [LowerChar(s[0])] + Lower(s[1..])
  }

  predicate NotAlphanumeric(c: char) {
    !('a' <= c <= 'z' || 'A' <= c <= 'Z' || '0' <= c <= '9')
  }

  const SENSITIVE_WORDS: set<string> :=
    {"password", "passwd", "pwd", "seed", "seedphrase", "privatekey", "apikey", "authorization",
     "auth", "credential", "credentials", "token", "bearer", "cookie", "session"}

  /** Is the lowered key one that is masked for a substring alone? */
  predicate NamesASecret(lower: string) {
    Contains(lower, "secret") || Contains(lower, "mnemonic") || Contains(lower, "passphrase")
  }

  /** Is the lowered key one of the public names built on `token`? */
  predicate NamesAPublicToken(lower: string) {
    Contains(lower, "token_mint") || Contains(lower, "tokenmint") ||
    Contains(lower, "token_address") || Contains(lower, "tokenaddress")
  }

  predicate IsSensitiveKey(key: string) {
    var lower := Lower(key);
    NamesASecret(lower) ||
    ((exists segment :: segment in Split(lower, NotAlphanumeric) && segment in SENSITIVE_WORDS) && !NamesAPublicToken(lower))
  }

  predicate Alphanumeric(s: string) {
    forall i :: 0 <= i < |s| ==> !NotAlphanumeric(s[i])
  }

  /** Exactly when a key of two words with a separator between them is masked: a listed word
      counts only if it is one of the two, never if it is the two together. */
  lemma SeparatedKeyIff(a: string, c: char, b: string)
    requires Alphanumeric(a) && Alphanumeric(b) && NotAlphanumeric(c)
    ensures var lower := Lower(a) + [c] + Lower(b);
      IsSensitiveKey(a + [c] + b) <==>
        NamesASecret(lower) ||
        ((Lower(a) in SENSITIVE_WORDS || Lower(b) in SENSITIVE_WORDS) && !NamesAPublicToken(lower))
  {
    hide NamesASecret, NamesAPublicToken, SENSITIVE_WORDS, Lower, Split;
    LowerAround(a, c, b);
    LowerAlphanumeric(a);
    LowerAlphanumeric(b);
    SplitAfter(Lower(a), c, Lower(b));
    WholeSegment(Lower(b));
    assert [Lower(a)] + [Lower(b)] == [Lower(a), Lower(b)];
    TwoSegments(Lower(a), Lower(b));
  }

  lemma LowerAround(a: string, c: char, b: string)
    requires NotAlphanumeric(c)
    ensures Lower(a + [c] + b) == Lower(a) + [c] + Lower(b)
  {
    LowerConcat(a + [c], b);
    LowerConcat(a, [c]);
    assert Lower([c]) == [LowerChar(c)] + Lower([c][1..]);
  }

  lemma TwoSegments(a: string, b: string)
    ensures (exists segment :: segment in [a, b] && segment in SENSITIVE_WORDS) <==>
      a in SENSITIVE_WORDS || b in SENSITIVE_WORDS
  {
    assert a in [a, b] && b in [a, b];
  }

  /** A key of a single word is masked exactly if the word is listed or names a secret. */
  lemma SingleWordIff(a: string)
    requires Alphanumeric(a)
    ensures IsSensitiveKey(a) <==>
      NamesASecret(Lower(a)) || (Lower(a) in SENSITIVE_WORDS && !NamesAPublicToken(Lower(a)))
  {
    hide NamesASecret, NamesAPublicToken, SENSITIVE_WORDS, Lower, Split;
    LowerAlphanumeric(a);
    WholeSegment(Lower(a));
    assert Lower(a) in [Lower(a)];
  }

  lemma {:induction false} LowerConcat(a: string, b: string)
    ensures Lower(a + b) == Lower(a) + Lower(b)
  {
    var c := a + b;
    if a == "" {
      assert c == b;
    } else {
      LowerConcat(a[1..], b);
      assert c[0] == a[0] && c[1..] == a[1..] + b;
      assert [LowerChar(a[0])] + (Lower(a[1..]) + Lower(b)) == ([LowerChar(a[0])] + Lower(a[1..])) + Lower(b);
    }
  }

  lemma {:induction false} LowerAlphanumeric(a: string)
    requires Alphanumeric(a)
    ensures Alphanumeric(Lower(a)) && |Lower(a)| == |a|
  {
    if a != "" {
      LowerAlphanumeric(a[1..]);
      assert Lower(a)[1..] == Lower(a[1..]);
    }
  }

  /** So `apiKey` is masked and `api_key` is not. */
  lemma ApiKeySpellings()
    ensures !IsSensitiveKey("api_key") && IsSensitiveKey("apiKey")
  {
    hide Contains, IsSensitiveKey, Lower;
    SeparatedKeyIff("api", '_', "key");
    assert "api_key" == "api" + ['_'] + "key";
    LowerApiKey();
    ShortWord("api");
    ShortWord("key");
    ContainsNeeds("api_key", "secret");
    ContainsNeeds("api_key", "mnemonic");
    ContainsNeeds("api_key", "passphrase");
    SingleWordIff("apiKey");
    ContainsNeeds("apikey", "token_mint");
    ContainsNeeds("apikey", "tokenmint");
    ContainsNeeds("apikey", "token_address");
    ContainsNeeds("apikey", "tokenaddress");
  }

  lemma LowerApiKey()
    ensures Lower("api") == "api" && Lower("key") == "key" && Lower("apiKey") == "apikey"
  {
  }

  lemma ShortWord(w: string)
    requires |w| == 3 && w[0] != 'p'
    ensures w !in SENSITIVE_WORDS
  {
  }

  lemma {:induction false} ContainsNeeds(hay: string, needle: string)
    requires needle != ""
    ensures Contains(hay, needle) ==> |needle| <= |hay| && needle[0] in hay
  {
    if hay != "" { ContainsNeeds(hay[1..], needle); }
  }

  lemma {:induction false} WholeSegment(s: string)
    requires Alphanumeric(s)
    ensures Split(s, NotAlphanumeric) == [s]
  {
    if s != "" {
      WholeSegment(s[1..]);
      assert s == [s[0]] + s[1..];
    }
  }

  lemma {:induction false} SplitAfter(s: string, c: char, t: string)
    requires Alphanumeric(s)
    requires NotAlphanumeric(c)
    ensures Split(s + [c] + t, NotAlphanumeric) == [s] + Split(t, NotAlphanumeric)
  {
    if s == "" {
      assert (s + [c] + t)[1..] == t;
    } else {
      SplitAfter(s[1..], c, t);
      assert (s + [c] + t)[1..] == s[1..] + [c] + t;
      assert s == [s[0]] + s[1..];
    }
  }

  // ----- redaction -----

  function Redact(v: Value, depth: nat): Value
    decreases v, 1
  {
    if depth >= MAX_DEPTH then DEPTH_LIMITED
    else match v
      case Str(s) => Str(Clamped(s, MAX_STR))
      case Array(items) => Array(RedactItems(items, MAX_ARRAY, depth + 1))
      case Object(fields) => Object(RedactFields(fields, MAX_OBJECT_KEYS, depth + 1))
      case _ => v
  }

  function RedactItems(items: seq<Value>, room: nat, depth: nat): seq<Value>
    decreases items
  {
    if items == [] || room == 0 then []
    else [Redact(items[0], depth)] + RedactItems(items[1..], room - 1, depth)
  }

  function RedactField(f: Field, depth: nat): Field
    decreases f, 2
  {
    Field(f.key, if IsSensitiveKey(f.key) then REDACTED else Redact(f.value, depth))
  }

  function RedactFields(fields: seq<Field>, room: nat, depth: nat): seq<Field>
    decreases fields
  {
    if fields == [] || room == 0 then []
    else [RedactField(fields[0], depth)] + RedactFields(fields[1..], room - 1, depth)
  }

  // ----- what redaction produces -----

  /** A value already within every bound, with every sensitive key masked. */
  predicate Bounded(v: Value, depth: nat)
    decreases v, 1
  {
    if depth >= MAX_DEPTH then v == DEPTH_LIMITED
    else match v
      case Str(s) => ClampStable(s, MAX_STR)
      case Array(items) => |items| <= MAX_ARRAY && BoundedItems(items, depth + 1)
      case Object(fields) => |fields| <= MAX_OBJECT_KEYS && BoundedFields(fields, depth + 1)
      case _ => true
  }

  predicate BoundedItems(items: seq<Value>, depth: nat)
    decreases items
  {
    items == [] || (Bounded(items[0], depth) && BoundedItems(items[1..], depth))
  }

  predicate BoundedField(f: Field, depth: nat)
    decreases f, 2
  {
    if IsSensitiveKey(f.key) then f.value == REDACTED else Bounded(f.value, depth)
  }

  predicate BoundedFields(fields: seq<Field>, depth: nat)
    decreases fields
  {
    fields == [] || (BoundedField(fields[0], depth) && BoundedFields(fields[1..], depth))
  }

  lemma {:induction false} RedactIsBounded(v: Value, depth: nat)
    ensures Bounded(Redact(v, depth), depth)
    decreases v, 1
  {
    if depth < MAX_DEPTH {
      match v
      case Str(s) => ClampIdempotent(s, MAX_STR);
      case Array(items) => RedactItemsBounded(items, MAX_ARRAY, depth + 1);
      case Object(fields) => RedactFieldsBounded(fields, MAX_OBJECT_KEYS, depth + 1);
      case _ =>
    }
  }

  lemma {:induction false} RedactItemsBounded(items: seq<Value>, room: nat, depth: nat)
    ensures var r := RedactItems(items, room, depth); |r| <= room && BoundedItems(r, depth)
    decreases items
  {
    if items != [] && room > 0 {
      RedactIsBounded(items[0], depth);
      RedactItemsBounded(items[1..], room - 1, depth);
      assert RedactItems(items, room, depth)[1..] == RedactItems(items[1..], room - 1, depth);
    }
  }

  lemma {:induction false} RedactFieldsBounded(fields: seq<Field>, room: nat, depth: nat)
    ensures var r := RedactFields(fields, room, depth); |r| <= room && BoundedFields(r, depth)
    decreases fields
  {
    if fields != [] && room > 0 {
      RedactIsBounded(fields[0].value, depth);
      RedactFieldsBounded(fields[1..], room - 1, depth);
      assert RedactFields(fields, room, depth)[1..] == RedactFields(fields[1..], room - 1, depth);
    }
  }

  lemma {:induction false} BoundedIsFixed(v: Value, depth: nat)
    requires Bounded(v, depth)
    ensures Redact(v, depth) == v
    decreases v, 1
  {
    if depth < MAX_DEPTH {
      match v
      case Str(s) => ClampFixedIff(s, MAX_STR);
      case Array(items) => BoundedItemsFixed(items, MAX_ARRAY, depth + 1);
      case Object(fields) => BoundedFieldsFixed(fields, MAX_OBJECT_KEYS, depth + 1);
      case _ =>
    }
  }

  lemma {:induction false} BoundedItemsFixed(items: seq<Value>, room: nat, depth: nat)
    requires |items| <= room && BoundedItems(items, depth)
    ensures RedactItems(items, room, depth) == items
    decreases items
  {
    if items != [] {
      BoundedIsFixed(items[0], depth);
      BoundedItemsFixed(items[1..], room - 1, depth);
    }
  }

  lemma {:induction false} BoundedFieldsFixed(fields: seq<Field>, room: nat, depth: nat)
    requires |fields| <= room && BoundedFields(fields, depth)
    ensures RedactFields(fields, room, depth) == fields
    decreases fields
  {
    if fields != [] {
      if !IsSensitiveKey(fields[0].key) { BoundedIsFixed(fields[0].value, depth); }
      BoundedFieldsFixed(fields[1..], room - 1, depth);
    }
  }

  /** Redaction leaves exactly the bounded, masked values alone, and always yields one. */
  lemma RedactFixedIff(v: Value, depth: nat)
    ensures Redact(v, depth) == v <==> Bounded(v, depth)
    ensures Redact(Redact(v, depth), depth) == Redact(v, depth)
  {
    RedactIsBounded(v, depth);
    BoundedIsFixed(Redact(v, depth), depth);
    if Bounded(v, depth) { BoundedIsFixed(v, depth); }
  }

  // ----- secrets -----

  /** Equal except for what sits under sensitive keys. */
  predicate SameButSecrets(a: Value, b: Value)
    decreases a, 1
  {
    match (a, b)
    case (Array(xs), Array(ys)) => SameItems(xs, ys)
    case (Object(fs), Object(gs)) => SameFields(fs, gs)
    case _ => a == b
  }

  predicate SameItems(xs: seq<Value>, ys: seq<Value>)
    decreases xs
  {
    |xs| == |ys| && (xs == [] || (SameButSecrets(xs[0], ys[0]) && SameItems(xs[1..], ys[1..])))
  }

  predicate SameField(f: Field, g: Field)
    decreases f, 2
  {
    f.key == g.key && (IsSensitiveKey(f.key) || SameButSecrets(f.value, g.value))
  }

  predicate SameFields(fs: seq<Field>, gs: seq<Field>)
    decreases fs
  {
    |fs| == |gs| && (fs == [] || (SameField(fs[0], gs[0]) && SameFields(fs[1..], gs[1..])))
  }

  /** The output carries no information about any value under a sensitive key. */
  lemma {:induction false} RedactHidesSecrets(a: Value, b: Value, depth: nat)
    requires SameButSecrets(a, b)
    ensures Redact(a, depth) == Redact(b, depth)
    decreases a, 1
  {
    if depth < MAX_DEPTH {
      match a
      case Array(xs) => RedactItemsHideSecrets(xs, b.items, MAX_ARRAY, depth + 1);
      case Object(fs) => RedactFieldsHideSecrets(fs, b.fields, MAX_OBJECT_KEYS, depth + 1);
      case _ =>
    }
  }

  lemma {:induction false} RedactItemsHideSecrets(xs: seq<Value>, ys: seq<Value>, room: nat, depth: nat)
    requires SameItems(xs, ys)
    ensures RedactItems(xs, room, depth) == RedactItems(ys, room, depth)
    decreases xs
  {
    if xs != [] && room > 0 {
      RedactHidesSecrets(xs[0], ys[0], depth);
      RedactItemsHideSecrets(xs[1..], ys[1..], room - 1, depth);
    }
  }

  lemma {:induction false} RedactFieldsHideSecrets(fs: seq<Field>, gs: seq<Field>, room: nat, depth: nat)
    requires SameFields(fs, gs)
    ensures RedactFields(fs, room, depth) == RedactFields(gs, room, depth)
    decreases fs
  {
    if fs != [] && room > 0 {
      if !IsSensitiveKey(fs[0].key) { RedactHidesSecrets(fs[0].value, gs[0].value, depth); }
      RedactFieldsHideSecrets(fs[1..], gs[1..], room - 1, depth);
    }
  }

  // ----- what survives -----

  /** Does redaction, at `depth`, follow this path into `v` without cutting or masking it? */
  predicate Reaches(v: Value, path: seq<Step>, depth: nat)
    decreases |path|
  {
    if path == [] then depth < MAX_DEPTH
    else
      depth < MAX_DEPTH && Child(v, path[0]).Some? &&
      (match (v, path[0])
       case (Array(_), Index(i)) => i < MAX_ARRAY
       case (Object(fields), Key(k)) => FieldIndex(fields, k) < MAX_OBJECT_KEYS && !IsSensitiveKey(k)
       case _ => false) &&
      Reaches(Child(v, path[0]).value, path[1..], depth + 1)
  }

  lemma {:induction false} RedactItemAt(items: seq<Value>, room: nat, depth: nat, i: nat)
    requires i < |items| && i < room
    ensures i < |RedactItems(items, room, depth)|
    ensures RedactItems(items, room, depth)[i] == Redact(items[i], depth)
  {
    if i > 0 { RedactItemAt(items[1..], room - 1, depth, i - 1); }
  }

  lemma {:induction false} RedactFieldAt(fields: seq<Field>, room: nat, depth: nat, k: string)
    requires FieldIndex(fields, k) < |fields| && FieldIndex(fields, k) < room
    ensures var r := RedactFields(fields, room, depth);
      var i := FieldIndex(fields, k);
      FieldIndex(r, k) == i < |r| && r[i] == RedactField(fields[i], depth)
  {
    hide RedactField, RedactFields, FieldIndex;
    var first := RedactField(fields[0], depth);
    var rest := RedactFields(fields[1..], room - 1, depth);
    RedactFieldsCons(fields, room, depth);
    RedactKeepsKey(fields[0], depth);
    FieldIndexCons(first, rest, k);
    FieldIndexCons(fields[0], fields[1..], k);
    if fields[0].key != k { RedactFieldAt(fields[1..], room - 1, depth, k); }
  }

  lemma RedactFieldsCons(fields: seq<Field>, room: nat, depth: nat)
    requires fields != [] && room > 0
    ensures fields == [fields[0]] + fields[1..]
    ensures RedactFields(fields, room, depth) == [RedactField(fields[0], depth)] + RedactFields(fields[1..], room - 1, depth)
  {
    hide RedactField;
  }

  lemma RedactKeepsKey(f: Field, depth: nat)
    ensures RedactField(f, depth).key == f.key
  {
  }

  /** Every value redaction reaches is still at its position, itself redacted; so scalars
      and short strings outside sensitive keys come through unchanged. */
  lemma {:induction false} ReachedValuesSurvive(v: Value, path: seq<Step>, depth: nat)
    requires Reaches(v, path, depth) && At(v, path).Some?
    ensures At(Redact(v, depth), path) == Some(Redact(At(v, path).value, depth + |path|))
    decreases |path|
  {
    hide Redact;
    if path != [] {
      ReachedChild(v, path, depth);
      hide Child;
      ReachedValuesSurvive(Child(v, path[0]).value, path[1..], depth + 1);
    }
  }

  lemma ReachedChild(v: Value, path: seq<Step>, depth: nat)
    requires path != [] && Reaches(v, path, depth)
    ensures Child(Redact(v, depth), path[0]) == Some(Redact(Child(v, path[0]).value, depth + 1))
    ensures Reaches(Child(v, path[0]).value, path[1..], depth + 1)
  {
    match v
    case Array(items) =>
      RedactItemAt(items, MAX_ARRAY, depth + 1, path[0].index);
    case Object(fields) =>
      hide FieldIndex, IsSensitiveKey, RedactFields, Reaches;
      RedactFieldAt(fields, MAX_OBJECT_KEYS, depth + 1, path[0].key);
  }

  /** At every depth, a sensitive key maps only to the mask. */
  lemma {:induction false} BoundedMasksEverywhere(v: Value, path: seq<Step>, k: string, depth: nat)
    requires Bounded(v, depth) && IsSensitiveKey(k) && At(v, path + [Key(k)]).Some?
    ensures At(v, path + [Key(k)]) == Some(REDACTED)
    decreases |path|
  {
    AtAppend(v, path, [Key(k)]);
    if path == [] {
      assert path + [Key(k)] == [Key(k)];
      BoundedFieldAt(v.fields, depth + 1, FieldIndex(v.fields, k));
    } else {
      assert (path + [Key(k)])[0] == path[0] && (path + [Key(k)])[1..] == path[1..] + [Key(k)];
      match v
      case Array(items) =>
        BoundedItemAt(items, depth + 1, path[0].index);
        BoundedMasksEverywhere(items[path[0].index], path[1..], k, depth + 1);
      case Object(fields) =>
        var i := FieldIndex(fields, path[0].key);
        BoundedFieldAt(fields, depth + 1, i);
        MaskHasNoChildren(fields[i].value, path[1..] + [Key(k)]);
        BoundedMasksEverywhere(fields[i].value, path[1..], k, depth + 1);
    }
  }

  lemma MaskHasNoChildren(v: Value, path: seq<Step>)
    requires path != [] && At(v, path).Some?
    ensures v != REDACTED
  {
  }

  lemma {:induction false} BoundedItemAt(items: seq<Value>, depth: nat, i: nat)
    requires BoundedItems(items, depth) && i < |items|
    ensures Bounded(items[i], depth)
  {
    if i > 0 { BoundedItemAt(items[1..], depth, i - 1); }
  }

  lemma {:induction false} BoundedFieldAt(fields: seq<Field>, depth: nat, i: nat)
    requires BoundedFields(fields, depth) && i < |fields|
    ensures BoundedField(fields[i], depth)
  {
    if i > 0 { BoundedFieldAt(fields[1..], depth, i - 1); }
  }

  // ----- stored results -----

  function JsonLen(v: Value): nat {
    Utf8Len(Print(v))
  }

  const KEPT_KEYS: seq<string> := ["success", "ok", "error", "code", "message", "status"]
  const OMITTED: Value := Str("[omitted: redacted result exceeded 4096 bytes]")

  /** The small fields of `fields` named in `keys`, each inserted into a sorted map. */
  function Keep(fields: seq<Field>, keys: seq<string>): seq<Field> {
    if keys == [] then []
    else
      var i := FieldIndex(fields, keys[0]);
      var rest := Keep(fields, keys[1..]);
      if i < |fields| && JsonLen(fields[i].value) <= 512
      then Canonical.InsertField(Field(keys[0], fields[i].value), rest)
      else rest
  }

  function Collapse(redacted: Value): Value {
    if redacted.Object?
    then Object(Canonical.InsertField(Field("data", OMITTED), Keep(redacted.fields, KEPT_KEYS)))
    else OMITTED
  }

  function SanitizeValue(v: Value): Value {
    var redacted := Redact(v, 0);
    if JsonLen(redacted) <= MAX_RESULT_JSON_BYTES then redacted else Collapse(redacted)
  }

  /** The bytes one field adds to an object's text, separator included. */
  function FieldLen(f: Field): nat {
    Utf8Len(PrintField(f)) + 1
  }

  function FieldsLen(fields: seq<Field>): nat {
    if fields == [] then 0 else FieldLen(fields[0]) + FieldsLen(fields[1..])
  }

  lemma {:induction false} PrintFieldsLen(fields: seq<Field>)
    ensures Utf8Len(PrintFields(fields)) <= FieldsLen(fields)
  {
    if |fields| > 1 {
      PrintFieldsLen(fields[1..]);
      Utf8LenConcat(PrintField(fields[0]) + ",", PrintFields(fields[1..]));
      Utf8LenConcat(PrintField(fields[0]), ",");
    }
  }

  lemma {:induction false} InsertLen(f: Field, fields: seq<Field>)
    ensures FieldsLen(Canonical.InsertField(f, fields)) == FieldLen(f) + FieldsLen(fields)
    ensures |Canonical.InsertField(f, fields)| == |fields| + 1
  {
    var r := Canonical.InsertField(f, fields);
    if fields == [] || Less(f.key, fields[0].key) {
      assert r[1..] == fields;
    } else {
      InsertLen(f, fields[1..]);
      assert r[1..] == Canonical.InsertField(f, fields[1..]);
    }
  }

  lemma {:induction false} InsertBounded(f: Field, fields: seq<Field>, depth: nat)
    requires BoundedField(f, depth) && BoundedFields(fields, depth)
    ensures BoundedFields(Canonical.InsertField(f, fields), depth)
  {
    var r := Canonical.InsertField(f, fields);
    if fields == [] || Less(f.key, fields[0].key) {
      assert r[1..] == fields;
    } else {
      InsertBounded(f, fields[1..], depth);
      assert r[1..] == Canonical.InsertField(f, fields[1..]);
    }
  }

  lemma FieldLenBound(key: string, v: Value)
    ensures FieldLen(Field(key, v)) == Utf8Len(Escape(key)) + 4 + JsonLen(v)
  {
    Utf8LenConcat("\"", Escape(key));
    Utf8LenConcat("\"" + Escape(key), "\"");
    Utf8LenConcat(Quote(key), ":");
    Utf8LenConcat(Quote(key) + ":", Print(v));
  }

  lemma {:induction false} EscapeLen(s: string)
    ensures Utf8Len(Escape(s)) <= 6 * |s|
  {
    if s != "" {
      Utf8LenConcat(EscapeChar(s[0]), Escape(s[1..]));
      EscapeCharLen(s[0]);
      EscapeLen(s[1..]);
    }
  }

  lemma EscapeCharLen(c: char)
    ensures Utf8Len(EscapeChar(c)) <= 6
  {
    var e := EscapeChar(c);
    if |e| == 6 {
      Utf8LenConcat(e[..2], e[2..]);
      Utf8LenConcat(e[2..][..2], e[2..][2..]);
      assert e == e[..2] + e[2..] && e[2..] == e[2..][..2] + e[2..][2..];
    }
  }

  lemma {:induction false} KeepBounds(fields: seq<Field>, keys: seq<string>, depth: nat)
    requires BoundedFields(fields, depth)
    requires forall k :: k in keys ==> |k| <= 7
    ensures var r := Keep(fields, keys);
      |r| <= |keys| && FieldsLen(r) <= 558 * |keys| && BoundedFields(r, depth)
  {
    if keys != [] {
      KeepBounds(fields, keys[1..], depth);
      var i := FieldIndex(fields, keys[0]);
      if i < |fields| && JsonLen(fields[i].value) <= 512 {
        var f := Field(keys[0], fields[i].value);
        BoundedFieldAt(fields, depth, i);
        FieldLenBound(f.key, f.value);
        EscapeLen(f.key);
        InsertLen(f, Keep(fields, keys[1..]));
        InsertBounded(f, Keep(fields, keys[1..]), depth);
      }
    }
  }

  lemma OmittedLength()
    ensures OMITTED.Str? && |OMITTED.s| == 46
  {
  }

  lemma OmittedBounds()
    ensures Bounded(OMITTED, 0) && Bounded(OMITTED, 1) && JsonLen(OMITTED) <= 278
  {
    OmittedLength();
    hide OMITTED;
    var text := OMITTED.s;
    EscapeLen(text);
    Utf8LenConcat("\"", Escape(text));
    Utf8LenConcat("\"" + Escape(text), "\"");
    hide Escape;
    ShortIsBounded(text);
  }

  lemma ShortIsBounded(s: string)
    requires |s| <= 64
    ensures Bounded(Str(s), 0) && Bounded(Str(s), 1)
  {
    AtMostFourBytes(s);
  }

  lemma {:induction false} AtMostFourBytes(s: string)
    ensures Utf8Len(s) <= 4 * |s|
  {
    if s != "" { AtMostFourBytes(s[1..]); }
  }

  /** The field that says the result was omitted is not itself masked. */
  lemma DataIsNotSensitive()
    ensures !IsSensitiveKey("data")
  {
    assert Lower("data") == "data";
    WholeSegment("data");
  }

  lemma CollapseBounds(redacted: Value)
    requires Bounded(redacted, 0)
    ensures Bounded(Collapse(redacted), 0) && JsonLen(Collapse(redacted)) <= MAX_RESULT_JSON_BYTES
  {
    OmittedBounds();
    if redacted.Object? { CollapseObjectBounds(redacted.fields); }
  }

  lemma CollapseObjectBounds(fields: seq<Field>)
    requires BoundedFields(fields, 1)
    ensures var r := Canonical.InsertField(Field("data", OMITTED), Keep(fields, KEPT_KEYS));
      Bounded(Object(r), 0) && JsonLen(Object(r)) <= MAX_RESULT_JSON_BYTES
  {
    hide IsSensitiveKey, Utf8Len, Keep, FieldsLen, FieldLen, Canonical.InsertField, PrintFields, Escape;
    var data := Field("data", OMITTED);
    var kept := Keep(fields, KEPT_KEYS);
    assert |kept| <= 6 && FieldsLen(kept) <= 3348 && BoundedFields(kept, 1) by {
      KeepBounds(fields, KEPT_KEYS, 1);
    }
    OmittedBounds();
    DataIsNotSensitive();
    FieldLenBound("data", OMITTED);
    EscapeLen("data");
    InsertLen(data, kept);
    InsertBounded(data, kept, 1);
    var all := Canonical.InsertField(data, kept);
    PrintFieldsLen(all);
    ObjectLen(all);
  }

  lemma ObjectLen(fields: seq<Field>)
    ensures JsonLen(Object(fields)) == Utf8Len(PrintFields(fields)) + 2
  {
    Utf8LenConcat("{", PrintFields(fields));
    Utf8LenConcat("{" + PrintFields(fields), "}");
  }

  /** A stored result is bounded and masked at every depth, serialises within the size
      limit, and sanitizing it again changes nothing. */
  lemma SanitizeValueBounds(v: Value)
    ensures Bounded(SanitizeValue(v), 0)
    ensures JsonLen(SanitizeValue(v)) <= MAX_RESULT_JSON_BYTES
    ensures SanitizeValue(SanitizeValue(v)) == SanitizeValue(v)
  {
    RedactIsBounded(v, 0);
    if JsonLen(Redact(v, 0)) > MAX_RESULT_JSON_BYTES { CollapseBounds(Redact(v, 0)); }
    BoundedIsFixed(SanitizeValue(v), 0);
  }

  /** Nothing under a sensitive key influences a stored result. */
  lemma SanitizeValueHidesSecrets(a: Value, b: Value)
    requires SameButSecrets(a, b)
    ensures SanitizeValue(a) == SanitizeValue(b)
  {
    RedactHidesSecrets(a, b, 0);
  }

  function Lookup(fields: seq<Field>, k: string): Option<Value> {
    var i := FieldIndex(fields, k);
    if i < |fields| then Some(fields[i].value) else None
  }

  lemma {:induction false} InsertLookup(f: Field, fields: seq<Field>, k: string)
    requires Lookup(fields, f.key) == None
    ensures Lookup(Canonical.InsertField(f, fields), k) == if k == f.key then Some(f.value) else Lookup(fields, k)
  {
    var r := Canonical.InsertField(f, fields);
    if fields == [] || Less(f.key, fields[0].key) {
      assert r[1..] == fields;
    } else {
      assert Lookup(fields[1..], f.key) == None;
      InsertLookup(f, fields[1..], k);
      assert r[1..] == Canonical.InsertField(f, fields[1..]);
    }
  }

  lemma {:induction false} KeepLookup(fields: seq<Field>, keys: seq<string>, k: string)
    requires forall i, j :: 0 <= i < j < |keys| ==> keys[i] != keys[j]
    ensures Lookup(Keep(fields, keys), k) ==
      if k in keys && Lookup(fields, k).Some? && JsonLen(Lookup(fields, k).value) <= 512
      then Lookup(fields, k) else None
  {
    if keys != [] {
      KeepLookup(fields, keys[1..], k);
      KeepLookup(fields, keys[1..], keys[0]);
      assert keys[0] !in keys[1..];
      var i := FieldIndex(fields, keys[0]);
      if i < |fields| && JsonLen(fields[i].value) <= 512 {
        InsertLookup(Field(keys[0], fields[i].value), Keep(fields, keys[1..]), k);
      }
      assert k in keys <==> k == keys[0] || k in keys[1..];
    }
  }

  /** When a result collapses, the small fields a caller decides on keep their redacted values. */
  lemma DecisionFieldsSurvive(fields: seq<Field>, k: string)
    ensures var r := RedactFields(fields, MAX_OBJECT_KEYS, 1);
      k in KEPT_KEYS && Lookup(r, k).Some? && JsonLen(Lookup(r, k).value) <= 512 ==>
        Child(SanitizeValue(Object(fields)), Key(k)) == Child(Redact(Object(fields), 0), Key(k))
  {
    hide Keep, Canonical.InsertField, RedactFields, JsonLen, FieldIndex;
    var r := RedactFields(fields, MAX_OBJECT_KEYS, 1);
    if k in KEPT_KEYS && Lookup(r, k).Some? && JsonLen(Lookup(r, k).value) <= 512 {
      KeepLookup(r, KEPT_KEYS, k);
      KeepLookup(r, KEPT_KEYS, "data");
      assert "data" !in KEPT_KEYS;
      InsertLookup(Field("data", OMITTED), Keep(r, KEPT_KEYS), k);
    }
  }

  // ----- results stay well formed -----

  lemma {:induction false} RedactValid(v: Value, depth: nat)
    requires Valid(v)
    ensures Valid(Redact(v, depth))
    decreases v, 1
  {
    if depth < MAX_DEPTH {
      match v
      case Array(items) => RedactItemsValid(items, MAX_ARRAY, depth + 1);
      case Object(fields) => RedactFieldsValid(fields, MAX_OBJECT_KEYS, depth + 1);
      case _ =>
    }
  }

  lemma {:induction false} RedactItemsValid(items: seq<Value>, room: nat, depth: nat)
    requires ValidItems(items)
    ensures ValidItems(RedactItems(items, room, depth))
    decreases items
  {
    if items != [] && room > 0 {
      RedactValid(items[0], depth);
      RedactItemsValid(items[1..], room - 1, depth);
      assert RedactItems(items, room, depth)[1..] == RedactItems(items[1..], room - 1, depth);
    }
  }

  /** Putting back a first field with its key keeps the keys in step, and unique. */
  lemma SameKeys(fields: seq<Field>, first: Field, rest: seq<Field>)
    requires fields != [] && first.key == fields[0].key && |rest| < |fields| && UniqueKeys(fields)
    requires forall i :: 0 <= i < |rest| ==> rest[i].key == fields[1..][i].key
    ensures var r := [first] + rest;
      (forall i :: 0 <= i < |r| ==> r[i].key == fields[i].key) && UniqueKeys(r)
  {
    var r := [first] + rest;
    forall i | 0 <= i < |r| ensures r[i].key == fields[i].key {
      if i > 0 { assert r[i] == rest[i - 1] && fields[i] == fields[1..][i - 1]; }
    }
  }

  lemma {:induction false} RedactFieldsValid(fields: seq<Field>, room: nat, depth: nat)
    requires ValidFields(fields) && UniqueKeys(fields)
    ensures var r := RedactFields(fields, room, depth);
      ValidFields(r) && UniqueKeys(r) && |r| <= |fields| &&
      forall i :: 0 <= i < |r| ==> r[i].key == fields[i].key
    decreases fields
  {
    hide Clamped, IsSensitiveKey;
    if fields != [] && room > 0 {
      RedactValid(fields[0].value, depth);
      RedactFieldsValid(fields[1..], room - 1, depth);
      var r := RedactFields(fields, room, depth);
      assert r[1..] == RedactFields(fields[1..], room - 1, depth);
      var rest := RedactFields(fields[1..], room - 1, depth);
      assert r == [RedactField(fields[0], depth)] + rest;
      RedactKeepsKey(fields[0], depth);
      SameKeys(fields, RedactField(fields[0], depth), rest);
    }
  }

  lemma {:induction false} KeepValid(fields: seq<Field>, keys: seq<string>)
    requires ValidFields(fields)
    requires forall i, j :: 0 <= i < j < |keys| ==> keys[i] != keys[j]
    ensures var r := Keep(fields, keys);
      ValidFields(r) && Canonical.Sorted(r) && forall k :: Canonical.HasKey(r, k) ==> k in keys
  {
    if keys != [] {
      KeepValid(fields, keys[1..]);
      var i := FieldIndex(fields, keys[0]);
      if i < |fields| && JsonLen(fields[i].value) <= 512 {
        var f := Field(keys[0], fields[i].value);
        ValidFieldAt(fields, i);
        Canonical.InsertCorrect(f, Keep(fields, keys[1..]));
        var r := Keep(fields, keys);
        forall k | Canonical.HasKey(r, k) ensures k in keys {
          assert k in Canonical.DenoteFields(r);
        }
      }
    }
  }

  lemma {:induction false} ValidFieldAt(fields: seq<Field>, i: nat)
    requires ValidFields(fields) && i < |fields|
    ensures Valid(fields[i].value)
  {
    if i > 0 { ValidFieldAt(fields[1..], i - 1); }
  }

  /** A stored result is well-formed JSON whenever the tool's result was. */
  lemma SanitizeValueValid(v: Value)
    requires Valid(v)
    ensures Valid(SanitizeValue(v))
  {
    hide Redact, Keep, JsonLen, Canonical.InsertField, Canonical.HasKey, Canonical.DenoteFields;
    RedactValid(v, 0);
    var redacted := Redact(v, 0);
    if JsonLen(redacted) > MAX_RESULT_JSON_BYTES && redacted.Object? {
      KeepValid(redacted.fields, KEPT_KEYS);
      assert "data" !in KEPT_KEYS;
      var kept := Keep(redacted.fields, KEPT_KEYS);
      Canonical.InsertCorrect(Field("data", OMITTED), kept);
      Canonical.SortedUnique(Canonical.InsertField(Field("data", OMITTED), kept));
    }
  }

  // ----- display summaries -----

  /** `String::truncate` panics unless it cuts at a character boundary. */
  datatype Panic = TruncateInsideCharacter

  const TRUNCATED: string := " " + [ELLIPSIS] + "[truncated]"

  /** A one-line summary of an arbitrary value, for display. */
  function Sanitize(v: Value): Result<string, Panic> {
    var s := Print(Redact(v, 0));
    if Utf8Len(s) <= MAX_SUMMARY_BYTES then Ok(s)
    else if !CharBoundary(s, MAX_SUMMARY_BYTES) then Err(TruncateInsideCharacter)
    else Ok(BytePrefix(s, MAX_SUMMARY_BYTES) + TRUNCATED)
  }

  lemma {:induction false} BytePrefixLen(s: string, n: nat)
    requires CharBoundary(s, n)
    ensures Utf8Len(BytePrefix(s, n)) == n && BytePrefix(s, n) <= s
  {
    if n != 0 { BytePrefixLen(s[1..], n - Utf8Width(s[0])); }
  }

  /** A summary is produced exactly when the redacted text is short enough or byte 2048
      starts a character; then it is that text, or its first 2048 bytes and the marker. */
  lemma SanitizeSummary(v: Value)
    ensures var s := Print(Redact(v, 0));
      && (Sanitize(v).Ok? <==> Utf8Len(s) <= MAX_SUMMARY_BYTES || CharBoundary(s, MAX_SUMMARY_BYTES))
      && (Sanitize(v).Ok? ==> Utf8Len(Sanitize(v).value) <= MAX_SUMMARY_BYTES + 15)
      && (Sanitize(v).Ok? && Sanitize(v).value != s ==>
            exists p :: p <= s && Utf8Len(p) == MAX_SUMMARY_BYTES && Sanitize(v).value == p + TRUNCATED)
  {
    hide Print, Redact, Utf8Len, CharBoundary, BytePrefix;
    var s := Print(Redact(v, 0));
    if Utf8Len(s) > MAX_SUMMARY_BYTES && CharBoundary(s, MAX_SUMMARY_BYTES) {
      var p := BytePrefix(s, MAX_SUMMARY_BYTES);
      BytePrefixLen(s, MAX_SUMMARY_BYTES);
      Utf8LenConcat(p, TRUNCATED);
      TruncatedLen();
    }
  }

  lemma TruncatedLen()
    ensures Utf8Len(TRUNCATED) == 15
  {
    hide Utf8Len;
    Utf8LenConcat(" " + [ELLIPSIS], "[truncated]");
    Utf8LenConcat(" ", [ELLIPSIS]);
    AsciiLen("[truncated]");
    AsciiLen(" ");
    EllipsisLen();
  }

  lemma EllipsisLen()
    ensures Utf8Len([ELLIPSIS]) == 3
  {
  }

  lemma {:induction false} AsciiLen(s: string)
    requires forall i :: 0 <= i < |s| ==> s[i] as int < 0x80
    ensures Utf8Len(s) == |s|
  {
    if s != "" { AsciiLen(s[1..]); }
  }

  /** Pure ASCII text is always cut cleanly. */
  lemma {:induction false} AsciiBoundary(s: string, n: nat)
    requires n <= |s| && forall i :: 0 <= i < |s| ==> s[i] as int < 0x80
    ensures CharBoundary(s, n)
  {
    if n > 0 { AsciiBoundary(s[1..], n - 1); }
  }

  /** A hundred two-byte characters. */
  function Accents(n: nat): string {
    if n == 0 then "" else "\U{00e9}" + Accents(n - 1)
  }

  function Rows(width: nat, n: nat): seq<Value> {
    if n == 0 then [] else [Str(Accents(width))] + Rows(width, n - 1)
  }

  /** Arguments for which no summary is produced: eleven accented strings after a boolean. */
  const UNCUTTABLE: Value := Array([Bool(true)] + Rows(100, 11))

  lemma {:induction false} AccentsText(n: nat)
    ensures Escape(Accents(n)) == Accents(n) && Utf8Len(Accents(n)) == 2 * n && |Accents(n)| == n
  {
    if n > 0 {
      AccentsText(n - 1);
      assert Accents(n)[1..] == Accents(n - 1);
    }
  }

  lemma {:induction false} OddByteInAccents(n: nat, rest: string, at: nat)
    requires at % 2 == 1 && at < 2 * n
    ensures !CharBoundary(Accents(n) + rest, at)
  {
    assert (Accents(n) + rest)[1..] == Accents(n - 1) + rest;
    if at > 1 { OddByteInAccents(n - 1, rest, at - 2); }
  }

  function Row(width: nat): string {
    "\"" + Accents(width) + "\""
  }

  lemma RowText(width: nat, tail: string)
    requires width == 100
    ensures Utf8Len(Row(width) + ",") == 203 && Print(Str(Accents(width))) == Row(width)
    ensures !CharBoundary(Row(width) + tail, 12)
  {
    AccentsText(width);
    Utf8LenConcat("\"" + Accents(width), "\"");
    Utf8LenConcat("\"", Accents(width));
    Utf8LenConcat(Row(width), ",");
    OddByteInAccents(width, "\"" + tail, 11);
    assert Row(width) + tail == "\"" + (Accents(width) + ("\"" + tail));
    BoundaryShift("\"", Accents(width) + ("\"" + tail), 12);
  }

  /** Row `skip` of the array's text opens 203 bytes after the one before it. */
  lemma {:induction false} InsideRow(width: nat, n: nat, skip: nat, rest: string)
    requires width == 100 && skip < n
    ensures !CharBoundary(PrintItems(Rows(width, n)) + rest, 203 * skip + 12)
  {
    hide Print, Accents, CharBoundary, Utf8Len;
    var tail := if n == 1 then rest else "," + PrintItems(Rows(width, n - 1)) + rest;
    RowText(width, tail);
    assert Rows(width, n)[1..] == Rows(width, n - 1);
    assert PrintItems(Rows(width, n)) + rest == Row(width) + tail;
    if skip > 0 {
      InsideRow(width, n - 1, skip - 1, rest);
      assert Row(width) + tail == (Row(width) + ",") + (PrintItems(Rows(width, n - 1)) + rest);
      BoundaryShift(Row(width) + ",", PrintItems(Rows(width, n - 1)) + rest, 203 * skip + 12);
    }
  }

  lemma {:induction false} RowsBounded(width: nat, n: nat)
    requires width == 100
    ensures BoundedItems(Rows(width, n), 1) && |Rows(width, n)| == n
  {
    hide Accents, Utf8Len;
    if n > 0 {
      AccentsText(width);
      RowsBounded(width, n - 1);
      assert Rows(width, n)[1..] == Rows(width, n - 1);
    }
  }

  lemma {:induction false} RowsLen(width: nat, n: nat)
    requires width == 100 && n > 0
    ensures Utf8Len(PrintItems(Rows(width, n))) == 203 * n - 1
  {
    hide Print, Accents, Utf8Len;
    assert Rows(width, n)[1..] == Rows(width, n - 1);
    RowText(width, "");
    if n == 1 {
      Utf8LenConcat(Row(width), ",");
      assert Utf8Len(",") == 1 by { AsciiLen(","); }
    } else {
      RowsLen(width, n - 1);
      Utf8LenConcat(Row(width) + ",", PrintItems(Rows(width, n - 1)));
    }
  }

  /** No summary of this value is produced: byte 2048 of its text falls inside a character. */
  lemma SummaryCanPanic()
    ensures Sanitize(UNCUTTABLE) == Err(TruncateInsideCharacter)
  {
    UncuttableIsFixed();
    UncuttableText();
  }

  lemma UncuttableIsFixed()
    ensures Redact(UNCUTTABLE, 0) == UNCUTTABLE
  {
    hide Accents, Utf8Len, Rows;
    var items := [Bool(true)] + Rows(100, 11);
    RowsBounded(100, 11);
    assert items[1..] == Rows(100, 11);
    assert BoundedItems(items, 1);
    BoundedIsFixed(UNCUTTABLE, 0);
  }

  /** Its text is longer than a summary, and byte 2048 of it is inside a character. */
  lemma UncuttableText()
    ensures Utf8Len(Print(UNCUTTABLE)) > MAX_SUMMARY_BYTES && !CharBoundary(Print(UNCUTTABLE), MAX_SUMMARY_BYTES)
  {
    hide Accents, CharBoundary, Utf8Len, PrintItems, Rows, Print;
    RowsBounded(100, 11);
    TrueThenRows(Rows(100, 11));
    var rest := PrintItems(Rows(100, 11)) + "]";
    InsideRow(100, 11, 10, "]");
    AsciiLen("[true,");
    BoundaryShift("[true,", rest, MAX_SUMMARY_BYTES);
    RowsLen(100, 11);
    Utf8LenConcat("[true,", rest);
    Utf8LenConcat(PrintItems(Rows(100, 11)), "]");
  }

  lemma TrueThenRows(rows: seq<Value>)
    requires rows != []
    ensures Print(Array([Bool(true)] + rows)) == "[true," + (PrintItems(rows) + "]")
  {
    var items := [Bool(true)] + rows;
    assert items[1..] == rows;
    assert PrintItems(items) == "true" + "," + PrintItems(rows);
  }
}
