/** JSON values as the program holds them, the compact text `serde_json` writes for them, and
    the parser that reads that text back. */
module Json {
  import opened Results

  /** A number is represented by the text that is written for it. */
  datatype Value =
    | Null
    | Bool(b: bool)
    | Number(text: string)
    | Str(s: string)
    | Array(items: seq<Value>)
    | Object(fields: seq<Field>)

  datatype Field = Field(key: string, value: Value)

  predicate IsNumberChar(c: char) {
    '0' <= c <= '9' || c == '-' || c == '+' || c == '.' || c == 'e' || c == 'E'
  }

  /** Numbers are written as a run of number characters and keys of an object are unique. */
  predicate Valid(v: Value) {
    match v
    case Number(text) => text != "" && forall i :: 0 <= i < |text| ==> IsNumberChar(text[i])
    case Array(items) => ValidItems(items)
    case Object(fields) => ValidFields(fields) && UniqueKeys(fields)
    case _ => true
  }

  predicate ValidItems(items: seq<Value>) {
    items == [] || (Valid(items[0]) && ValidItems(items[1..]))
  }

  predicate ValidFields(fields: seq<Field>) {
    fields == [] || (Valid(fields[0].value) && ValidFields(fields[1..]))
  }

  predicate UniqueKeys(fields: seq<Field>) {
    forall i, j :: 0 <= i < j < |fields| ==> fields[i].key != fields[j].key
  }

  // ----- the writer -----

  const HEX: string := "0123456789abcdef"

  function EscapeChar(c: char): string {
    if c == '\"' then "\\\""
    else if c == '\\' then "\\\\"
    else if c as int == 0x08 then "\\b"
    else if c == '\t' then "\\t"
    else if c == '\n' then "\\n"
    else if c as int == 0x0C then "\\f"
    else if c == '\r' then "\\r"
    else if c as int < 0x20 then ['\\', 'u', '0', '0', HEX[c as int / 16], HEX[c as int % 16]]
    else [c]
  }

  function Escape(s: string): string {
    if s == "" then "" else EscapeChar(s[0]) + Escape(s[1..])
  }

  function Quote(s: string): string {
    "\"" + Escape(s) + "\""
  }

  function Print(v: Value): string {
    match v
    case Null => "null"
    case Bool(b) => if b then "true" else "false"
    case Number(text) => text
    case Str(s) => Quote(s)
    case Array(items) => "[" + PrintItems(items) + "]"
    case Object(fields) => "{" + PrintFields(fields) + "}"
  }

  function PrintItems(items: seq<Value>): string {
    if items == [] then ""
    else if |items| == 1 then Print(items[0])
    else Print(items[0]) + "," + PrintItems(items[1..])
  }

  function PrintField(f: Field): string {
    Quote(f.key) + ":" + Print(f.value)
  }

  function PrintFields(fields: seq<Field>): string {
    if fields == [] then ""
    else if |fields| == 1 then PrintField(fields[0])
    else PrintField(fields[0]) + "," + PrintFields(fields[1..])
  }

  // ----- the reader -----

  /** A parsed value and the text that follows it. */
  datatype Parsed<+T> = Parsed(value: T, rest: string)

  function HexDigit(c: char): (d: Option<nat>)
    ensures d.Some? ==> d.value < 16
  {
    if '0' <= c <= '9' then Some(c as int - '0' as int)
    else if 'a' <= c <= 'f' then Some(c as int - 'a' as int + 10)
    else if 'A' <= c <= 'F' then Some(c as int - 'A' as int + 10)
    else None
  }

  function ParseUnicodeEscape(s: string): (r: Option<Parsed<char>>)
    ensures r.Some? ==> |r.value.rest| < |s|
  {
    if |s| < 4 then None
    else match (HexDigit(s[0]), HexDigit(s[1]), HexDigit(s[2]), HexDigit(s[3]))
      case (Some(a), Some(b), Some(c), Some(d)) =>
        var code := ((a * 16 + b) * 16 + c) * 16 + d;
        if 0xD800 <= code < 0xE000 then None else Some(Parsed(code as char, s[4..]))
      case _ => None
  }

  /** One possibly escaped character of a string literal. */
  function ParseChar(s: string): (r: Option<Parsed<char>>)
    ensures r.Some? ==> |r.value.rest| < |s|
  {
    if s == "" || s[0] as int < 0x20 then None
    else if s[0] != '\\' then Some(Parsed(s[0], s[1..]))
    else if |s| < 2 then None
    else match s[1]
      case '\"' => Some(Parsed('\"', s[2..]))
      case '\\' => Some(Parsed('\\', s[2..]))
      case '/' => Some(Parsed('/', s[2..]))
      case 'b' => Some(Parsed(0x08 as char, s[2..]))
      case 't' => Some(Parsed('\t', s[2..]))
      case 'n' => Some(Parsed('\n', s[2..]))
      case 'f' => Some(Parsed(0x0C as char, s[2..]))
      case 'r' => Some(Parsed('\r', s[2..]))
      case 'u' => ParseUnicodeEscape(s[2..])
      case _ => None
  }

  /** The rest of a string literal after its opening quote. */
  function ParseStringTail(s: string): (r: Option<Parsed<string>>)
    ensures r.Some? ==> |r.value.rest| < |s|
    decreases |s|
  {
    if s == "" then None
    else if s[0] == '\"' then Some(Parsed("", s[1..]))
    else match ParseChar(s)
      case None => None
      case Some(c) =>
        match ParseStringTail(c.rest)
        case None => None
        case Some(tail) => Some(Parsed([c.value] + tail.value, tail.rest))
  }

  function ParseNumber(s: string): (r: Parsed<string>)
    ensures |r.value| + |r.rest| == |s|
  {
    if s == "" || !IsNumberChar(s[0]) then Parsed("", s)
    else
      var tail := ParseNumber(s[1..]);
      Parsed([s[0]] + tail.value, tail.rest)
  }

  function ParseValue(s: string): (r: Option<Parsed<Value>>)
    ensures r.Some? ==> |r.value.rest| < |s|
    decreases |s|, 2
  {
    if s == "" then None
    else if s[0] == 'n' then if "null" <= s then Some(Parsed(Null, s[4..])) else None
    else if s[0] == 't' then if "true" <= s then Some(Parsed(Bool(true), s[4..])) else None
    else if s[0] == 'f' then if "false" <= s then Some(Parsed(Bool(false), s[5..])) else None
    else if s[0] == '\"' then
      match ParseStringTail(s[1..])
      case None => None
      case Some(t) => Some(Parsed(Str(t.value), t.rest))
    else if s[0] == '[' then
      if |s| > 1 && s[1] == ']' then Some(Parsed(Array([]), s[2..]))
      else match ParseItems(s[1..])
        case None => None
        case Some(t) => Some(Parsed(Array(t.value), t.rest))
    else if s[0] == '{' then
      if |s| > 1 && s[1] == '}' then Some(Parsed(Object([]), s[2..]))
      else match ParseFields(s[1..])
        case None => None
        case Some(t) => Some(Parsed(Object(t.value), t.rest))
    else
      var number := ParseNumber(s);
      if number.value == "" then None else Some(Parsed(Number(number.value), number.rest))
  }

  /** At least one array item, up to and including the closing bracket. */
  function ParseItems(s: string): (r: Option<Parsed<seq<Value>>>)
    ensures r.Some? ==> |r.value.rest| < |s|
    decreases |s|, 3
  {
    match ParseValue(s)
    case None => None
    case Some(head) =>
      if head.rest == "" then None
      else if head.rest[0] == ']' then Some(Parsed([head.value], head.rest[1..]))
      else if head.rest[0] == ',' then
        match ParseItems(head.rest[1..])
        case None => None
        case Some(tail) => Some(Parsed([head.value] + tail.value, tail.rest))
      else None
  }

  function ParseField(s: string): (r: Option<Parsed<Field>>)
    ensures r.Some? ==> |r.value.rest| < |s|
    decreases |s|, 0
  {
    if s == "" || s[0] != '\"' then None
    else match ParseStringTail(s[1..])
      case None => None
      case Some(key) =>
        if key.rest == "" || key.rest[0] != ':' then None
        else match ParseValue(key.rest[1..])
          case None => None
          case Some(v) => Some(Parsed(Field(key.value, v.value), v.rest))
  }

  /** At least one object field, up to and including the closing brace. */
  function ParseFields(s: string): (r: Option<Parsed<seq<Field>>>)
    ensures r.Some? ==> |r.value.rest| < |s|
    decreases |s|, 1
  {
    match ParseField(s)
    case None => None
    case Some(head) =>
      if head.rest == "" then None
      else if head.rest[0] == '}' then Some(Parsed([head.value], head.rest[1..]))
      else if head.rest[0] == ',' then
        match ParseFields(head.rest[1..])
        case None => None
        case Some(tail) => Some(Parsed([head.value] + tail.value, tail.rest))
      else None
  }

  /** A whole document. */
  function Parse(s: string): Option<Value> {
    match ParseValue(s)
    case None => None
    case Some(p) => if p.rest == "" then Some(p.value) else None
  }

  // ----- reading back what was written -----

  /** A control character's two hexadecimal digits read back as its code. */
  lemma HexRoundTrip(code: nat, rest: string)
    requires code < 0x20
    ensures ParseUnicodeEscape("00" + [HEX[code / 16], HEX[code % 16]] + rest) == Some(Parsed(code as char, rest))
  {
    HexDigitRoundTrip(code / 16);
    HexDigitRoundTrip(code % 16);
    TwoHexDigits(HEX[code / 16], HEX[code % 16], rest);
  }

  lemma HexDigitRoundTrip(d: nat)
    requires d < 16
    ensures HexDigit(HEX[d]) == Some(d)
  {
  }

  lemma TwoHexDigits(a: char, b: char, rest: string)
    requires HexDigit(a).Some? && HexDigit(b).Some?
    ensures ParseUnicodeEscape("00" + [a, b] + rest) ==
      Some(Parsed((HexDigit(a).value * 16 + HexDigit(b).value) as char, rest))
  {
    var s := "00" + [a, b] + rest;
    assert HexDigit('0') == Some(0);
    hide HexDigit;
    assert s[0] == s[1] == '0' && s[2] == a && s[3] == b && s[4..] == rest;
  }

  lemma CharRoundTrip(c: char, rest: string)
    ensures EscapeChar(c) != "" && EscapeChar(c)[0] != '\"'
    ensures ParseChar(EscapeChar(c) + rest) == Some(Parsed(c, rest))
  {
    var e := EscapeChar(c);
    if |e| == 1 {
      assert (e + rest)[1..] == rest;
    } else if |e| == 2 {
      assert (e + rest)[2..] == rest;
    } else {
      var hex := [HEX[c as int / 16], HEX[c as int % 16]];
      assert e + rest == "\\u" + ("00" + hex + rest);
      assert ("\\u" + ("00" + hex + rest))[2..] == "00" + hex + rest;
      HexRoundTrip(c as int, rest);
    }
  }

  lemma {:induction false} StringRoundTrip(s: string, rest: string)
    ensures ParseStringTail(Escape(s) + "\"" + rest) == Some(Parsed(s, rest))
  {
    hide ParseChar, EscapeChar;
    if s == "" {
      assert ("" + "\"" + rest)[1..] == rest;
    } else {
      var tail := Escape(s[1..]) + "\"" + rest;
      CharRoundTrip(s[0], tail);
      StringRoundTrip(s[1..], rest);
      assert Escape(s) + "\"" + rest == EscapeChar(s[0]) + tail;
      assert s == [s[0]] + s[1..];
    }
  }

  /** What may follow a value inside a document. */
  predicate Delimited(rest: string) {
    rest == "" || rest[0] == ',' || rest[0] == ']' || rest[0] == '}'
  }

  lemma {:induction false} NumberRoundTrip(text: string, rest: string)
    requires forall i :: 0 <= i < |text| ==> IsNumberChar(text[i])
    requires Delimited(rest)
    ensures ParseNumber(text + rest) == Parsed(text, rest)
  {
    if text == "" {
      assert text + rest == rest;
      assert rest == "" || !IsNumberChar(rest[0]);
    } else {
      var s := text + rest;
      NumberRoundTrip(text[1..], rest);
      assert s[0] == text[0] && s[1..] == text[1..] + rest;
      assert text == [text[0]] + text[1..];
    }
  }

  /** No value starts with a closing bracket, so `[]` and `[v]` cannot be confused. */
  lemma PrintStart(v: Value)
    requires Valid(v)
    ensures Print(v) != "" && Print(v)[0] != ']' && Print(v)[0] != '}'
  {
  }

  lemma {:induction false} ValueRoundTrip(v: Value, rest: string)
    requires Valid(v) && Delimited(rest)
    ensures ParseValue(Print(v) + rest) == Some(Parsed(v, rest))
    decreases v, 1
  {
    match v
    case Null => LiteralRoundTrip(v, rest);
    case Bool(_) => LiteralRoundTrip(v, rest);
    case Number(n) => NumberValueRoundTrip(n, rest);
    case Str(s) => StrRoundTrip(s, rest);
    case Array(items) =>
      if items != [] { ItemsRoundTrip(items, rest); }
      ArrayRoundTrip(items, rest);
    case Object(fields) =>
      if fields != [] { FieldsRoundTrip(fields, rest); }
      ObjectRoundTrip(fields, rest);
  }

  lemma LiteralRoundTrip(v: Value, rest: string)
    requires v.Null? || v.Bool?
    ensures ParseValue(Print(v) + rest) == Some(Parsed(v, rest))
  {
    assert (Print(v) + rest)[|Print(v)|..] == rest;
  }

  lemma NumberValueRoundTrip(n: string, rest: string)
    requires Valid(Number(n)) && Delimited(rest)
    ensures ParseValue(Print(Number(n)) + rest) == Some(Parsed(Number(n), rest))
  {
    NumberRoundTrip(n, rest);
    assert (n + rest)[0] == n[0];
  }

  lemma StrRoundTrip(s: string, rest: string)
    ensures ParseValue(Print(Str(s)) + rest) == Some(Parsed(Str(s), rest))
  {
    StringRoundTrip(s, rest);
    hide ParseStringTail, Escape, ParseItems, ParseFields, ParseNumber;
    var text := Print(Str(s)) + rest;
    assert text[0] == '\"' && text[1..] == Escape(s) + "\"" + rest;
  }

  lemma ArrayRoundTrip(items: seq<Value>, rest: string)
    requires items != [] ==>
      ValidItems(items) && ParseItems(PrintItems(items) + "]" + rest) == Some(Parsed(items, rest))
    ensures ParseValue(Print(Array(items)) + rest) == Some(Parsed(Array(items), rest))
  {
    if items == [] {
      assert Print(Array(items)) + rest == "[]" + rest && ("[]" + rest)[2..] == rest;
    } else {
      ArrayStart(items, rest);
    }
  }

  lemma ObjectRoundTrip(fields: seq<Field>, rest: string)
    requires fields != [] ==>
      ParseFields(PrintFields(fields) + "}" + rest) == Some(Parsed(fields, rest))
    ensures ParseValue(Print(Object(fields)) + rest) == Some(Parsed(Object(fields), rest))
  {
    if fields == [] {
      assert Print(Object(fields)) + rest == "{}" + rest && ("{}" + rest)[2..] == rest;
    } else {
      ObjectStart(fields, rest);
    }
  }

  /** How the text of a non-empty array opens. */
  lemma ArrayStart(items: seq<Value>, rest: string)
    requires items != [] && ValidItems(items)
    ensures var text := Print(Array(items)) + rest;
      |text| > 1 && text[0] == '[' && text[1] != ']' && text[1..] == PrintItems(items) + "]" + rest
  {
    var text := Print(Array(items)) + rest;
    assert text[1..] == PrintItems(items) + "]" + rest;
    PrintStart(items[0]);
    assert PrintItems(items)[0] == Print(items[0])[0];
  }

  /** How the text of a non-empty object opens. */
  lemma ObjectStart(fields: seq<Field>, rest: string)
    requires fields != []
    ensures var text := Print(Object(fields)) + rest;
      |text| > 1 && text[0] == '{' && text[1] != '}' && text[1..] == PrintFields(fields) + "}" + rest
  {
    var text := Print(Object(fields)) + rest;
    assert text[1..] == PrintFields(fields) + "}" + rest;
    assert Quote(fields[0].key)[0] == '\"';
    assert PrintFields(fields)[0] == '\"';
  }

  lemma {:induction false} ItemsRoundTrip(items: seq<Value>, rest: string)
    requires items != [] && ValidItems(items)
    ensures ParseItems(PrintItems(items) + "]" + rest) == Some(Parsed(items, rest))
    decreases items
  {
    hide ParseValue, Print;
    if |items| == 1 {
      ValueRoundTrip(items[0], "]" + rest);
      assert PrintItems(items) + "]" + rest == Print(items[0]) + ("]" + rest);
      assert ("]" + rest)[1..] == rest && items == [items[0]];
    } else {
      var tail := "," + PrintItems(items[1..]) + "]" + rest;
      ValueRoundTrip(items[0], tail);
      ItemsRoundTrip(items[1..], rest);
      assert PrintItems(items) + "]" + rest == Print(items[0]) + tail;
      assert tail[1..] == PrintItems(items[1..]) + "]" + rest;
      assert items == [items[0]] + items[1..];
    }
  }

  lemma {:induction false} FieldRoundTrip(f: Field, rest: string)
    requires Valid(f.value) && Delimited(rest)
    ensures ParseField(PrintField(f) + rest) == Some(Parsed(f, rest))
    decreases f
  {
    hide ParseField, ParseValue, Print, Quote;
    var value := Print(f.value) + rest;
    ValueRoundTrip(f.value, rest);
    FieldText(f.key, value);
    assert PrintField(f) + rest == Quote(f.key) + (":" + value);
  }

  lemma FieldText(key: string, text: string)
    ensures var s := Quote(key) + (":" + text);
      ParseField(s) == match ParseValue(text)
        case None => None
        case Some(p) => Some(Parsed(Field(key, p.value), p.rest))
  {
    hide ParseStringTail, Escape, ParseValue;
    StringRoundTrip(key, ":" + text);
    assert Quote(key) + (":" + text) == "\"" + (Escape(key) + "\"" + (":" + text));
    assert (":" + text)[1..] == text;
  }

  lemma FieldsText(fields: seq<Field>, rest: string)
    requires |fields| > 1
    ensures PrintFields(fields) + "}" + rest == PrintField(fields[0]) + ("," + (PrintFields(fields[1..]) + "}" + rest))
  {
    hide PrintField;
    assert PrintFields(fields) == PrintField(fields[0]) + "," + PrintFields(fields[1..]);
    hide PrintFields;
    Regroup(PrintField(fields[0]), PrintFields(fields[1..]), rest);
  }

  lemma Regroup(p: string, q: string, rest: string)
    ensures (p + "," + q) + "}" + rest == p + ("," + (q + "}" + rest))
  {
  }

  lemma {:induction false} FieldsRoundTrip(fields: seq<Field>, rest: string)
    requires fields != [] && ValidFields(fields)
    ensures ParseFields(PrintFields(fields) + "}" + rest) == Some(Parsed(fields, rest))
    decreases fields
  {
    hide ParseFields, ParseField, PrintFields, PrintField, ParseValue, Print;
    var text := PrintFields(fields) + "}" + rest;
    if |fields| == 1 {
      FieldRoundTrip(fields[0], "}" + rest);
      LastFieldText(fields, rest);
      LastFieldRead(text, fields[0], rest);
      assert fields == [fields[0]];
    } else {
      var others := PrintFields(fields[1..]) + "}" + rest;
      FieldRoundTrip(fields[0], "," + others);
      FieldsRoundTrip(fields[1..], rest);
      FieldsText(fields, rest);
      FieldRead(text, fields[0], others);
      assert fields == [fields[0]] + fields[1..];
    }
  }

  lemma LastFieldText(fields: seq<Field>, rest: string)
    requires |fields| == 1
    ensures PrintFields(fields) + "}" + rest == PrintField(fields[0]) + ("}" + rest)
  {
    hide PrintField;
  }

  /** Reading one field that another follows. */
  lemma FieldRead(text: string, f: Field, others: string)
    requires ParseField(text) == Some(Parsed(f, "," + others))
    ensures ParseFields(text) == match ParseFields(others)
      case None => None
      case Some(tail) => Some(Parsed([f] + tail.value, tail.rest))
  {
    hide ParseField;
    assert ("," + others)[1..] == others;
  }

  lemma LastFieldRead(text: string, f: Field, rest: string)
    requires ParseField(text) == Some(Parsed(f, "}" + rest))
    ensures ParseFields(text) == Some(Parsed([f], rest))
  {
    hide ParseField;
    assert ("}" + rest)[1..] == rest;
  }

  /** Stored text reads back as exactly the value it was written from. */
  lemma RoundTrip(v: Value)
    requires Valid(v)
    ensures Parse(Print(v)) == Some(v)
  {
    ValueRoundTrip(v, "");
    assert Print(v) + "" == Print(v);
  }
}
