/** Reading and changing the configuration by dotted path, with the wallet key material
    carved out. */
module ConfigAccess {
  import opened Results
  import opened Text
  import opened Json
  import opened JsonPath

  const REDACTED: Value := Str("[redacted]")
  const SECRET_PATHS: seq<string> := ["wallet_encrypted", "wallet_nonce"]

  // ----- path strings -----

  /** The Unicode White_Space characters, which is what `trim` removes. */
  predicate IsWhitespace(c: char) {
    var n := c as int;
    0x09 <= n <= 0x0D || n == 0x20 || n == 0x85 || n == 0xA0 || n == 0x1680 ||
    0x2000 <= n <= 0x200A || n == 0x2028 || n == 0x2029 || n == 0x202F || n == 0x205F || n == 0x3000
  }

  function TrimStart(s: string): string {
    if s != "" && IsWhitespace(s[0]) then TrimStart(s[1..]) else s
  }

  function TrimEnd(s: string): string {
    if s != "" && IsWhitespace(s[|s| - 1]) then TrimEnd(s[..|s| - 1]) else s
  }

  function Trim(s: string): string {
    TrimEnd(TrimStart(s))
  }

  predicate IsDot(c: char) { c == '.' }

  function Segments(path: string): (segments: seq<string>)
    ensures |segments| >= 1
  {
    Split(path, IsDot)
  }

  /** Is `path` a secret path, inside one, or an ancestor of one? Decided on the raw text. */
  predicate TouchesSecret(path: string) {
    var p := Trim(path);
    p == "" ||
    exists secret :: secret in SECRET_PATHS && (p == secret || secret + "." <= p || p + "." <= secret)
  }

  lemma {:induction false} SplitHead(s: string)
    ensures var head := Split(s, IsDot)[0];
      head <= s && '.' !in head && (head == s || head + "." <= s)
  {
    if s != "" && s[0] != '.' {
      SplitHead(s[1..]);
      var tail := Split(s[1..], IsDot)[0];
      var head := Split(s, IsDot)[0];
      assert head == [s[0]] + tail && s == [s[0]] + s[1..];
      assert head + "." == [s[0]] + (tail + ".");
    }
  }

  /** The text before the first dot is determined by the string. */
  lemma {:induction false} FirstSegmentUnique(s: string, a: string)
    requires '.' !in a && (a == s || a + "." <= s)
    ensures Split(s, IsDot)[0] == a
  {
    if a != "" {
      assert a == [a[0]] + a[1..] && a + "." == [a[0]] + (a[1..] + ".");
      FirstSegmentUnique(s[1..], a[1..]);
    }
  }

  lemma PrefixChar(a: string, c: char, s: string)
    requires a + [c] <= s
    ensures c in s
  {
    assert s[|a|] == (a + [c])[|a|];
  }

  lemma SecretHasNoDot(secret: string)
    requires secret in SECRET_PATHS
    ensures '.' !in secret
  {
    assert forall i :: 0 <= i < |"wallet_encrypted"| ==> "wallet_encrypted"[i] != '.';
    assert forall i :: 0 <= i < |"wallet_nonce"| ==> "wallet_nonce"[i] != '.';
  }

  /** The prefix tests on the raw text decide exactly whether the path is the root or its
      first segment names a secret. */
  lemma TouchesSecretIffFirstSegment(path: string)
    ensures TouchesSecret(path) <==> Trim(path) == "" || Segments(Trim(path))[0] in SECRET_PATHS
  {
    var p := Trim(path);
    SplitHead(p);
    if secret :| secret in SECRET_PATHS && (p == secret || secret + "." <= p || p + "." <= secret) {
      SecretHasNoDot(secret);
      if p + "." <= secret { PrefixChar(p, '.', secret); }
      FirstSegmentUnique(p, secret);
    }
    if Segments(p)[0] in SECRET_PATHS {
      var secret := Segments(p)[0];
      assert p == secret || secret + "." <= p;
    }
  }

  // ----- resolving a segment -----

  const USIZE_MAX: nat := 0xFFFF_FFFF_FFFF_FFFF

  function DigitsValue(s: string): (n: Option<nat>) {
    if s == "" then None
    else
      var last := s[|s| - 1];
      if !('0' <= last <= '9') then None
      else
        var d: nat := last as int - '0' as int;
        if |s| == 1 then Some(d)
        else match DigitsValue(s[..|s| - 1])
          case None => None
          case Some(n) => Some(10 * n + d)
  }

  /** `str::parse::<usize>`: an optional plus sign and at least one digit, in range. */
  function ParseIndex(s: string): Option<nat> {
    match DigitsValue(if s != "" && s[0] == '+' then s[1..] else s)
    case Some(n) => if n <= USIZE_MAX then Some(n) else None
    case None => None
  }

  function Zeros(n: nat): string {
    if n == 0 then "" else Zeros(n - 1) + "0"
  }

  lemma {:induction false} ZerosValue(n: nat)
    requires n > 0
    ensures DigitsValue(Zeros(n)) == Some(0)
  {
    var zeros := Zeros(n - 1) + "0";
    assert zeros[..|zeros| - 1] == Zeros(n - 1) && zeros[|zeros| - 1] == '0';
    if n > 1 {
      ZerosValue(n - 1);
      ZerosStart(n - 1);
    }
  }

  lemma {:induction false} ZerosInFront(n: nat, s: string)
    requires s != ""
    ensures DigitsValue(Zeros(n) + s) == DigitsValue(s)
  {
    var padded := Zeros(n) + s;
    if n == 0 {
      assert padded == s;
    } else {
      assert padded[|padded| - 1] == s[|s| - 1];
      if |s| == 1 {
        ZerosValue(n);
        assert padded[..|padded| - 1] == Zeros(n);
      } else {
        ZerosInFront(n, s[..|s| - 1]);
        assert padded[..|padded| - 1] == Zeros(n) + s[..|s| - 1];
      }
    }
  }

  /** An array element has many spellings: any number of leading zeros, with a plus sign in
      front or without, change nothing about the index a segment stands for. */
  lemma IndexAliases(s: string, n: nat)
    requires s != "" && s[0] != '+'
    ensures ParseIndex(Zeros(n) + s) == ParseIndex(s) == ParseIndex("+" + Zeros(n) + s)
  {
    ZerosInFront(n, s);
    var padded := Zeros(n) + s;
    assert ("+" + Zeros(n) + s)[1..] == padded;
    if n > 0 { ZerosStart(n); }
  }

  lemma {:induction false} ZerosStart(n: nat)
    requires n > 0
    ensures Zeros(n) != "" && Zeros(n)[0] == '0'
  {
    if n > 1 { ZerosStart(n - 1); }
  }

  /** And a segment is an index only if nothing but digits is left after one plus sign. */
  lemma IndexNeedsDigits(s: string)
    ensures ParseIndex(s).Some? ==>
      var digits := if s != "" && s[0] == '+' then s[1..] else s;
      digits != "" && forall i :: 0 <= i < |digits| ==> '0' <= digits[i] <= '9'
  {
    DigitsOnly(if s != "" && s[0] == '+' then s[1..] else s);
  }

  lemma {:induction false} DigitsOnly(s: string)
    ensures DigitsValue(s).Some? <==> s != "" && forall i :: 0 <= i < |s| ==> '0' <= s[i] <= '9'
  {
    if |s| > 1 {
      DigitsOnly(s[..|s| - 1]);
      assert s == s[..|s| - 1] + [s[|s| - 1]];
    }
  }

  /** The step a segment takes from `v`, when there is such a child. */
  function StepOf(v: Value, segment: string): (r: Option<Step>)
    ensures r.Some? ==> Child(v, r.value).Some?
  {
    match v
    case Object(fields) =>
      if FieldIndex(fields, segment) < |fields| then Some(Key(segment)) else None
    case Array(items) =>
      (match ParseIndex(segment)
       case Some(i) => if i < |items| then Some(Index(i)) else None
       case None => None)
    case _ => None
  }

  /** The position a list of segments resolves to. */
  function Locate(v: Value, segments: seq<string>): (r: Option<seq<Step>>)
    ensures r.Some? ==> |r.value| == |segments| && At(v, r.value).Some?
    decreases |segments|
  {
    if segments == [] then Some([])
    else match StepOf(v, segments[0])
      case None => None
      case Some(step) =>
        match Locate(Child(v, step).value, segments[1..])
        case None => None
        case Some(rest) => Some([step] + rest)
  }

  datatype Error =
    | NoChanges
    | SecretPath(path: string)
    | NotLoaded
    | UnknownPath(path: string, walked: seq<string>)
    | Rejected
    | SaveFailed

  // ----- writing a position -----

  /** `v` with the child at `step` replaced. */
  function WithChild(v: Value, step: Step, child: Value): (r: Value)
    requires Child(v, step).Some?
    ensures Child(r, step) == Some(child)
  {
    match (v, step)
    case (Object(fields), Key(key)) =>
      var i := FieldIndex(fields, key);
      FieldIndexAfter(fields, key, key, child);
      Object(fields[i := Field(key, child)])
    case (Array(items), Index(i)) => Array(items[i := child])
  }

  lemma {:induction false} FieldIndexAfter(fields: seq<Field>, key: string, other: string, child: Value)
    requires FieldIndex(fields, key) < |fields|
    ensures FieldIndex(fields[FieldIndex(fields, key) := Field(key, child)], other) == FieldIndex(fields, other)
  {
    var i := FieldIndex(fields, key);
    var r := fields[i := Field(key, child)];
    if fields[0].key == key {
      assert r[1..] == fields[1..];
    } else {
      FieldIndexAfter(fields[1..], key, other, child);
      assert r[1..] == fields[1..][i - 1 := Field(key, child)];
    }
  }

  /** `v` with the value at `path` replaced. */
  function Put(v: Value, path: seq<Step>, w: Value): Value
    requires At(v, path).Some?
    decreases |path|
  {
    if path == [] then w
    else WithChild(v, path[0], Put(Child(v, path[0]).value, path[1..], w))
  }

  /** Replacing one child leaves every other child alone. */
  lemma WithChildFrame(v: Value, step: Step, child: Value, other: Step)
    requires Child(v, step).Some? && other != step
    ensures Child(WithChild(v, step, child), other) == Child(v, other)
  {
    match (v, step, other)
    case (Object(fields), Key(k), Key(o)) =>
      FieldIndexAfter(fields, k, o, child);
    case _ =>
  }

  lemma WithSameChild(v: Value, step: Step)
    requires Child(v, step).Some?
    ensures WithChild(v, step, Child(v, step).value) == v
  {
  }

  lemma WithChildTwice(v: Value, step: Step, a: Value, b: Value)
    requires Child(v, step).Some?
    ensures WithChild(WithChild(v, step, a), step, b) == WithChild(v, step, b)
  {
    match (v, step)
    case (Object(fields), Key(k)) => FieldIndexAfter(fields, k, k, a);
    case _ =>
  }

  /** Put then get: the new value is where it was put. */
  lemma {:induction false} PutGet(v: Value, path: seq<Step>, w: Value)
    requires At(v, path).Some?
    ensures At(Put(v, path, w), path) == Some(w)
    decreases |path|
  {
    if path != [] { PutGet(Child(v, path[0]).value, path[1..], w); }
  }

  /** Get then put: writing back what was there changes nothing. */
  lemma {:induction false} GetPut(v: Value, path: seq<Step>)
    requires At(v, path).Some?
    ensures Put(v, path, At(v, path).value) == v
    decreases |path|
  {
    if path != [] {
      GetPut(Child(v, path[0]).value, path[1..]);
      WithSameChild(v, path[0]);
    }
  }

  /** Put twice: the second write hides the first. */
  lemma {:induction false} PutPut(v: Value, path: seq<Step>, a: Value, b: Value)
    requires At(v, path).Some?
    ensures At(Put(v, path, a), path).Some?
    ensures Put(Put(v, path, a), path, b) == Put(v, path, b)
    decreases |path|
  {
    PutGet(v, path, a);
    if path != [] {
      var child := Child(v, path[0]).value;
      PutPut(child, path[1..], a, b);
      WithChildTwice(v, path[0], Put(child, path[1..], a), Put(child, path[1..], b));
    }
  }

  /** Frame: a position neither above nor below the written one keeps its value, present or not. */
  lemma {:induction false} PutFrame(v: Value, path: seq<Step>, w: Value, other: seq<Step>)
    requires At(v, path).Some? && !(path <= other) && !(other <= path)
    ensures At(Put(v, path, w), other) == At(v, other)
    decreases |path|
  {
    assert path != [] && other != [];
    var child := Child(v, path[0]).value;
    if path[0] == other[0] {
      assert path == [path[0]] + path[1..] && other == [other[0]] + other[1..];
      PutFrame(child, path[1..], w, other[1..]);
    } else {
      WithChildFrame(v, path[0], Put(child, path[1..], w), other[0]);
    }
  }

  // ----- resolve and set_at -----

  /** How far `Locate` gets before it fails. */
  function Walked(v: Value, segments: seq<string>): seq<string>
    decreases |segments|
  {
    if segments == [] then []
    else match StepOf(v, segments[0])
      case None => []
      case Some(step) => [segments[0]] + Walked(Child(v, step).value, segments[1..])
  }

  function Resolved(root: Value, path: string): Result<Value, Error> {
    match Locate(root, Segments(path))
    case Some(position) => Ok(At(root, position).value)
    case None => Err(UnknownPath(path, Walked(root, Segments(path))))
  }

  /** The tree after a write, and what the path held before. */
  datatype Written = Written(tree: Value, previous: Value)

  function SetAt(root: Value, path: string, value: Value): Result<Written, Error> {
    match Locate(root, Segments(path))
    case Some(position) => Ok(Written(Put(root, position, value), At(root, position).value))
    case None => Err(UnknownPath(path, Walked(root, Segments(path))))
  }

  // ----- walking a path -----

  /** A walk of the first `i` segments took these steps and is now at `current`. */
  ghost predicate Reached(root: Value, segments: seq<string>, i: nat, steps: seq<Step>, current: Value)
    requires i <= |segments|
  {
    At(root, steps) == Some(current) &&
    Walked(root, segments) == segments[..i] + Walked(current, segments[i..]) &&
    match Locate(current, segments[i..])
    case Some(rest) => Locate(root, segments) == Some(steps + rest)
    case None => Locate(root, segments) == None
  }

  lemma ReachedRoot(root: Value, segments: seq<string>)
    ensures Reached(root, segments, 0, [], root)
  {
    assert segments[0..] == segments;
    match Locate(root, segments)
    case Some(rest) => assert [] + rest == rest;
    case None =>
  }

  lemma AtStep(root: Value, position: seq<Step>, step: Step)
    requires At(root, position).Some?
    ensures At(root, position + [step]) == Child(At(root, position).value, step)
  {
    AtAppend(root, position, [step]);
  }

  /** One more segment: either the walk ends here in error, or it is one step further. */
  lemma ReachedNext(root: Value, segments: seq<string>, i: nat, steps: seq<Step>, current: Value)
    requires i < |segments| && Reached(root, segments, i, steps, current)
    ensures match StepOf(current, segments[i])
      case None => Locate(root, segments) == None && Walked(root, segments) == segments[..i]
      case Some(step) => Reached(root, segments, i + 1, steps + [step], Child(current, step).value)
  {
    hide StepOf, Child, At;
    var rest := segments[i..];
    assert rest[0] == segments[i] && rest[1..] == segments[i + 1..];
    match StepOf(current, segments[i])
    case None => assert segments[..i] + [] == segments[..i];
    case Some(step) =>
      var child := Child(current, step).value;
      AtStep(root, steps, step);
      assert segments[..i + 1] == segments[..i] + [segments[i]];
      assert segments[..i + 1] + Walked(child, rest[1..]) == segments[..i] + ([segments[i]] + Walked(child, rest[1..]));
      match Locate(child, rest[1..])
      case None =>
      case Some(onward) => assert steps + ([step] + onward) == (steps + [step]) + onward;
  }

  lemma ReachedEnd(root: Value, segments: seq<string>, steps: seq<Step>, current: Value)
    requires Reached(root, segments, |segments|, steps, current)
    ensures Locate(root, segments) == Some(steps) && At(root, steps) == Some(current)
  {
    assert segments[|segments|..] == [] && steps + [] == steps;
  }

  /** Walk a dotted path one segment at a time. */
  method Resolve(root: Value, path: string) returns (r: Result<Value, Error>)
    ensures r == Resolved(root, path)
  {
    hide StepOf, Child, Split, At, Locate, Walked, Reached;
    var segments := Segments(path);
    var current := root;
    ghost var steps: seq<Step> := [];
    ReachedRoot(root, segments);
    var i := 0;
    while i < |segments|
      invariant i <= |segments| && Reached(root, segments, i, steps, current)
    {
      ReachedNext(root, segments, i, steps, current);
      match StepOf(current, segments[i]) {
        case None => return Err(UnknownPath(path, segments[..i]));
        case Some(step) => current, steps := Child(current, step).value, steps + [step];
      }
      i := i + 1;
    }
    ReachedEnd(root, segments, steps, current);
    r := Ok(current);
  }

  /** The path of the root's replaced value resolves to the same position afterwards. */
  lemma {:induction false} LocateAfterPut(v: Value, segments: seq<string>, w: Value)
    requires Locate(v, segments).Some?
    ensures Locate(Put(v, Locate(v, segments).value, w), segments) == Locate(v, segments)
    decreases |segments|
  {
    if segments != [] {
      var position := Locate(v, segments).value;
      var child := Child(v, position[0]).value;
      assert position[1..] == Locate(child, segments[1..]).value;
      LocateAfterPut(child, segments[1..], w);
      StepAfterWithChild(v, segments[0], Put(child, position[1..], w));
    }
  }

  lemma StepAfterWithChild(v: Value, segment: string, child: Value)
    requires StepOf(v, segment).Some?
    ensures StepOf(WithChild(v, StepOf(v, segment).value, child), segment) == StepOf(v, segment)
  {
  }

  /** The lens laws of `set_at`: it succeeds exactly when the path resolves, reports the old
      value, the path then resolves to the new one, every position neither above nor below
      the target keeps its value, and writing the old value back restores the tree. */
  lemma SetAtLaws(root: Value, path: string, value: Value)
    ensures SetAt(root, path, value).Ok? <==> Resolved(root, path).Ok?
    ensures SetAt(root, path, value).Err? ==>
      Resolved(root, path).Err? && Resolved(root, path).error == SetAt(root, path, value).error
    ensures SetAt(root, path, value).Ok? ==>
      var Written(tree, previous) := SetAt(root, path, value).value;
      && Resolved(root, path) == Ok(previous)
      && Resolved(tree, path) == Ok(value)
      && SetAt(tree, path, previous) == Ok(Written(root, value))
      && forall other :: var position := Locate(root, Segments(path)).value;
           !(position <= other) && !(other <= position) ==> At(tree, other) == At(root, other)
  {
    var segments := Segments(path);
    match Locate(root, segments)
    case None =>
    case Some(position) =>
      LocateAfterPut(root, segments, value);
      PutGet(root, position, value);
      GetPut(root, position);
      PutPut(root, position, value, At(root, position).value);
      forall other | !(position <= other) && !(other <= position)
        ensures At(Put(root, position, value), other) == At(root, other)
      {
        PutFrame(root, position, value, other);
      }
  }

  /** Each node is the child of the one before it. */
  ghost predicate Chain(nodes: seq<Value>, steps: seq<Step>) {
    |nodes| == |steps| + 1 && forall k :: 0 <= k < |steps| ==> Child(nodes[k], steps[k]) == Some(nodes[k + 1])
  }

  lemma {:induction false} ChainAt(nodes: seq<Value>, steps: seq<Step>, k: nat)
    requires Chain(nodes, steps) && k <= |steps|
    ensures At(nodes[k], steps[k..]) == Some(nodes[|steps|])
    decreases |steps| - k
  {
    hide Child;
    if k < |steps| {
      ChainAt(nodes, steps, k + 1);
      assert steps[k..][0] == steps[k] && steps[k..][1..] == steps[k + 1..];
    }
  }

  /** Writing a node's new child is the write one level up. */
  lemma PutUp(nodes: seq<Value>, steps: seq<Step>, k: nat, value: Value)
    requires Chain(nodes, steps) && k < |steps|
    ensures At(nodes[k], steps[k..]).Some? && At(nodes[k + 1], steps[k + 1..]).Some?
    ensures Put(nodes[k], steps[k..], value) == WithChild(nodes[k], steps[k], Put(nodes[k + 1], steps[k + 1..], value))
  {
    ChainAt(nodes, steps, k);
    ChainAt(nodes, steps, k + 1);
    hide Child;
    assert steps[k..][0] == steps[k] && steps[k..][1..] == steps[k + 1..];
  }

  /** Walk the parents, look the last segment up in the innermost one, replace what it holds,
      and put each changed parent back into its own parent. */
  method SetAtPath(root: Value, path: string, value: Value) returns (r: Result<Written, Error>)
    ensures r == SetAt(root, path, value)
  {
    hide StepOf, Child, Split, At, Put, Locate, Walked, Reached, WithChild;
    var segments := Segments(path);
    var last := |segments| - 1;
    var nodes: seq<Value>, steps: seq<Step> := [root], [];
    ReachedRoot(root, segments);
    var i := 0;
    while i < last
      invariant i <= last && |steps| == i && Chain(nodes, steps) && nodes[0] == root
      invariant Reached(root, segments, i, steps, nodes[i])
    {
      ReachedNext(root, segments, i, steps, nodes[i]);
      match StepOf(nodes[i], segments[i]) {
        case None => return Err(UnknownPath(path, segments[..i]));
        case Some(step) => nodes, steps := nodes + [Child(nodes[i], step).value], steps + [step];
      }
      i := i + 1;
    }
    ReachedNext(root, segments, last, steps, nodes[last]);
    match StepOf(nodes[last], segments[last]) {
      case None => return Err(UnknownPath(path, segments[..last]));
      case Some(step) =>
        var previous := Child(nodes[last], step).value;
        ghost var whole, path' := nodes + [previous], steps + [step];
        ReachedEnd(root, segments, path', previous);
        PutUp(whole, path', last, value);
        PutHere(previous, path'[last + 1..], value);
        var tree := WithChild(nodes[last], step, value);
        while i > 0
          invariant i <= last && At(whole[i], path'[i..]).Some? && tree == Put(whole[i], path'[i..], value)
        {
          i := i - 1;
          PutUp(whole, path', i, value);
          tree := WithChild(nodes[i], steps[i], tree);
        }
        assert path'[0..] == path';
        r := Ok(Written(tree, previous));
    }
  }

  lemma PutHere(v: Value, path: seq<Step>, w: Value)
    requires path == []
    ensures At(v, path).Some? && Put(v, path, w) == w
  {
  }

  // ----- batches -----

  datatype Update = Update(path: string, value: Value)
  datatype Applied = Applied(path: string, previous: Value, value: Value)
  datatype Candidate = Candidate(tree: Value, applied: seq<Applied>)

  /** Every update in order, stopping at the first that does not resolve. */
  function ApplyAll(tree: Value, updates: seq<Update>): Result<Candidate, Error>
    decreases |updates|
  {
    if updates == [] then Ok(Candidate(tree, []))
    else
      var path := Trim(updates[0].path);
      match SetAt(tree, path, updates[0].value)
      case Err(e) => Err(e)
      case Ok(written) =>
        match ApplyAll(written.tree, updates[1..])
        case Err(e) => Err(e)
        case Ok(rest) =>
          Ok(Candidate(rest.tree, [Applied(path, written.previous, updates[0].value)] + rest.applied))
  }

  /** The candidate document, if every path resolves and the schema accepts the result. */
  function Built(current: Value, updates: seq<Update>, accepts: Value -> bool): Result<Candidate, Error> {
    match ApplyAll(current, updates)
    case Err(e) => Err(e)
    case Ok(candidate) => if accepts(candidate.tree) then Ok(candidate) else Err(Rejected)
  }

  method BuildUpdated(current: Value, updates: seq<Update>, accepts: Value -> bool)
    returns (r: Result<Candidate, Error>)
    ensures r == Built(current, updates, accepts)
  {
    hide SetAt, Trim;
    assert updates[0..] == updates;
    ghost var all := ApplyAll(current, updates);
    assert all.Ok? ==> [] + all.value.applied == all.value.applied;
    var working := current;
    var applied: seq<Applied> := [];
    var i := 0;
    while i < |updates|
      invariant i <= |updates|
      invariant match ApplyAll(working, updates[i..])
        case Ok(rest) => ApplyAll(current, updates) == Ok(Candidate(rest.tree, applied + rest.applied))
        case Err(e) => ApplyAll(current, updates) == Err(e)
    {
      assert updates[i..][0] == updates[i] && updates[i..][1..] == updates[i + 1..];
      var path := Trim(updates[i].path);
      var written := SetAtPath(working, path, updates[i].value);
      if written.Err? {
        return Err(written.error);
      }
      var change := Applied(path, written.value.previous, updates[i].value);
      ghost var rest := ApplyAll(written.value.tree, updates[i + 1..]);
      assert rest.Ok? ==> applied + ([change] + rest.value.applied) == (applied + [change]) + rest.value.applied;
      working, applied := written.value.tree, applied + [change];
      i := i + 1;
    }
    assert applied + [] == applied;
    r := if accepts(working) then Ok(Candidate(working, applied)) else Err(Rejected);
  }

  predicate NoSecrets(updates: seq<Update>) {
    forall u :: u in updates ==> !TouchesSecret(Trim(u.path))
  }

  lemma {:induction false} TrimStartFixed(s: string)
    ensures TrimStart(TrimStart(s)) == TrimStart(s)
    ensures TrimStart(s) == "" || !IsWhitespace(TrimStart(s)[0])
  {
    if s != "" && IsWhitespace(s[0]) { TrimStartFixed(s[1..]); }
  }

  /** Trimming the end never removes a leading character that is not white space. */
  lemma {:induction false} TrimEndFixed(s: string)
    ensures TrimEnd(TrimEnd(s)) == TrimEnd(s) && TrimEnd(s) <= s
  {
    if s != "" && IsWhitespace(s[|s| - 1]) { TrimEndFixed(s[..|s| - 1]); }
  }

  lemma TrimIdempotent(s: string)
    ensures Trim(Trim(s)) == Trim(s)
  {
    var t := TrimStart(s);
    TrimStartFixed(s);
    TrimEndFixed(t);
    if TrimEnd(t) != "" { assert TrimEnd(t)[0] == t[0]; }
  }

  // ----- key material -----

  /** A write whose path does not touch key material leaves both secrets where they were. */
  lemma SetAtKeepsSecrets(root: Value, path: string, value: Value, secret: string)
    requires !TouchesSecret(Trim(path)) && SetAt(root, Trim(path), value).Ok? && secret in SECRET_PATHS
    ensures At(SetAt(root, Trim(path), value).value.tree, [Key(secret)]) == At(root, [Key(secret)])
  {
    var p := Trim(path);
    TrimIdempotent(path);
    TouchesSecretIffFirstSegment(p);
    var position := Locate(root, Segments(p)).value;
    assert position[0] != Key(secret);
    assert !(position <= [Key(secret)]) && !([Key(secret)] <= position);
    PutFrame(root, position, value, [Key(secret)]);
  }

  /** No accepted batch changes either secret, whatever order its updates come in. */
  lemma {:induction false} BatchKeepsSecrets(tree: Value, updates: seq<Update>, secret: string)
    requires NoSecrets(updates) && ApplyAll(tree, updates).Ok? && secret in SECRET_PATHS
    ensures At(ApplyAll(tree, updates).value.tree, [Key(secret)]) == At(tree, [Key(secret)])
    decreases |updates|
  {
    if updates != [] {
      SetAtKeepsSecrets(tree, updates[0].path, updates[0].value, secret);
      var written := SetAt(tree, Trim(updates[0].path), updates[0].value).value;
      BatchKeepsSecrets(written.tree, updates[1..], secret);
    }
  }

  /** The reported changes, last first, as updates that restore the previous values. */
  function Undo(applied: seq<Applied>): seq<Update> {
    if applied == [] then []
    else Undo(applied[1..]) + [Update(applied[0].path, applied[0].previous)]
  }

  lemma {:induction false} ApplyAllAppend(tree: Value, a: seq<Update>, b: seq<Update>)
    requires ApplyAll(tree, a).Ok? && ApplyAll(ApplyAll(tree, a).value.tree, b).Ok?
    ensures ApplyAll(tree, a + b).Ok?
    ensures ApplyAll(tree, a + b).value.tree == ApplyAll(ApplyAll(tree, a).value.tree, b).value.tree
    decreases |a|
  {
    hide SetAt, Trim;
    if a == [] {
      assert a + b == b;
    } else {
      assert (a + b)[1..] == a[1..] + b;
      ApplyAllAppend(SetAt(tree, Trim(a[0].path), a[0].value).value.tree, a[1..], b);
    }
  }

  /** What a batch reports is enough to undo it: writing the previous values back, last
      change first, restores the original document exactly. */
  lemma {:induction false} UndoRestores(tree: Value, updates: seq<Update>)
    requires ApplyAll(tree, updates).Ok?
    ensures var done := ApplyAll(tree, updates).value;
      |done.applied| == |updates| &&
      ApplyAll(done.tree, Undo(done.applied)).Ok? &&
      ApplyAll(done.tree, Undo(done.applied)).value.tree == tree
    decreases |updates|
  {
    if updates != [] {
      var path := Trim(updates[0].path);
      var written := SetAt(tree, path, updates[0].value).value;
      var done := ApplyAll(tree, updates).value;
      UndoRestores(written.tree, updates[1..]);
      assert done.applied[1..] == ApplyAll(written.tree, updates[1..]).value.applied;
      SetAtLaws(tree, path, updates[0].value);
      TrimIdempotent(updates[0].path);
      hide SetAt, Trim;
      var last := [Update(path, written.previous)];
      assert last[1..] == [];
      ApplyAllAppend(done.tree, Undo(done.applied[1..]), last);
    }
  }

  // ----- redacted reads -----

  function RedactSecret(v: Value, secret: string): Value {
    match Child(v, Key(secret))
    case Some(stored) => if stored == Str("") then v else WithChild(v, Key(secret), REDACTED)
    case None => v
  }

  /** Every secret that is set is replaced; an unset one stays the empty string. */
  function RedactSecrets(root: Value): Value {
    RedactSecret(RedactSecret(root, SECRET_PATHS[0]), SECRET_PATHS[1])
  }

  /** A read sees the same document whatever key material is stored, and everything else as it is. */
  lemma RedactSecretsHides(root: Value, secret: string, w: Value)
    requires secret in SECRET_PATHS
    requires Child(root, Key(secret)).Some? && Child(root, Key(secret)).value != Str("") && w != Str("")
    ensures RedactSecrets(WithChild(root, Key(secret), w)) == RedactSecrets(root)
    ensures Child(RedactSecrets(root), Key(secret)) == Some(REDACTED)
    ensures forall k :: k !in SECRET_PATHS ==> Child(RedactSecrets(root), Key(k)) == Child(root, Key(k))
  {
    var s0, s1 := SECRET_PATHS[0], SECRET_PATHS[1];
    assert |s0| == 16 && |s1| == 12;
    var a := RedactSecret(root, s0);
    if secret == s0 {
      WithChildTwice(root, Key(s0), w, REDACTED);
      if Child(a, Key(s1)).Some? { WithChildFrame(a, Key(s1), REDACTED, Key(s0)); }
    } else {
      RedactSecretFrame(root, s0, s1);
      SwapChildren(root, s0, s1, w);
      WithChildTwice(a, Key(s1), w, REDACTED);
    }
    forall k | k !in SECRET_PATHS
      ensures Child(RedactSecrets(root), Key(k)) == Child(root, Key(k))
    {
      RedactSecretFrame(root, s0, k);
      RedactSecretFrame(a, s1, k);
    }
  }

  lemma RedactSecretFrame(v: Value, secret: string, k: string)
    requires k != secret
    ensures Child(RedactSecret(v, secret), Key(k)) == Child(v, Key(k))
  {
    if Child(v, Key(secret)).Some? { WithChildFrame(v, Key(secret), REDACTED, Key(k)); }
  }

  /** Redacting one key and writing another commute. */
  lemma SwapChildren(v: Value, redacted: string, written: string, w: Value)
    requires redacted != written && Child(v, Key(written)).Some?
    ensures Child(RedactSecret(v, redacted), Key(written)).Some?
    ensures RedactSecret(WithChild(v, Key(written), w), redacted)
         == WithChild(RedactSecret(v, redacted), Key(written), w)
  {
    RedactSecretFrame(v, redacted, written);
    WithChildFrame(v, Key(written), w, Key(redacted));
    hide FieldIndex, WithChild;
    if Child(v, Key(redacted)).Some? {
      if Child(v, Key(redacted)).value != Str("") { SwapWrites(v.fields, redacted, written, w); }
    }
  }

  /** Writing two fields commutes, one index at a time. */
  lemma SwapWrites(fields: seq<Field>, a: string, b: string, w: Value)
    requires a != b && FieldIndex(fields, a) < |fields| && FieldIndex(fields, b) < |fields|
    ensures var v := Object(fields);
      && Child(v, Key(a)).Some? && Child(v, Key(b)).Some?
      && Child(WithChild(v, Key(a), REDACTED), Key(b)).Some? && Child(WithChild(v, Key(b), w), Key(a)).Some?
      && WithChild(WithChild(v, Key(a), REDACTED), Key(b), w) == WithChild(WithChild(v, Key(b), w), Key(a), REDACTED)
  {
    hide FieldIndex, Child, WithChild;
    var i, j := FieldIndex(fields, a), FieldIndex(fields, b);
    var first, second := fields[i := Field(a, REDACTED)], fields[j := Field(b, w)];
    FieldIndexAfter(fields, a, b, REDACTED);
    FieldIndexAfter(fields, b, a, w);
    WriteField(fields, a, REDACTED);
    WriteField(fields, b, w);
    WriteField(first, b, w);
    WriteField(second, a, REDACTED);
    UpdatesCommute(fields, i, j, Field(a, REDACTED), Field(b, w));
  }

  lemma WriteField(fields: seq<Field>, key: string, w: Value)
    requires FieldIndex(fields, key) < |fields|
    ensures Child(Object(fields), Key(key)).Some?
    ensures WithChild(Object(fields), Key(key), w) == Object(fields[FieldIndex(fields, key) := Field(key, w)])
  {
    hide FieldIndex;
  }

  lemma UpdatesCommute(fields: seq<Field>, i: nat, j: nat, x: Field, y: Field)
    requires i < |fields| && j < |fields| && i != j
    ensures fields[i := x][j := y] == fields[j := y][i := x]
  {
  }

  // ----- the live configuration -----

  /** The first path of a batch that touches key material, if any does. */
  method FirstSecret(updates: seq<Update>) returns (r: Option<string>)
    ensures r.None? <==> NoSecrets(updates)
    ensures r.Some? ==> TouchesSecret(r.value) && exists i ::
      0 <= i < |updates| && r.value == Trim(updates[i].path) && NoSecrets(updates[..i])
  {
    hide TouchesSecret, Trim;
    var i := 0;
    while i < |updates|
      invariant i <= |updates|
      invariant NoSecrets(updates[..i])
    {
      var path := Trim(updates[i].path);
      if TouchesSecret(path) {
        assert updates[i] in updates;
        return Some(path);
      }
      assert updates[..i + 1] == updates[..i] + [updates[i]];
      i := i + 1;
    }
    assert updates[..i] == updates;
    r := None;
  }

  /** The live configuration in its serialised form, and what was last written to disk. The
      schema is a parameter: it accepts or rejects a whole document and reads an accepted
      one faithfully. */
  class ConfigStore {
    var initialized: bool
    var live: Value
    var saved: Value

    constructor (document: Value)
      ensures initialized && live == saved == document
    {
      initialized, live, saved := true, document, document;
    }

    /** All or nothing: any refused, unresolved or rejected entry leaves the live document
        alone. Only a failed save is reported after the live document has changed. */
    method Apply(updates: seq<Update>, accepts: Value -> bool, saveSucceeds: bool)
      returns (r: Result<seq<Applied>, Error>)
      modifies this`live, this`saved
      ensures updates == [] ==> r == Err(NoChanges)
      ensures updates != [] && !NoSecrets(updates) ==>
        r.Err? && r.error.SecretPath? && TouchesSecret(r.error.path)
      ensures updates != [] && NoSecrets(updates) && !initialized ==> r == Err(NotLoaded)
      ensures updates == [] || !NoSecrets(updates) || !initialized || Built(old(live), updates, accepts).Err?
        ==> r.Err? && live == old(live) && saved == old(saved)
      ensures updates != [] && NoSecrets(updates) && initialized && Built(old(live), updates, accepts).Err?
        ==> r == Err(Built(old(live), updates, accepts).error)
      ensures updates != [] && NoSecrets(updates) && initialized && Built(old(live), updates, accepts).Ok? ==>
        var candidate := Built(old(live), updates, accepts).value;
        && live == candidate.tree
        && saved == (if saveSucceeds then candidate.tree else old(saved))
        && r == (if saveSucceeds then Ok(candidate.applied) else Err(SaveFailed))
    {
      hide NoSecrets, TouchesSecret, Built;
      if updates == [] {
        return Err(NoChanges);
      }
      var refused := FirstSecret(updates);
      if refused.Some? {
        return Err(SecretPath(refused.value));
      }
      if !initialized {
        return Err(NotLoaded);
      }
      var outcome := BuildUpdated(live, updates, accepts);
      if outcome.Err? {
        return Err(outcome.error);
      }
      live := outcome.value.tree;
      if !saveSucceeds {
        return Err(SaveFailed);
      }
      saved := live;
      r := Ok(outcome.value.applied);
    }

    /** The document, or the subtree at a path, with key material redacted. */
    method Read(path: Option<string>) returns (r: Result<Value, Error>)
      ensures !initialized ==> r == Err(NotLoaded)
      ensures initialized ==> r == (if path.None? || Trim(path.value) == "" then Ok(RedactSecrets(live))
                                    else Resolved(RedactSecrets(live), Trim(path.value)))
    {
      if !initialized {
        return Err(NotLoaded);
      }
      var root := RedactSecrets(live);
      if path.None? || Trim(path.value) == "" {
        return Ok(root);
      }
      r := Resolve(root, Trim(path.value));
    }
  }
}
