/** Which core binary a launch runs: the bundled one, or a staged one that is strictly
    newer, intact, and not known to have failed. */
module CoreResolver {
  import opened Results
  import opened Text

  // ----- versions -----

  predicate IsDigit(c: char) { '0' <= c <= '9' }

  predicate IsDigits(s: string) {
    s != "" && forall i :: 0 <= i < |s| ==> IsDigit(s[i])
  }

  predicate IsSuffixChar(c: char) {
    IsDigit(c) || 'A' <= c <= 'Z' || 'a' <= c <= 'z' || c == '.' || c == '-'
  }

  predicate IsDot(c: char) { c == '.' }

  predicate IsSlash(c: char) { c == '/' }

  /** The text before the first `-` or `+`. */
  function CorePart(s: string): (r: string)
    ensures r <= s
  {
    if s == "" || s[0] == '-' || s[0] == '+' then "" else [s[0]] + CorePart(s[1..])
  }

  /** Three dotted numbers, and after a `-` or `+` a non-empty suffix. */
  predicate IsValidVersion(s: string) {
    var core := CorePart(s);
    var parts := Split(core, IsDot);
    var suffix := s[|core|..];
    |parts| == 3 && IsDigits(parts[0]) && IsDigits(parts[1]) && IsDigits(parts[2]) &&
    (suffix == "" || (|suffix| > 1 && forall i :: 1 <= i < |suffix| ==> IsSuffixChar(suffix[i])))
  }

  function NumberOf(s: string): nat
    requires forall i :: 0 <= i < |s| ==> IsDigit(s[i])
  {
    if s == "" then 0
    else
      assert IsDigit(s[|s| - 1]);
      10 * NumberOf(s[..|s| - 1]) + (s[|s| - 1] as int - '0' as int)
  }

  /** One of the dotted pieces as a number; a missing piece, or one that is no number, is 0. */
  function Piece(parts: seq<string>, i: nat): nat {
    if i < |parts| && IsDigits(parts[i]) then NumberOf(parts[i]) else 0
  }

  /** The three numbers of any version text; its suffix plays no part in comparisons. */
  function Numbers(s: string): (n: seq<nat>)
    ensures |n| == 3
  {
    var parts := Split(CorePart(s), IsDot);
    [Piece(parts, 0), Piece(parts, 1), Piece(parts, 2)]
  }

  /** Is `a` lexicographically below `b`? */
  predicate Below(a: seq<nat>, b: seq<nat>)
    requires |a| == |b|
  {
    a != [] && (a[0] < b[0] || (a[0] == b[0] && Below(a[1..], b[1..])))
  }

  function Order(a: seq<nat>, b: seq<nat>): int
    requires |a| == |b|
  {
    if Below(b, a) then 1 else if Below(a, b) then -1 else 0
  }

  lemma {:induction false} BelowFrom(a: seq<nat>, b: seq<nat>, i: nat)
    requires |a| == |b| && i <= |a| && a[..i] == b[..i]
    ensures Below(a, b) <==> Below(a[i..], b[i..])
  {
    if i > 0 {
      assert a[0] == a[..i][0] == b[0];
      assert a[1..][..i - 1] == a[..i][1..] && b[1..][..i - 1] == b[..i][1..];
      BelowFrom(a[1..], b[1..], i - 1);
      assert a[1..][i - 1..] == a[i..] && b[1..][i - 1..] == b[i..];
    }
  }

  /** Compare component by component, stopping at the first difference. */
  method CompareVersions(left: string, right: string) returns (r: int)
    ensures r == Order(Numbers(left), Numbers(right))
  {
    var a, b := Numbers(left), Numbers(right);
    var i := 0;
    while i < 3
      invariant i <= 3 && a[..i] == b[..i]
    {
      BelowFrom(a, b, i);
      BelowFrom(b, a, i);
      if a[i] > b[i] {
        return 1;
      }
      if a[i] < b[i] {
        return -1;
      }
      i := i + 1;
    }
    assert a[..3] == a && b[..3] == b;
    BelowIrreflexive(a);
    r := 0;
  }

  lemma {:induction false} BelowIrreflexive(a: seq<nat>)
    ensures !Below(a, a)
  {
    if a != [] { BelowIrreflexive(a[1..]); }
  }

  lemma {:induction false} BelowTransitive(a: seq<nat>, b: seq<nat>, c: seq<nat>)
    requires |a| == |b| == |c| && Below(a, b) && Below(b, c)
    ensures Below(a, c)
  {
    if a[0] == b[0] == c[0] { BelowTransitive(a[1..], b[1..], c[1..]); }
  }

  lemma {:induction false} BelowTotal(a: seq<nat>, b: seq<nat>)
    requires |a| == |b|
    ensures Below(a, b) || a == b || Below(b, a)
  {
    if a != [] && a[0] == b[0] {
      BelowTotal(a[1..], b[1..]);
      assert a == [a[0]] + a[1..] && b == [b[0]] + b[1..];
    }
  }

  /** Strictly newer than. */
  predicate Newer(v: string, w: string) {
    Order(Numbers(v), Numbers(w)) > 0
  }

  /** The comparison is a total preorder: it is antisymmetric in sign and transitive, and two
      versions compare equal exactly when their three numbers agree. */
  lemma CompareIsPreorder(u: string, v: string, w: string)
    ensures Order(Numbers(u), Numbers(v)) == -Order(Numbers(v), Numbers(u))
    ensures Order(Numbers(u), Numbers(v)) == 0 <==> Numbers(u) == Numbers(v)
    ensures Order(Numbers(u), Numbers(v)) >= 0 && Order(Numbers(v), Numbers(w)) >= 0 ==>
      Order(Numbers(u), Numbers(w)) >= 0
    ensures Newer(u, v) && Newer(v, w) ==> Newer(u, w)
  {
    var a, b, c := Numbers(u), Numbers(v), Numbers(w);
    BelowIrreflexive(a);
    BelowTotal(a, b);
    BelowTotal(b, c);
    if Below(a, b) && Below(b, a) { BelowTransitive(a, b, a); }
    if Below(b, a) && Below(c, b) { BelowTransitive(c, b, a); }
    if Below(c, a) && Below(a, c) { BelowTransitive(a, c, a); }
  }

  // ----- the decision -----

  /** The pointer as it was parsed: a field is `None` when it is missing or of the wrong type. */
  datatype Pointer = Pointer(
    version: Option<string>, path: Option<string>, sha256: Option<string>, size: Option<int>)

  predicate IsDigest(s: string) {
    |s| == 64 && forall i :: 0 <= i < |s| ==> '0' <= s[i] <= '9' || 'a' <= s[i] <= 'f'
  }

  const BINARY: string := "dripline"

  /** `<version>/<binary>` and nothing else. */
  predicate IsValidPointerPath(path: string) {
    var segments := Split(path, IsSlash);
    |segments| == 2 && IsValidVersion(segments[0]) && segments[1] == BINARY
  }

  datatype Decision = Bundled(prune: bool) | Staged(version: string)

  function ChooseCore(pointer: Option<Pointer>, bundledVersion: string, quarantined: seq<string>): Decision {
    match pointer
    case None => Bundled(false)
    case Some(p) =>
      if p.version.None? || !IsValidVersion(p.version.value) || p.path.None? || !IsValidPointerPath(p.path.value) then Bundled(true)
      else if Split(p.path.value, IsSlash)[0] != p.version.value then Bundled(true)
      else if p.sha256.None? || !IsDigest(p.sha256.value) then Bundled(true)
      else if p.size.None? || p.size.value <= 0 then Bundled(true)
      else if p.version.value in quarantined then Bundled(true)
      else if !IsValidVersion(bundledVersion) || Order(Numbers(bundledVersion), Numbers(p.version.value)) >= 0 then Bundled(true)
      else Staged(p.version.value)
  }

  /** A staged core is chosen only if it is strictly newer than the bundle, was never recorded
      as failed, and its pointer is complete; and its path cannot leave its own directory. */
  lemma StagedOnlyIfNewerAndTrusted(pointer: Option<Pointer>, bundledVersion: string, quarantined: seq<string>)
    ensures var d := ChooseCore(pointer, bundledVersion, quarantined);
      d.Staged? ==>
        && pointer.Some? && pointer.value.version == Some(d.version)
        && IsValidVersion(d.version) && IsValidVersion(bundledVersion) && Newer(d.version, bundledVersion)
        && d.version !in quarantined
        && pointer.value.path == Some(d.version + "/" + BINARY)
        && pointer.value.sha256.Some? && IsDigest(pointer.value.sha256.value)
        && pointer.value.size.Some? && pointer.value.size.value > 0
  {
    var d := ChooseCore(pointer, bundledVersion, quarantined);
    if d.Staged? {
      CompareIsPreorder(d.version, bundledVersion, bundledVersion);
      SplitTwo(pointer.value.path.value);
    }
  }

  lemma {:induction false} SplitTwo(s: string)
    requires |Split(s, IsSlash)| == 2
    ensures s == Split(s, IsSlash)[0] + "/" + Split(s, IsSlash)[1]
  {
    if s != "" {
      assert s == [s[0]] + s[1..];
      if s[0] == '/' { SplitOne(s[1..]); } else { SplitTwo(s[1..]); }
    }
  }

  lemma {:induction false} SplitOne(s: string)
    requires |Split(s, IsSlash)| == 1
    ensures Split(s, IsSlash) == [s]
  {
    if s != "" {
      SplitOne(s[1..]);
      assert s == [s[0]] + s[1..];
    }
  }

  // ----- version lists -----

  const KEPT_VERSIONS: nat := 8

  function LastEight(versions: seq<string>): seq<string> {
    if |versions| <= KEPT_VERSIONS then versions else versions[|versions| - KEPT_VERSIONS..]
  }

  /** Record a version: a known one changes nothing, a new one goes last and may push the oldest out. */
  function Recorded(versions: seq<string>, v: string): seq<string> {
    LastEight(if v in versions then versions else versions + [v])
  }

  function RecordedAll(versions: seq<string>, more: seq<string>): seq<string>
    decreases |more|
  {
    if more == [] then versions else RecordedAll(Recorded(versions, more[0]), more[1..])
  }

  /** How many of `more` are new to the list when their turn comes. */
  function NewOnes(versions: seq<string>, more: seq<string>): nat
    decreases |more|
  {
    if more == [] then 0
    else (if more[0] in versions then 0 else 1) + NewOnes(Recorded(versions, more[0]), more[1..])
  }

  predicate Distinct(versions: seq<string>) {
    forall i, j :: 0 <= i < j < |versions| ==> versions[i] != versions[j]
  }

  lemma RecordedShape(versions: seq<string>, v: string)
    requires Distinct(versions) && |versions| <= KEPT_VERSIONS
    ensures Distinct(Recorded(versions, v)) && |Recorded(versions, v)| <= KEPT_VERSIONS && v in Recorded(versions, v)
  {
    var longer := versions + [v];
    if v !in versions {
      assert longer[|longer| - 1] == v;
      if |longer| > KEPT_VERSIONS { assert longer[1..][|longer| - 2] == v; }
    }
  }

  /** A recorded version stays recorded exactly as long as fewer new ones have followed it
      than it takes to fill the eight places after it. */
  lemma {:induction false} RetainedIff(versions: seq<string>, i: nat, more: seq<string>)
    requires Distinct(versions) && |versions| <= KEPT_VERSIONS && i < |versions| && versions[i] !in more
    ensures versions[i] in RecordedAll(versions, more) <==> |versions| - i + NewOnes(versions, more) <= KEPT_VERSIONS
    decreases |more|
  {
    if more != [] {
      var v, x := versions[i], more[0];
      var next := Recorded(versions, x);
      RecordedShape(versions, x);
      assert v !in more[1..] by { assert forall y :: y in more[1..] ==> y in more; }
      if x in versions {
        RetainedIff(versions, i, more[1..]);
      } else if |versions| < KEPT_VERSIONS {
        assert next == versions + [x];
        RetainedIff(next, i, more[1..]);
      } else {
        assert next == (versions + [x])[1..];
        if i == 0 {
          assert v !in next;
          GoneStaysGone(next, v, more[1..]);
        } else {
          assert next[i - 1] == v;
          RetainedIff(next, i - 1, more[1..]);
        }
      }
    }
  }

  lemma {:induction false} GoneStaysGone(versions: seq<string>, v: string, more: seq<string>)
    requires v !in versions && v !in more
    ensures v !in RecordedAll(versions, more)
    decreases |more|
  {
    if more != [] {
      assert more[0] in more && forall y :: y in more[1..] ==> y in more;
      GoneStaysGone(Recorded(versions, more[0]), v, more[1..]);
    }
  }

  // ----- the staging directory -----

  datatype Binary = Binary(size: int, sha256: string)

  datatype Core = Core(version: string, staged: bool, firstRun: bool)

  class CoreDir {
    var pointer: Option<Pointer>
    var quarantined: seq<string>
    var adopted: seq<string>
    var binaries: map<string, Binary>

    predicate Valid() reads this {
      Distinct(quarantined) && |quarantined| <= KEPT_VERSIONS && Distinct(adopted) && |adopted| <= KEPT_VERSIONS
    }

    /** Record a version as unusable and drop the pointer; if the record cannot be written
        the pointer stays too, and it also stays if it cannot be removed. */
    method QuarantineStagedCore(version: string, writeSucceeds: bool, removeSucceeds: bool)
      requires Valid()
      modifies this`quarantined, this`pointer
      ensures Valid()
      ensures IsValidVersion(version) && writeSucceeds ==>
        quarantined == Recorded(old(quarantined), version) && version in quarantined &&
        pointer == if removeSucceeds then None else old(pointer)
      ensures !(IsValidVersion(version) && writeSucceeds) ==>
        quarantined == old(quarantined) && pointer == old(pointer)
    {
      if !IsValidVersion(version) {
        return;
      }
      var existing := quarantined;
      RecordedShape(existing, version);
      if version !in existing {
        existing := existing + [version];
      }
      if writeSucceeds {
        quarantined := LastEight(existing);
        if removeSucceeds {
          pointer := None;
        }
      }
    }

    method MarkCoreAdopted(version: string, writeSucceeds: bool)
      requires Valid()
      modifies this`adopted
      ensures Valid()
      ensures adopted == (if IsValidVersion(version) && writeSucceeds then Recorded(old(adopted), version) else old(adopted))
    {
      RecordedShape(adopted, version);
      if !IsValidVersion(version) || version in adopted {
        return;
      }
      if writeSucceeds {
        adopted := LastEight(adopted + [version]);
      }
    }

    /** Drop every staged tree, the pointer and the adoption record; quarantine survives. */
    method PruneStagedCores()
      requires Valid()
      modifies this`pointer, this`adopted, this`binaries
      ensures Valid() && pointer == None && adopted == [] && binaries == map[]
    {
      pointer, adopted, binaries := None, [], map[];
    }

    /** The core to launch. A staged one is returned only when the pointer chose it and its
        file has the recorded size and digest; a staged file that does not match is
        quarantined on the way. */
    method ResolveCore(bundledVersion: string, writeSucceeds: bool, removeSucceeds: bool) returns (core: Core)
      requires Valid()
      modifies this
      ensures Valid()
      ensures core.staged <==>
        var d := ChooseCore(old(pointer), bundledVersion, old(quarantined));
        d.Staged? && old(pointer).value.path.value in old(binaries) &&
        old(binaries)[old(pointer).value.path.value] ==
          Binary(old(pointer).value.size.value, old(pointer).value.sha256.value)
      ensures core.staged ==>
        old(pointer).value.version == Some(core.version) && core.version !in old(quarantined) &&
        IsValidVersion(core.version) && IsValidVersion(bundledVersion) && Newer(core.version, bundledVersion) &&
        (core.firstRun <==> core.version !in old(adopted)) &&
        pointer == old(pointer) && quarantined == old(quarantined)
      ensures !core.staged ==> core == Core(bundledVersion, false, false)
      ensures ChooseCore(old(pointer), bundledVersion, old(quarantined)).Staged? && !core.staged && writeSucceeds ==>
        old(pointer).value.version.value in quarantined && (removeSucceeds ==> pointer == None)
    {
      var decision := ChooseCore(pointer, bundledVersion, quarantined);
      StagedOnlyIfNewerAndTrusted(pointer, bundledVersion, quarantined);
      match decision {
        case Bundled(prune) =>
          if prune {
            PruneStagedCores();
          }
          core := Core(bundledVersion, false, false);
        case Staged(version) =>
          var p := pointer.value;
          if p.path.value !in binaries || binaries[p.path.value] != Binary(p.size.value, p.sha256.value) {
            QuarantineStagedCore(version, writeSucceeds, removeSucceeds);
            return Core(bundledVersion, false, false);
          }
          core := Core(version, true, version !in adopted);
      }
    }
  }

  /** Once a version is quarantined, staging it again never launches it while it is recorded. */
  lemma QuarantineBlocks(pointer: Pointer, bundledVersion: string, quarantined: seq<string>)
    requires pointer.version.Some? && pointer.version.value in quarantined
    ensures ChooseCore(Some(pointer), bundledVersion, quarantined) == Bundled(true)
  {
  }
}
