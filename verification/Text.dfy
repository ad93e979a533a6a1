/** Strings as sequences of Unicode scalar values, with the byte widths of UTF-8
    (RFC 3629, section 3) and the order Rust gives to strings. */
module Text {

  function Utf8Width(c: char): (w: nat)
    ensures 1 <= w <= 4
  {
    if c as int < 0x80 then 1
    else if c as int < 0x800 then 2
    else if c as int < 0x10000 then 3
    else 4
  }

  /** The length of `s` in bytes, which is what Rust's `len` returns. */
  function Utf8Len(s: string): (n: nat)
    ensures |s| <= n <= 4 * |s|
  {
    if s == "" then 0 else Utf8Width(s[0]) + Utf8Len(s[1..])
  }

  lemma {:induction false} Utf8LenConcat(s: string, t: string)
    ensures Utf8Len(s + t) == Utf8Len(s) + Utf8Len(t)
  {
    if s == "" {
      assert s + t == t;
    } else {
      assert (s + t)[1..] == s[1..] + t;
      Utf8LenConcat(s[1..], t);
    }
  }

  /** Lexicographic order on scalar values; it agrees with the byte order of UTF-8. */
  predicate Less(s: string, t: string) {
    if t == "" then false
    else if s == "" then true
    else if s[0] != t[0] then s[0] < t[0]
    else Less(s[1..], t[1..])
  }

  lemma {:induction false} LessIrreflexive(s: string)
    ensures !Less(s, s)
  {
    if s != "" { LessIrreflexive(s[1..]); }
  }

  lemma {:induction false} LessTransitive(r: string, s: string, t: string)
    requires Less(r, s) && Less(s, t)
    ensures Less(r, t)
  {
    if r != "" && r[0] == s[0] == t[0] {
      LessTransitive(r[1..], s[1..], t[1..]);
    }
  }

  lemma {:induction false} LessTotal(s: string, t: string)
    ensures Less(s, t) || s == t || Less(t, s)
  {
    if s != "" && t != "" && s[0] == t[0] {
      LessTotal(s[1..], t[1..]);
      assert s == [s[0]] + s[1..] && t == [t[0]] + t[1..];
    }
  }

  /** Does `needle` occur in `hay` at or after its start? */
  predicate Contains(hay: string, needle: string) {
    needle <= hay || (hay != "" && Contains(hay[1..], needle))
  }

  /** Cut `s` at every separator character; the separators themselves are dropped. */
  function Split(s: string, separator: char -> bool): (parts: seq<string>)
    ensures |parts| >= 1
  {
    if s == "" then [""]
    else
      var rest := Split(s[1..], separator);
      if separator(s[0]) then [""] + rest else [[s[0]] + rest[0]] + rest[1..]
  }

  /** Is byte offset `n` of `s` the start of a character, or the end of the string? */
  predicate CharBoundary(s: string, n: nat) {
    n == 0 || (s != "" && n >= Utf8Width(s[0]) && CharBoundary(s[1..], n - Utf8Width(s[0])))
  }

  /** The first `n` bytes of `s`. */
  function BytePrefix(s: string, n: nat): string
    requires CharBoundary(s, n)
  {
    if n == 0 then "" else [s[0]] + BytePrefix(s[1..], n - Utf8Width(s[0]))
  }

  /** The longest prefix of whole characters that fits in `max` bytes. */
  function FitPrefix(s: string, max: nat): (p: string)
    ensures p <= s && Utf8Len(p) <= max
  {
    if s == "" || Utf8Width(s[0]) > max then ""
    else [s[0]] + FitPrefix(s[1..], max - Utf8Width(s[0]))
  }

  lemma {:induction false} FitIsLastBoundary(s: string, max: nat)
    ensures var n := Utf8Len(FitPrefix(s, max));
      CharBoundary(s, n) && BytePrefix(s, n) == FitPrefix(s, max)
    ensures forall n :: Utf8Len(FitPrefix(s, max)) < n <= max ==> !CharBoundary(s, n)
  {
    if s != "" && Utf8Width(s[0]) <= max {
      var w := Utf8Width(s[0]);
      var fit := FitPrefix(s[1..], max - w);
      FitIsLastBoundary(s[1..], max - w);
      assert FitPrefix(s, max) == [s[0]] + fit;
      LenOfCons(s[0], fit);
      hide FitPrefix, Utf8Len, Utf8Width;
      BoundaryOfTail(s, w, fit, max);
    } else {
      NothingFits(s, max);
    }
  }

  lemma NothingFits(s: string, max: nat)
    requires s == "" || Utf8Width(s[0]) > max
    ensures FitPrefix(s, max) == "" && Utf8Len("") == 0
    ensures forall n :: 0 < n <= max ==> !CharBoundary(s, n)
  {
  }

  lemma LenOfCons(c: char, s: string)
    ensures Utf8Len([c] + s) == Utf8Width(c) + Utf8Len(s)
  {
    assert ([c] + s)[1..] == s;
  }

  /** Boundaries after a first character of width `w` are those of what follows it. */
  lemma BoundaryOfTail(s: string, w: nat, fit: string, max: nat)
    requires s != "" && w == Utf8Width(s[0]) > 0
    requires CharBoundary(s[1..], Utf8Len(fit)) && BytePrefix(s[1..], Utf8Len(fit)) == fit
    requires forall n :: Utf8Len(fit) < n <= max - w ==> !CharBoundary(s[1..], n)
    ensures CharBoundary(s, w + Utf8Len(fit)) && BytePrefix(s, w + Utf8Len(fit)) == [s[0]] + fit
    ensures forall n :: w + Utf8Len(fit) < n <= max ==> !CharBoundary(s, n)
  {
    hide Utf8Len, Utf8Width;
    forall n | w + Utf8Len(fit) < n <= max ensures !CharBoundary(s, n) {
      assert !CharBoundary(s[1..], n - w);
    }
  }

  /** Everything that fits is kept, and appending to an oversized string changes nothing. */
  lemma {:induction false} FitPrefixAppend(p: string, c: char, max: nat)
    requires Utf8Len(p) <= max < Utf8Len(p) + Utf8Width(c)
    ensures FitPrefix(p + [c], max) == p
  {
    var s := p + [c];
    if p == "" {
      assert s == [c];
    } else {
      FitPrefixAppend(p[1..], c, max - Utf8Width(p[0]));
      assert s[0] == p[0] && s[1..] == p[1..] + [c];
      assert p == [p[0]] + p[1..];
    }
  }

  lemma {:induction false} BoundaryShift(a: string, b: string, n: nat)
    requires n >= Utf8Len(a)
    ensures CharBoundary(a + b, n) <==> CharBoundary(b, n - Utf8Len(a))
  {
    if a == "" {
      assert a + b == b;
    } else {
      assert (a + b)[1..] == a[1..] + b;
      BoundaryShift(a[1..], b, n - Utf8Width(a[0]));
    }
  }
}
