/** Splitting a child process's output into lines, whatever chunks it arrives in. */
module LineDecoder {

  predicate HasNewline(s: string) { '\n' in s }

  /** The position of the first newline. */
  function FirstNewline(s: string): (i: nat)
    requires HasNewline(s)
    ensures i < |s| && s[i] == '\n' && !HasNewline(s[..i])
  {
    if s[0] == '\n' then 0
    else
      var i := FirstNewline(s[1..]);
      assert s[..i + 1] == [s[0]] + s[1..][..i];
      i + 1
  }

  /** One trailing carriage return, if any, is dropped. */
  function StripReturn(s: string): string {
    if s != "" && s[|s| - 1] == '\r' then s[..|s| - 1] else s
  }

  /** The text cut at every newline; the last piece is what follows the last newline. */
  function Pieces(s: string): (pieces: seq<string>)
    ensures |pieces| >= 1
  {
    if s == "" then [""]
    else
      var rest := Pieces(s[1..]);
      if s[0] == '\n' then [""] + rest else [[s[0]] + rest[0]] + rest[1..]
  }

  function StripAll(pieces: seq<string>): seq<string> {
    if pieces == [] then [] else [StripReturn(pieces[0])] + StripAll(pieces[1..])
  }

  /** The one-shot reading of a whole stream: every terminated line, and the rest if there is any. */
  function Lines(s: string): seq<string> {
    var pieces := Pieces(s);
    var terminated := StripAll(pieces[..|pieces| - 1]);
    var last := pieces[|pieces| - 1];
    if last == "" then terminated else terminated + [StripReturn(last)]
  }

  // ----- facts about cutting -----

  lemma {:induction false} PiecesWithoutNewline(s: string)
    requires !HasNewline(s)
    ensures Pieces(s) == [s]
  {
    if s != "" {
      PiecesWithoutNewline(s[1..]);
      assert s == [s[0]] + s[1..];
    }
  }

  /** Everything up to a newline is one piece; cutting goes on after it. */
  lemma {:induction false} PiecesAtNewline(line: string, rest: string)
    requires !HasNewline(line)
    ensures Pieces(line + "\n" + rest) == [line] + Pieces(rest)
  {
    var s := line + "\n" + rest;
    if line == "" {
      assert s[1..] == rest;
    } else {
      PiecesAtNewline(line[1..], rest);
      assert s[1..] == line[1..] + "\n" + rest;
      assert line == [line[0]] + line[1..];
    }
  }

  lemma {:induction false} StripConcat(a: seq<string>, b: seq<string>)
    ensures StripAll(a + b) == StripAll(a) + StripAll(b)
  {
    var c := a + b;
    if a == [] {
      assert c == b;
    } else {
      StripConcat(a[1..], b);
      assert c[0] == a[0] && c[1..] == a[1..] + b;
    }
  }

  /** Appending text only touches the last piece. */
  lemma {:induction false} PiecesConcat(s: string, t: string)
    ensures var p := Pieces(s);
      Pieces(s + t) == p[..|p| - 1] + Pieces(p[|p| - 1] + t)
  {
    hide Pieces;
    var p := Pieces(s);
    if HasNewline(s) {
      var i := FirstNewline(s);
      var line, rest := s[..i], s[i + 1..];
      assert s == line + "\n" + rest;
      PiecesAtNewline(line, rest);
      PiecesConcat(rest, t);
      PiecesAtNewline(line, rest + t);
      assert s + t == line + "\n" + (rest + t);
      var q := Pieces(rest);
      assert p[|p| - 1] == q[|q| - 1] && p[..|p| - 1] == [line] + q[..|q| - 1];
    } else {
      PiecesWithoutNewline(s);
      assert p[..0] == [] && [] + Pieces(s + t) == Pieces(s + t);
    }
  }

  /** The text of all chunks in order. */
  function Concat(chunks: seq<string>): string {
    if chunks == [] then "" else chunks[0] + Concat(chunks[1..])
  }

  lemma {:induction false} ConcatAppend(chunks: seq<string>, chunk: string)
    ensures Concat(chunks + [chunk]) == Concat(chunks) + chunk
  {
    var all := chunks + [chunk];
    if chunks == [] {
      assert all == [chunk] && all[1..] == [];
    } else {
      ConcatAppend(chunks[1..], chunk);
      assert all[0] == chunks[0] && all[1..] == chunks[1..] + [chunk];
    }
  }

  // ----- the decoder -----

  class Decoder {
    var pending: string
    var emitted: seq<string>
    ghost var received: string

    /** What has been emitted are the terminated lines of what was received, and what is
        pending is the unterminated rest. */
    ghost predicate Valid() reads this {
      var pieces := Pieces(received);
      emitted == StripAll(pieces[..|pieces| - 1]) && pending == pieces[|pieces| - 1] && !HasNewline(pending)
    }

    constructor ()
      ensures Valid() && received == "" && emitted == []
    {
      pending, emitted, received := "", [], "";
      new;
      assert Pieces("") == [""] && [""][..0] == [];
    }

    /** Emit every complete line that is pending. */
    method Drain()
      modifies this`pending, this`emitted
      ensures var pieces := Pieces(old(pending));
        emitted == old(emitted) + StripAll(pieces[..|pieces| - 1]) && pending == pieces[|pieces| - 1]
      ensures !HasNewline(pending)
    {
      hide Pieces;
      ghost var start := Pieces(pending);
      while HasNewline(pending)
        invariant var pieces := Pieces(pending);
          |pieces| <= |start| && start[|start| - |pieces|..] == pieces &&
          emitted == old(emitted) + StripAll(start[..|start| - |pieces|])
        decreases |pending|
      {
        var newline := FirstNewline(pending);
        var line, rest := pending[..newline], pending[newline + 1..];
        assert pending == line + "\n" + rest;
        PiecesAtNewline(line, rest);
        ghost var done := |start| - |Pieces(pending)|;
        assert start[done] == start[done..][0] == line && start[done + 1..] == start[done..][1..];
        assert start[..done + 1] == start[..done] + [line];
        StripConcat(start[..done], [line]);
        assert StripAll([line]) == [StripReturn(line)];
        pending := rest;
        emitted := emitted + [StripReturn(line)];
      }
      PiecesWithoutNewline(pending);
    }

    method Push(chunk: string)
      requires Valid()
      modifies this
      ensures Valid() && received == old(received) + chunk
    {
      hide Pieces, StripAll;
      ghost var p := Pieces(received);
      PiecesConcat(received, chunk);
      pending := pending + chunk;
      ghost var q := Pieces(pending);
      Drain();
      received := received + chunk;
      ghost var all := Pieces(received);
      assert all[..|all| - 1] == p[..|p| - 1] + q[..|q| - 1];
      StripConcat(p[..|p| - 1], q[..|q| - 1]);
    }

    /** The rest of the stream: afterwards everything received has been emitted as lines. */
    method End(chunk: string)
      requires Valid()
      modifies this
      ensures received == old(received) + chunk && emitted == Lines(received) && pending == ""
    {
      Push(chunk);
      if pending != "" {
        emitted := emitted + [StripReturn(pending)];
      }
      pending := "";
    }
  }

  /** However a stream is cut into chunks, the lines that come out are those of the whole. */
  method DecodeAll(chunks: seq<string>, last: string) returns (lines: seq<string>)
    ensures lines == Lines(Concat(chunks) + last)
  {
    var decoder := new Decoder();
    var i := 0;
    while i < |chunks|
      invariant i <= |chunks| && decoder.Valid() && decoder.received == Concat(chunks[..i])
    {
      decoder.Push(chunks[i]);
      ConcatAppend(chunks[..i], chunks[i]);
      assert chunks[..i + 1] == chunks[..i] + [chunks[i]];
      i := i + 1;
    }
    assert chunks[..i] == chunks;
    decoder.End(last);
    lines := decoder.emitted;
  }

  lemma {:induction false} PiecesHaveNoNewline(s: string)
    ensures forall p :: p in Pieces(s) ==> !HasNewline(p)
  {
    if s != "" {
      var rest := Pieces(s[1..]);
      PiecesHaveNoNewline(s[1..]);
      forall p | p in Pieces(s) ensures !HasNewline(p) {
        if p !in rest && p != "" { assert p == [s[0]] + rest[0] && rest[0] in rest; }
      }
    }
  }

  function Join(pieces: seq<string>): string {
    if pieces == [] then "" else if |pieces| == 1 then pieces[0] else pieces[0] + "\n" + Join(pieces[1..])
  }

  /** Cutting loses nothing: the pieces joined by newlines are the stream. */
  lemma {:induction false} PiecesJoin(s: string)
    ensures Join(Pieces(s)) == s
  {
    if HasNewline(s) {
      var i := FirstNewline(s);
      var line, rest := s[..i], s[i + 1..];
      assert s == line + "\n" + rest;
      PiecesAtNewline(line, rest);
      PiecesJoin(rest);
      assert ([line] + Pieces(rest))[1..] == Pieces(rest);
    } else {
      PiecesWithoutNewline(s);
    }
  }
}
