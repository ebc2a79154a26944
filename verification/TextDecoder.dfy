/** The incremental text decoder: byte-fallback tokens are buffered until the run ends. */
module TextDecoder {
  import opened Utf8

  type Token = nat

  /** The vocabulary as the decoder sees it. */
  datatype Vocabulary = Vocabulary(pieces: seq<Bytes>, specials: set<Token>, marker: Bytes)

  type TextVocabulary = v: Vocabulary | v.marker != []
    witness Vocabulary([], {}, [0x2581 % 256])

  const Replacement: Bytes := [0xEF, 0xBF, 0xBD]

  function HexDigit(c: Byte): Option<nat> {
    if 0x30 <= c <= 0x39 then Some(c - 0x30)
    else if 0x61 <= c <= 0x66 then Some(c - 0x61 + 10)
    else if 0x41 <= c <= 0x46 then Some(c - 0x41 + 10)
    else None
  }

  /** The byte a piece of the form `<0xHH>` stands for. */
  function ByteOf(piece: Bytes): Option<Byte> {
    if |piece| == 6 && piece[..3] == [0x3C, 0x30, 0x78] && piece[5] == 0x3E
       && HexDigit(piece[3]).Some? && HexDigit(piece[4]).Some?
    then Some(HexDigit(piece[3]).value * 16 + HexDigit(piece[4]).value)
    else None
  }

  method ParseByte(piece: Bytes) returns (value: Option<Byte>)
    ensures value == ByteOf(piece)
  {
    if |piece| == 6 && piece[..3] == [0x3C, 0x30, 0x78] && piece[5] == 0x3E {
      var high, low := HexDigit(piece[3]), HexDigit(piece[4]);
      if high.Some? && low.Some? { return Some(high.value * 16 + low.value); }
    }
    return None;
  }

  /** Leftmost non-overlapping replacement of the space marker by a space, from position `i`. */
  function SpacedAt(s: Bytes, marker: Bytes, i: nat): Bytes
    requires marker != [] && i <= |s|
    decreases |s| - i
  {
    if i == |s| then []
    else if marker <= s[i..] then [0x20] + SpacedAt(s, marker, i + |marker|)
    else [s[i]] + SpacedAt(s, marker, i + 1)
  }

  function Spaced(s: Bytes, marker: Bytes): Bytes
    requires marker != []
  {
    SpacedAt(s, marker, 0)
  }

  lemma {:induction false} SpacedRun(s: Bytes, marker: Bytes, i: nat, n: nat)
    requires marker != [] && i <= n <= |s| && (forall k: nat :: i <= k < n ==> !(marker <= s[k..]))
    ensures SpacedAt(s, marker, i) == s[i..n] + SpacedAt(s, marker, n)
    decreases n - i
  {
    if i < n {
      SpacedRun(s, marker, i + 1, n);
      assert !(marker <= s[i..]);
      Append(s, i, n, SpacedAt(s, marker, n));
    }
  }

  lemma Append(s: Bytes, i: nat, n: nat, rest: Bytes)
    requires i < n <= |s|
    ensures [s[i]] + (s[i + 1..n] + rest) == s[i..n] + rest
  {
    assert s[i..n] == [s[i]] + s[i + 1..n];
  }

  /** The first position from `offset` on where the marker occurs. */
  method FindMarker(piece: Bytes, marker: Bytes, offset: nat) returns (found: bool, at: nat)
    requires marker != [] && offset <= |piece|
    ensures offset <= at <= |piece| && (forall i: nat :: offset <= i < at ==> !(marker <= piece[i..]))
    ensures found ==> marker <= piece[at..]
    ensures !found ==> at == |piece|
  {
    at := offset;
    while at < |piece|
      invariant offset <= at <= |piece| && (forall i: nat :: offset <= i < at ==> !(marker <= piece[i..]))
    {
      if at + |marker| <= |piece| && piece[at..at + |marker|] == marker {
        assert piece[at..][..|marker|] == piece[at..at + |marker|];
        return true, at;
      }
      assert |marker| <= |piece[at..]| ==> piece[at..][..|marker|] == piece[at..at + |marker|];
      at := at + 1;
    }
    return false, at;
  }

  lemma Associate(a: Bytes, b: Bytes, c: Bytes)
    ensures a + (b + c) == a + b + c
  {
  }

  method ReplaceSpaceMarkers(piece: Bytes, marker: Bytes) returns (result: Bytes)
    requires marker != []
    ensures result == Spaced(piece, marker)
  {
    result := [];
    var offset := 0;
    while true
      invariant 0 <= offset <= |piece|
      invariant Spaced(piece, marker) == result + SpacedAt(piece, marker, offset)
      decreases |piece| - offset
    {
      var found, at := FindMarker(piece, marker, offset);
      SpacedRun(piece, marker, offset, at);
      Associate(result, piece[offset..at], SpacedAt(piece, marker, at));
      result := result + piece[offset..at];
      if !found { return; }
      Associate(result, [0x20], SpacedAt(piece, marker, at + |marker|));
      result := result + [0x20];
      offset := at + |marker|;
    }
  }

  // ---------------------------------------------------------------- specification

  function Replacements(n: nat): Bytes { if n == 0 then [] else Replacement + Replacements(n - 1) }

  /** A buffered run is kept if it is valid text, else each byte becomes one replacement. */
  function Flushed(bytes: Bytes): Bytes { if Valid(bytes) then bytes else Replacements(|bytes|) }

  /** A decoder in use: what it has buffered and what it has put out so far. */
  datatype Progress = Progress(bytes: Bytes, output: Bytes)

  predicate Known(v: TextVocabulary, tokens: seq<Token>) { forall i :: 0 <= i < |tokens| ==> tokens[i] < |v.pieces| }

  predicate Skipped(v: TextVocabulary, skip: bool, token: Token) { skip && token in v.specials }

  function Pushed(v: TextVocabulary, skip: bool, p: Progress, token: Token): Progress
    requires token < |v.pieces|
  {
    if Skipped(v, skip, token) then p
    else match ByteOf(v.pieces[token])
      case Some(b) => p.(bytes := p.bytes + [b])
      case None => Progress([], p.output + Flushed(p.bytes) + Spaced(v.pieces[token], v.marker))
  }

  function PushedAll(v: TextVocabulary, skip: bool, p: Progress, tokens: seq<Token>): Progress
    requires Known(v, tokens)
    decreases |tokens|
  {
    if tokens == [] then p else PushedAll(v, skip, Pushed(v, skip, p, tokens[0]), tokens[1..])
  }

  // ------------------------------------------------------------------- reference

  function Kept(v: TextVocabulary, skip: bool, tokens: seq<Token>): (r: seq<Token>)
    ensures Known(v, tokens) ==> Known(v, r)
  {
    if tokens == [] then []
    else if Skipped(v, skip, tokens[0]) then Kept(v, skip, tokens[1..])
    else [tokens[0]] + Kept(v, skip, tokens[1..])
  }

  /** The bytes of the run of byte tokens at the front. */
  function Run(v: TextVocabulary, tokens: seq<Token>): (r: Bytes)
    requires Known(v, tokens)
    ensures |r| <= |tokens|
    decreases |tokens|
  {
    if tokens == [] || ByteOf(v.pieces[tokens[0]]).None? then []
    else [ByteOf(v.pieces[tokens[0]]).value] + Run(v, tokens[1..])
  }

  /** Decoding everything at once: each maximal run of byte tokens as a whole. */
  function Decoded(v: TextVocabulary, tokens: seq<Token>): Bytes
    requires Known(v, tokens)
    decreases |tokens|
  {
    if tokens == [] then []
    else if ByteOf(v.pieces[tokens[0]]).None? then Spaced(v.pieces[tokens[0]], v.marker) + Decoded(v, tokens[1..])
    else
      var run := Run(v, tokens);
      Flushed(run) + Decoded(v, tokens[|run|..])
  }

  /** Decoding that continues a run of which `bytes` has been seen. */
  function DecodedAfter(v: TextVocabulary, bytes: Bytes, tokens: seq<Token>): Bytes
    requires Known(v, tokens)
  {
    var run := Run(v, tokens);
    Flushed(bytes + run) + Decoded(v, tokens[|run|..])
  }

  lemma DecodedAfterNone(v: TextVocabulary, tokens: seq<Token>)
    requires Known(v, tokens)
    ensures DecodedAfter(v, [], tokens) == Decoded(v, tokens)
  {
    var run := Run(v, tokens);
    assert [] + run == run;
    if run == [] {
      assert tokens[|run|..] == tokens;
      assert Valid([]) && Flushed([]) == [];
    }
  }

  lemma ByteStep(v: TextVocabulary, bytes: Bytes, t: Token, rest: seq<Token>)
    requires t < |v.pieces| && Known(v, rest) && ByteOf(v.pieces[t]).Some?
    ensures DecodedAfter(v, bytes, [t] + rest) == DecodedAfter(v, bytes + [ByteOf(v.pieces[t]).value], rest)
  {
    var b, tokens := ByteOf(v.pieces[t]).value, [t] + rest;
    assert tokens[1..] == rest;
    assert bytes + ([b] + Run(v, rest)) == bytes + [b] + Run(v, rest);
    assert tokens[|Run(v, tokens)|..] == rest[|Run(v, rest)|..];
  }

  lemma DecodedText(v: TextVocabulary, t: Token, rest: seq<Token>)
    requires t < |v.pieces| && Known(v, rest) && ByteOf(v.pieces[t]).None?
    ensures Run(v, [t] + rest) == [] && Decoded(v, [t] + rest) == Spaced(v.pieces[t], v.marker) + Decoded(v, rest)
  {
    assert ([t] + rest)[1..] == rest;
  }

  lemma TextStep(v: TextVocabulary, bytes: Bytes, t: Token, rest: seq<Token>)
    requires t < |v.pieces| && Known(v, rest) && ByteOf(v.pieces[t]).None?
    ensures DecodedAfter(v, bytes, [t] + rest)
      == Flushed(bytes) + Spaced(v.pieces[t], v.marker) + DecodedAfter(v, [], rest)
  {
    DecodedText(v, t, rest);
    DecodedAfterNone(v, rest);
    var tokens := [t] + rest;
    assert tokens[0..] == tokens && bytes + [] == bytes;
  }

  lemma {:induction false} IncrementalFrom(v: TextVocabulary, skip: bool, p: Progress, tokens: seq<Token>)
    requires Known(v, tokens)
    ensures var q := PushedAll(v, skip, p, tokens);
      q.output + Flushed(q.bytes) == p.output + DecodedAfter(v, p.bytes, Kept(v, skip, tokens))
    decreases |tokens|
  {
    if tokens == [] {
      assert p.bytes + [] == p.bytes;
    } else {
      var t, rest := tokens[0], tokens[1..];
      IncrementalFrom(v, skip, Pushed(v, skip, p, t), rest);
      if !Skipped(v, skip, t) {
        if ByteOf(v.pieces[t]).Some? {
          ByteStep(v, p.bytes, t, Kept(v, skip, rest));
        } else {
          TextStep(v, p.bytes, t, Kept(v, skip, rest));
          Regroup(p.output, Flushed(p.bytes), Spaced(v.pieces[t], v.marker), DecodedAfter(v, [], Kept(v, skip, rest)));
        }
      }
    }
  }

  lemma Regroup(a: Bytes, b: Bytes, c: Bytes, d: Bytes)
    ensures a + (b + c + d) == (a + b + c) + d
  {
  }

  /** Whatever the tokens, all pushed output followed by the final flush is the decoding of the
      whole sequence, skipped special tokens left out. */
  lemma IncrementalTotal(v: TextVocabulary, skip: bool, tokens: seq<Token>)
    requires Known(v, tokens)
    ensures var q := PushedAll(v, skip, Progress([], []), tokens);
      q.output + Flushed(q.bytes) == Decoded(v, Kept(v, skip, tokens))
  {
    IncrementalFrom(v, skip, Progress([], []), tokens);
    DecodedAfterNone(v, Kept(v, skip, tokens));
  }

  // ----------------------------------------------------------------- the decoder

  class IncrementalTextDecoder {
    const vocabulary: TextVocabulary
    const skipSpecialTokens: bool
    var bytes: Bytes
    /** Everything handed out so far. */
    ghost var output: Bytes

    ghost function View(): Progress reads this { Progress(bytes, output) }

    constructor (vocabulary: TextVocabulary, skipSpecialTokens: bool)
      ensures View() == Progress([], []) && this.vocabulary == vocabulary && this.skipSpecialTokens == skipSpecialTokens
    {
      this.vocabulary, this.skipSpecialTokens := vocabulary, skipSpecialTokens;
      bytes, output := [], [];
    }

    /** `ok` is false for a token outside the vocabulary. */
    method Push(token: Token) returns (ok: bool, text: Bytes)
      modifies this
      ensures ok <==> token < |vocabulary.pieces|
      ensures !ok ==> View() == old(View())
      ensures ok ==> View() == Pushed(vocabulary, skipSpecialTokens, old(View()), token) && output == old(output) + text
    {
      if token >= |vocabulary.pieces| { return false, []; }
      var piece := vocabulary.pieces[token];
      if skipSpecialTokens && token in vocabulary.specials { return true, []; }
      var value := ParseByte(piece);
      if value.Some? {
        bytes := bytes + [value.value];
        return true, [];
      }
      var flushed := Finish();
      var spaced := ReplaceSpaceMarkers(piece, vocabulary.marker);
      output := output + spaced;
      return true, flushed + spaced;
    }

    method Finish() returns (text: Bytes)
      modifies this
      ensures text == Flushed(old(bytes)) && View() == Progress([], old(output) + text)
    {
      var fine := AllReadable(bytes);
      text := [];
      if fine {
        text := bytes;
      } else {
        assert Replacements(0) == [];
        for index := 0 to |bytes|
          invariant text + Replacements(|bytes| - index) == Replacements(|bytes|)
          invariant bytes == old(bytes) && output == old(output)
        {
          assert Replacements(|bytes| - index) == Replacement + Replacements(|bytes| - index - 1);
          text := text + Replacement;
        }
      }
      bytes := [];
      output := output + text;
    }

    /** What could be shown now of the run under way: all of it, or nothing. */
    method Pending() returns (text: Bytes)
      ensures text == if Valid(bytes) then bytes else []
      ensures text != [] ==> text == Flushed(bytes)
    {
      var fine := AllReadable(bytes);
      return if fine then bytes else [];
    }
  }
}
