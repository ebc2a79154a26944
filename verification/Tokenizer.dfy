/** The tokenizer around the merge loop: characters to symbols with byte fallback, and added
    tokens matched in the original text. */
module Tokenizers {
  import opened Utf8
  import opened Bpe

  /** What loading a tokenizer file establishes. `pieces` spells each token. */
  datatype Vocabulary = Vocabulary(
    ids: map<Bytes, Token>, byteTokens: seq<Token>, merges: Merges, specials: seq<Token>,
    marker: Bytes, spelling: Token -> Bytes)

  ghost predicate Loaded(v: Vocabulary) {
    && |v.byteTokens| == 256
    && Spells(v.merges, v.spelling)
    && (forall piece :: piece in v.ids ==> v.spelling(v.ids[piece]) == piece)
    && (forall t :: t in v.specials ==> v.spelling(t) != [])
    && (forall s, t :: s in v.specials && t in v.specials && v.spelling(s) == v.spelling(t) ==> s == t)
    && (forall i :: 0 <= i < 256 ==> v.spelling(v.byteTokens[i]) == ByteSpelling(i))
  }

  function HexChar(n: nat): Byte
    requires n < 16
  {
    if n < 10 then 0x30 + n else 0x41 + n - 10
  }

  function ByteSpelling(b: Byte): Bytes { [0x3C, 0x30, 0x78, HexChar(b / 16), HexChar(b % 16), 0x3E] }

  // ------------------------------------------------------------------ characters

  function Rendered(v: Vocabulary, character: Bytes): Bytes { if character == [0x20] then v.marker else character }

  function Fallback(v: Vocabulary, bytes: Bytes): (r: seq<Token>)
    requires |v.byteTokens| == 256
    ensures |r| == |bytes|
  {
    if bytes == [] then [] else [v.byteTokens[bytes[0]]] + Fallback(v, bytes[1..])
  }

  function SymbolsOf(v: Vocabulary, character: Bytes): seq<Token>
    requires |v.byteTokens| == 256
  {
    var rendered := Rendered(v, character);
    if rendered in v.ids then [v.ids[rendered]] else Fallback(v, rendered)
  }

  /** The symbols of a text, or `None` where it is not valid UTF-8. */
  function Symbols(v: Vocabulary, text: Bytes): Option<seq<Token>>
    requires |v.byteTokens| == 256
    decreases |text|
  {
    if text == [] then Some([])
    else if !StartsCharacter(text) then None
    else
      var w := Width(text[0]);
      match Symbols(v, text[w..])
      case None => None
      case Some(rest) => Some(SymbolsOf(v, text[..w]) + rest)
  }

  lemma {:induction false} SymbolsIffValid(v: Vocabulary, text: Bytes)
    requires |v.byteTokens| == 256
    ensures Symbols(v, text).Some? <==> Valid(text)
    decreases |text|
  {
    if text != [] {
      ValidStep(text);
      if StartsCharacter(text) { SymbolsIffValid(v, text[Width(text[0])..]); }
    }
  }

  /** The text the symbols of a character spell. */
  function Normal(v: Vocabulary, character: Bytes): Bytes {
    var rendered := Rendered(v, character);
    if rendered in v.ids then rendered else FallbackText(rendered)
  }

  function FallbackText(bytes: Bytes): Bytes {
    if bytes == [] then [] else ByteSpelling(bytes[0]) + FallbackText(bytes[1..])
  }

  function NormalText(v: Vocabulary, text: Bytes): Bytes
    decreases |text|
  {
    if text == [] || !StartsCharacter(text) then []
    else Normal(v, text[..Width(text[0])]) + NormalText(v, text[Width(text[0])..])
  }

  lemma {:induction false} FallbackSpells(v: Vocabulary, bytes: Bytes)
    requires Loaded(v)
    ensures Text(v.spelling, Fallback(v, bytes)) == FallbackText(bytes)
  {
    if bytes != [] {
      FallbackSpells(v, bytes[1..]);
      assert Fallback(v, bytes)[1..] == Fallback(v, bytes[1..]);
    }
  }

  lemma {:induction false} SymbolsSpell(v: Vocabulary, text: Bytes)
    requires Loaded(v) && Valid(text)
    ensures Symbols(v, text).Some? && Text(v.spelling, Symbols(v, text).value) == NormalText(v, text)
    decreases |text|
  {
    SymbolsIffValid(v, text);
    if text != [] {
      ValidStep(text);
      var w := Width(text[0]);
      var character := text[..w];
      SymbolsSpell(v, text[w..]);
      TextConcat(v.spelling, SymbolsOf(v, character), Symbols(v, text[w..]).value);
      if Rendered(v, character) in v.ids {
        TextOne(v.spelling, v.ids[Rendered(v, character)]);
      } else {
        FallbackSpells(v, Rendered(v, character));
      }
    }
  }

  method FallbackSymbols(v: Vocabulary, bytes: Bytes, before: seq<Token>) returns (symbols: seq<Token>)
    requires |v.byteTokens| == 256
    ensures symbols == before + Fallback(v, bytes)
  {
    symbols := before;
    var i := 0;
    assert bytes[0..] == bytes;
    while i < |bytes|
      invariant 0 <= i <= |bytes|
      invariant symbols + Fallback(v, bytes[i..]) == before + Fallback(v, bytes)
    {
      assert bytes[i..][1..] == bytes[i + 1..];
      symbols := symbols + [v.byteTokens[bytes[i]]];
      i := i + 1;
    }
  }

  lemma WidthFits(text: Bytes, at: nat, width: nat)
    requires at < |text| && width == Width(text[at]) && StartsCharacter(text[at..])
    ensures at + width <= |text|
  {
  }

  /** One character of a text, and the symbols it adds. */
  lemma SymbolsStep(v: Vocabulary, text: Bytes, at: nat, width: nat, before: seq<Token>, after: seq<Token>)
    requires |v.byteTokens| == 256 && at < |text| && width == Width(text[at]) && StartsCharacter(text[at..])
    requires at + width <= |text| && after == before + SymbolsOf(v, text[at..at + width])
    ensures Prefixed(before, Symbols(v, text[at..])) == Prefixed(after, Symbols(v, text[at + width..]))
  {
    assert text[at..][..width] == text[at..at + width] && text[at..][width..] == text[at + width..];
    PrefixedMore(before, SymbolsOf(v, text[at..at + width]), Symbols(v, text[at + width..]));
  }

  /** Appends the symbols of one character. */
  method ReadSymbol(v: Vocabulary, character: Bytes, before: seq<Token>) returns (symbols: seq<Token>)
    requires |v.byteTokens| == 256
    ensures symbols == before + SymbolsOf(v, character)
  {
    var rendered := if character == [0x20] then v.marker else character;
    if rendered in v.ids { return before + [v.ids[rendered]]; }
    symbols := FallbackSymbols(v, rendered, before);
  }

  /** The symbols of the text up to `at` are `symbols`. */
  ghost predicate ReadTo(v: Vocabulary, text: Bytes, symbols: seq<Token>, at: nat)
    requires |v.byteTokens| == 256 && at <= |text|
  {
    Symbols(v, text) == Prefixed(symbols, Symbols(v, text[at..]))
  }

  lemma ReadOn(v: Vocabulary, text: Bytes, symbols: seq<Token>, at: nat, width: nat, after: seq<Token>)
    requires |v.byteTokens| == 256 && at < |text| && width == Width(text[at]) && StartsCharacter(text[at..])
    requires at + width <= |text| && after == symbols + SymbolsOf(v, text[at..at + width])
    requires ReadTo(v, text, symbols, at)
    ensures ReadTo(v, text, after, at + width)
  {
    SymbolsStep(v, text, at, width, symbols, after);
  }

  lemma ReadFirst(v: Vocabulary, text: Bytes)
    requires |v.byteTokens| == 256
    ensures ReadTo(v, text, [], 0)
  {
    assert text[0..] == text;
    PrefixedNone(Symbols(v, text));
  }

  lemma ReadInvalid(v: Vocabulary, text: Bytes, symbols: seq<Token>, at: nat)
    requires |v.byteTokens| == 256 && at < |text| && ReadTo(v, text, symbols, at) && !StartsCharacter(text[at..])
    ensures Symbols(v, text) == None
  {
  }

  lemma ReadAll(v: Vocabulary, text: Bytes, symbols: seq<Token>)
    requires |v.byteTokens| == 256 && ReadTo(v, text, symbols, |text|)
    ensures Symbols(v, text) == Some(symbols)
  {
    assert text[|text|..] == [] && symbols + [] == symbols;
  }

  method ReadSymbols(v: Vocabulary, text: Bytes) returns (r: Option<seq<Token>>)
    requires |v.byteTokens| == 256
    ensures r == Symbols(v, text)
  {
    var symbols := [];
    var at := 0;
    ReadFirst(v, text);
    while at < |text|
      invariant 0 <= at <= |text| && ReadTo(v, text, symbols, at)
      decreases |text| - at
    {
      var width := CharacterBytes(text, at);
      if width == 0 {
        ReadInvalid(v, text, symbols, at);
        return None;
      }
      WidthFits(text, at, width);
      var after := ReadSymbol(v, text[at..at + width], symbols);
      ReadOn(v, text, symbols, at, width, after);
      symbols, at := after, at + width;
    }
    ReadAll(v, text, symbols);
    return Some(symbols);
  }

  function Prefixed(front: seq<Token>, r: Option<seq<Token>>): Option<seq<Token>> {
    match r case None => None case Some(ts) => Some(front + ts)
  }

  lemma PrefixedNone(r: Option<seq<Token>>)
    ensures Prefixed([], r) == r
  {
    if r.Some? { assert [] + r.value == r.value; }
  }

  lemma PrefixedMore(a: seq<Token>, b: seq<Token>, r: Option<seq<Token>>)
    ensures Prefixed(a, Prefixed(b, r)) == Prefixed(a + b, r)
  {
    if r.Some? { assert a + (b + r.value) == a + b + r.value; }
  }

  // ------------------------------------------------------------------------ spans

  ghost function Span(v: Vocabulary, text: Bytes): Option<seq<Token>>
    requires |v.byteTokens| == 256
  {
    match Symbols(v, text) case None => None case Some(ts) => Some(Naive(v.merges, ts))
  }

  lemma NaiveEmpty(m: Merges)
    ensures Naive(m, []) == []
  {
  }

  lemma {:induction false} SymbolsSome(v: Vocabulary, text: Bytes)
    requires |v.byteTokens| == 256 && v.marker != [] && text != [] && Symbols(v, text).Some?
    ensures Symbols(v, text).value != []
  {
    assert Rendered(v, text[..Width(text[0])]) != [];
  }

  /** `None` stands for the exception on invalid UTF-8. */
  method EncodeSpan(v: Vocabulary, text: Bytes) returns (r: Option<seq<Token>>)
    requires Loaded(v) && v.marker != []
    ensures r == Span(v, text)
  {
    NaiveEmpty(v.merges);
    if text == [] { return Some([]); }
    var symbols := ReadSymbols(v, text);
    if symbols.None? { return None; }
    SymbolsSome(v, text);
    var output, _ := MergeAll(v.merges, symbols.value);
    return Some(output);
  }

  /** A span encodes exactly when it is valid UTF-8; its tokens spell the normalised text and
      no two neighbours of them merge any more. */
  lemma SpanFaithful(v: Vocabulary, text: Bytes)
    requires Loaded(v)
    ensures Span(v, text).Some? <==> Valid(text)
    ensures Valid(text) ==> Text(v.spelling, Span(v, text).value) == NormalText(v, text)
    ensures Valid(text) ==> forall i: nat :: !Mergeable(v.merges, Span(v, text).value, i)
  {
    SymbolsIffValid(v, text);
    if Valid(text) {
      SymbolsSpell(v, text);
      NaiveText(v.merges, v.spelling, Symbols(v, text).value);
      NaiveDone(v.merges, Symbols(v, text).value);
    }
  }

  // ----------------------------------------------------------------- added tokens

  predicate MatchesAt(v: Vocabulary, text: Bytes, at: nat, t: Token) {
    at <= |text| && v.spelling(t) <= text[at..]
  }

  /** The longest added token at `at`, the first of them in the list. */
  predicate Longest(v: Vocabulary, text: Bytes, at: nat, t: Token) {
    && t in v.specials && MatchesAt(v, text, at, t)
    && forall i :: 0 <= i < |v.specials| && MatchesAt(v, text, at, v.specials[i]) ==>
       |v.spelling(v.specials[i])| <= |v.spelling(t)|
  }

  predicate NoneAt(v: Vocabulary, text: Bytes, at: nat) {
    forall i :: 0 <= i < |v.specials| ==> !MatchesAt(v, text, at, v.specials[i])
  }

  /** Two matches of one length are the same text, so the longest match is determined. */
  lemma LongestUnique(v: Vocabulary, text: Bytes, at: nat, s: Token, t: Token)
    requires Loaded(v) && Longest(v, text, at, s) && Longest(v, text, at, t)
    ensures s == t
  {
    var i, j :| 0 <= i < |v.specials| && 0 <= j < |v.specials| && v.specials[i] == s && v.specials[j] == t;
    assert MatchesAt(v, text, at, v.specials[i]) && MatchesAt(v, text, at, v.specials[j]);
    assert v.spelling(s) == text[at..][..|v.spelling(s)|] == v.spelling(t);
  }

  lemma NoneIffNoLongest(v: Vocabulary, text: Bytes, at: nat, t: Token)
    requires NoneAt(v, text, at)
    ensures !Longest(v, text, at, t)
  {
    if t in v.specials {
      var i :| 0 <= i < |v.specials| && v.specials[i] == t;
      assert !MatchesAt(v, text, at, v.specials[i]);
    }
  }

  method FindSpecial(v: Vocabulary, text: Bytes, scan: nat) returns (found: bool, special: Token)
    requires Loaded(v) && scan <= |text|
    ensures found ==> Longest(v, text, scan, special)
    ensures !found ==> NoneAt(v, text, scan)
  {
    found, special := false, 0;
    for i := 0 to |v.specials|
      invariant found ==> special in v.specials && MatchesAt(v, text, scan, special)
      invariant forall k :: 0 <= k < i && MatchesAt(v, text, scan, v.specials[k]) ==>
                  found && |v.spelling(v.specials[k])| <= |v.spelling(special)|
    {
      var id := v.specials[i];
      var n := |v.spelling(id)|;
      var here := if scan + n <= |text| then text[scan..scan + n] else text[scan..];
      assert scan + n <= |text| ==> here == text[scan..][..n];
      if here == v.spelling(id) && (!found || n > |v.spelling(special)|) {
        special, found := id, true;
      }
    }
  }

  // --------------------------------------------------------------------- encoding

  ghost function SpecialAt(v: Vocabulary, text: Bytes, at: nat): Option<Token> {
    if exists t :: Longest(v, text, at, t) then
      var t :| Longest(v, text, at, t);
      Some(t)
    else None
  }

  function Joined(span: Option<seq<Token>>, t: Token, rest: Option<seq<Token>>): Option<seq<Token>> {
    if span.Some? && rest.Some? then Some(span.value + [t] + rest.value) else None
  }

  /** Encoding of a text in which no added token starts before `scan`. */
  ghost function EncodeScan(v: Vocabulary, text: Bytes, scan: nat): Option<seq<Token>>
    requires Loaded(v) && scan <= |text|
    decreases |text|, |text| - scan
  {
    if scan == |text| then Span(v, text)
    else if text[scan] == 0x3C && SpecialAt(v, text, scan).Some? then
      var t := SpecialAt(v, text, scan).value;
      Joined(Span(v, text[..scan]), t, EncodeScan(v, text[scan + |v.spelling(t)|..], 0))
    else EncodeScan(v, text, scan + 1)
  }

  ghost function Encoding(v: Vocabulary, text: Bytes): Option<seq<Token>>
    requires Loaded(v)
  {
    EncodeScan(v, text, 0)
  }

  /** No added token starts before `p`. */
  ghost predicate Plain(v: Vocabulary, text: Bytes, p: nat) {
    forall q: nat :: q < p && q < |text| && text[q] == 0x3C ==> NoneAt(v, text, q)
  }

  lemma {:induction false} ScanOver(v: Vocabulary, text: Bytes, p: nat)
    requires Loaded(v) && p <= |text| && Plain(v, text, p)
    ensures Encoding(v, text) == EncodeScan(v, text, p)
    decreases p
  {
    if p > 0 {
      ScanOver(v, text, p - 1);
      var q: nat := p - 1;
      if text[q] == 0x3C { forall t ensures !Longest(v, text, q, t) { NoneIffNoLongest(v, text, q, t); } }
    }
  }

  /** The first added token splits the text; it stands for itself and nothing merges across it. */
  lemma EncodingSplits(v: Vocabulary, text: Bytes, p: nat, t: Token)
    requires Loaded(v) && p < |text| && Plain(v, text, p) && text[p] == 0x3C && Longest(v, text, p, t)
    ensures p + |v.spelling(t)| <= |text|
    ensures Encoding(v, text) == Joined(Span(v, text[..p]), t, Encoding(v, text[p + |v.spelling(t)|..]))
  {
    ScanOver(v, text, p);
    ScanMeets(v, text, p, t);
  }

  lemma JoinedPrefix(front: seq<Token>, span: Option<seq<Token>>, t: Token, rest: Option<seq<Token>>)
    ensures Prefixed(front, Joined(span, t, rest)) ==
      if span.Some? then Prefixed(front + span.value + [t], rest) else None
  {
    if span.Some? && rest.Some? {
      assert front + (span.value + [t] + rest.value) == front + span.value + [t] + rest.value;
    }
  }

  lemma LongestShift(v: Vocabulary, text: Bytes, span: nat, scan: nat, t: Token)
    requires span <= scan <= |text|
    ensures Longest(v, text[span..], scan - span, t) <==> Longest(v, text, scan, t)
  {
    assert text[span..][scan - span..] == text[scan..];
    forall s ensures MatchesAt(v, text[span..], scan - span, s) <==> MatchesAt(v, text, scan, s) {}
  }

  lemma ScanSkips(v: Vocabulary, text: Bytes, span: nat, scan: nat)
    requires Loaded(v) && span <= scan < |text| && (text[scan] == 0x3C ==> NoneAt(v, text, scan))
    ensures EncodeScan(v, text[span..], scan - span) == EncodeScan(v, text[span..], scan + 1 - span)
  {
    if text[scan] == 0x3C {
      var rest, at := text[span..], scan - span;
      forall t ensures !Longest(v, rest, at, t) {
        LongestShift(v, text, span, scan, t);
        NoneIffNoLongest(v, text, scan, t);
      }
    }
  }

  lemma ScanMeets(v: Vocabulary, text: Bytes, at: nat, t: Token)
    requires Loaded(v) && at < |text| && text[at] == 0x3C && Longest(v, text, at, t)
    ensures at + |v.spelling(t)| <= |text|
    ensures EncodeScan(v, text, at) == Joined(Span(v, text[..at]), t, Encoding(v, text[at + |v.spelling(t)|..]))
  {
    SpecialIs(v, text, at, t);
  }

  lemma SpecialIs(v: Vocabulary, text: Bytes, at: nat, t: Token)
    requires Loaded(v) && Longest(v, text, at, t)
    ensures SpecialAt(v, text, at) == Some(t) && at + |v.spelling(t)| <= |text| && v.spelling(t) != []
  {
    LongestUnique(v, text, at, t, SpecialAt(v, text, at).value);
  }

  /** What is left to encode: the text from `span` on, scanned up to `scan`. */
  ghost function Remaining(v: Vocabulary, text: Bytes, span: nat, scan: nat): Option<seq<Token>>
    requires Loaded(v) && span <= scan <= |text|
  {
    EncodeScan(v, text[span..], scan - span)
  }

  lemma RemainingAll(v: Vocabulary, text: Bytes)
    requires Loaded(v)
    ensures Encoding(v, text) == Prefixed([], Remaining(v, text, 0, 0))
  {
    assert text[0..] == text;
    PrefixedNone(Encoding(v, text));
  }

  lemma SlicesShift(text: Bytes, span: nat, scan: nat, n: nat)
    requires span <= scan && scan + n <= |text|
    ensures text[span..][..scan - span] == text[span..scan]
    ensures text[span..][scan - span + n..] == text[scan + n..]
  {
  }

  lemma ScanSplits(v: Vocabulary, text: Bytes, span: nat, scan: nat, t: Token, next: nat)
    requires Loaded(v) && span <= scan < |text| && text[scan] == 0x3C && Longest(v, text, scan, t)
    requires next == scan + |v.spelling(t)|
    ensures next <= |text|
    ensures Remaining(v, text, span, scan) == Joined(Span(v, text[span..scan]), t, Remaining(v, text, next, next))
  {
    LongestFits(v, text, scan, t);
    LongestShift(v, text, span, scan, t);
    SlicesShift(text, span, scan, |v.spelling(t)|);
    ScanMeetsAs(v, text[span..], scan - span, t, text[span..scan], text[next..]);
    RemainingAs(v, text, span, scan, t, next, Span(v, text[span..scan]));
  }

  lemma LongestFits(v: Vocabulary, text: Bytes, at: nat, t: Token)
    requires Longest(v, text, at, t)
    ensures at + |v.spelling(t)| <= |text|
  {
  }

  lemma RemainingAs(v: Vocabulary, text: Bytes, span: nat, scan: nat, t: Token, next: nat,
      tokens: Option<seq<Token>>)
    requires Loaded(v) && span <= scan <= next <= |text|
    requires EncodeScan(v, text[span..], scan - span) == Joined(tokens, t, EncodeScan(v, text[next..], 0))
    ensures Remaining(v, text, span, scan) == Joined(tokens, t, Remaining(v, text, next, next))
  {
  }

  /** The same, with names for the two sides of the token. */
  lemma ScanMeetsAs(v: Vocabulary, rest: Bytes, at: nat, t: Token, before: Bytes, after: Bytes)
    requires Loaded(v) && at < |rest| && rest[at] == 0x3C && Longest(v, rest, at, t) && at + |v.spelling(t)| <= |rest|
    requires before == rest[..at] && after == rest[at + |v.spelling(t)|..]
    ensures EncodeScan(v, rest, at) == Joined(Span(v, before), t, EncodeScan(v, after, 0))
  {
    ScanMeets(v, rest, at, t);
  }

  lemma RemainingSplits(v: Vocabulary, text: Bytes, output: seq<Token>, span: nat, scan: nat, t: Token, next: nat)
    requires Loaded(v) && span <= scan < |text| && text[scan] == 0x3C && Longest(v, text, scan, t)
    requires next == scan + |v.spelling(t)|
    ensures scan < next <= |text|
    ensures Prefixed(output, Remaining(v, text, span, scan)) ==
      var tokens := Span(v, text[span..scan]);
      if tokens.Some? then Prefixed(output + tokens.value + [t], Remaining(v, text, next, next)) else None
  {
    ScanSplits(v, text, span, scan, t, next);
    JoinedPrefix(output, Span(v, text[span..scan]), t, Remaining(v, text, next, next));
  }

  method Encode(v: Vocabulary, text: Bytes) returns (r: Option<seq<Token>>)
    requires Loaded(v) && v.marker != []
    ensures r == Encoding(v, text)
  {
    var output: seq<Token> := [];
    var span, scan := 0, 0;
    RemainingAll(v, text);
    while scan < |text|
      invariant 0 <= span <= scan <= |text|
      invariant Encoding(v, text) == Prefixed(output, Remaining(v, text, span, scan))
      decreases |text| - scan
    {
      var found, special := false, 0;
      if text[scan] == 0x3C { found, special := FindSpecial(v, text, scan); }
      if found {
        var next := scan + |v.spelling(special)|;
        RemainingSplits(v, text, output, span, scan, special, next);
        var tokens := EncodeSpan(v, text[span..scan]);
        if tokens.None? { return None; }
        output := output + tokens.value + [special];
        span, scan := next, next;
      } else {
        ScanSkips(v, text, span, scan);
        scan := scan + 1;
      }
    }
    var tokens := EncodeSpan(v, text[span..]);
    if tokens.None? { return None; }
    return Some(output + tokens.value);
  }
}
