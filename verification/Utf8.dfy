/** UTF-8. Three readers of the repository and one grammar: the byte strings they accept are
    those of RFC 3629, section 4, and each of them is the encoding of one scalar value. */
module Utf8 {

  type Byte = x: int | 0 <= x < 256
  type Bytes = seq<Byte>

  datatype Option<T> = None | Some(value: T)

  // ------------------------------------------------------------------- reference

  predicate Tail(b: Byte) { 0x80 <= b <= 0xBF }

  /** One character, by the grammar of RFC 3629, section 4. */
  predicate Octets(s: Bytes) {
    || (|s| == 1 && s[0] <= 0x7F)
    || (|s| == 2 && 0xC2 <= s[0] <= 0xDF && Tail(s[1]))
    || (|s| == 3 && s[0] == 0xE0 && 0xA0 <= s[1] <= 0xBF && Tail(s[2]))
    || (|s| == 3 && 0xE1 <= s[0] <= 0xEC && Tail(s[1]) && Tail(s[2]))
    || (|s| == 3 && s[0] == 0xED && 0x80 <= s[1] <= 0x9F && Tail(s[2]))
    || (|s| == 3 && 0xEE <= s[0] <= 0xEF && Tail(s[1]) && Tail(s[2]))
    || (|s| == 4 && s[0] == 0xF0 && 0x90 <= s[1] <= 0xBF && Tail(s[2]) && Tail(s[3]))
    || (|s| == 4 && 0xF1 <= s[0] <= 0xF3 && Tail(s[1]) && Tail(s[2]) && Tail(s[3]))
    || (|s| == 4 && s[0] == 0xF4 && 0x80 <= s[1] <= 0x8F && Tail(s[2]) && Tail(s[3]))
  }

  predicate IsScalar(c: int) { 0 <= c <= 0x10FFFF && !(0xD800 <= c <= 0xDFFF) }

  /** The encoding of a scalar value, by RFC 3629, section 3. */
  function Encode(c: int): Bytes
    requires IsScalar(c)
  {
    if c < 0x80 then [c]
    else if c < 0x800 then [0xC0 + c / 64, 0x80 + c % 64]
    else if c < 0x10000 then [0xE0 + c / 64 / 64, 0x80 + c / 64 % 64, 0x80 + c % 64]
    else [0xF0 + c / 64 / 64 / 64, 0x80 + c / 64 / 64 % 64, 0x80 + c / 64 % 64, 0x80 + c % 64]
  }

  /** Text made of whole characters. */
  predicate Valid(s: Bytes)
    decreases |s|
  {
    s == [] || exists n: nat :: 1 <= n <= 4 && n <= |s| && Octets(s[..n]) && Valid(s[n..])
  }

  // -------------------------------------------------------------- scalar reader

  function Width(first: Byte): nat {
    if first < 0x80 then 1
    else if 0xC2 <= first <= 0xDF then 2
    else if 0xE0 <= first <= 0xEF then 3
    else if 0xF0 <= first <= 0xF4 then 4
    else 0
  }

  predicate StartsCharacter(s: Bytes) { s != [] && 1 <= Width(s[0]) <= |s| && Octets(s[..Width(s[0])]) }

  function Lead(first: Byte): nat {
    if first < 0x80 then first
    else if first < 0xE0 then first % 32
    else if first < 0xF0 then first % 16
    else first % 8
  }

  /** The bits of the first `n` bytes of a character. */
  function Bits(s: Bytes, n: nat): nat
    requires 1 <= n <= |s|
  {
    if n == 1 then Lead(s[0]) else Bits(s, n - 1) * 64 + s[n - 1] % 64
  }

  /** Whether the scalar read from `width` bytes is one that needs that many. */
  predicate Shortest(width: nat, scalar: nat) {
    !(|| (width == 2 && scalar < 0x80) || (width == 3 && scalar < 0x800) || (width == 4 && scalar < 0x10000)
      || scalar > 0x10FFFF || 0xD800 <= scalar <= 0xDFFF)
  }

  predicate Tails(s: Bytes, n: nat)
    requires n <= |s|
  {
    forall i :: 1 <= i < n ==> Tail(s[i])
  }

  /** What the reader decides about the bytes from its offset on. */
  predicate Readable(s: Bytes) {
    && s != [] && 1 <= Width(s[0]) <= |s| && Tails(s, Width(s[0]))
    && Shortest(Width(s[0]), Bits(s, Width(s[0])))
  }

  lemma BitsUnfold(s: Bytes, n: nat)
    requires 1 <= n <= |s| && n <= 4
    ensures Bits(s, n) ==
      if n == 1 then Lead(s[0])
      else if n == 2 then Lead(s[0]) * 64 + s[1] % 64
      else if n == 3 then (Lead(s[0]) * 64 + s[1] % 64) * 64 + s[2] % 64
      else ((Lead(s[0]) * 64 + s[1] % 64) * 64 + s[2] % 64) * 64 + s[3] % 64
  {
    if n >= 2 { assert Bits(s, n) == Bits(s, n - 1) * 64 + s[n - 1] % 64; }
    if n >= 3 { assert Bits(s, n - 1) == Bits(s, n - 2) * 64 + s[n - 2] % 64; }
    if n >= 4 { assert Bits(s, n - 2) == Bits(s, n - 3) * 64 + s[n - 3] % 64; }
  }

  /** The bits of the first `n` bytes when the others are continuation bytes. */
  function Plain(s: Bytes, n: nat): int
    requires 1 <= n <= |s| && n <= 4
  {
    var at := (i: nat) requires i < |s| => s[i] as int;
    if n == 1 then at(0)
    else if n == 2 then (at(0) - 0xC0) * 64 + (at(1) - 0x80)
    else if n == 3 then ((at(0) - 0xE0) * 64 + (at(1) - 0x80)) * 64 + (at(2) - 0x80)
    else (((at(0) - 0xF0) * 64 + (at(1) - 0x80)) * 64 + (at(2) - 0x80)) * 64 + (at(3) - 0x80)
  }

  lemma LowBits(b: Byte)
    ensures Tail(b) <==> b / 64 == 2
    ensures Tail(b) ==> b % 64 == b - 0x80
    ensures 0xC2 <= b <= 0xDF ==> b % 32 == b - 0xC0
    ensures 0xE0 <= b <= 0xEF ==> b % 16 == b - 0xE0
    ensures 0xF0 <= b <= 0xF4 ==> b % 8 == b - 0xF0
  {
  }

  lemma BitsPlain(s: Bytes, n: nat)
    requires 1 <= n <= |s| && n == Width(s[0]) && Tails(s, n)
    ensures Bits(s, n) == Plain(s, n)
  {
    BitsUnfold(s, n);
    LowBits(s[0]);
    if n >= 2 { LowBits(s[1]); }
    if n >= 3 { LowBits(s[2]); }
    if n >= 4 { LowBits(s[3]); }
  }

  /** The arithmetic test of the reader is the range test of the grammar. */
  lemma ReadableIffOctets(s: Bytes)
    requires s != []
    ensures Readable(s) <==> StartsCharacter(s)
  {
    var w := Width(s[0]);
    if 1 <= w <= |s| {
      TailsIff(s, w);
      if Tails(s, w) { BitsPlain(s, w); }
    }
  }

  lemma TailsIff(s: Bytes, n: nat)
    requires 1 <= n <= |s| && n <= 4
    ensures Tails(s, n) <==> (n >= 2 ==> Tail(s[1])) && (n >= 3 ==> Tail(s[2])) && (n >= 4 ==> Tail(s[3]))
  {
  }

  /** A character of the grammar has the width its first byte announces. */
  lemma OctetsWidth(s: Bytes, n: nat)
    requires 1 <= n <= |s| && Octets(s[..n])
    ensures n == Width(s[0])
  {
  }

  /** The grammar's characters are exactly the encodings of scalar values, and reading one
      gives its scalar. */
  lemma OctetsEncode(c: int)
    requires IsScalar(c)
    ensures Octets(Encode(c)) && Width(Encode(c)[0]) == |Encode(c)| && Bits(Encode(c), |Encode(c)|) == c
  {
    var s := Encode(c);
    var x, y := c / 64, c % 64;
    assert c == x * 64 + y;
    if c >= 0x800 {
      var x1, y1 := x / 64, x % 64;
      assert x == x1 * 64 + y1;
      if c >= 0x10000 { assert x1 == x1 / 64 * 64 + x1 % 64; }
    }
    TailsIff(s, |s|);
    BitsPlain(s, |s|);
  }

  lemma Digits(high: nat, low: nat)
    requires low < 64
    ensures (high * 64 + low) / 64 == high && (high * 64 + low) % 64 == low
  {
  }

  lemma OctetsDecode(s: Bytes)
    requires Octets(s)
    ensures IsScalar(Bits(s, |s|)) && Encode(Bits(s, |s|)) == s
  {
    OctetsPlain(s);
    if |s| == 2 { DecodesTwo(s); }
    else if |s| == 3 { DecodesThree(s); }
    else if |s| == 4 { DecodesFour(s); }
  }

  lemma OctetsPlain(s: Bytes)
    requires Octets(s)
    ensures Bits(s, |s|) == Plain(s, |s|)
  {
    TailsIff(s, |s|);
    BitsPlain(s, |s|);
  }

  lemma DecodesTwo(s: Bytes)
    requires Octets(s) && |s| == 2
    ensures IsScalar(Plain(s, 2)) && Encode(Plain(s, 2)) == s
  {
    Digits(s[0] as int - 0xC0, s[1] as int - 0x80);
    var e := Encode(Plain(s, 2));
    assert |e| == 2 && e[0] == s[0] && e[1] == s[1];
  }

  lemma DecodesThree(s: Bytes)
    requires Octets(s) && |s| == 3
    ensures IsScalar(Plain(s, 3)) && Encode(Plain(s, 3)) == s
  {
    DecodeThree(s[0], s[1], s[2]);
    var e := Encode(Plain(s, 3));
    assert |e| == 3 && e[0] == s[0] && e[1] == s[1] && e[2] == s[2];
  }

  lemma DecodesFour(s: Bytes)
    requires Octets(s) && |s| == 4
    ensures IsScalar(Plain(s, 4)) && Encode(Plain(s, 4)) == s
  {
    DecodeFour(s[0], s[1], s[2], s[3]);
    var e := Encode(Plain(s, 4));
    assert |e| == 4 && e[0] == s[0] && e[1] == s[1] && e[2] == s[2] && e[3] == s[3];
  }

  lemma DecodeThree(a: int, b: int, c: int)
    requires 0xE0 <= a <= 0xEF && 0x80 <= b <= 0xBF && 0x80 <= c <= 0xBF
    requires (a == 0xE0 ==> 0xA0 <= b) && (a == 0xED ==> b <= 0x9F)
    ensures var x := ((a - 0xE0) * 64 + (b - 0x80)) * 64 + (c - 0x80);
      IsScalar(x) && x >= 0x800 && x < 0x10000 && x / 64 / 64 == a - 0xE0 && x / 64 % 64 == b - 0x80
          && x % 64 == c - 0x80
  {
    Digits((a - 0xE0) * 64 + (b - 0x80), c - 0x80);
    Digits(a - 0xE0, b - 0x80);
  }

  lemma DecodeFour(a: int, b: int, c: int, d: int)
    requires 0xF0 <= a <= 0xF4 && 0x80 <= b <= 0xBF && 0x80 <= c <= 0xBF && 0x80 <= d <= 0xBF
    requires (a == 0xF0 ==> 0x90 <= b) && (a == 0xF4 ==> b <= 0x8F)
    ensures var x := (((a - 0xF0) * 64 + (b - 0x80)) * 64 + (c - 0x80)) * 64 + (d - 0x80);
      && IsScalar(x) && x >= 0x10000 && x / 64 / 64 / 64 == a - 0xF0
      && x / 64 / 64 % 64 == b - 0x80 && x / 64 % 64 == c - 0x80 && x % 64 == d - 0x80
  {
    Digits(((a - 0xF0) * 64 + (b - 0x80)) * 64 + (c - 0x80), d - 0x80);
    Digits((a - 0xF0) * 64 + (b - 0x80), c - 0x80);
    Digits(a - 0xF0, b - 0x80);
  }

  lemma BitsPrefix(s: Bytes, t: Bytes, n: nat)
    requires 1 <= n <= |s| && n <= |t| && s[..n] == t[..n]
    ensures Bits(s, n) == Bits(t, n)
  {
    assert s[n - 1] == s[..n][n - 1] == t[n - 1];
    if n > 1 {
      assert s[..n - 1] == s[..n][..n - 1] == t[..n - 1];
      BitsPrefix(s, t, n - 1);
    }
  }

  lemma ReadableEncodes(rest: Bytes)
    requires Readable(rest)
    ensures var scalar := Bits(rest, Width(rest[0]));
      IsScalar(scalar) && Encode(scalar) <= rest && |Encode(scalar)| == Width(rest[0])
  {
    var width := Width(rest[0]);
    ReadableIffOctets(rest);
    OctetsDecode(rest[..width]);
    BitsPrefix(rest, rest[..width], width);
    assert rest[..width] <= rest;
  }

  lemma ReadableIffEncoded(rest: Bytes)
    requires rest != []
    ensures Readable(rest) <==> exists c :: IsScalar(c) && Encode(c) <= rest
  {
    ReadableIffOctets(rest);
    ReadIffStarts(rest);
  }

  /** Reads one scalar at `offset`. It succeeds exactly on the encoding of a scalar value. */
  method ReadScalar(text: Bytes, offset: nat) returns (ok: bool, scalar: nat, next: nat)
    requires offset < |text|
    ensures ok <==> exists c :: IsScalar(c) && Encode(c) <= text[offset..]
    ensures ok ==> IsScalar(scalar) && Encode(scalar) <= text[offset..] && next == offset + |Encode(scalar)|
    ensures !ok ==> next == offset
  {
    ReadableIffEncoded(text[offset..]);
    ok, scalar, next := ReadBits(text, offset);
    if ok { ReadableEncodes(text[offset..]); }
  }

  /** The reader's own tests, as it makes them. */
  method ReadBits(text: Bytes, offset: nat) returns (ok: bool, scalar: nat, next: nat)
    requires offset < |text|
    ensures ok <==> Readable(text[offset..])
    ensures ok ==> scalar == Bits(text[offset..], Width(text[offset])) && next == offset + Width(text[offset])
    ensures !ok ==> next == offset
  {
    ghost var rest := text[offset..];
    next := offset;
    var first := text[offset];
    scalar := 0;
    var width := 0;
    if first < 0x80 { width, scalar := 1, first; }
    else if 0xC2 <= first <= 0xDF { width, scalar := 2, first % 32; }
    else if 0xE0 <= first <= 0xEF { width, scalar := 3, first % 16; }
    else if 0xF0 <= first <= 0xF4 { width, scalar := 4, first % 8; }
    else { return false, 0, offset; }
    if |text| - offset < width { return false, scalar, offset; }
    var index := 1;
    while index < width
      invariant 1 <= index <= width && scalar == Bits(rest, index) && Tails(rest, index)
    {
      var byte := text[offset + index];
      assert byte == rest[index];
      if byte / 64 != 2 { return false, scalar, offset; }
      scalar := scalar * 64 + byte % 64;
      index := index + 1;
    }
    if (width == 2 && scalar < 0x80) || (width == 3 && scalar < 0x800) || (width == 4 && scalar < 0x10000)
       || scalar > 0x10FFFF || 0xD800 <= scalar <= 0xDFFF {
      return false, scalar, offset;
    }
    return true, scalar, offset + width;
  }

  // --------------------------------------------------------------- valid text

  /** Text is valid when characters can be taken off its front to the end. */
  lemma ValidStep(s: Bytes)
    requires s != []
    ensures Valid(s) <==> StartsCharacter(s) && Valid(s[Width(s[0])..])
  {
    if Valid(s) {
      var n: nat :| 1 <= n <= 4 && n <= |s| && Octets(s[..n]) && Valid(s[n..]);
      OctetsWidth(s, n);
    }
  }

  /** Reads whole characters to the end. */
  method AllReadable(text: Bytes) returns (ok: bool)
    ensures ok <==> Valid(text)
  {
    var offset := 0;
    while offset < |text|
      invariant 0 <= offset <= |text|
      invariant Valid(text) <==> Valid(text[offset..])
      decreases |text| - offset
    {
      ghost var rest := text[offset..];
      ValidStep(rest);
      ReadableIffOctets(rest);
      var read, _, next := ReadScalar(text, offset);
      ReadIffStarts(rest);
      if !read { return false; }
      NextIs(rest, next - offset);
      assert rest[next - offset..] == text[next..];
      offset := next;
    }
    assert text[offset..] == [];
    return true;
  }

  lemma ReadIffStarts(rest: Bytes)
    requires rest != []
    ensures StartsCharacter(rest) <==> exists c :: IsScalar(c) && Encode(c) <= rest
  {
    if StartsCharacter(rest) {
      var w := Width(rest[0]);
      OctetsDecode(rest[..w]);
      assert Encode(Bits(rest[..w], |rest[..w]|)) <= rest;
    }
    if exists c :: IsScalar(c) && Encode(c) <= rest {
      var c :| IsScalar(c) && Encode(c) <= rest;
      OctetsEncode(c);
      assert rest[..|Encode(c)|] == Encode(c);
    }
  }

  lemma NextIs(rest: Bytes, n: nat)
    requires rest != [] && exists c :: IsScalar(c) && Encode(c) <= rest && n == |Encode(c)|
    ensures n == Width(rest[0])
  {
    var c :| IsScalar(c) && Encode(c) <= rest && n == |Encode(c)|;
    OctetsEncode(c);
    assert rest[0] == Encode(c)[0];
  }

  // ------------------------------------------------------- the tokenizer's check

  /** The width of the character at `at`; zero where the tokenizer throws. */
  method CharacterBytes(text: Bytes, at: nat) returns (size: nat)
    requires at < |text|
    ensures size != 0 <==> StartsCharacter(text[at..])
    ensures size != 0 ==> size == Width(text[at])
  {
    var first := text[at];
    ghost var rest := text[at..];
    if first < 0x80 { return 1; }
    var width := if 0xC2 <= first <= 0xDF then 2 else if 0xE0 <= first <= 0xEF then 3
      else if 0xF0 <= first <= 0xF4 then 4 else 0;
    if width == 0 || width > |text| - at { return 0; }
    var i := 1;
    while i < width
      invariant 1 <= i <= width && Tails(rest, i)
    {
      assert text[at + i] == rest[i];
      if text[at + i] / 64 != 2 { return 0; }
      i := i + 1;
    }
    var second := text[at + 1];
    assert second == rest[1];
    assert width > 2 ==> Tail(rest[2]);
    assert width > 3 ==> Tail(rest[3]);
    if (first == 0xE0 && second < 0xA0) || (first == 0xED && second >= 0xA0)
       || (first == 0xF0 && second < 0x90) || (first == 0xF4 && second >= 0x90) {
      return 0;
    }
    return width;
  }

  // ------------------------------------------------------------- the automaton

  datatype State = State(remaining: nat, lower: nat, upper: nat)

  const Idle := State(0, 0x80, 0xBF)

  function Accepts(s: State, b: Byte): Option<State> {
    if s.remaining > 0 then
      if b < s.lower || b > s.upper then None else Some(State(s.remaining - 1, 0x80, 0xBF))
    else if b <= 0x7F then Some(s)
    else if 0xC2 <= b <= 0xDF then Some(s.(remaining := 1))
    else if 0xE0 <= b <= 0xEF then
      Some(State(2, if b == 0xE0 then 0xA0 else s.lower, if b == 0xED then 0x9F else s.upper))
    else if 0xF0 <= b <= 0xF4 then
      Some(State(3, if b == 0xF0 then 0x90 else s.lower, if b == 0xF4 then 0x8F else s.upper))
    else None
  }

  function AcceptsAll(s: State, text: Bytes): Option<State>
    decreases |text|
  {
    if text == [] then Some(s)
    else match Accepts(s, text[0])
      case None => None
      case Some(next) => AcceptsAll(next, text[1..])
  }

  class Automaton {
    var remaining: nat
    var lower: nat
    var upper: nat

    function View(): State reads this { State(remaining, lower, upper) }

    constructor ()
      ensures View() == Idle
    {
      remaining, lower, upper := 0, 0x80, 0xBF;
    }

    constructor CopyOf(other: Automaton)
      ensures View() == other.View()
    {
      remaining, lower, upper := other.remaining, other.lower, other.upper;
    }

    method Accept(byte: Byte) returns (ok: bool)
      modifies this
      ensures match Accepts(old(View()), byte)
        case Some(next) => ok && View() == next
        case None => !ok && View() == old(View())
    {
      if remaining > 0 {
        if byte < lower || byte > upper { return false; }
        remaining := remaining - 1;
        lower, upper := 0x80, 0xBF;
        return true;
      }
      if byte <= 0x7F { return true; }
      if 0xC2 <= byte <= 0xDF { remaining := 1; }
      else if 0xE0 <= byte <= 0xEF {
        remaining := 2;
        if byte == 0xE0 { lower := 0xA0; }
        if byte == 0xED { upper := 0x9F; }
      } else if 0xF0 <= byte <= 0xF4 {
        remaining := 3;
        if byte == 0xF0 { lower := 0x90; }
        if byte == 0xF4 { upper := 0x8F; }
      } else { return false; }
      return true;
    }
  }

  /** From the idle state a whole character leads back to the idle state, and nothing shorter does. */
  lemma AutomatonCharacter(s: Bytes)
    requires s != []
    ensures StartsCharacter(s) ==> AcceptsAll(Idle, s) == AcceptsAll(Idle, s[Width(s[0])..])
    ensures !StartsCharacter(s) ==> AcceptsAll(Idle, s).None? || AcceptsAll(Idle, s).value.remaining > 0
  {
    var w := Width(s[0]);
    var one := Accepts(Idle, s[0]);
    assert w > 0 <==> one.Some?;
    if w >= 2 && |s| >= 2 {
      var two := Accepts(one.value, s[1]);
      AcceptsStep(one.value, s, 1);
      if two.Some? && w >= 3 && |s| >= 3 {
        var three := Accepts(two.value, s[2]);
        AcceptsStep(two.value, s, 2);
        if three.Some? && w == 4 && |s| >= 4 {
          AcceptsStep(three.value, s, 3);
        }
      }
    }
  }

  lemma AcceptsStep(state: State, s: Bytes, i: nat)
    requires i < |s|
    ensures AcceptsAll(state, s[i..]) ==
      match Accepts(state, s[i]) case None => None case Some(next) => AcceptsAll(next, s[i + 1..])
  {
    assert s[i..][0] == s[i] && s[i..][1..] == s[i + 1..];
  }

  /** The automaton ends idle exactly on valid text. */
  lemma {:induction false} AutomatonAgrees(text: Bytes)
    ensures Valid(text) <==> AcceptsAll(Idle, text).Some? && AcceptsAll(Idle, text).value.remaining == 0
    decreases |text|
  {
    if text != [] {
      ValidStep(text);
      AutomatonCharacter(text);
      if StartsCharacter(text) { AutomatonAgrees(text[Width(text[0])..]); }
    }
  }

  lemma {:induction false} AcceptsConcat(s: State, a: Bytes, b: Bytes)
    ensures AcceptsAll(s, a + b) == match AcceptsAll(s, a) case None => None case Some(next) => AcceptsAll(next, b)
    decreases |a|
  {
    if a == [] {
      assert a + b == b;
    } else {
      assert (a + b)[1..] == a[1..] + b;
      match Accepts(s, a[0]) {
        case None =>
        case Some(next) => AcceptsConcat(next, a[1..], b);
      }
    }
  }

  predicate Sane(s: State) {
    s.remaining <= 3 && 0x80 <= s.lower <= s.upper <= 0xBF && (s.remaining == 0 ==> s == Idle)
  }

  lemma {:induction false} AcceptsSane(s: State, text: Bytes)
    requires Sane(s)
    ensures AcceptsAll(s, text).Some? ==> Sane(AcceptsAll(s, text).value)
    decreases |text|
  {
    if text != [] && Accepts(s, text[0]).Some? { AcceptsSane(Accepts(s, text[0]).value, text[1..]); }
  }

  /** The bytes that finish the character under way. */
  function Completion(s: State): (r: Bytes)
    requires Sane(s)
    ensures AcceptsAll(s, r) == Some(Idle)
    decreases s.remaining
  {
    if s.remaining == 0 then []
    else
      var rest := Completion(State(s.remaining - 1, 0x80, 0xBF));
      assert ([s.lower as Byte] + rest)[1..] == rest;
      [s.lower as Byte] + rest
  }

  /** The automaton is still alive exactly when some continuation makes the text valid. */
  lemma AutomatonAlive(text: Bytes)
    ensures AcceptsAll(Idle, text).Some? <==> exists rest: Bytes :: Valid(text + rest)
  {
    if AcceptsAll(Idle, text).Some? {
      AcceptsSane(Idle, text);
      var rest := Completion(AcceptsAll(Idle, text).value);
      AcceptsConcat(Idle, text, rest);
      AutomatonAgrees(text + rest);
    }
    if exists rest: Bytes :: Valid(text + rest) {
      var rest: Bytes :| Valid(text + rest);
      AutomatonAgrees(text + rest);
      AcceptsConcat(Idle, text, rest);
    }
  }
}
