/** The two base64 decoders of the engine, against the encoding of sections 4 and 5 of RFC 4648. */
module Base64 {
  import opened Common

  type Digit = d: int | 0 <= d < 64

  /** A character of a text, as its code point. */
  type Code = c: int | 0 <= c < 0x11_0000

  // ----- symbols -----

  predicate IsSymbol(c: Code) {
    65 <= c <= 90 || 97 <= c <= 122 || 48 <= c <= 57 || c == 43 || c == 47
  }

  function DigitOf(c: Code): Digit
    requires IsSymbol(c)
  {
    if 65 <= c <= 90 then c - 65
    else if 97 <= c <= 122 then c - 71
    else if 48 <= c <= 57 then c + 4
    else if c == 43 then 62
    else 63
  }

  function SymbolOf(d: Digit): (c: Code)
    ensures IsSymbol(c) && DigitOf(c) == d
  {
    if d < 26 then d + 65
    else if d < 52 then d + 71
    else if d < 62 then d - 4
    else if d == 62 then 43
    else 47
  }

  const PAD: Code := 61

  /** `u8::is_ascii_whitespace`. */
  predicate IsAsciiSpace(c: Code) {
    c == 32 || c == 9 || c == 10 || c == 12 || c == 13
  }

  /** `char::is_whitespace`: the vertical tab and the spaces beyond ASCII count too. */
  predicate IsSpace(c: Code) {
    || c == 32 || 9 <= c <= 13 || c == 0x85 || c == 0xA0 || c == 0x1680 || 0x2000 <= c <= 0x200A
    || c == 0x2028 || c == 0x2029 || c == 0x202F || c == 0x205F || c == 0x3000
  }

  // ----- what the digits mean -----

  /** How many values `bits` bits have, for the widths that occur. */
  function Radix(bits: nat): nat {
    if bits == 0 then 1 else if bits == 2 then 4 else if bits == 4 then 16 else 64
  }

  /** The value above the low `bits` bits. */
  function High(v: nat, bits: nat): nat {
    if bits == 0 then v else if bits == 2 then v / 4 else if bits == 4 then v / 16 else v / 64
  }

  /** The low `bits` bits. */
  function Low(v: nat, bits: nat): (r: nat)
    ensures r < Radix(bits)
  {
    if bits == 0 then 0 else if bits == 2 then v % 4 else if bits == 4 then v % 16 else v % 64
  }

  /** Fewer bits than a byte: what is left over between two digits. */
  predicate Leftover(carry: nat, bits: nat) {
    (bits == 0 || bits == 2 || bits == 4 || bits == 6) && carry < Radix(bits)
  }

  /**
   * The bytes a string of digits stands for: the digits are read as one string of bits, six at a
   * time behind `bits` bits of value `carry`, and cut into eights; what does not fill a byte is lost.
   */
  function Regroup(digits: seq<Digit>, carry: nat, bits: nat): seq<Byte>
    requires Leftover(carry, bits)
    decreases |digits|
  {
    if digits == [] then []
    else
      var v := carry * 64 + digits[0];
      if bits == 0 then Regroup(digits[1..], v, 6)
      else [High(v, bits - 2)] + Regroup(digits[1..], Low(v, bits - 2), bits - 2)
  }

  /** `n` digits give `6 * n / 8` bytes. */
  lemma {:induction false} RegroupLength(digits: seq<Digit>, carry: nat, bits: nat)
    requires Leftover(carry, bits)
    ensures |Regroup(digits, carry, bits)| == (6 * |digits| + bits) / 8
    decreases |digits|
  {
    if digits != [] {
      var v := carry * 64 + digits[0];
      if bits == 0 {
        RegroupLength(digits[1..], v, 6);
      } else {
        RegroupLength(digits[1..], Low(v, bits - 2), bits - 2);
      }
    }
  }

  // ----- the shared decoding step, over a 32-bit buffer that keeps losing its high bits -----

  function Shifted(buffer: Word32, digit: Digit): Word32 {
    (buffer * 64) % 0x1_0000_0000 + digit
  }

  // A multiple of 256 times the divisor added on top changes neither the byte nor what is below it.

  lemma NothingBelow(b: nat, k: int, v: nat)
    requires b == 0x100 * k + v && v < 0x100
    ensures b % 0x100 == v
  {
  }

  lemma TwoBitsBelow(b: nat, k: int, v: nat)
    requires b == 0x400 * k + v && v < 0x400
    ensures b / 4 % 0x100 == v / 4 && b % 4 == v % 4
  {
    var q := v / 4;
    assert b / 4 == 0x100 * k + q;
    NothingBelow(b / 4, k, q);
  }

  lemma FourBitsBelow(b: nat, k: int, v: nat)
    requires b == 0x1000 * k + v && v < 0x1000
    ensures b / 16 % 0x100 == v / 16 && b % 16 == v % 16
  {
    var q := v / 16;
    assert b / 16 == 0x100 * k + q;
    NothingBelow(b / 16, k, q);
  }

  lemma SixBits(b: nat, k: int, v: nat)
    requires b == 0x40 * k + v && v < 0x40
    ensures b % 64 == v
  {
  }

  lemma ShiftedIs(buffer: Word32, digit: Digit) returns (lost: nat)
    ensures Shifted(buffer, digit) == buffer * 64 + digit - 0x1_0000_0000 * lost
  {
    lost := buffer * 64 / 0x1_0000_0000;
  }

  /** The buffer's low bits are those of the unbounded value, however much was shifted out above them. */
  lemma ShiftKeepsLow(buffer: Word32, digit: Digit, bits: nat, v: nat)
    requires bits == 0 || bits == 2 || bits == 4 || bits == 6
    requires v == Low(buffer, bits) * 64 + digit
    ensures bits == 0 ==> Low(Shifted(buffer, digit), 6) == v
    ensures bits > 0 ==> High(Shifted(buffer, digit), bits - 2) % 0x100 == High(v, bits - 2) < 0x100
    ensures bits > 0 ==> Low(Shifted(buffer, digit), bits - 2) == Low(v, bits - 2)
  {
    hide Shifted;
    var b := Shifted(buffer, digit);
    var lost := ShiftedIs(buffer, digit);
    if bits == 0 {
      SixBits(b, buffer - 0x400_0000 * lost, v);
    } else if bits == 2 {
      assert buffer == 4 * (buffer / 4) + buffer % 4;
      NothingBelow(b, buffer / 4 - 0x100_0000 * lost, v);
    } else if bits == 4 {
      assert buffer == 16 * (buffer / 16) + buffer % 16;
      TwoBitsBelow(b, buffer / 16 - 0x40_0000 * lost, v);
    } else {
      assert buffer == 64 * (buffer / 64) + buffer % 64;
      FourBitsBelow(b, buffer / 64 - 0x10_0000 * lost, v);
    }
  }

  /** The bytes decoded so far and those the digits still to come will add. */
  ghost function Decoding(buffer: Word32, bits: nat, out: seq<Byte>, rest: seq<Digit>): seq<Byte>
    requires Leftover(Low(buffer, bits), bits)
  {
    out + Regroup(rest, Low(buffer, bits), bits)
  }

  /** The body of both loops: shift a digit in, and take a byte out when eight bits are there. */
  method PushDigit(buffer: Word32, bits: nat, out: seq<Byte>, digit: Digit, ghost rest: seq<Digit>)
    returns (buffer': Word32, bits': nat, out': seq<Byte>)
    requires Leftover(Low(buffer, bits), bits)
    ensures Leftover(Low(buffer', bits'), bits')
    ensures Decoding(buffer', bits', out', rest) == Decoding(buffer, bits, out, [digit] + rest)
  {
    ShiftKeepsLow(buffer, digit, bits, Low(buffer, bits) * 64 + digit);
    assert ([digit] + rest)[1..] == rest;
    buffer', bits', out' := Shifted(buffer, digit), bits + 6, out;
    if bits' >= 8 {
      bits' := bits' - 8;
      out' := out' + [High(buffer', bits') % 0x100];
    }
  }

  // ----- the two decoders -----

  /** The digits among the symbols, or nothing at the first character that is neither symbol nor skipped. */
  function DigitsOf(text: seq<Code>, skips: Code -> bool): Option<seq<Digit>> {
    if text == [] then Some([])
    else if skips(text[0]) then DigitsOf(text[1..], skips)
    else if !IsSymbol(text[0]) then None
    else
      var rest := DigitsOf(text[1..], skips);
      if rest.None? then None else Some([DigitOf(text[0])] + rest.value)
  }

  function SkippedByProxy(c: Code): bool {
    c == PAD || IsAsciiSpace(c)
  }

  function SkippedByLinks(c: Code): bool {
    c == PAD || IsSpace(c)
  }

  lemma {:induction false} DigitsIff(text: seq<Code>, skips: Code -> bool)
    ensures DigitsOf(text, skips).Some? <==> forall i :: 0 <= i < |text| ==> skips(text[i]) || IsSymbol(text[i])
  {
    if text != [] {
      DigitsIff(text[1..], skips);
      assert forall i :: 1 <= i < |text| ==> text[i] == text[1..][i - 1];
    }
  }

  /** What the decoder of `Proxy-Authorization` answers. */
  function Decoded(text: seq<Code>): Option<seq<Byte>> {
    var digits := DigitsOf(text, SkippedByProxy);
    if digits.None? then None else Some(Regroup(digits.value, 0, 0))
  }

  /** A text decodes exactly when it is of letters, digits, `+` and `/`, with `=` and ASCII white space anywhere. */
  lemma DecodesIff(text: seq<Code>)
    ensures Decoded(text).Some?
            <==> forall i :: 0 <= i < |text| ==>
                   || 65 <= text[i] <= 90 || 97 <= text[i] <= 122 || 48 <= text[i] <= 57
                   || text[i] in [43, 47, 61, 32, 9, 10, 12, 13]
  {
    DigitsIff(text, SkippedByProxy);
  }

  /** The URL-safe alphabet is mapped onto the standard one first; section 5 of RFC 4648. */
  function Standardised(text: seq<Code>): (s: seq<Code>)
    ensures |s| == |text|
  {
    seq(|text|, i requires 0 <= i < |text| => if text[i] == 45 then 43 else if text[i] == 95 then 47 else text[i])
  }

  /** What the decoder of proxy links answers: nothing for an empty text, and only what is valid UTF-8. */
  function DecodedLink(text: seq<Code>, utf8: seq<Byte> -> bool): Option<seq<Byte>> {
    var digits := DigitsOf(Standardised(text), SkippedByLinks);
    if digits.None? || digits.value == [] || !utf8(Regroup(digits.value, 0, 0)) then None
    else Some(Regroup(digits.value, 0, 0))
  }

  /**
   * The decoder of `Proxy-Authorization`. The source goes by the bytes of the text; those of a character
   * beyond ASCII are no symbols, so it gives up on the first of them as on the character itself.
   */
  method Decode(text: seq<Code>) returns (r: Option<seq<Byte>>)
    ensures r == Decoded(text)
  {
    var buffer: Word32, bits: nat, out: seq<Byte> := 0, 0, [];
    ghost var all := DigitsOf(text, SkippedByProxy);
    for k := 0 to |text|
      invariant Leftover(Low(buffer, bits), bits)
      invariant all.None? <==> DigitsOf(text[k..], SkippedByProxy).None?
      invariant all.Some? ==>
                  Regroup(all.value, 0, 0)
                  == Decoding(buffer, bits, out, DigitsOf(text[k..], SkippedByProxy).value)
    {
      assert text[k..][0] == text[k] && text[k..][1..] == text[k + 1..];
      if text[k] != PAD && !IsAsciiSpace(text[k]) {
        if !IsSymbol(text[k]) {
          return None;
        }
        ghost var rest := DigitsOf(text[k + 1..], SkippedByProxy);
        buffer, bits, out := PushDigit(buffer, bits, out, DigitOf(text[k]), if rest.Some? then rest.value else []);
      }
    }
    assert text[|text|..] == [] && out + [] == out;
    r := Some(out);
  }

  /** The decoder of proxy links: filter and map first, then the same loop. */
  method DecodeLink(text: seq<Code>, utf8: seq<Byte> -> bool) returns (r: Option<seq<Byte>>)
    ensures r == DecodedLink(text, utf8)
  {
    var mapped := Standardised(text);
    var kept := Kept(mapped, SkippedByLinks);
    KeptDigits(mapped, SkippedByLinks);
    if kept == [] {
      return None;
    }
    var buffer: Word32, bits: nat, out: seq<Byte> := 0, 0, [];
    ghost var all := DigitsOf(kept, Nothing);
    for k := 0 to |kept|
      invariant Leftover(Low(buffer, bits), bits)
      invariant all.None? <==> DigitsOf(kept[k..], Nothing).None?
      invariant all.Some? ==>
                  Regroup(all.value, 0, 0) == Decoding(buffer, bits, out, DigitsOf(kept[k..], Nothing).value)
    {
      assert kept[k..][0] == kept[k] && kept[k..][1..] == kept[k + 1..];
      if !IsSymbol(kept[k]) {
        return None;
      }
      ghost var rest := DigitsOf(kept[k + 1..], Nothing);
      buffer, bits, out := PushDigit(buffer, bits, out, DigitOf(kept[k]), if rest.Some? then rest.value else []);
    }
    assert kept[|kept|..] == [] && out + [] == out;
    r := if utf8(out) then Some(out) else None;
  }

  function Nothing(c: Code): bool {
    false
  }

  function Kept(text: seq<Code>, skips: Code -> bool): seq<Code> {
    if text == [] then []
    else (if skips(text[0]) then [] else [text[0]]) + Kept(text[1..], skips)
  }

  lemma {:induction false} KeptDigits(text: seq<Code>, skips: Code -> bool)
    ensures DigitsOf(Kept(text, skips), Nothing) == DigitsOf(text, skips)
    ensures Kept(text, skips) == [] ==> DigitsOf(text, skips) == Some([])
    ensures DigitsOf(text, skips) == Some([]) ==> Kept(text, skips) == []
  {
    if text != [] {
      KeptDigits(text[1..], skips);
      if skips(text[0]) {
        assert Kept(text, skips) == Kept(text[1..], skips);
      } else {
        assert Kept(text, skips)[1..] == Kept(text[1..], skips);
      }
    }
  }

  // ----- encoding, and back -----

  /** Three bytes make four digits; one or two left over make two or three, the last padded with zero bits. */
  function EncodeDigits(bytes: seq<Byte>): seq<Digit> {
    if |bytes| == 0 then []
    else if |bytes| == 1 then [bytes[0] / 4, bytes[0] % 4 * 16]
    else if |bytes| == 2 then [bytes[0] / 4, bytes[0] % 4 * 16 + bytes[1] / 16, bytes[1] % 16 * 4]
    else [bytes[0] / 4, bytes[0] % 4 * 16 + bytes[1] / 16, bytes[1] % 16 * 4 + bytes[2] / 64, bytes[2] % 64]
         + EncodeDigits(bytes[3..])
  }

  function Symbols(digits: seq<Digit>): (s: seq<Code>)
    ensures |s| == |digits|
  {
    seq(|digits|, i requires 0 <= i < |digits| => SymbolOf(digits[i]))
  }

  /** `text` writes the symbols in order with padding and white space anywhere between them. */
  predicate Interspersed(text: seq<Code>, symbols: seq<Code>, skips: Code -> bool) {
    if text == [] then symbols == []
    else if skips(text[0]) then Interspersed(text[1..], symbols, skips)
    else symbols != [] && text[0] == symbols[0] && Interspersed(text[1..], symbols[1..], skips)
  }

  lemma RegroupNext(d: Digit, rest: seq<Digit>, carry: nat, bits: nat)
    requires Leftover(carry, bits)
    ensures Regroup([d] + rest, carry, bits)
            == if bits == 0 then Regroup(rest, carry * 64 + d, 6)
               else [High(carry * 64 + d, bits - 2)] + Regroup(rest, Low(carry * 64 + d, bits - 2), bits - 2)
  {
    assert ([d] + rest)[1..] == rest;
  }

  lemma PartsOf(high: nat, d: Digit)
    requires high < 64
    ensures (high * 64 + d) / 16 == high * 4 + d / 16 && (high * 64 + d) % 16 == d % 16
    ensures (high * 64 + d) / 4 == high * 16 + d / 4 && (high * 64 + d) % 4 == d % 4
  {
  }

  lemma FourDigits(d0: Digit, d1: Digit, d2: Digit, d3: Digit, rest: seq<Digit>)
    ensures Regroup([d0, d1, d2, d3] + rest, 0, 0)
            == [d0 * 4 + d1 / 16, d1 % 16 * 16 + d2 / 4, d2 % 4 * 64 + d3] + Regroup(rest, 0, 0)
  {
    hide Regroup;
    var r3 := [d3] + rest;
    var r2 := [d2] + r3;
    var r1 := [d1] + r2;
    RegroupNext(d3, rest, d2 % 4, 2);
    RegroupNext(d2, r3, d1 % 16, 4);
    RegroupNext(d1, r2, d0, 6);
    RegroupNext(d0, r1, 0, 0);
    PartsOf(d0, d1);
    PartsOf(d1 % 16, d2);
    assert [d0, d1, d2, d3] + rest == [d0] + r1;
    assert Regroup(r1, d0, 6) == [d0 * 4 + d1 / 16] + Regroup(r2, d1 % 16, 4);
    assert Regroup(r2, d1 % 16, 4) == [d1 % 16 * 16 + d2 / 4] + Regroup(r3, d2 % 4, 2);
    assert Regroup(r3, d2 % 4, 2) == [d2 % 4 * 64 + d3] + Regroup(rest, 0, 0);
  }

  lemma TwoDigits(a: Byte)
    ensures Regroup([a / 4, a % 4 * 16], 0, 0) == [a]
  {
    hide Regroup;
    var d0: Digit, d1: Digit := a / 4, a % 4 * 16;
    ThreeBytes(a, 0, 0);
    RegroupNext(d1, [], d0, 6);
    RegroupNext(d0, [d1], 0, 0);
    PartsOf(d0, d1);
    RegroupLength([], d1 % 16, 4);
    assert [d0, d1] == [d0] + ([d1] + []);
    assert [d1] + [] == [d1] && Regroup([], d1 % 16, 4) == [];
    assert Regroup([d1], d0, 6) == [a];
  }

  lemma ThreeDigits(a: Byte, b: Byte)
    ensures Regroup([a / 4, a % 4 * 16 + b / 16, b % 16 * 4], 0, 0) == [a, b]
  {
    hide Regroup;
    var d0: Digit, d1: Digit, d2: Digit := a / 4, a % 4 * 16 + b / 16, b % 16 * 4;
    ThreeBytes(a, b, 0);
    RegroupNext(d2, [], d1 % 16, 4);
    RegroupNext(d1, [d2], d0, 6);
    RegroupNext(d0, [d1, d2], 0, 0);
    PartsOf(d0, d1);
    PartsOf(d1 % 16, d2);
    RegroupLength([], d2 % 4, 2);
    assert [d2] + [] == [d2] && [d1] + [d2] == [d1, d2] && [d0] + [d1, d2] == [d0, d1, d2];
    assert Regroup([], d2 % 4, 2) == [];
    assert Regroup([d2], d1 % 16, 4) == [b];
    assert Regroup([d1, d2], d0, 6) == [a] + [b];
  }

  lemma ThreeBytes(a: Byte, b: Byte, c: Byte)
    ensures a / 4 * 4 + (a % 4 * 16 + b / 16) / 16 == a
    ensures (a % 4 * 16 + b / 16) % 16 * 16 + (b % 16 * 4 + c / 64) / 4 == b
    ensures (b % 16 * 4 + c / 64) % 4 * 64 + c % 64 == c
  {
  }

  /** Regrouping the digits of any bytes gives the bytes back, whatever their number modulo three. */
  lemma {:induction false} RegroupUndoesEncode(bytes: seq<Byte>)
    ensures Regroup(EncodeDigits(bytes), 0, 0) == bytes
  {
    hide Regroup;
    if |bytes| == 0 {
      RegroupLength([], 0, 0);
    } else if |bytes| == 1 {
      TwoDigits(bytes[0]);
    } else if |bytes| == 2 {
      ThreeDigits(bytes[0], bytes[1]);
    } else {
      var a, b, c := bytes[0], bytes[1], bytes[2];
      RegroupUndoesEncode(bytes[3..]);
      FourDigits(a / 4, a % 4 * 16 + b / 16, b % 16 * 4 + c / 64, c % 64, EncodeDigits(bytes[3..]));
      ThreeBytes(a, b, c);
      assert bytes == [a, b, c] + bytes[3..];
    }
  }

  lemma {:induction false} InterspersedDigits(text: seq<Code>, digits: seq<Digit>, skips: Code -> bool)
    requires Interspersed(text, Symbols(digits), skips)
    ensures DigitsOf(text, skips) == Some(digits)
  {
    if text != [] {
      if skips(text[0]) {
        InterspersedDigits(text[1..], digits, skips);
      } else {
        assert Symbols(digits)[1..] == Symbols(digits[1..]);
        InterspersedDigits(text[1..], digits[1..], skips);
        assert digits == [digits[0]] + digits[1..];
      }
    }
  }

  /**
   * Decoding undoes encoding for every byte string, padded or not and with white space anywhere,
   * and the link decoder does so for every non-empty one that is valid UTF-8.
   */
  lemma DecodeUndoesEncode(bytes: seq<Byte>, text: seq<Code>)
    requires Interspersed(text, Symbols(EncodeDigits(bytes)), SkippedByProxy)
    ensures Decoded(text) == Some(bytes)
  {
    InterspersedDigits(text, EncodeDigits(bytes), SkippedByProxy);
    RegroupUndoesEncode(bytes);
  }

  /** In the standard alphabet or the URL-safe one, or any mixture of the two. */
  lemma DecodeLinkUndoesEncode(bytes: seq<Byte>, text: seq<Code>, utf8: seq<Byte> -> bool)
    requires Interspersed(Standardised(text), Symbols(EncodeDigits(bytes)), SkippedByLinks)
    ensures DecodedLink(text, utf8) == if bytes == [] || !utf8(bytes) then None else Some(bytes)
  {
    InterspersedDigits(Standardised(text), EncodeDigits(bytes), SkippedByLinks);
    RegroupUndoesEncode(bytes);
  }

  // ----- the two decoders on one text -----

  /** Not one of those on which the two decoders part ways: `-`, `_`, the vertical tab, a space beyond ASCII. */
  predicate Common64(c: Code) {
    c != 45 && c != 95 && (IsSpace(c) ==> IsAsciiSpace(c))
  }

  lemma {:induction false} SameSkips(text: seq<Code>)
    requires forall i :: 0 <= i < |text| ==> Common64(text[i])
    ensures DigitsOf(text, SkippedByLinks) == DigitsOf(text, SkippedByProxy)
  {
    if text != [] {
      SameSkips(text[1..]);
    }
  }

  /**
   * On text without those characters the link decoder answers what the other does, except that it
   * refuses the empty answer and whatever is not UTF-8.
   */
  lemma DecodersAgree(text: seq<Code>, utf8: seq<Byte> -> bool)
    requires forall i :: 0 <= i < |text| ==> Common64(text[i])
    ensures Decoded(text).Some? ==>
              DecodedLink(text, utf8)
              == if DigitsOf(text, SkippedByProxy).value == [] || !utf8(Decoded(text).value) then None
                 else Decoded(text)
    ensures Decoded(text).None? ==> DecodedLink(text, utf8).None?
  {
    assert Standardised(text) == text;
    SameSkips(text);
  }

  lemma {:induction false} FirstBadCharacter(text: seq<Code>, skips: Code -> bool, i: nat)
    requires i < |text| && !skips(text[i]) && !IsSymbol(text[i])
    ensures DigitsOf(text, skips).None?
  {
    if i > 0 {
      FirstBadCharacter(text[1..], skips, i - 1);
    }
  }

  /** On any text at all, wherever both succeed they give the same bytes. */
  lemma DecodersAgreeWhereBothSucceed(text: seq<Code>, utf8: seq<Byte> -> bool)
    requires Decoded(text).Some? && DecodedLink(text, utf8).Some?
    ensures Decoded(text) == DecodedLink(text, utf8)
  {
    forall i | 0 <= i < |text| ensures Common64(text[i]) {
      if !Common64(text[i]) {
        FirstBadCharacter(text, SkippedByProxy, i);
        assert false;
      }
    }
    DecodersAgree(text, utf8);
  }

  /** Any text the decoder accepts gives six bits a symbol, rounded down to bytes. */
  lemma DecodedLength(text: seq<Code>)
    requires Decoded(text).Some?
    ensures |Decoded(text).value| == 6 * |DigitsOf(text, SkippedByProxy).value| / 8
  {
    RegroupLength(DigitsOf(text, SkippedByProxy).value, 0, 0);
  }

  // ----- the Basic credentials of section 2 of RFC 7617 -----

  const COLON: Byte := 58

  function SplitOnce(bytes: seq<Byte>): Option<(seq<Byte>, seq<Byte>)> {
    if bytes == [] then None
    else if bytes[0] == COLON then Some(([], bytes[1..]))
    else
      var rest := SplitOnce(bytes[1..]);
      if rest.None? then None else Some(([bytes[0]] + rest.value.0, rest.value.1))
  }

  function Credentials(encoded: seq<Code>): Option<(seq<Byte>, seq<Byte>)> {
    var decoded := Decoded(encoded);
    if decoded.None? then None else SplitOnce(decoded.value)
  }

  lemma {:induction false} SplitFindsFirstColon(name: seq<Byte>, password: seq<Byte>)
    ensures SplitOnce(name + [COLON] + password) == Some((name, password)) <==> COLON !in name
    ensures SplitOnce(name + [COLON] + password).Some?
    ensures COLON !in SplitOnce(name + [COLON] + password).value.0
  {
    var all := name + [COLON] + password;
    if name == [] {
      assert all[1..] == password;
    } else {
      SplitFindsFirstColon(name[1..], password);
      assert all[1..] == name[1..] + [COLON] + password;
      var rest := SplitOnce(all[1..]).value;
      assert name == [name[0]] + name[1..];
      if name[0] != COLON && COLON in name {
        assert COLON in name[1..];
        assert ([name[0]] + rest.0)[1..] == rest.0;
      }
    }
  }

  /** Name and password come back from the header exactly when the name has no colon; the password may. */
  lemma CredentialsComeBackIff(name: seq<Byte>, password: seq<Byte>, encoded: seq<Code>)
    requires Interspersed(encoded, Symbols(EncodeDigits(name + [COLON] + password)), SkippedByProxy)
    ensures Credentials(encoded) == Some((name, password)) <==> COLON !in name
  {
    DecodeUndoesEncode(name + [COLON] + password, encoded);
    SplitFindsFirstColon(name, password);
  }
}
