/** Encoding detection of edc_translation/text_batch.py, and when decoding with the label gives the text back. */
module TextEncoding {
  import opened Wrappers
  import opened Bytes
  import opened Unicode

  datatype Encoding = Utf8Sig | Utf16Bom | Utf16Le | Utf16Be | Utf8Strict | Cp1252 | Latin1 | Guessed(name: string)

  datatype Detection = Detection(encoding: Encoding, confidence: real, source: string)

  function EvenNulls(raw: seq<Byte>): nat {
    if raw == [] then 0 else
    (if raw[0] == 0 then 1 else 0) + (if |raw| == 1 then 0 else EvenNulls(raw[2..]))
  }

  function OddNulls(raw: seq<Byte>): nat {
    if |raw| < 2 then 0 else (if raw[1] == 0 then 1 else 0) + OddNulls(raw[2..])
  }

  /** `nulls / half_length > 0.3`, and `nulls / half_length < 0.05`. */
  predicate Many(nulls: nat, half: nat)
    requires half >= 1
  {
    nulls as real / half as real > 0.3
  }

  predicate Few(nulls: nat, half: nat)
    requires half >= 1
  {
    nulls as real / half as real < 0.05
  }

  function HalfLength(raw: seq<Byte>): (half: nat)
    ensures half >= 1
  {
    if |raw| / 2 > 1 then |raw| / 2 else 1
  }

  predicate LooksLittle(raw: seq<Byte>) {
    Many(OddNulls(raw), HalfLength(raw)) && Few(EvenNulls(raw), HalfLength(raw))
  }

  predicate LooksBig(raw: seq<Byte>) {
    Many(EvenNulls(raw), HalfLength(raw)) && Few(OddNulls(raw), HalfLength(raw))
  }

  /** `_detect_utf16_without_bom`. */
  function DetectUtf16WithoutBom(raw: seq<Byte>): Option<Detection> {
    if |raw| < 4 then None
    else if LooksLittle(raw) then Some(Detection(Utf16Le, 0.8, "null-byte-pattern"))
    else if LooksBig(raw) then Some(Detection(Utf16Be, 0.8, "null-byte-pattern"))
    else None
  }

  const BOM_UTF8: seq<Byte> := [0xEF, 0xBB, 0xBF]
  const BOM_UTF16_LE: seq<Byte> := [0xFF, 0xFE]
  const BOM_UTF16_BE: seq<Byte> := [0xFE, 0xFF]

  /** The five bytes code page 1252 leaves undefined. */
  predicate DecodesAsCp1252(raw: seq<Byte>) {
    forall i :: 0 <= i < |raw| ==> raw[i] !in {0x81, 0x8D, 0x8F, 0x90, 0x9D}
  }

  /** `detect_text_encoding`; `normalizer` is what the optional charset library says, if it is there. */
  function Detect(raw: seq<Byte>, normalizer: seq<Byte> -> Option<Detection>): Detection {
    if BOM_UTF8 <= raw then Detection(Utf8Sig, 1.0, "bom")
    else if BOM_UTF16_LE <= raw || BOM_UTF16_BE <= raw then Detection(Utf16Bom, 1.0, "bom")
    else if DetectUtf16WithoutBom(raw).Some? then DetectUtf16WithoutBom(raw).value
    else if DecodeUtf8(raw).Some? then Detection(Utf8Strict, 0.95, "strict-utf8")
    else if DecodesAsCp1252(raw) then Detection(Cp1252, 0.65, "ansi-fallback")
    else if normalizer(raw).Some? then normalizer(raw).value
    else Detection(Latin1, 0.25, "fallback")
  }

  /** Decoding the whole input with a Unicode label, without replacement characters; None otherwise. */
  function DecodeAs(e: Encoding, raw: seq<Byte>): Option<Text> {
    match e
    case Utf8Strict => DecodeUtf8(raw)
    case Utf8Sig => if BOM_UTF8 <= raw then DecodeUtf8(raw[3..]) else DecodeUtf8(raw)
    case Utf16Le => DecodeUtf16(raw, false)
    case Utf16Be => DecodeUtf16(raw, true)
    case Utf16Bom =>
      if BOM_UTF16_BE <= raw then DecodeUtf16(raw[2..], true)
      else if BOM_UTF16_LE <= raw then DecodeUtf16(raw[2..], false)
      else DecodeUtf16(raw, false)
    case _ => None
  }

  function ReadBack(raw: seq<Byte>, normalizer: seq<Byte> -> Option<Detection>): Option<Text> {
    DecodeAs(Detect(raw, normalizer).encoding, raw)
  }

  // ---------------------------------------------------------------- the null patterns

  /** No byte string looks both little- and big-endian. */
  lemma VerdictsExclude(raw: seq<Byte>)
    ensures !(LooksLittle(raw) && LooksBig(raw))
  {
  }

  lemma Ratio(nulls: nat, half: nat)
    requires half >= 1
    ensures Many(nulls, half) <==> 10 * nulls > 3 * half
    ensures Few(nulls, half) <==> 20 * nulls < half
  {
    var n, h := nulls as real, half as real;
    CrossMultiply(n, h, 0.3);
    CrossMultiply(n, h, 0.05);
    assert (10 * nulls) as real == 10.0 * n && (3 * half) as real == 3.0 * h && (20 * nulls) as real == 20.0 * n;
  }

  lemma CrossMultiply(n: real, h: real, c: real)
    requires h > 0.0
    ensures n / h > c <==> n > c * h
    ensures n / h < c <==> n < c * h
  {
    var q := n / h;
    assert n == q * h;
    Scale(q, c, h);
  }

  lemma Scale(a: real, b: real, h: real)
    requires h > 0.0
    ensures a > b <==> a * h > b * h
    ensures a < b <==> a * h < b * h
  {
    if a > b { assert (a - b) * h > 0.0; }
    if a < b { assert (b - a) * h > 0.0; }
  }

  // ---------------------------------------------------------------- UTF-8

  predicate NulFree(t: Text) {
    forall i :: 0 <= i < |t| ==> t[i] != 0
  }

  lemma {:induction false} NoZeroBytes(raw: seq<Byte>)
    requires forall i :: 0 <= i < |raw| ==> raw[i] != 0
    ensures EvenNulls(raw) == 0 && OddNulls(raw) == 0
  {
    if |raw| >= 2 { NoZeroBytes(raw[2..]); }
  }

  lemma {:induction false} Utf8HasNoZeros(t: Text)
    requires NulFree(t)
    ensures forall i :: 0 <= i < |Utf8(t)| ==> Utf8(t)[i] != 0
  {
    if t != [] {
      Utf8HasNoZeros(t[1..]);
      var head, rest := EncodeScalar(t[0]), Utf8(t[1..]);
      assert forall i :: 0 <= i < |head| ==> head[i] != 0;
      assert forall i :: 0 <= i < |head + rest| ==>
        (head + rest)[i] == if i < |head| then head[i] else rest[i - |head|];
    }
  }

  /** Only U+FEFF encodes to the UTF-8 byte order mark, and no code point starts like a UTF-16 one. */
  lemma LeadingBytes(c: Scalar, rest: seq<Byte>)
    ensures BOM_UTF8 <= EncodeScalar(c) + rest <==> c == 0xFEFF
    ensures !(BOM_UTF16_LE <= EncodeScalar(c) + rest) && !(BOM_UTF16_BE <= EncodeScalar(c) + rest)
  {
    var head := EncodeScalar(c);
    assert (head + rest)[0] == head[0];
    if 0x800 <= c < 0x10000 {
      Base64Digits(c);
      assert head + rest == [head[0], head[1], head[2]] + rest;
      assert (head + rest)[1] == head[1] && (head + rest)[2] == head[2];
    }
  }

  /**
   A NUL-free text, in any script, comes back from its UTF-8 bytes exactly when it does not begin with
   U+FEFF, which is taken for a byte order mark; in that case the label is utf-8.
   */
  lemma Utf8ReadsBackIff(t: Text, normalizer: seq<Byte> -> Option<Detection>)
    requires NulFree(t)
    ensures ReadBack(Utf8(t), normalizer) == Some(t) <==> (t == [] || t[0] != 0xFEFF)
    ensures (t == [] || t[0] != 0xFEFF) ==> Detect(Utf8(t), normalizer) == Detection(Utf8Strict, 0.95, "strict-utf8")
  {
    var raw := Utf8(t);
    Utf8HasNoZeros(t);
    NoZeroBytes(raw);
    Ratio(0, HalfLength(raw));
    DecodeUndoesUtf8(t);
    if t != [] {
      LeadingBytes(t[0], Utf8(t[1..]));
      if t[0] == 0xFEFF {
        assert raw[3..] == Utf8(t[1..]);
        DecodeUndoesUtf8(t[1..]);
      }
    }
  }

  // ---------------------------------------------------------------- marked input, and input nothing recognises

  /** Every text written behind a byte order mark comes back, for certain, and under the label of its mark. */
  lemma MarkedUtf8ReadsBack(t: Text, normalizer: seq<Byte> -> Option<Detection>)
    ensures var raw := [0xEF, 0xBB, 0xBF] + Utf8(t);
      Detect(raw, normalizer) == Detection(Utf8Sig, 1.0, "bom") && ReadBack(raw, normalizer) == Some(t)
  {
    DecodeUndoesUtf8(t);
    assert (BOM_UTF8 + Utf8(t))[3..] == Utf8(t);
  }

  lemma MarkedUtf16ReadsBack(t: Text, big: bool, normalizer: seq<Byte> -> Option<Detection>)
    ensures var raw := (if big then [0xFE, 0xFF] else [0xFF, 0xFE]) + Utf16(t, big);
      Detect(raw, normalizer) == Detection(Utf16Bom, 1.0, "bom") && ReadBack(raw, normalizer) == Some(t)
  {
    DecodeUndoesUtf16(t, big);
    var mark: seq<Byte> := if big then [0xFE, 0xFF] else [0xFF, 0xFE];
    MarkedAt(mark, Utf16(t, big));
  }

  lemma MarkedAt(mark: seq<Byte>, rest: seq<Byte>)
    requires mark == BOM_UTF16_LE || mark == BOM_UTF16_BE
    ensures (mark + rest)[2..] == rest && (mark + rest)[0] == mark[0] && (mark + rest)[1] == mark[1]
    ensures BOM_UTF16_LE <= mark + rest <==> mark == BOM_UTF16_LE
    ensures BOM_UTF16_BE <= mark + rest <==> mark == BOM_UTF16_BE
    ensures !(BOM_UTF8 <= mark + rest)
  {
    assert (mark + rest)[0] == mark[0] && (mark + rest)[1] == mark[1];
  }

  /**
   NUL-free bytes without a mark that are no text's UTF-8: the ANSI code page if it defines them all, else what
   the charset library says, else Latin-1.
   */
  lemma FallbacksInOrder(raw: seq<Byte>, normalizer: seq<Byte> -> Option<Detection>)
    requires !(BOM_UTF8 <= raw) && !(BOM_UTF16_LE <= raw) && !(BOM_UTF16_BE <= raw)
    requires forall i :: 0 <= i < |raw| ==> raw[i] != 0
    requires forall t :: Utf8(t) != raw
    ensures (forall i :: 0 <= i < |raw| ==> raw[i] !in {0x81, 0x8D, 0x8F, 0x90, 0x9D}) ==>
      Detect(raw, normalizer) == Detection(Cp1252, 0.65, "ansi-fallback")
    ensures (exists i :: 0 <= i < |raw| && raw[i] in {0x81, 0x8D, 0x8F, 0x90, 0x9D}) ==>
      Detect(raw, normalizer) ==
        if normalizer(raw).Some? then normalizer(raw).value else Detection(Latin1, 0.25, "fallback")
  {
    NoZeroBytes(raw);
    Ratio(0, HalfLength(raw));
    DecodesIffEncoded(raw);
  }

  // ---------------------------------------------------------------- UTF-16

  /** How many units have a zero high byte, and how many a zero low byte. */
  function ZeroHigh(us: seq<Unit>): nat {
    if us == [] then 0 else (if us[0] / 256 == 0 then 1 else 0) + ZeroHigh(us[1..])
  }

  function ZeroLow(us: seq<Unit>): nat {
    if us == [] then 0 else (if us[0] % 256 == 0 then 1 else 0) + ZeroLow(us[1..])
  }

  lemma {:induction false} NullsOfUnits(us: seq<Unit>, big: bool)
    ensures EvenNulls(ToBytes(us, big)) == if big then ZeroHigh(us) else ZeroLow(us)
    ensures OddNulls(ToBytes(us, big)) == if big then ZeroLow(us) else ZeroHigh(us)
  {
    if us != [] {
      NullsOfUnits(us[1..], big);
      assert ToBytes(us, big)[2..] == ToBytes(us[1..], big);
    }
  }

  /** Mostly narrow units: over 30% have a zero high byte and under 5% a zero low byte. */
  predicate MostlyNarrow(us: seq<Unit>) {
    |us| >= 2 && 10 * ZeroHigh(us) > 3 * |us| && 20 * ZeroLow(us) < |us|
  }

  /** The bytes do not begin like a byte order mark. */
  predicate NoBom(raw: seq<Byte>) {
    !(BOM_UTF8 <= raw) && !(BOM_UTF16_LE <= raw) && !(BOM_UTF16_BE <= raw)
  }

  /** The two thresholds as the pattern tests apply them: `many` is one parity's null count, `few` the other's. */
  predicate Pattern(many: nat, few: nat, half: nat) {
    10 * many > 3 * half && 20 * few < half
  }

  lemma LooksAsPattern(raw: seq<Byte>)
    ensures LooksLittle(raw) <==> Pattern(OddNulls(raw), EvenNulls(raw), HalfLength(raw))
    ensures LooksBig(raw) <==> Pattern(EvenNulls(raw), OddNulls(raw), HalfLength(raw))
  {
    Ratio(EvenNulls(raw), HalfLength(raw));
    Ratio(OddNulls(raw), HalfLength(raw));
  }

  lemma PatternOfUnits(us: seq<Unit>, big: bool)
    requires |us| >= 2
    ensures var raw := ToBytes(us, big); HalfLength(raw) == |us|
    ensures var raw := ToBytes(us, big);
      (if big then Pattern(EvenNulls(raw), OddNulls(raw), |us|) else Pattern(OddNulls(raw), EvenNulls(raw), |us|))
      <==> MostlyNarrow(us)
  {
    NullsOfUnits(us, big);
  }

  /** BOM-less UTF-16 is recognised for what it is exactly when its units are mostly narrow. */
  lemma Utf16IsRecognisedIff(us: seq<Unit>, big: bool, normalizer: seq<Byte> -> Option<Detection>)
    requires NoBom(ToBytes(us, big))
    ensures DetectUtf16WithoutBom(ToBytes(us, big))
        == Some(Detection(if big then Utf16Be else Utf16Le, 0.8, "null-byte-pattern"))
      <==> MostlyNarrow(us)
    ensures MostlyNarrow(us) ==> Detect(ToBytes(us, big), normalizer).encoding == if big then Utf16Be else Utf16Le
  {
    VerdictsExclude(ToBytes(us, big));
    LooksAsPattern(ToBytes(us, big));
    if |us| >= 2 { PatternOfUnits(us, big); }
  }

  /** A text whose UTF-16 units are mostly narrow comes back from its BOM-less UTF-16 bytes, either way round. */
  lemma Utf16ReadsBack(t: Text, big: bool, normalizer: seq<Byte> -> Option<Detection>)
    requires NoBom(Utf16(t, big)) && MostlyNarrow(EncodeUnits(t))
    ensures ReadBack(Utf16(t, big), normalizer) == Some(t)
  {
    Utf16IsRecognisedIff(EncodeUnits(t), big, normalizer);
    DecodeUndoesUtf16(t, big);
  }

  predicate Latin(t: Text) {
    forall i :: 0 <= i < |t| ==> 0 < t[i] < 256
  }

  lemma {:induction false} LatinUnits(t: Text)
    requires Latin(t)
    ensures EncodeUnits(t) == t && ZeroHigh(EncodeUnits(t)) == |t| && ZeroLow(EncodeUnits(t)) == 0
  {
    if t != [] {
      LatinUnits(t[1..]);
      assert t == [t[0]] + t[1..] && EncodeUnits(t)[1..] == EncodeUnits(t[1..]);
    }
  }

  lemma LatinHasNoBom(t: Text, big: bool)
    requires Latin(t)
    ensures NoBom(Utf16(t, big))
  {
    LatinUnits(t);
    if t != [] {
      var raw := Utf16(t, big);
      assert raw[0] == (if big then 0 else t[0]) && raw[1] == (if big then t[0] else 0);
    }
  }

  /** Every NUL-free Latin-1 text of two characters or more comes back from BOM-less UTF-16. */
  lemma LatinReadsBack(t: Text, big: bool, normalizer: seq<Byte> -> Option<Detection>)
    requires Latin(t) && |t| >= 2
    ensures Detect(Utf16(t, big), normalizer).encoding == if big then Utf16Be else Utf16Le
    ensures ReadBack(Utf16(t, big), normalizer) == Some(t)
  {
    LatinHasNoBom(t, big);
    LatinUnits(t);
    Utf16ReadsBack(t, big, normalizer);
    Utf16IsRecognisedIff(EncodeUnits(t), big, normalizer);
  }

  /** For NUL-free ASCII the one failing length is one: two bytes are too few for the pattern, and read as UTF-8. */
  lemma AsciiReadsBackIff(t: Text, big: bool, normalizer: seq<Byte> -> Option<Detection>)
    requires forall i :: 0 <= i < |t| ==> 0 < t[i] < 128
    ensures ReadBack(Utf16(t, big), normalizer) == Some(t) <==> |t| != 1
  {
    LatinHasNoBom(t, big);
    LatinUnits(t);
    if |t| >= 2 {
      LatinReadsBack(t, big, normalizer);
    } else if |t| == 1 {
      var raw := Utf16(t, big);
      var two: Text := if big then [0, t[0]] else [t[0], 0];
      assert raw == two && raw == Utf8(two) by {
        assert Utf8(two) == EncodeScalar(two[0]) + (EncodeScalar(two[1]) + Utf8(two[1..][1..]));
      }
      DecodeUndoesUtf8(two);
    } else {
      assert Utf16(t, big) == [];
    }
  }
}
