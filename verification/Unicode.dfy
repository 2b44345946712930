/** UTF-8 (RFC 3629, decoded strictly) and UTF-16 over code points. */
module Unicode {
  import opened Wrappers
  import opened Bytes

  /** A code point that is not a surrogate. */
  type Scalar = c: int | 0 <= c < 0xD800 || 0xE000 <= c <= 0x10FFFF

  type Unit = u: int | 0 <= u <= 0xFFFF

  type Text = seq<Scalar>

  function EncodeScalar(c: Scalar): (b: seq<Byte>)
    ensures 1 <= |b| <= 4
  {
    if c < 0x80 then [c]
    else if c < 0x800 then [0xC0 + c / 64, 0x80 + c % 64]
    else if c < 0x10000 then [0xE0 + c / 4096, 0x80 + c / 64 % 64, 0x80 + c % 64]
    else [0xF0 + c / 262144, 0x80 + c / 4096 % 64, 0x80 + c / 64 % 64, 0x80 + c % 64]
  }

  function Utf8(t: Text): seq<Byte> {
    if t == [] then [] else EncodeScalar(t[0]) + Utf8(t[1..])
  }

  predicate Continues(b: Byte) {
    0x80 <= b < 0xC0
  }

  /** The six bits a continuation byte carries. */
  function Low(b: int): int {
    b - 0x80
  }

  /** The code point of a surrogate pair. */
  function Paired(high: int, low: int): int {
    0x10000 + (high - 0xD800) * 1024 + (low - 0xDC00)
  }

  function Wide(high: int, low: int): int {
    high * 256 + low
  }

  predicate IsScalar(c: int) {
    0 <= c < 0xD800 || 0xE000 <= c <= 0x10FFFF
  }

  /** The first code point and the number of bytes it takes, or None where a strict decoder raises. */
  function FirstScalar(raw: seq<Byte>): (r: Option<(Scalar, nat)>)
    requires raw != []
    ensures r.Some? ==> 1 <= r.value.1 <= |raw|
  {
    var b: int := raw[0];
    if b < 0x80 then Some((b, 1))
    else if 0xC2 <= b <= 0xDF && |raw| >= 2 && Continues(raw[1]) then
      Some(((b - 0xC0) * 64 + Low(raw[1]), 2))
    else if 0xE0 <= b <= 0xEF && |raw| >= 3 && Continues(raw[1]) && Continues(raw[2]) then
      var c := (b - 0xE0) * 4096 + Low(raw[1]) * 64 + Low(raw[2]);
      if c >= 0x800 && IsScalar(c) then Some((c, 3)) else None
    else if 0xF0 <= b <= 0xF4 && |raw| >= 4 && Continues(raw[1]) && Continues(raw[2]) && Continues(raw[3]) then
      var c := (b - 0xF0) * 262144 + Low(raw[1]) * 4096 + Low(raw[2]) * 64 + Low(raw[3]);
      if c >= 0x10000 && IsScalar(c) then Some((c, 4)) else None
    else None
  }

  function DecodeUtf8(raw: seq<Byte>): Option<Text>
    decreases |raw|
  {
    if raw == [] then Some([]) else
    match FirstScalar(raw)
    case None => None
    case Some((c, n)) =>
      var rest := DecodeUtf8(raw[n..]);
      if rest.None? then None else Some([c] + rest.value)
  }

  lemma Base64Digits(c: int)
    requires 0 <= c < 0x110000
    ensures c / 64 * 64 + c % 64 == c
    ensures c / 4096 * 4096 + c / 64 % 64 * 64 + c % 64 == c
    ensures c / 262144 * 262144 + c / 4096 % 64 * 4096 + c / 64 % 64 * 64 + c % 64 == c
  {
    var d := c / 64;
    var e := d / 64;
    assert c / 4096 == e && e / 64 == c / 262144;
    assert d == e * 64 + d % 64 && e == e / 64 * 64 + e % 64;
  }

  lemma FirstScalarOfEncoding(c: Scalar, rest: seq<Byte>)
    ensures FirstScalar(EncodeScalar(c) + rest) == Some((c, |EncodeScalar(c)|))
  {
    Base64Digits(c);
  }

  /** A strict decoder gives every text back from its UTF-8 bytes. */
  lemma {:induction false} DecodeUndoesUtf8(t: Text)
    ensures DecodeUtf8(Utf8(t)) == Some(t)
  {
    if t != [] {
      var head, rest := EncodeScalar(t[0]), Utf8(t[1..]);
      FirstScalarOfEncoding(t[0], rest);
      assert (head + rest)[|head|..] == rest;
      DecodeUndoesUtf8(t[1..]);
      assert t == [t[0]] + t[1..];
    }
  }

  lemma SixBits(high: int, low: int)
    requires 0 <= low < 64
    ensures (high * 64 + low) / 64 == high && (high * 64 + low) % 64 == low
  {
  }

  lemma TwelveBits(high: int, mid: int, low: int)
    requires 0 <= mid < 64 && 0 <= low < 64
    ensures var c := high * 4096 + mid * 64 + low;
      c / 4096 == high && c / 64 % 64 == mid && c % 64 == low
  {
    SixBits(high, mid);
    SixBits(high * 64 + mid, low);
  }

  lemma EighteenBits(high: int, mid: int, mid': int, low: int)
    requires 0 <= mid < 64 && 0 <= mid' < 64 && 0 <= low < 64
    ensures var c := high * 262144 + mid * 4096 + mid' * 64 + low;
      c / 262144 == high && c / 4096 % 64 == mid && c / 64 % 64 == mid' && c % 64 == low
  {
    TwelveBits(high, mid, mid');
    SixBits(high * 4096 + mid * 64 + mid', low);
    SixBits(high, mid);
  }

  /** A strict decoder takes only the shortest form of a code point. */
  lemma FirstScalarIsEncoding(raw: seq<Byte>)
    requires raw != [] && FirstScalar(raw).Some?
    ensures var (c, n) := FirstScalar(raw).value; n <= |raw| && raw[..n] == EncodeScalar(c)
  {
    var b: int := raw[0];
    if b >= 0xF0 {
      EighteenBits(b - 0xF0, Low(raw[1]), Low(raw[2]), Low(raw[3]));
    } else if b >= 0xE0 {
      TwelveBits(b - 0xE0, Low(raw[1]), Low(raw[2]));
    } else if b >= 0x80 {
      SixBits(b - 0xC0, Low(raw[1]));
    }
  }

  lemma Utf8OfOneMore(c: Scalar, rest: Text)
    ensures Utf8([c] + rest) == EncodeScalar(c) + Utf8(rest)
  {
    assert ([c] + rest)[1..] == rest;
  }

  lemma FirstDecoded(raw: seq<Byte>, t: Text) returns (c: Scalar, n: nat, rest: Text)
    requires raw != [] && DecodeUtf8(raw) == Some(t)
    ensures 1 <= n <= |raw| && raw[..n] == EncodeScalar(c)
    ensures DecodeUtf8(raw[n..]) == Some(rest) && t == [c] + rest
  {
    FirstScalarIsEncoding(raw);
    c, n := FirstScalar(raw).value.0, FirstScalar(raw).value.1;
    rest := DecodeUtf8(raw[n..]).value;
  }

  lemma {:induction false} EncodeUndoesDecode(raw: seq<Byte>, t: Text)
    requires DecodeUtf8(raw) == Some(t)
    ensures Utf8(t) == raw
    decreases |raw|
  {
    if raw != [] {
      var c, n, rest := FirstDecoded(raw, t);
      EncodeUndoesDecode(raw[n..], rest);
      Utf8OfOneMore(c, rest);
      assert raw == raw[..n] + raw[n..];
    }
  }

  /** A strict decoder accepts exactly the bytes that are the UTF-8 of some text: no overlong form, no surrogate. */
  lemma DecodesIffEncoded(raw: seq<Byte>)
    ensures DecodeUtf8(raw).Some? <==> exists t: Text :: Utf8(t) == raw
  {
    if DecodeUtf8(raw).Some? { EncodeUndoesDecode(raw, DecodeUtf8(raw).value); }
    forall t: Text | Utf8(t) == raw
      ensures DecodeUtf8(raw).Some?
    {
      DecodeUndoesUtf8(t);
    }
  }

  // ---------------------------------------------------------------- UTF-16

  function EncodeUnits(t: Text): seq<Unit> {
    if t == [] then []
    else if t[0] < 0x10000 then [t[0]] + EncodeUnits(t[1..])
    else [0xD800 + (t[0] - 0x10000) / 1024, 0xDC00 + (t[0] - 0x10000) % 1024] + EncodeUnits(t[1..])
  }

  function DecodeUnits(us: seq<Unit>): Option<Text>
    decreases |us|
  {
    if us == [] then Some([])
    else if us[0] < 0xD800 || us[0] >= 0xE000 then
      var rest := DecodeUnits(us[1..]);
      if rest.None? then None else Some([us[0]] + rest.value)
    else if us[0] < 0xDC00 && |us| >= 2 && 0xDC00 <= us[1] < 0xE000 then
      var rest := DecodeUnits(us[2..]);
      if rest.None? then None else Some([Paired(us[0], us[1])] + rest.value)
    else None
  }

  lemma {:induction false} DecodeUndoesUnits(t: Text)
    ensures DecodeUnits(EncodeUnits(t)) == Some(t)
  {
    if t != [] {
      DecodeUndoesUnits(t[1..]);
      var us, rest := EncodeUnits(t), EncodeUnits(t[1..]);
      assert t == [t[0]] + t[1..];
      if t[0] < 0x10000 {
        assert us[1..] == rest;
      } else {
        assert us[2..] == rest;
        assert Paired(us[0], us[1]) == t[0];
      }
    }
  }

  function UnitBytes(u: Unit, big: bool): (b: seq<Byte>)
    ensures |b| == 2
  {
    if big then [u / 256, u % 256] else [u % 256, u / 256]
  }

  function ToBytes(us: seq<Unit>, big: bool): (b: seq<Byte>)
    ensures |b| == 2 * |us|
  {
    if us == [] then [] else UnitBytes(us[0], big) + ToBytes(us[1..], big)
  }

  function FromBytes(raw: seq<Byte>, big: bool): Option<seq<Unit>> {
    if raw == [] then Some([])
    else if |raw| == 1 then None
    else
      var rest := FromBytes(raw[2..], big);
      if rest.None? then None
      else Some([if big then Wide(raw[0], raw[1]) else Wide(raw[1], raw[0])] + rest.value)
  }

  lemma {:induction false} FromBytesUndoesToBytes(us: seq<Unit>, big: bool)
    ensures FromBytes(ToBytes(us, big), big) == Some(us)
  {
    if us != [] {
      FromBytesUndoesToBytes(us[1..], big);
      assert ToBytes(us, big)[2..] == ToBytes(us[1..], big);
      assert us == [us[0]] + us[1..];
    }
  }

  function Utf16(t: Text, big: bool): seq<Byte> {
    ToBytes(EncodeUnits(t), big)
  }

  function DecodeUtf16(raw: seq<Byte>, big: bool): Option<Text> {
    var us := FromBytes(raw, big);
    if us.None? then None else DecodeUnits(us.value)
  }

  lemma DecodeUndoesUtf16(t: Text, big: bool)
    ensures DecodeUtf16(Utf16(t, big), big) == Some(t)
  {
    FromBytesUndoesToBytes(EncodeUnits(t), big);
    DecodeUndoesUnits(t);
  }

  /** The examples of the standards: U+0041, U+00E9, U+20AC and U+1F600, in UTF-8 and in UTF-16. */
  lemma KnownEncodings()
    ensures EncodeScalar(0x41) == [0x41] && EncodeScalar(0xE9) == [0xC3, 0xA9]
    ensures EncodeScalar(0x20AC) == [0xE2, 0x82, 0xAC] && EncodeScalar(0x1F600) == [0xF0, 0x9F, 0x98, 0x80]
    ensures EncodeUnits([0x20AC]) == [0x20AC] && EncodeUnits([0x1F600]) == [0xD83D, 0xDE00]
    ensures UnitBytes(0x20AC, true) == [0x20, 0xAC] && UnitBytes(0x20AC, false) == [0xAC, 0x20]
  {
    assert [0x1F600][1..] == [] && [0x20AC][1..] == [];
  }
}
