/** base64url (section 5 of RFC 4648) with its padding stripped, as edc_translation/auth.py prints and parses it. */
module Base64Url {
  import opened Wrappers
  import opened Bytes

  function Symbol(v: int): (c: char)
    requires 0 <= v < 64
    ensures c != '.' && c != '=' && c < '\U{80}'
    ensures SymbolValue(c) == Some(v)
  {
    if v < 26 then 'A' + v as char
    else if v < 52 then 'a' + (v - 26) as char
    else if v < 62 then '0' + (v - 52) as char
    else if v == 62 then '-' else '_'
  }

  /** The decoder's table, after `-` and `_` have been translated to `+` and `/`; other characters have no value. */
  function SymbolValue(c: char): (v: Option<int>)
    ensures v.Some? ==> 0 <= v.value < 64
  {
    if 'A' <= c <= 'Z' then Some(c as int - 'A' as int)
    else if 'a' <= c <= 'z' then Some(c as int - 'a' as int + 26)
    else if '0' <= c <= '9' then Some(c as int - '0' as int + 52)
    else if c == '-' || c == '+' then Some(62)
    else if c == '_' || c == '/' then Some(63)
    else None
  }

  /** The symbols of the bytes, without padding. */
  function Symbols(b: seq<Byte>): string {
    if b == [] then ""
    else if |b| == 1 then [Symbol(b[0] / 4), Symbol(b[0] % 4 * 16)]
    else if |b| == 2 then [Symbol(b[0] / 4), Symbol(b[0] % 4 * 16 + b[1] / 16), Symbol(b[1] % 16 * 4)]
    else [Symbol(b[0] / 4), Symbol(b[0] % 4 * 16 + b[1] / 16), Symbol(b[1] % 16 * 4 + b[2] / 64), Symbol(b[2] % 64)]
         + Symbols(b[3..])
  }

  function Equals(n: nat): (s: string)
    ensures |s| == n && forall i :: 0 <= i < n ==> s[i] == '='
  {
    seq(n, _ => '=')
  }

  /** `urlsafe_b64encode`. */
  function Encode(b: seq<Byte>): string {
    Symbols(b) + Equals((3 - |b| % 3) % 3)
  }

  /** `rstrip(b"=")`. */
  function StripRight(s: string): string {
    if s != [] && s[|s| - 1] == '=' then StripRight(s[..|s| - 1]) else s
  }

  /** `_b64_bytes`. */
  function B64(b: seq<Byte>): string {
    StripRight(Encode(b))
  }

  datatype DecodeError = NotAscii | BadLength | BadPadding

  /**
   `a2b_base64`, not strict: characters without a value are skipped, and a pad that completes a quad
   ends the input. `quad` symbols of the current quad are read, `left` holds the bits not yet output.
   */
  function Feed(s: string, quad: nat, left: int, pads: nat): Result<seq<Byte>, DecodeError>
    requires quad < 4 && 0 <= left < (if quad == 0 then 1 else if quad == 1 then 64 else if quad == 2 then 16 else 4)
  {
    if s == [] then
      if quad == 0 then Success([]) else Failure(if quad == 1 then BadLength else BadPadding)
    else if s[0] == '=' then
      if quad >= 2 && quad + pads + 1 >= 4 then Success([])
      else Feed(s[1..], quad, left, if quad >= 2 then pads + 1 else pads)
    else
      match SymbolValue(s[0])
      case None => Feed(s[1..], quad, left, pads)
      case Some(v) =>
        if quad == 0 then Feed(s[1..], 1, v, 0)
        else if quad == 1 then Emit(left * 4 + v / 16, Feed(s[1..], 2, v % 16, 0))
        else if quad == 2 then Emit(left * 16 + v / 4, Feed(s[1..], 3, v % 4, 0))
        else Emit(left * 64 + v, Feed(s[1..], 0, 0, 0))
  }

  function Emit(b: Byte, rest: Result<seq<Byte>, DecodeError>): Result<seq<Byte>, DecodeError> {
    match rest
    case Success(bytes) => Success([b] + bytes)
    case Failure(e) => Failure(e)
  }

  predicate Ascii(s: string) {
    forall i :: 0 <= i < |s| ==> s[i] < '\U{80}'
  }

  /** The padding `_json_from_b64` puts back. */
  function Pad(s: string): string {
    s + Equals((4 - |s| % 4) % 4)
  }

  function Decode(s: string): Result<seq<Byte>, DecodeError> {
    if !Ascii(s) then Failure(NotAscii) else Feed(Pad(s), 0, 0, 0)
  }

  predicate Clean(c: char) {
    c != '.' && c != '=' && c < '\U{80}'
  }

  lemma {:induction false} SymbolsAreClean(b: seq<Byte>)
    ensures forall i :: 0 <= i < |Symbols(b)| ==> Clean(Symbols(b)[i])
  {
    if |b| >= 3 {
      SymbolsAreClean(b[3..]);
      var rest := Symbols(b[3..]);
      assert forall i :: 4 <= i < |Symbols(b)| ==> Symbols(b)[i] == rest[i - 4];
    }
  }

  lemma OneMoreQuad(symbols: nat, bytes: nat)
    requires (symbols + (3 - bytes % 3) % 3) % 4 == 0
    ensures (4 + symbols + (3 - (bytes + 3) % 3) % 3) % 4 == 0
  {
  }

  lemma {:induction false} SymbolsLength(b: seq<Byte>)
    ensures (|Symbols(b)| + (3 - |b| % 3) % 3) % 4 == 0
  {
    if |b| >= 3 {
      SymbolsLength(b[3..]);
      assert |Symbols(b)| == 4 + |Symbols(b[3..])|;
      OneMoreQuad(|Symbols(b[3..])|, |b[3..]|);
    }
  }

  lemma {:induction false} StripRightOfPadded(s: string, n: nat)
    requires s == [] || s[|s| - 1] != '='
    ensures StripRight(s + Equals(n)) == s
  {
    if n == 0 {
      assert s + Equals(0) == s;
    } else {
      assert (s + Equals(n))[..|s| + n - 1] == s + Equals(n - 1);
      StripRightOfPadded(s, n - 1);
    }
  }

  lemma B64IsSymbols(b: seq<Byte>)
    ensures B64(b) == Symbols(b)
  {
    SymbolsAreClean(b);
    StripRightOfPadded(Symbols(b), (3 - |b| % 3) % 3);
  }

  lemma PadLength(length: nat, pads: nat)
    requires pads < 3 && (length + pads) % 4 == 0
    ensures (4 - length % 4) % 4 == pads
  {
  }

  /** Stripping loses nothing: the padding put back is the padding taken off. */
  lemma PaddingIsRestored(b: seq<Byte>)
    ensures Pad(B64(b)) == Encode(b)
  {
    B64IsSymbols(b);
    SymbolsLength(b);
    PadLength(|Symbols(b)|, (3 - |b| % 3) % 3);
  }

  lemma FeedSymbol(v: int, rest: string, quad: nat, left: int)
    requires 0 <= v < 64
    requires quad < 4 && 0 <= left < (if quad == 0 then 1 else if quad == 1 then 64 else if quad == 2 then 16 else 4)
    ensures Feed([Symbol(v)] + rest, quad, left, 0) ==
      if quad == 0 then Feed(rest, 1, v, 0)
      else if quad == 1 then Emit(left * 4 + v / 16, Feed(rest, 2, v % 16, 0))
      else if quad == 2 then Emit(left * 16 + v / 4, Feed(rest, 3, v % 4, 0))
      else Emit(left * 64 + v, Feed(rest, 0, 0, 0))
  {
    assert ([Symbol(v)] + rest)[1..] == rest;
  }

  /** Neither a dot nor a pad nor anything outside ASCII is left in the text. */
  lemma B64IsClean(b: seq<Byte>)
    ensures Ascii(B64(b)) && forall i :: 0 <= i < |B64(b)| ==> B64(b)[i] != '.' && B64(b)[i] != '='
  {
    B64IsSymbols(b);
    SymbolsAreClean(b);
    assert forall i :: 0 <= i < |Symbols(b)| ==> Clean(Symbols(b)[i]);
  }

  lemma SplitBits(high: int, low: int, high': int, low': int)
    requires 0 <= low < 16 && 0 <= low' < 4
    ensures (high * 16 + low) / 16 == high && (high * 16 + low) % 16 == low
    ensures (high' * 4 + low') / 4 == high' && (high' * 4 + low') % 4 == low'
  {
  }

  lemma FeedQuad(b0: Byte, b1: Byte, b2: Byte, rest: string)
    ensures Feed([Symbol(b0 / 4)] + ([Symbol(b0 % 4 * 16 + b1 / 16)]
        + ([Symbol(b1 % 16 * 4 + b2 / 64)] + ([Symbol(b2 % 64)] + rest))), 0, 0, 0)
      == Emit(b0, Emit(b1, Emit(b2, Feed(rest, 0, 0, 0))))
  {
    var s3 := [Symbol(b2 % 64)] + rest;
    var s2 := [Symbol(b1 % 16 * 4 + b2 / 64)] + s3;
    var s1 := [Symbol(b0 % 4 * 16 + b1 / 16)] + s2;
    FeedSymbol(b0 / 4, s1, 0, 0);
    FeedSymbol(b0 % 4 * 16 + b1 / 16, s2, 1, b0 / 4);
    FeedSymbol(b1 % 16 * 4 + b2 / 64, s3, 2, b1 / 16);
    FeedSymbol(b2 % 64, rest, 3, b2 / 64);
    SplitBits(b0 % 4, b1 / 16, b1 % 16, b2 / 64);
  }

  lemma FeedOne(b0: Byte)
    ensures Feed([Symbol(b0 / 4)] + ([Symbol(b0 % 4 * 16)] + "=="), 0, 0, 0) == Success([b0])
  {
    FeedSymbol(b0 / 4, [Symbol(b0 % 4 * 16)] + "==", 0, 0);
    FeedSymbol(b0 % 4 * 16, "==", 1, b0 / 4);
    assert "=="[1..] == "=";
    assert Feed("=", 2, 0, 1) == Success([]);
    SplitBits(b0 % 4, 0, 0, 0);
    var none: seq<Byte> := [];
    assert [b0] + none == [b0];
  }

  lemma FeedTwo(b0: Byte, b1: Byte)
    ensures Feed([Symbol(b0 / 4)] + ([Symbol(b0 % 4 * 16 + b1 / 16)] + ([Symbol(b1 % 16 * 4)] + "=")), 0, 0, 0)
      == Success([b0, b1])
  {
    var s2 := [Symbol(b1 % 16 * 4)] + "=";
    FeedSymbol(b0 / 4, [Symbol(b0 % 4 * 16 + b1 / 16)] + s2, 0, 0);
    FeedSymbol(b0 % 4 * 16 + b1 / 16, s2, 1, b0 / 4);
    FeedSymbol(b1 % 16 * 4, "=", 2, b1 / 16);
    SplitBits(b0 % 4, b1 / 16, b1 % 16, 0);
    assert Feed("=", 3, 0, 0) == Success([]);
    var none: seq<Byte> := [];
    assert [b0] + ([b1] + none) == [b0, b1];
  }

  lemma EncodeShort(b: seq<Byte>)
    ensures |b| == 0 ==> Encode(b) == ""
    ensures |b| == 1 ==> Encode(b) == [Symbol(b[0] / 4)] + ([Symbol(b[0] % 4 * 16)] + "==")
    ensures |b| == 2 ==>
      Encode(b) == [Symbol(b[0] / 4)] + ([Symbol(b[0] % 4 * 16 + b[1] / 16)] + ([Symbol(b[1] % 16 * 4)] + "="))
  {
  }

  lemma EncodeLong(b: seq<Byte>)
    requires |b| >= 3
    ensures Encode(b) == [Symbol(b[0] / 4)] + ([Symbol(b[0] % 4 * 16 + b[1] / 16)]
      + ([Symbol(b[1] % 16 * 4 + b[2] / 64)] + ([Symbol(b[2] % 64)] + Encode(b[3..]))))
  {
  }

  lemma {:induction false} FeedUndoesEncode(b: seq<Byte>)
    ensures Feed(Encode(b), 0, 0, 0) == Success(b)
  {
    if |b| < 3 {
      EncodeShort(b);
      if |b| == 1 {
        FeedOne(b[0]);
        assert b == [b[0]];
      }
      if |b| == 2 {
        FeedTwo(b[0], b[1]);
        assert b == [b[0], b[1]];
      }
    } else {
      EncodeLong(b);
      FeedUndoesEncode(b[3..]);
      FeedQuad(b[0], b[1], b[2], Encode(b[3..]));
      assert b == [b[0]] + ([b[1]] + ([b[2]] + b[3..]));
    }
  }

  /** Every byte string comes back from its stripped base64url text. */
  lemma DecodeUndoesB64(b: seq<Byte>)
    ensures Decode(B64(b)) == Success(b)
  {
    PaddingIsRestored(b);
    B64IsClean(b);
    FeedUndoesEncode(b);
  }

  /** The alphabet of table 2 of RFC 4648, by character code. */
  lemma SymbolCodes(v: int)
    requires 0 <= v < 64
    ensures v < 26 ==> Symbol(v) as int == 65 + v
    ensures 26 <= v < 52 ==> Symbol(v) as int == 97 + (v - 26)
    ensures 52 <= v < 62 ==> Symbol(v) as int == 48 + (v - 52)
    ensures v == 62 ==> Symbol(v) as int == 45
    ensures v == 63 ==> Symbol(v) as int == 95
  {
  }

  /** Four symbols hold three bytes, the first bits first: read as numbers, to base 64 and to base 256, they agree. */
  lemma QuadHoldsThreeBytes(b0: Byte, b1: Byte, b2: Byte, rest: seq<Byte>)
    ensures var s := Symbols([b0, b1, b2] + rest);
      && |s| == 4 + |Symbols(rest)| && s[4..] == Symbols(rest)
      && SymbolValue(s[0]).Some? && SymbolValue(s[1]).Some? && SymbolValue(s[2]).Some? && SymbolValue(s[3]).Some?
      && SymbolValue(s[0]).value * 262144 + SymbolValue(s[1]).value * 4096 + SymbolValue(s[2]).value * 64
        + SymbolValue(s[3]).value == b0 * 65536 + b1 * 256 + b2
  {
    var b := [b0, b1, b2] + rest;
    assert b[3..] == rest;
  }
}
