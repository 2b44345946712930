/** The segment ids of edc_translation/kafka_backend.py: `segment-` and a number padded to six digits. */
module SegmentIds {
  import opened SortedStrings

  function Digit(d: nat): (c: char)
    requires d < 10
    ensures '0' <= c <= '9' && c as int - '0' as int == d
  {
    '0' + d as char
  }

  /** `n` in decimal, padded with zeros to at least `width` digits. */
  function Padded(n: nat, width: nat): (s: string)
    ensures s != []
    decreases n + width
  {
    if n < 10 && width <= 1 then [Digit(n)]
    else Padded(n / 10, if width == 0 then 0 else width - 1) + [Digit(n % 10)]
  }

  function SegmentId(number: nat): string {
    "segment-" + Padded(number, 6)
  }

  function Value(s: string): int {
    if s == [] then 0 else 10 * Value(s[..|s| - 1]) + (s[|s| - 1] as int - '0' as int)
  }

  lemma {:induction false} ValueOfPadded(n: nat, width: nat)
    ensures Value(Padded(n, width)) == n
    decreases n + width
  {
    if n >= 10 || width > 1 {
      ValueOfPadded(n / 10, if width == 0 then 0 else width - 1);
      var init := Padded(n / 10, if width == 0 then 0 else width - 1);
      assert Padded(n, width)[..|init|] == init;
    } else {
      assert Padded(n, width)[..0] == [];
    }
  }

  /** No two segments of a fan-out, however long, share an id. */
  lemma SegmentIdsAreDistinct(m: nat, n: nat)
    requires SegmentId(m) == SegmentId(n)
    ensures m == n
  {
    var prefix := "segment-";
    assert Padded(m, 6) == SegmentId(m)[|prefix|..] && Padded(n, 6) == SegmentId(n)[|prefix|..];
    ValueOfPadded(m, 6);
    ValueOfPadded(n, 6);
  }

  function Pow10(w: nat): nat {
    if w == 0 then 1 else 10 * Pow10(w - 1)
  }

  lemma {:induction false} PaddedLength(n: nat, width: nat)
    requires width >= 1 && n < Pow10(width)
    ensures |Padded(n, width)| == width
  {
    if width > 1 { PaddedLength(n / 10, width - 1); }
  }

  lemma {:induction false} LastDigitDecides(a: string, b: string, x: char, y: char)
    requires |a| == |b|
    ensures Le(a + [x], b + [y]) <==> if a == b then x <= y else Le(a, b)
  {
    if a == [] {
      assert a + [x] == [x] && b + [y] == [y] && [x][1..] == [];
    } else {
      assert (a + [x])[1..] == a[1..] + [x] && (b + [y])[1..] == b[1..] + [y];
      assert a == [a[0]] + a[1..] && b == [b[0]] + b[1..];
      LastDigitDecides(a[1..], b[1..], x, y);
    }
  }

  lemma OrderByDigits(m: nat, n: nat)
    ensures m <= n <==> if m / 10 == n / 10 then m % 10 <= n % 10 else m / 10 <= n / 10
  {
  }

  lemma {:induction false} SameWidthOrder(m: nat, n: nat, width: nat)
    requires width >= 1 && m < Pow10(width) && n < Pow10(width)
    ensures Le(Padded(m, width), Padded(n, width)) <==> m <= n
  {
    if width == 1 {
      assert Padded(m, 1) == [] + [Digit(m)] && Padded(n, 1) == [] + [Digit(n)];
      LastDigitDecides([], [], Digit(m), Digit(n));
    } else {
      SameWidthOrder(m / 10, n / 10, width - 1);
      PaddedLength(m / 10, width - 1);
      PaddedLength(n / 10, width - 1);
      ValueOfPadded(m / 10, width - 1);
      ValueOfPadded(n / 10, width - 1);
      LastDigitDecides(Padded(m / 10, width - 1), Padded(n / 10, width - 1), Digit(m % 10), Digit(n % 10));
      OrderByDigits(m, n);
    }
  }

  lemma SixDigits()
    ensures Pow10(6) == 1000000
  {
    assert Pow10(3) == 1000;
  }

  lemma SegmentIdOrder(m: nat, n: nat)
    requires m < n <= 999999
    ensures Lt(SegmentId(m), SegmentId(n))
  {
    SixDigits();
    SameWidthOrder(m, n, 6);
    LePrefix("segment-", Padded(m, 6), Padded(n, 6));
    if SegmentId(m) == SegmentId(n) { SegmentIdsAreDistinct(m, n); }
  }

  /** The ids of a fan-out into `count` segments, in order. */
  function Numbered(count: nat): (ids: seq<string>)
    ensures |ids| == count
  {
    seq(count, i requires 0 <= i < count => SegmentId(i + 1))
  }

  lemma MillionSortsFirst()
    ensures !Le(SegmentId(999999), SegmentId(1000000))
  {
    assert Padded(1, 0) == ['1'];
    assert Padded(10, 1) == Padded(1, 0) + ['0'];
    assert Padded(100, 2) == Padded(10, 1) + ['0'];
    assert Padded(1000, 3) == Padded(100, 2) + ['0'];
    assert Padded(10000, 4) == Padded(1000, 3) + ['0'];
    assert Padded(100000, 5) == Padded(10000, 4) + ['0'];
    assert Padded(1000000, 6) == Padded(100000, 5) + ['0'];
    assert Padded(9, 1) == ['9'];
    assert Padded(99, 2) == Padded(9, 1) + ['9'];
    assert Padded(999, 3) == Padded(99, 2) + ['9'];
    assert Padded(9999, 4) == Padded(999, 3) + ['9'];
    assert Padded(99999, 5) == Padded(9999, 4) + ['9'];
    assert Padded(999999, 6) == Padded(99999, 5) + ['9'];
    assert Padded(1000000, 6)[0] == '1' && Padded(999999, 6)[0] == '9';
    LePrefix("segment-", Padded(999999, 6), Padded(1000000, 6));
  }

  /** Sorting the ids as text gives the fan-out order exactly up to 999,999 segments. */
  lemma TextOrderIsFanOutOrderIff(count: nat)
    ensures Ascending(Numbered(count)) <==> count <= 999999
  {
    var ids := Numbered(count);
    if count <= 999999 {
      forall i, j | 0 <= i < j < count
        ensures Lt(ids[i], ids[j])
      {
        SegmentIdOrder(i + 1, j + 1);
      }
    } else {
      MillionSortsFirst();
      assert !Lt(ids[999998], ids[999999]);
    }
  }
}
