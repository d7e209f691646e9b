/** `format_size`: a byte count as a human-readable text in binary units. */
module Sizes {
  import opened Wrappers
  import opened Text

  datatype Unit = B | KB | MB | GB

  const KiB: nat := 1024
  const MiB: nat := 1024 * 1024
  const GiB: nat := 1024 * 1024 * 1024

  /** Bytes in one unit. */
  function Scale(u: Unit): nat
  {
    match u
    case B => 1
    case KB => KiB
    case MB => MiB
    case GB => GiB
  }

  function UnitName(u: Unit): string
  {
    match u
    case B => "B"
    case KB => "KB"
    case MB => "MB"
    case GB => "GB"
  }

  /** The unit chosen by the threshold chain of `format_size`. */
  function UnitFor(size: nat): (u: Unit)
    ensures u == B <==> size < KiB
    ensures u == KB <==> KiB <= size < MiB
    ensures u == MB <==> MiB <= size < GiB
    ensures u == GB <==> GiB <= size
  {
    if size < KiB then B
    else if size < MiB then KB
    else if size < GiB then MB
    else GB
  }

  /** Quotient and remainder of `n` by `d`, with the product of the next quotient spelled out. */
  lemma DivModSplit(n: nat, d: nat)
    requires d > 0
    ensures n == n / d * d + n % d && 0 <= n % d < d
    ensures (n / d + 1) * d == n / d * d + d
  {
  }

  /** `n / d` rounded to the nearest integer, ties to the even neighbour: the
      rounding `:.2f` applies to the exact binary value of `size / 1024**k`. */
  function RoundHalfEven(n: nat, d: nat): (q: nat)
    requires d > 0
    ensures 2 * (n - q * d) <= d && 2 * (q * d - n) <= d
    ensures 2 * (n - q * d) == d || 2 * (q * d - n) == d ==> q % 2 == 0
  {
    DivModSplit(n, d);
    var f := n / d;
    var r := n % d;
    if 2 * r < d then f
    else if 2 * r > d then f + 1
    else if f % 2 == 0 then f else f + 1
  }

  /** The displayed magnitude in hundredths of the chosen unit. */
  function Hundredths(size: nat): nat
  {
    RoundHalfEven(100 * size, Scale(UnitFor(size)))
  }

  /** A count of hundredths written with two decimals, as `:.2f` writes it. */
  function Fixed2(c: nat): string
  {
    var m := c % 100;
    NatToString(c / 100) + "." + [DigitChar(m / 10), DigitChar(m % 10)]
  }

  /** `format_size(size)` for a whole, non-negative byte count. */
  function FormatSize(size: nat): (s: string)
    ensures size < KiB ==> s == NatToString(size) + " B"
  {
    var u := UnitFor(size);
    if u == B then NatToString(size) + " " + UnitName(u)
    else Fixed2(Hundredths(size)) + " " + UnitName(u)
  }

  /** The unit a three-character suffix `" KB"`, `" MB"` or `" GB"` names. */
  function ScaledSuffix(t: string): Option<Unit>
  {
    if t == " KB" then Some(KB)
    else if t == " MB" then Some(MB)
    else if t == " GB" then Some(GB)
    else None
  }

  /** Reads `<digits>.<two digits>` as a count of hundredths. */
  function ParseFixed2(body: string): Option<nat>
  {
    if |body| < 4 then None
    else
      var whole, dot, frac := body[..|body| - 3], body[|body| - 3], body[|body| - 2..];
      if dot == '.' && AllDigits(whole) && AllDigits(frac)
      then Some(ParseNat(whole) * 100 + ParseNat(frac))
      else None
  }

  /** Reads a text of the form `format_size` produces back as hundredths and a unit. */
  function ParseSize(s: string): Option<(nat, Unit)>
  {
    if |s| < 3 then None
    else
      var suffix := ScaledSuffix(s[|s| - 3..]);
      if suffix.Some? then
        match ParseFixed2(s[..|s| - 3])
        case Some(c) => Some((c, suffix.value))
        case None => None
      else if s[|s| - 2..] == " B" && AllDigits(s[..|s| - 2]) then
        Some((ParseNat(s[..|s| - 2]) * 100, B))
      else None
  }

  lemma ParseTwoDigits(a: nat, b: nat)
    requires a < 10 && b < 10
    ensures AllDigits([DigitChar(a), DigitChar(b)])
    ensures ParseNat([DigitChar(a), DigitChar(b)]) == 10 * a + b
  {
    var t := [DigitChar(a), DigitChar(b)];
    assert t[..1] == [DigitChar(a)];
    assert t[..1][..0] == [];
    assert ParseNat(t[..1]) == a;
    assert ParseNat(t) == ParseNat(t[..1]) * 10 + b;
  }

  lemma ParseFixed2RoundTrip(c: nat)
    ensures ParseFixed2(Fixed2(c)) == Some(c)
  {
    var m := c % 100;
    var head := NatToString(c / 100);
    var tail := [DigitChar(m / 10), DigitChar(m % 10)];
    var body := Fixed2(c);
    assert body == head + "." + tail;
    assert body[..|body| - 3] == head;
    assert body[|body| - 2..] == tail;
    ParseNatToString(c / 100);
    ParseTwoDigits(m / 10, m % 10);
    assert 10 * (m / 10) + m % 10 == m;
    assert c / 100 * 100 + m == c;
  }

  lemma ParseScaledText(body: string, u: Unit)
    requires u != B
    ensures ParseSize(body + " " + UnitName(u)) ==
      match ParseFixed2(body) case Some(c) => Some((c, u)) case None => None
  {
    var s := body + " " + UnitName(u);
    assert s[..|s| - 3] == body;
    assert s[|s| - 3..] == " " + UnitName(u);
    match u
    case KB => assert ScaledSuffix(" KB") == Some(KB);
    case MB => assert ScaledSuffix(" MB") == Some(MB);
    case GB => assert ScaledSuffix(" GB") == Some(GB);
  }

  lemma ParseBytesText(n: nat)
    ensures ParseSize(NatToString(n) + " B") == Some((100 * n, B))
  {
    var digits := NatToString(n);
    var s := digits + " B";
    var tail := s[|s| - 3..];
    assert tail[0] == digits[|digits| - 1];
    assert IsDigit(tail[0]);
    assert tail[0] != " KB"[0] && tail[0] != " MB"[0] && tail[0] != " GB"[0];
    assert ScaledSuffix(tail) == None;
    assert s[..|s| - 2] == digits;
    assert s[|s| - 2..] == " B";
    ParseNatToString(n);
  }

  /** The text names the unit the thresholds select and the displayed magnitude:
      reading it back gives exactly `Hundredths(size)` of `UnitFor(size)`. */
  lemma FormatSizeRoundTrip(size: nat)
    ensures ParseSize(FormatSize(size)) == Some((Hundredths(size), UnitFor(size)))
  {
    var u := UnitFor(size);
    if u == B {
      ParseBytesText(size);
      assert Hundredths(size) == 100 * size;
    } else {
      ParseFixed2RoundTrip(Hundredths(size));
      ParseScaledText(Fixed2(Hundredths(size)), u);
    }
  }

  /** The displayed magnitude is the size to within half a hundredth of the unit,
      and exact for sizes shown in bytes. */
  lemma HundredthsAccurate(size: nat)
    ensures var c, k := Hundredths(size), Scale(UnitFor(size));
      2 * (100 * size - c * k) <= k && 2 * (c * k - 100 * size) <= k
    ensures UnitFor(size) == B ==> Hundredths(size) == 100 * size
  {
  }

  /** A text in kilobytes or larger never shows less than one unit. */
  lemma ScaledAtLeastOne(size: nat)
    requires UnitFor(size) != B
    ensures Hundredths(size) >= 100
  {
    var k := Scale(UnitFor(size));
    assert 100 * size >= 100 * k;
    assert 2 * (Hundredths(size) * k) >= 2 * (100 * size) - k;
  }
}
