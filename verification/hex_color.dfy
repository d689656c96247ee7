/**
 * `withOpacity`: turns a `#rgb` or `#rrggbb` colour and an alpha into the
 * channels of an `rgba(...)` colour, the way the band's gradient is built.
 */
module HexColor {
  import opened Common

  /** The four numbers written into `rgba(r, g, b, alpha)`. */
  datatype Rgba = Rgba(r: int, g: int, b: int, alpha: real)

  const TWO_32: int := 0x1_0000_0000

  /** `hex.replace('#', '')`: a string pattern replaces only its first occurrence. */
  function RemoveFirstHash(s: string): (r: string)
    ensures '#' !in s ==> r == s
    ensures '#' in s ==> |r| == |s| - 1
    ensures |s| > 0 && s[0] == '#' ==> r == s[1..]
  {
    if s == [] then []
    else if s[0] == '#' then s[1..]
    else [s[0]] + RemoveFirstHash(s[1..])
  }

  /** Whatever its position, only the first `#` is dropped: what comes before and after it is kept. */
  lemma {:induction false} DropsFirstHashOnly(s: string, i: nat)
    requires i < |s| && s[i] == '#' && '#' !in s[..i]
    ensures RemoveFirstHash(s) == s[..i] + s[i + 1..]
  {
    if i > 0 {
      var t := s[1..];
      assert s[0] == s[..i][0];
      assert t[..i - 1] == s[1..i];
      assert '#' !in t[..i - 1];
      DropsFirstHashOnly(t, i - 1);
      assert s[..i] == [s[0]] + t[..i - 1];
      assert t[i..] == s[i + 1..];
    }
  }

  /** Three characters are widened by doubling each one; any other length is kept. */
  function Expand(s: string): (r: string)
    ensures |s| == 3 ==> |r| == 6 && forall i | 0 <= i < 6 :: r[i] == s[i / 2]
    ensures |s| != 3 ==> r == s
  {
    if |s| == 3 then [s[0], s[0], s[1], s[1], s[2], s[2]] else s
  }

  predicate IsHexDigit(c: char)
  {
    '0' <= c <= '9' || 'a' <= c <= 'f' || 'A' <= c <= 'F'
  }

  function DigitValue(c: char): (v: nat)
    requires IsHexDigit(c)
    ensures v < 16
  {
    if '0' <= c <= '9' then c as int - '0' as int
    else if 'a' <= c <= 'f' then c as int - 'a' as int + 10
    else c as int - 'A' as int + 10
  }

  /** The number a run of hex digits spells, most significant digit first. */
  function HexValue(s: string): (v: nat)
    requires forall i | 0 <= i < |s| :: IsHexDigit(s[i])
  {
    if s == [] then 0 else 16 * HexValue(s[..|s| - 1]) + DigitValue(s[|s| - 1])
  }

  /** How many hex digits `s` starts with. */
  function HexRunLength(s: string): (n: nat)
    ensures n <= |s|
    ensures forall i | 0 <= i < n :: IsHexDigit(s[i])
    ensures n < |s| ==> !IsHexDigit(s[n])
  {
    if s == [] || !IsHexDigit(s[0]) then 0 else 1 + HexRunLength(s[1..])
  }

  /**
   * `parseInt(s, 16)`: leading white space is skipped, one sign is read, a
   * `0x`/`0X` prefix is skipped, then the longest run of hex digits is read;
   * no digits gives NaN, here `None`.
   */
  function ParseIntHex(s: string): (r: Option<int>)
    ensures TrimStart(s) == [] ==> r.None?
    ensures r.Some? && r.value < 0 ==> TrimStart(s)[0] == '-'
  {
    var t := TrimStart(s);
    var negative := |t| > 0 && t[0] == '-';
    var digits := StripHexPrefix(StripSign(t));
    var n := HexRunLength(digits);
    if n == 0 then None
    else
      var magnitude: int := HexValue(digits[..n]);
      Some(if negative then -magnitude else magnitude)
  }

  /** `s` without one leading `+` or `-`. */
  function StripSign(s: string): (r: string)
    ensures |r| <= |s|
  {
    if |s| > 0 && (s[0] == '-' || s[0] == '+') then s[1..] else s
  }

  /** `s` without a leading `0x` or `0X`. */
  function StripHexPrefix(s: string): (r: string)
    ensures |r| <= |s|
  {
    if |s| >= 2 && s[0] == '0' && (s[1] == 'x' || s[1] == 'X') then s[2..] else s
  }

  /**
   * `(v >> shift) & 255` on the 32-bit integer JavaScript's shift and mask
   * convert `v` to: byte `shift / 8` of `v` modulo 2^32; NaN converts to 0.
   */
  function Channel(v: Option<int>, shift: nat): (c: int)
    ensures 0 <= c < 256
    ensures v.None? ==> c == 0
  {
    match v
    case None => 0
    case Some(x) => (x % TWO_32) / Pow2(shift) % 256
  }

  function Pow2(k: nat): (p: nat)
    ensures p >= 1
  {
    if k == 0 then 1 else 2 * Pow2(k - 1)
  }

  /** `withOpacity(hex, alpha)`. */
  function WithOpacity(hex: string, alpha: real): (c: Rgba)
    ensures 0 <= c.r < 256 && 0 <= c.g < 256 && 0 <= c.b < 256
    ensures c.alpha == alpha
  {
    var value := Expand(RemoveFirstHash(hex));
    var intValue := ParseIntHex(value);
    Rgba(Channel(intValue, 16), Channel(intValue, 8), Channel(intValue, 0), alpha)
  }

  predicate AllHexDigits(s: string)
  {
    forall i | 0 <= i < |s| :: IsHexDigit(s[i])
  }

  /** Six hex digits spell the three bytes `d0d1`, `d2d3` and `d4d5`, high byte first. */
  lemma SixDigitValue(d: string)
    requires |d| == 6 && AllHexDigits(d)
    ensures HexValue(d)
         == (16 * DigitValue(d[0]) + DigitValue(d[1])) * 65536
          + (16 * DigitValue(d[2]) + DigitValue(d[3])) * 256
          + (16 * DigitValue(d[4]) + DigitValue(d[5]))
  {
    var lead, first := d[..4], d[..2];
    TwoMoreDigits(d);
    assert lead[..2] == first && lead[2] == d[2] && lead[3] == d[3];
    TwoMoreDigits(lead);
    assert first[..0] == [] && first[0] == d[0] && first[1] == d[1];
    TwoMoreDigits(first);
  }

  /** Reading two more digits multiplies the value so far by 256 and adds their byte. */
  lemma TwoMoreDigits(s: string)
    requires |s| >= 2 && AllHexDigits(s)
    ensures HexValue(s)
         == 256 * HexValue(s[..|s| - 2]) + 16 * DigitValue(s[|s| - 2]) + DigitValue(s[|s| - 1])
  {
    assert s[..|s| - 1][..|s| - 2] == s[..|s| - 2];
  }

  /** A 32-bit value whose byte at `shift` is `b` yields `b` as that channel. */
  lemma ChannelIs(x: int, q: nat, b: nat, r: nat, shift: nat)
    requires b < 256 && r < Pow2(shift) && x == (q * 256 + b) * Pow2(shift) + r && x < TWO_32
    ensures Channel(Some(x), shift) == b
  {
    var p, m := Pow2(shift), q * 256 + b;
    assert x % TWO_32 == x;
    RowColIndex(m, r, p);
    assert x / p == m;
    RowColIndex(q, b, 256);
  }

  /** The bytes of a value below 2^24 are its three channels. */
  lemma ChannelsOfBytes(x: int, hi: nat, mid: nat, lo: nat)
    requires hi < 256 && mid < 256 && lo < 256 && x == hi * 65536 + mid * 256 + lo
    ensures Channel(Some(x), 16) == hi && Channel(Some(x), 8) == mid && Channel(Some(x), 0) == lo
  {
    assert Pow2(16) == 65536 && Pow2(8) == 256 && Pow2(0) == 1;
    ChannelIs(x, 0, hi, mid * 256 + lo, 16);
    ChannelIs(x, hi, mid, lo, 8);
    ChannelIs(x, hi * 256 + mid, lo, 0, 0);
  }

  /** A string of hex digits is one whole run of them. */
  lemma {:induction false} HexRunOfDigits(d: string)
    requires AllHexDigits(d)
    ensures HexRunLength(d) == |d|
  {
    if d != [] {
      HexRunOfDigits(d[1..]);
    }
  }

  /** A string starting with a hex digit has no white space, sign or `0x` prefix to skip. */
  lemma NothingToSkip(d: string)
    requires |d| > 1 && IsHexDigit(d[0]) && IsHexDigit(d[1])
    ensures TrimStart(d) == d && StripHexPrefix(StripSign(d)) == d
  {
    HexDigitIsNotSpace(d[0]);
    TrimStartKeeps(d);
  }

  /** No hex digit is a white-space character. */
  lemma HexDigitIsNotSpace(c: char)
    requires IsHexDigit(c)
    ensures !IsJsWhitespace(c)
  {
  }

  /** Six hex digits, with nothing before or after them, parse to the number they spell. */
  lemma ParseSixDigits(d: string)
    requires |d| == 6 && AllHexDigits(d)
    ensures ParseIntHex(d) == Some(HexValue(d))
  {
    NothingToSkip(d);
    HexRunOfDigits(d);
    assert d[..6] == d;
  }

  /** The three channels `withOpacity` reads from six hex digits are their three digit pairs. */
  lemma SixDigitChannels(d: string)
    requires |d| == 6 && AllHexDigits(d)
    ensures var v := ParseIntHex(d);
      && Channel(v, 16) == 16 * DigitValue(d[0]) + DigitValue(d[1])
      && Channel(v, 8) == 16 * DigitValue(d[2]) + DigitValue(d[3])
      && Channel(v, 0) == 16 * DigitValue(d[4]) + DigitValue(d[5])
  {
    var hi, mid, lo := 16 * DigitValue(d[0]) + DigitValue(d[1]),
                       16 * DigitValue(d[2]) + DigitValue(d[3]),
                       16 * DigitValue(d[4]) + DigitValue(d[5]);
    ParseSixDigits(d);
    SixDigitValue(d);
    ChannelsOfBytes(HexValue(d), hi, mid, lo);
  }

  /** A leading `#` is dropped and the six characters after it are kept as they are. */
  lemma SixAfterHash(hex: string)
    requires |hex| == 7 && hex[0] == '#'
    ensures Expand(RemoveFirstHash(hex)) == hex[1..]
  {
  }

  /** A leading `#` is dropped and the three characters after it are doubled. */
  lemma ThreeAfterHash(hex: string)
    requires |hex| == 4 && hex[0] == '#'
    ensures Expand(RemoveFirstHash(hex)) == [hex[1], hex[1], hex[2], hex[2], hex[3], hex[3]]
  {
    assert RemoveFirstHash(hex) == hex[1..];
  }

  /** Six digits that come in equal pairs give channels of 17 times each pair's digit. */
  lemma DoubledDigitChannels(d: string)
    requires |d| == 6 && AllHexDigits(d) && d[0] == d[1] && d[2] == d[3] && d[4] == d[5]
    ensures var v := ParseIntHex(d);
      Channel(v, 16) == 17 * DigitValue(d[0]) && Channel(v, 8) == 17 * DigitValue(d[2]) && Channel(v, 0) == 17 * DigitValue(d[4])
  {
    SixDigitChannels(d);
    var x, y, z := DigitValue(d[0]), DigitValue(d[2]), DigitValue(d[4]);
    assert 16 * x + x == 17 * x && 16 * y + y == 17 * y && 16 * z + z == 17 * z;
  }


  /** Six digits after a `#` are read unchanged: red, green and blue are their byte pairs. */
  lemma SixDigitColour(hex: string, alpha: real)
    requires |hex| == 7 && hex[0] == '#' && AllHexDigits(hex[1..])
    ensures var d := hex[1..];
      WithOpacity(hex, alpha) == Rgba(16 * DigitValue(d[0]) + DigitValue(d[1]),
                                      16 * DigitValue(d[2]) + DigitValue(d[3]),
                                      16 * DigitValue(d[4]) + DigitValue(d[5]), alpha)
  {
    var d := hex[1..];
    SixAfterHash(hex);
    SixDigitChannels(d);
  }

  /** Three digits after a `#` are doubled: each channel is its digit times 17. */
  lemma ThreeDigitColour(hex: string, alpha: real)
    requires |hex| == 4 && hex[0] == '#' && AllHexDigits(hex[1..])
    ensures WithOpacity(hex, alpha)
         == Rgba(17 * DigitValue(hex[1]), 17 * DigitValue(hex[2]), 17 * DigitValue(hex[3]), alpha)
  {
    ThreeAfterHash(hex);
    DoubledDigitChannels(Expand(RemoveFirstHash(hex)));
  }
}
