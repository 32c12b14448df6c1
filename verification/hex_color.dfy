/**
 * The stroke-colour helper `darkenColor` of the shape renderer, together with
 * the two JavaScript conversions it leans on: `parseInt(s, 16)` to read a colour
 * and `Number.prototype.toString(16)` to write one back.
 *
 * `darkenColor(color, percent)` strips the first '#', parses the rest as a
 * hexadecimal number, takes the three 8-bit channels apart with `>>` and `&`,
 * subtracts `amt` from each, clamps negatives to 0, and writes the channels back
 * as `"#" + (0x1000000 + packed).toString(16).slice(1)`: the leading 1 forces a
 * seventh digit that `slice(1)` then throws away, leaving six zero-padded digits.
 */
module HexColor {
  import opened Wrappers

  predicate IsHexDigit(c: char) {
    '0' <= c <= '9' || 'a' <= c <= 'f' || 'A' <= c <= 'F'
  }

  predicate IsLowerHexDigit(c: char) {
    '0' <= c <= '9' || 'a' <= c <= 'f'
  }

  predicate IsHexString(s: string) {
    forall i | 0 <= i < |s| :: IsHexDigit(s[i])
  }

  predicate IsLowerHexString(s: string) {
    forall i | 0 <= i < |s| :: IsLowerHexDigit(s[i])
  }

  /** A colour as the editor's palettes write it: '#' and six hex digits of either case. */
  predicate IsHexColor(c: string) {
    |c| == 7 && c[0] == '#' && IsHexString(c[1..])
  }

  function DigitValue(c: char): (v: nat)
    requires IsHexDigit(c)
    ensures v < 16
  {
    if c <= '9' then c as int - '0' as int
    else if 'a' <= c then c as int - 'a' as int + 10
    else c as int - 'A' as int + 10
  }

  /** The digit `toString(16)` writes for `d`: always lower case. */
  function DigitChar(d: nat): (c: char)
    requires d < 16
    ensures IsLowerHexDigit(c) && IsHexDigit(c) && DigitValue(c) == d
  {
    if d < 10 then ('0' as int + d) as char else ('a' as int + d - 10) as char
  }

  /** Case folding of one hex digit, defined on characters independently of digit values. */
  function Lower(c: char): (l: char)
    requires IsHexDigit(c)
    ensures l == DigitChar(DigitValue(c))
  {
    if 'A' <= c <= 'F' then (c as int - 'A' as int + 'a' as int) as char else c
  }

  function LowerString(s: string): (r: string)
    requires IsHexString(s)
    ensures |r| == |s| && forall i | 0 <= i < |s| :: r[i] == Lower(s[i])
  {
    if s == [] then [] else LowerString(s[..|s| - 1]) + [Lower(s[|s| - 1])]
  }

  function Pow16(n: nat): (p: nat)
    ensures p >= 1
  {
    if n == 0 then 1 else 16 * Pow16(n - 1)
  }

  /** The number a string of hex digits denotes, most significant digit first. */
  function HexValue(s: string): nat
    requires IsHexString(s)
  {
    if s == [] then 0 else 16 * HexValue(s[..|s| - 1]) + DigitValue(s[|s| - 1])
  }

  /** The low `width` hex digits of `v`, zero-padded, lower case. */
  function FixedHex(v: nat, width: nat): (s: string)
    ensures |s| == width && IsLowerHexString(s) && IsHexString(s)
  {
    if width == 0 then [] else FixedHex(v / 16, width - 1) + [DigitChar(v % 16)]
  }

  /** `Number.prototype.toString(16)` on a non-negative integer: no leading zeros, lower case. */
  function ToRadix16(n: nat): (s: string)
    ensures |s| >= 1 && IsLowerHexString(s) && IsHexString(s)
    ensures n > 0 ==> s[0] != '0'
  {
    if n < 16 then [DigitChar(n)] else ToRadix16(n / 16) + [DigitChar(n % 16)]
  }

  /** The digits `toString(16)` writes denote the number again. */
  lemma {:induction false} ToRadix16RoundTrip(n: nat)
    ensures HexValue(ToRadix16(n)) == n
  {
    var s := ToRadix16(n);
    if n < 16 {
      assert s[..0] == [];
    } else {
      assert s[..|s| - 1] == ToRadix16(n / 16);
      ToRadix16RoundTrip(n / 16);
    }
  }

  /** `s.replace(c, "")` with a one-character pattern: only the first occurrence goes. */
  function RemoveFirst(s: string, c: char): (r: string)
    ensures c in s ==> |r| == |s| - 1
    ensures c !in s ==> r == s
  {
    if s == [] then []
    else if s[0] == c then s[1..]
    else [s[0]] + RemoveFirst(s[1..], c)
  }

  /** `replace` removes exactly the first occurrence: everything before and after it is kept. */
  lemma {:induction false} RemoveFirstDropsFirst(s: string, c: char, k: nat)
    requires k < |s| && s[k] == c && c !in s[..k]
    ensures RemoveFirst(s, c) == s[..k] + s[k + 1..]
  {
    if k == 0 {
      assert s[..0] + s[1..] == s[1..];
    } else {
      assert s[0] == s[..k][0];
      assert s[1..][..k - 1] == s[1..k];
      RemoveFirstDropsFirst(s[1..], c, k - 1);
      assert [s[0]] + s[1..k] == s[..k];
    }
  }

  /** Length of the longest prefix of `s` made of hex digits. */
  function HexRun(s: string): (n: nat)
    ensures n <= |s| && IsHexString(s[..n])
    ensures n < |s| ==> !IsHexDigit(s[n])
  {
    if s == [] || !IsHexDigit(s[0]) then 0
    else
      var m := HexRun(s[1..]);
      assert s[..1 + m] == [s[0]] + s[1..][..m];
      1 + m
  }

  /**
   * `parseInt(s, 16)`: an optional sign, an optional "0x"/"0X" prefix, then the
   * longest run of hex digits; `None` stands for NaN (no digit at all).
   */
  function ParseIntRadix16(s: string): (r: Option<int>)
    ensures r.None? <==> HexRun(UnsignedPart(s)) == 0
  {
    var body := UnsignedPart(s);
    var n := HexRun(body);
    var magnitude: int := if n == 0 then 0 else HexValue(body[..n]);
    if n == 0 then None
    else if |s| > 0 && s[0] == '-' then Some(-magnitude)
    else Some(magnitude)
  }

  predicate IsSign(c: char) {
    c == '-' || c == '+'
  }

  /** `s` starts with "0x" or "0X". */
  predicate HasHexPrefix(s: string) {
    |s| >= 2 && s[0] == '0' && (s[1] == 'x' || s[1] == 'X')
  }

  /** What `parseInt` reads digits from: `s` without its sign and its "0x" prefix. */
  function UnsignedPart(s: string): (r: string)
    ensures |s| - 3 <= |r| <= |s| && r == s[|s| - |r|..]
    ensures (|s| == 0 || !IsSign(s[0])) && !HasHexPrefix(s) ==> r == s
    ensures (|s| == 0 || !IsSign(s[0])) && HasHexPrefix(s) ==> r == s[2..]
    ensures |s| > 0 && IsSign(s[0]) && !HasHexPrefix(s[1..]) ==> r == s[1..]
    ensures |s| > 0 && IsSign(s[0]) && HasHexPrefix(s[1..]) ==> r == s[3..]
  {
    var rest := if |s| > 0 && IsSign(s[0]) then s[1..] else s;
    if HasHexPrefix(rest) then rest[2..] else rest
  }

  /** ECMAScript ToInt32: the operand conversion of `>>` and `&`. */
  function ToInt32(n: int): (i: int)
    ensures -0x8000_0000 <= i < 0x8000_0000
    ensures (i - n) % 0x1_0000_0000 == 0
  {
    var m := n % 0x1_0000_0000;
    if m >= 0x8000_0000 then m - 0x1_0000_0000 else m
  }

  /** The 32-bit operand `num` denotes; NaN converts to 0. */
  function Int32Of(num: Option<int>): (i: int)
    ensures -0x8000_0000 <= i < 0x8000_0000
    ensures num.None? ==> i == 0
    ensures num.Some? ==> (i - num.value) % 0x1_0000_0000 == 0
  {
    match num
    case None => 0
    case Some(n) => ToInt32(n)
  }

  function ClampAtZero(c: int): nat {
    if c < 0 then 0 else c
  }

  /**
   * `darkenColor(color, percent)` with `amt` (the source's
   * `Math.round(2.55 * percent)`) passed in. `>>` on a 32-bit value is floor
   * division by a power of two, `& 0xFF` is the non-negative remainder mod 256;
   * Dafny's `/` and `%` with a positive divisor are exactly those.
   */
  function DarkenColor(color: string, amt: int): (r: string)
    ensures |r| >= 1 && r[0] == '#' && IsLowerHexString(r[1..])
  {
    "#" + SliceOne(0x1000000 + Darkened(ColorNumber(color), amt))
  }

  /** `n.toString(16).slice(1)`: the hex digits of `n` after the first. */
  function SliceOne(n: nat): (s: string)
    ensures IsLowerHexString(s) && |s| == |ToRadix16(n)| - 1
  {
    ToRadix16(n)[1..]
  }

  /** `parseInt(color.replace("#", ""), 16)` as the 32-bit operand the shifts and masks see. */
  function ColorNumber(color: string): (num: int)
    ensures -0x8000_0000 <= num < 0x8000_0000
  {
    Int32Of(ParseIntRadix16(RemoveFirst(color, '#')))
  }

  /** The channels `num >> 16`, `num >> 8 & 0xFF`, `num & 0xFF`, each less `amt` and clamped, packed again. */
  function Darkened(num: int, amt: int): (v: nat)
    ensures 0 <= num < 0x1000000 && amt >= 0 ==>
      && v < 0x1000000
      && v / 0x10000 == ClampAtZero(num / 0x10000 - amt)
      && (v / 0x100) % 0x100 == ClampAtZero((num / 0x100) % 0x100 - amt)
      && v % 0x100 == ClampAtZero(num % 0x100 - amt)
  {
    var red := num / 0x10000 - amt;
    var green := (num / 0x100) % 0x100 - amt;
    var blue := num % 0x100 - amt;
    var v := ClampAtZero(red) * 0x10000 + ClampAtZero(green) * 0x100 + ClampAtZero(blue);
    if 0 <= num < 0x1000000 && amt >= 0 then
      Unpack(ClampAtZero(red), ClampAtZero(green), ClampAtZero(blue));
      v
    else v
  }

  // ---------------------------------------------------------------------------
  // Channels, read independently of the arithmetic above: two digits each.

  function Red(c: string): nat
    requires IsHexColor(c)
  {
    HexValue(c[1..3])
  }

  function Green(c: string): nat
    requires IsHexColor(c)
  {
    HexValue(c[3..5])
  }

  function Blue(c: string): nat
    requires IsHexColor(c)
  {
    HexValue(c[5..7])
  }

  // ---------------------------------------------------------------------------
  // Lemmas about the encoder and the decoder.

  lemma {:induction false} HexValueBound(s: string)
    requires IsHexString(s)
    ensures HexValue(s) < Pow16(|s|)
  {
    if s != [] {
      HexValueBound(s[..|s| - 1]);
    }
  }

  lemma HexValueOfTwo(a: char, b: char)
    requires IsHexDigit(a) && IsHexDigit(b)
    ensures IsHexString([a, b]) && HexValue([a, b]) == 16 * DigitValue(a) + DigitValue(b)
  {
    assert [a, b][..1] == [a];
    assert [a][..0] == [];
    assert HexValue([a]) == DigitValue(a);
  }

  /** Reading a concatenation: the left part is shifted by the digits of the right part. */
  lemma {:induction false} HexValueAppend(a: string, b: string)
    requires IsHexString(a) && IsHexString(b)
    ensures IsHexString(a + b)
    ensures HexValue(a + b) == HexValue(a) * Pow16(|b|) + HexValue(b)
  {
    if b == [] {
      assert a + b == a;
    } else {
      var b' := b[..|b| - 1];
      var d := DigitValue(b[|b| - 1]);
      assert (a + b)[..|a + b| - 1] == a + b';
      assert (a + b)[|a + b| - 1] == b[|b| - 1];
      HexValueAppend(a, b');
      assert HexValue(a + b) == 16 * HexValue(a + b') + d;
      assert HexValue(b) == 16 * HexValue(b') + d;
      assert Pow16(|b|) == 16 * Pow16(|b'|);
      ShiftDigit(HexValue(a), Pow16(|b'|), HexValue(b'));
    }
  }

  /** One more digit on the right multiplies the shifted left part by 16 as well. */
  lemma ShiftDigit(x: nat, p: nat, y: nat)
    ensures 16 * (x * p + y) == x * (16 * p) + 16 * y
  {
  }

  /** Decoding the fixed-width encoding gives the number back. */
  lemma {:induction false} FixedHexRoundTrip(v: nat, width: nat)
    requires v < Pow16(width)
    ensures HexValue(FixedHex(v, width)) == v
  {
    if width > 0 {
      var s := FixedHex(v, width);
      assert s[..|s| - 1] == FixedHex(v / 16, width - 1);
      FixedHexRoundTrip(v / 16, width - 1);
    }
  }

  /** Encoding a decoded string gives the string back, folded to lower case. */
  lemma {:induction false} HexValueRoundTrip(s: string)
    requires IsHexString(s)
    ensures FixedHex(HexValue(s), |s|) == LowerString(s)
  {
    if s != [] {
      var init := s[..|s| - 1];
      var d := DigitValue(s[|s| - 1]);
      HexValueRoundTrip(init);
      assert (16 * HexValue(init) + d) / 16 == HexValue(init);
      assert (16 * HexValue(init) + d) % 16 == d;
    }
  }

  /** `(16^w + v).toString(16)` is a '1' followed by the w-digit encoding of v. */
  lemma {:induction false} LeadingOne(v: nat, width: nat)
    requires v < Pow16(width)
    ensures ToRadix16(Pow16(width) + v) == "1" + FixedHex(v, width)
  {
    if width > 0 {
      var p := Pow16(width - 1);
      assert (Pow16(width) + v) / 16 == p + v / 16;
      assert (Pow16(width) + v) % 16 == v % 16;
      LeadingOne(v / 16, width - 1);
    }
  }

  lemma {:induction false} HexRunOfHexString(s: string)
    requires IsHexString(s)
    ensures HexRun(s) == |s|
  {
    if s != [] {
      HexRunOfHexString(s[1..]);
    }
  }

  /** Packing three bytes and taking them apart again with `>> 16`, `>> 8 & 0xFF` and `& 0xFF`. */
  lemma Unpack(r: nat, g: nat, b: nat)
    requires r < 256 && g < 256 && b < 256
    ensures r * 0x10000 + g * 0x100 + b < 0x1000000
    ensures (r * 0x10000 + g * 0x100 + b) / 0x10000 == r
    ensures ((r * 0x10000 + g * 0x100 + b) / 0x100) % 0x100 == g
    ensures (r * 0x10000 + g * 0x100 + b) % 0x100 == b
  {
    var n := r * 0x10000 + g * 0x100 + b;
    assert n == 0x100 * (r * 0x100 + g) + b;
    assert n / 0x100 == r * 0x100 + g;
  }

  /** The six digits of a colour are its three two-digit channels side by side. */
  lemma ChannelsOfHexColor(c: string)
    requires IsHexColor(c)
    ensures HexValue(c[1..]) == Red(c) * 0x10000 + Green(c) * 0x100 + Blue(c)
    ensures Red(c) < 256 && Green(c) < 256 && Blue(c) < 256
  {
    var s := c[1..];
    assert s == c[1..3] + (c[3..5] + c[5..7]);
    HexValueAppend(c[3..5], c[5..7]);
    HexValueAppend(c[1..3], c[3..5] + c[5..7]);
    HexValueBound(c[1..3]);
    HexValueBound(c[3..5]);
    HexValueBound(c[5..7]);
  }

  /** A well-formed colour parses to its six-digit value. */
  lemma ParseHexColor(c: string)
    requires IsHexColor(c)
    ensures ParseIntRadix16(RemoveFirst(c, '#')) == Some(HexValue(c[1..]))
    ensures HexValue(c[1..]) < 0x1000000
  {
    var s := c[1..];
    assert RemoveFirst(c, '#') == s;
    assert IsHexDigit(s[0]) && IsHexDigit(s[1]);
    assert UnsignedPart(s) == s;
    HexRunOfHexString(s);
    assert s[..6] == s;
    HexValueBound(s);
  }

  /** The packed channels darkenColor writes, each clamped at 0. */
  function DarkenedPacked(c: string, amt: int): nat
    requires IsHexColor(c)
  {
    ClampAtZero(Red(c) - amt) * 0x10000 + ClampAtZero(Green(c) - amt) * 0x100 + ClampAtZero(Blue(c) - amt)
  }

  /** On a colour's own value, the arithmetic of darkenColor packs the clamped channels read from the digits. */
  lemma DarkenedOfColor(c: string, amt: int)
    requires IsHexColor(c)
    ensures Darkened(HexValue(c[1..]), amt) == DarkenedPacked(c, amt)
  {
    ChannelsOfHexColor(c);
    Unpack(Red(c), Green(c), Blue(c));
  }

  /** A well-formed colour's number reaches the shifts unchanged: it is below 2^24. */
  lemma ColorNumberOfHexColor(c: string)
    requires IsHexColor(c)
    ensures ColorNumber(c) == HexValue(c[1..]) < 0x1000000
  {
    ParseHexColor(c);
    ToInt32OfNonNegative(HexValue(c[1..]));
  }

  /** ToInt32 leaves a number in [0, 2^31) as it is. */
  lemma ToInt32OfNonNegative(n: int)
    requires 0 <= n < 0x8000_0000
    ensures ToInt32(n) == n
  {
    assert n % 0x1_0000_0000 == n;
  }

  /** Below 2^24, `(0x1000000 + v).toString(16).slice(1)` is the six-digit encoding of `v`. */
  lemma SixDigitTail(v: nat)
    requires v < 0x1000000
    ensures SliceOne(0x1000000 + v) == FixedHex(v, 6)
  {
    assert Pow16(6) == 0x1000000;
    LeadingOne(v, 6);
  }

  /** On a well-formed colour, darkenColor writes '#' and the six-digit encoding of the darkened channels. */
  lemma DarkenAsFixedHex(c: string, amt: int)
    requires IsHexColor(c) && amt >= 0
    ensures DarkenedPacked(c, amt) < 0x1000000
    ensures DarkenColor(c, amt) == "#" + FixedHex(DarkenedPacked(c, amt), 6)
  {
    ColorNumberOfHexColor(c);
    DarkenedOfColor(c, amt);
    SixDigitTail(DarkenedPacked(c, amt));
    assert DarkenColor(c, amt) == "#" + SliceOne(0x1000000 + Darkened(ColorNumber(c), amt));
  }

  /**
   * darkenColor on a well-formed colour with a non-negative amount: the result is
   * '#' and exactly six lower-case hex digits, and each channel is the input
   * channel less `amt`, clamped at 0.
   */
  lemma DarkenHexColor(c: string, amt: int)
    requires IsHexColor(c) && amt >= 0
    ensures IsHexColor(DarkenColor(c, amt))
    ensures IsLowerHexString(DarkenColor(c, amt)[1..])
    ensures Red(DarkenColor(c, amt)) == ClampAtZero(Red(c) - amt)
    ensures Green(DarkenColor(c, amt)) == ClampAtZero(Green(c) - amt)
    ensures Blue(DarkenColor(c, amt)) == ClampAtZero(Blue(c) - amt)
  {
    DarkenAsFixedHex(c, amt);
    ChannelsOfHexColor(c);
    var v := DarkenedPacked(c, amt);
    var out := DarkenColor(c, amt);
    assert out[1..] == FixedHex(v, 6);
    assert Pow16(6) == 0x1000000;
    FixedHexRoundTrip(v, 6);
    ChannelsOfHexColor(out);
    Unpack(Red(out), Green(out), Blue(out));
    Unpack(ClampAtZero(Red(c) - amt), ClampAtZero(Green(c) - amt), ClampAtZero(Blue(c) - amt));
  }

  /** Darkening never brightens a channel and never wraps below zero. */
  lemma DarkenNeverBrightens(c: string, amt: int)
    requires IsHexColor(c) && amt >= 0
    ensures IsHexColor(DarkenColor(c, amt))
    ensures Red(DarkenColor(c, amt)) <= Red(c)
    ensures Green(DarkenColor(c, amt)) <= Green(c)
    ensures Blue(DarkenColor(c, amt)) <= Blue(c)
  {
    DarkenHexColor(c, amt);
  }

  /** With `amt == 0` darkening only folds the digits to lower case. */
  lemma DarkenByZero(c: string)
    requires IsHexColor(c)
    ensures DarkenColor(c, 0) == "#" + LowerString(c[1..])
  {
    DarkenAsFixedHex(c, 0);
    ChannelsOfHexColor(c);
    assert DarkenedPacked(c, 0) == HexValue(c[1..]);
    HexValueRoundTrip(c[1..]);
  }
}
