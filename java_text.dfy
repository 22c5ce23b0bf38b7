/** The few Java library conversions that the environment applies to the string-valued
    custom properties of map objects: `Integer.parseInt`, `Integer.decode` with
    `Color.decode`, `Boolean.valueOf` and `String.equalsIgnoreCase`.  Digits and case
    folding are the ASCII ones. */
module JavaText {
  import opened Common

  const Int32Min: int := -0x8000_0000
  const Int32Max: int := 0x7fff_ffff

  /** Radixes that `Integer.decode` selects. */
  predicate IsRadix(radix: int)
  {
    radix == 8 || radix == 10 || radix == 16
  }

  /** The value of digit `c` in any radix up to 36, or -1 when `c` is no ASCII digit or letter. */
  function DigitValue(c: char): int
  {
    if '0' <= c <= '9' then c as int - '0' as int
    else if 'a' <= c <= 'z' then c as int - 'a' as int + 10
    else if 'A' <= c <= 'Z' then c as int - 'A' as int + 10
    else -1
  }

  predicate IsDigit(c: char, radix: int)
  {
    0 <= DigitValue(c) < radix
  }

  predicate AllDigits(s: string, radix: int)
  {
    forall i :: 0 <= i < |s| ==> IsDigit(s[i], radix)
  }

  /** The number that the digit string `s` denotes in `radix`. */
  function ValueOf(s: string, radix: int): (v: nat)
    requires IsRadix(radix) && AllDigits(s, radix)
  {
    if |s| == 0 then 0
    else ValueOf(s[..|s| - 1], radix) * radix + DigitValue(s[|s| - 1])
  }

  /** The digit for a value below 36: `0`-`9`, then lower-case letters. */
  function DigitChar(d: nat): (c: char)
    requires d < 36
    ensures DigitValue(c) == d
  {
    if d < 10 then ('0' as int + d) as char else ('a' as int + d - 10) as char
  }

  /** `n` written in `radix` without leading zeros, as `Integer.toString(n, radix)` writes it. */
  function ShowNat(n: nat, radix: int): (s: string)
    requires IsRadix(radix)
  {
    if n < radix then [DigitChar(n)] else ShowNat(n / radix, radix) + [DigitChar(n % radix)]
  }

  /** Reading back what `ShowNat` wrote gives the number again. */
  lemma {:induction false} ShowNatRoundTrip(n: nat, radix: int)
    requires IsRadix(radix)
    ensures |ShowNat(n, radix)| > 0
    ensures AllDigits(ShowNat(n, radix), radix)
    ensures ValueOf(ShowNat(n, radix), radix) == n
  {
    var s := ShowNat(n, radix);
    if n >= radix {
      ShowNatRoundTrip(n / radix, radix);
      assert s[..|s| - 1] == ShowNat(n / radix, radix);
      assert AllDigits(s, radix) by {
        forall i | 0 <= i < |s| ensures IsDigit(s[i], radix) {
          if i < |s| - 1 {
            assert s[i] == ShowNat(n / radix, radix)[i];
          }
        }
      }
    }
  }

  /** `Integer.parseInt(s)`: an optional sign and at least one decimal digit, within the
      32-bit range; `None` where Java throws `NumberFormatException`. */
  function ParseInt(s: string): (r: Option<int>)
    ensures r.Some? ==> Int32Min <= r.value <= Int32Max
    ensures |s| == 0 ==> r.None?
  {
    if |s| == 0 then None
    else
      var start := if s[0] == '-' || s[0] == '+' then 1 else 0;
      var digits := s[start..];
      if |digits| == 0 || !AllDigits(digits, 10) then None
      else
        var v: int := if s[0] == '-' then -(ValueOf(digits, 10) as int) else ValueOf(digits, 10);
        if Int32Min <= v <= Int32Max then Some(v) else None
  }

  /** `Integer.toString(n)`. */
  function ShowInt(n: int): string
  {
    if n < 0 then "-" + ShowNat(-n, 10) else ShowNat(n, 10)
  }

  /** Every 32-bit integer survives printing and parsing. */
  lemma ParseIntRoundTrip(n: int)
    requires Int32Min <= n <= Int32Max
    ensures ParseInt(ShowInt(n)) == Some(n)
  {
    var s := ShowInt(n);
    if n < 0 {
      ShowNatRoundTrip(-n, 10);
      assert s[1..] == ShowNat(-n, 10);
    } else {
      ShowNatRoundTrip(n, 10);
      var d := ShowNat(n, 10);
      assert IsDigit(d[0], 10);
    }
  }

  predicate HasPrefix(s: string, prefix: string)
  {
    |prefix| <= |s| && s[..|prefix|] == prefix
  }

  /** The radix `Integer.decode` reads from the text after the sign, and where the digits start. */
  function RadixPrefix(rest: string): (r: (int, nat))
    ensures IsRadix(r.0) && r.1 <= |rest|
  {
    if HasPrefix(rest, "0x") || HasPrefix(rest, "0X") then (16, 2)
    else if HasPrefix(rest, "#") then (16, 1)
    else if HasPrefix(rest, "0") && |rest| > 1 then (8, 1)
    else (10, 0)
  }

  /** `Integer.decode(s)`: an optional sign, then `0x`, `0X` or `#` for hexadecimal, a
      leading `0` for octal, and otherwise decimal; at least one digit; a sign after the
      prefix is refused; the value must fit 32 bits. */
  function Decode(s: string): (r: Option<int>)
    ensures r.Some? ==> Int32Min <= r.value <= Int32Max
  {
    if |s| == 0 then None
    else
      var index := if s[0] == '-' || s[0] == '+' then 1 else 0;
      var rest := s[index..];
      var (radix, skip) := RadixPrefix(rest);
      var digits := rest[skip..];
      if |digits| == 0 || !AllDigits(digits, radix) then None
      else
        var v: int := if s[0] == '-' then -(ValueOf(digits, radix) as int) else ValueOf(digits, radix);
        if Int32Min <= v <= Int32Max then Some(v) else None
  }

  /** The red, green and blue components of a `java.awt.Color`. */
  datatype Rgb = Rgb(red: int, green: int, blue: int)

  predicate IsChannel(v: int)
  {
    0 <= v < 256
  }

  /** `Color.decode(s)`: the low 24 bits of `Integer.decode(s)`, split into channels. */
  function DecodeColor(s: string): (r: Option<Rgb>)
    ensures r.Some? ==> IsChannel(r.value.red) && IsChannel(r.value.green) && IsChannel(r.value.blue)
    ensures r.None? <==> Decode(s).None?
  {
    match Decode(s)
    case None => None
    case Some(v) =>
      var low := v % 0x100_0000;
      Some(Rgb(low / 0x1_0000, (low / 0x100) % 0x100, low % 0x100))
  }

  /** `#` followed by hexadecimal digits decodes to their value. */
  lemma DecodeHashHex(d: string)
    requires |d| > 0 && AllDigits(d, 16) && ValueOf(d, 16) <= Int32Max
    ensures Decode("#" + d) == Some(ValueOf(d, 16))
  {
    var s := "#" + d;
    assert s[0..] == s;
    assert s[..1] == "#";
    assert s[1..] == d;
  }

  /** The 24 bits of a colour, red highest. */
  function Pack(c: Rgb): int
  {
    c.red * 0x1_0000 + c.green * 0x100 + c.blue
  }

  /** The 24 bits of a colour split back into its channels. */
  lemma ChannelsRoundTrip(c: Rgb)
    requires IsChannel(c.red) && IsChannel(c.green) && IsChannel(c.blue)
    ensures 0 <= Pack(c) < 0x100_0000
    ensures Pack(c) / 0x1_0000 == c.red && (Pack(c) / 0x100) % 0x100 == c.green && Pack(c) % 0x100 == c.blue
  {
    var v := Pack(c);
    assert v / 0x100 == c.red * 0x100 + c.green;
  }

  /** A decoded value below 2^24 splits into its three bytes. */
  lemma DecodeColorOf(s: string, v: int)
    requires Decode(s) == Some(v) && 0 <= v < 0x100_0000
    ensures DecodeColor(s) == Some(Rgb(v / 0x1_0000, (v / 0x100) % 0x100, v % 0x100))
  {
  }

  /** A colour written as `#` followed by the hexadecimal value of its 24 bits decodes to
      the channels it was made from. */
  lemma DecodeColorRoundTrip(c: Rgb)
    requires IsChannel(c.red) && IsChannel(c.green) && IsChannel(c.blue)
    ensures DecodeColor("#" + ShowNat(Pack(c), 16)) == Some(c)
  {
    ChannelsRoundTrip(c);
    var v := Pack(c);
    ShowNatRoundTrip(v, 16);
    DecodeHashHex(ShowNat(v, 16));
    DecodeColorOf("#" + ShowNat(v, 16), v);
  }

  /** `a.equalsIgnoreCase(b)` with ASCII case folding. */
  function ToUpper(c: char): char
  {
    if 'a' <= c <= 'z' then (c as int - 32) as char else c
  }

  predicate EqualsIgnoreCase(a: string, b: string)
  {
    |a| == |b| && forall i :: 0 <= i < |a| ==> ToUpper(a[i]) == ToUpper(b[i])
  }

  /** `Boolean.valueOf(s)`: true exactly for a non-null `"true"` in any case. */
  predicate BooleanValueOf(s: Option<string>)
  {
    s.Some? && EqualsIgnoreCase(s.value, "true")
  }
}
