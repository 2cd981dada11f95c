/**
 Reading and writing numbers as text, as `u32::from_str_radix` and `format!` do.
*/
module Numbers {
  import opened Option

  function DigitValue(c: char): nat {
    if '0' <= c <= '9' then c as int - '0' as int
    else if 'a' <= c <= 'f' then c as int - 'a' as int + 10
    else if 'A' <= c <= 'F' then c as int - 'A' as int + 10
    else 16
  }

  function DigitChar(d: nat): (c: char)
    requires d < 16
    ensures DigitValue(c) == d
  {
    if d < 10 then ('0' as int + d) as char else ('a' as int + d - 10) as char
  }

  predicate IsRadix(radix: nat) {
    radix == 10 || radix == 16
  }

  /** v times the radix. */
  function Scaled(v: nat, radix: nat): nat
    requires IsRadix(radix)
  {
    if radix == 10 then v * 10 else v * 16
  }

  /** The value of a string of digits; None when some character is not a digit. */
  function Value(s: string, radix: nat): Option<nat>
    requires IsRadix(radix)
  {
    if s == "" then Some(0)
    else
      match Value(s[..|s| - 1], radix)
      case None => None
      case Some(v) =>
        var d := DigitValue(s[|s| - 1]);
        if d < radix then Some(Scaled(v, radix) + d) else None
  }

  /** `u32::from_str_radix`: an optional plus sign, at least one digit, at most u32::MAX. */
  function ParseU32(s: string, radix: nat): Option<nat>
    requires IsRadix(radix)
  {
    var t := if s != "" && s[0] == '+' then s[1..] else s;
    if t == "" then None
    else
      match Value(t, radix)
      case None => None
      case Some(v) => if v < 0x1_0000_0000 then Some(v) else None
  }

  /** Digits of n, most significant first, without leading zeros. */
  function Render(n: nat, radix: nat): (r: string)
    requires IsRadix(radix)
    ensures r != "" && forall c <- r :: DigitValue(c) < radix
  {
    if n < radix then [DigitChar(n)]
    else if radix == 10 then Render(n / 10, 10) + [DigitChar(n % 10)]
    else Render(n / 16, 16) + [DigitChar(n % 16)]
  }

  function Power(b: nat, k: nat): nat {
    if k == 0 then 1 else b * Power(b, k - 1)
  }

  /** A number below radix^k has at most k digits. */
  lemma {:induction false} RenderLength(n: nat, radix: nat, k: nat)
    requires IsRadix(radix) && k > 0 && n < Power(radix, k)
    ensures |Render(n, radix)| <= k
    decreases k
  {
    if n >= radix {
      assert Power(radix, 1) == radix * Power(radix, 0);
      if radix == 10 {
        RenderLength(n / 10, 10, k - 1);
      } else {
        RenderLength(n / 16, 16, k - 1);
      }
    }
  }

  lemma {:induction false} ValueOfRender(n: nat, radix: nat)
    requires IsRadix(radix)
    ensures Value(Render(n, radix), radix) == Some(n)
  {
    if n < radix {
      assert Render(n, radix)[..0] == "";
    } else if radix == 10 {
      ValueOfRender(n / 10, 10);
      ValueSnoc(Render(n / 10, 10), n / 10, n % 10, 10);
      assert n == (n / 10) * 10 + n % 10;
    } else {
      ValueOfRender(n / 16, 16);
      ValueSnoc(Render(n / 16, 16), n / 16, n % 16, 16);
      assert n == (n / 16) * 16 + n % 16;
    }
  }

  lemma {:induction false} ValueSnoc(q: string, v: nat, d: nat, radix: nat)
    requires IsRadix(radix) && d < radix && Value(q, radix) == Some(v)
    ensures Value(q + [DigitChar(d)], radix) == Some(Scaled(v, radix) + d)
  {
    var s := q + [DigitChar(d)];
    assert s[..|s| - 1] == q && s[|s| - 1] == DigitChar(d);
  }

  /** Parsing undoes rendering for every u32. */
  lemma {:induction false} ParseOfRender(n: nat, radix: nat)
    requires IsRadix(radix) && n < 0x1_0000_0000
    ensures ParseU32(Render(n, radix), radix) == Some(n)
  {
    ValueOfRender(n, radix);
    var r := Render(n, radix);
    assert r[0] in r;
  }

  /** Different numbers have different renderings. */
  lemma {:induction false} RenderInjective(m: nat, n: nat, radix: nat)
    requires IsRadix(radix) && Render(m, radix) == Render(n, radix)
    ensures m == n
  {
    ValueOfRender(m, radix);
    ValueOfRender(n, radix);
  }
}
