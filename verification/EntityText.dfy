/**
 What the decoder makes of an ampersand, stated on the characters behind it: where an entity ends,
 which entities mean a character, and what becomes of the others.
*/
module EntityText {
  import opened Entities
  import opened Numbers
  import opened Option
  import opened Text

  // ---------------------------------------------------------------- where an entity ends

  /** The length of the text in UTF-8 (section 3 of RFC 3629). */
  function Bytes(s: string): nat {
    if s == "" then 0
    else
      var last := s[|s| - 1] as int;
      Bytes(s[..|s| - 1]) + (if last <= 0x7F then 1 else if last <= 0x7FF then 2 else if last <= 0xFFFF then 3 else 4)
  }

  /** The entity cannot go on at position i: a semicolon, white space, another ampersand, sixteen
      bytes, or the end of the text. */
  predicate MustEnd(after: string, i: nat)
    requires i <= |after|
  {
    i == |after| || after[i] == ';' || after[i] == '&' || IsWhitespace(after[i]) || Bytes(after[..i]) >= 16
  }

  /** It ends where it must, and nowhere before. */
  ghost predicate EndsAt(after: string, n: nat) {
    n <= |after| && MustEnd(after, n) && forall i: nat | i < n :: !MustEnd(after, i)
  }

  lemma {:induction false} LengthFrom(after: string, i: nat)
    requires i <= |after| && forall j: nat | j < i :: !MustEnd(after, j)
    ensures EndsAt(after, i + EntityLength(after[i..], Bytes(after[..i])))
    decreases |after| - i
  {
    if !MustEnd(after, i) {
      assert after[..i + 1][..i] == after[..i] && after[i..][1..] == after[i + 1..];
      LengthFrom(after, i + 1);
    }
  }

  lemma {:induction false} LengthIs(after: string, n: nat)
    ensures n == EntityLength(after, 0) <==> EndsAt(after, n)
  {
    LengthFrom(after, 0);
    assert after[0..] == after && after[..0] == "";
    var m := EntityLength(after, 0);
    if EndsAt(after, n) {
      assert !(n < m) && !(m < n);
    }
  }

  // ---------------------------------------------------------------- what it means

  /** The same digits, letters in either case. */
  predicate SameDigits(s: string, t: string) {
    |s| == |t| && forall i | 0 <= i < |s| :: LowerChar(s[i]) == t[i]
  }

  predicate Zeros(s: string) {
    forall c <- s :: c == '0'
  }

  /** The text writes n: leading zeros, and the digits of n. */
  ghost predicate Writes(t: string, n: nat, radix: nat)
    requires IsRadix(radix)
  {
    exists zeros, digits :: t == zeros + digits && Zeros(zeros) && SameDigits(digits, Render(n, radix))
  }

  predicate AreDigits(s: string) {
    forall c <- s :: DigitValue(c) < 16 && c == DigitChar(DigitValue(c))
  }

  lemma {:induction false} RenderIsDigits(n: nat, radix: nat)
    requires IsRadix(radix)
    ensures AreDigits(Render(n, radix))
  {
    if n >= radix {
      if radix == 10 {
        RenderIsDigits(n / 10, 10);
      } else {
        RenderIsDigits(n / 16, 16);
      }
    }
  }

  lemma {:induction false} ValueOfSame(s: string, t: string, radix: nat)
    requires IsRadix(radix) && SameDigits(s, t) && AreDigits(t)
    ensures Value(s, radix) == Value(t, radix)
  {
    if s != "" {
      ValueOfSame(s[..|s| - 1], t[..|t| - 1], radix);
    }
  }

  lemma {:induction false} ValueOfZeros(zeros: string, digits: string, radix: nat)
    requires IsRadix(radix) && Zeros(zeros)
    ensures Value(zeros + digits, radix) == Value(digits, radix)
    decreases |zeros| + |digits|
  {
    var s := zeros + digits;
    if digits != "" {
      var n := |digits| - 1;
      assert s[..|s| - 1] == zeros + digits[..n];
      ValueOfZeros(zeros, digits[..n], radix);
    } else if zeros != "" {
      var n := |zeros| - 1;
      assert s == zeros && zeros[n] in zeros && forall c <- zeros[..n] :: c in zeros;
      assert zeros[..n] + "" == zeros[..n];
      ValueOfZeros(zeros[..n], "", radix);
    } else {
      assert s == "";
    }
  }

  lemma {:induction false} WrittenHasValue(t: string, n: nat, radix: nat)
    requires IsRadix(radix) && Writes(t, n, radix)
    ensures t != "" && Value(t, radix) == Some(n)
  {
    var zeros, digits :| t == zeros + digits && Zeros(zeros) && SameDigits(digits, Render(n, radix));
    ValueOfZeros(zeros, digits, radix);
    RenderIsDigits(n, radix);
    ValueOfSame(digits, Render(n, radix), radix);
    ValueOfRender(n, radix);
  }

  lemma {:induction false} RenderSnoc(v: nat, d: nat, radix: nat)
    requires IsRadix(radix) && v > 0 && d < radix
    ensures Render(Scaled(v, radix) + d, radix) == Render(v, radix) + [DigitChar(d)]
  {
    var n := Scaled(v, radix) + d;
    if radix == 10 {
      assert n / 10 == v && n % 10 == d;
    } else {
      assert n / 16 == v && n % 16 == d;
    }
  }

  lemma {:induction false} ZeroIsZeros(zeros: string, digits: string, radix: nat)
    requires IsRadix(radix) && Zeros(zeros) && SameDigits(digits, Render(0, radix))
    ensures Zeros(zeros + digits)
  {
    assert Render(0, radix) == ['0'];
    assert |digits| == 1 && DigitValue(digits[0]) == 0;
  }

  lemma {:induction false} ValueStep(init: string, last: char, n: nat, radix: nat) returns (v: nat)
    requires IsRadix(radix) && Value(init + [last], radix) == Some(n)
    ensures Value(init, radix) == Some(v) && DigitValue(last) < radix && n == Scaled(v, radix) + DigitValue(last)
  {
    assert (init + [last])[..|init|] == init;
    v := Value(init, radix).value;
  }

  lemma {:induction false} OneDigit(last: char, radix: nat)
    requires IsRadix(radix) && DigitValue(last) < radix
    ensures SameDigits([last], Render(DigitValue(last), radix))
  {
    assert Render(DigitValue(last), radix) == [DigitChar(DigitValue(last))];
  }

  lemma {:induction false} OneMoreDigit(digits: string, v: nat, last: char, radix: nat)
    requires IsRadix(radix) && v > 0 && SameDigits(digits, Render(v, radix)) && DigitValue(last) < radix
    ensures SameDigits(digits + [last], Render(Scaled(v, radix) + DigitValue(last), radix))
  {
    RenderSnoc(v, DigitValue(last), radix);
  }

  lemma {:induction false} ValueIsWritten(t: string, n: nat, radix: nat) returns (zeros: string, digits: string)
    requires IsRadix(radix) && t != "" && Value(t, radix) == Some(n)
    ensures t == zeros + digits && Zeros(zeros) && SameDigits(digits, Render(n, radix))
  {
    var init, last := t[..|t| - 1], t[|t| - 1];
    assert t == init + [last];
    var v := ValueStep(init, last, n, radix);
    if init == "" {
      OneDigit(last, radix);
      zeros, digits := "", [last];
    } else {
      zeros, digits := ValueIsWritten(init, v, radix);
      if v == 0 {
        ZeroIsZeros(zeros, digits, radix);
        OneDigit(last, radix);
        zeros, digits := init, [last];
      } else {
        OneMoreDigit(digits, v, last, radix);
        Regroup(zeros, digits, [last]);
        digits := digits + [last];
      }
    }
  }

  predicate MaySign(s: string, t: string) {
    s == t || s == "+" + t
  }

  /** A numeric reference: an optional plus sign, zeros, and the digits of the character's number. */
  ghost predicate IsNumber(s: string, radix: nat, c: char)
    requires IsRadix(radix)
  {
    exists t :: MaySign(s, t) && Writes(t, c as int, radix)
  }

  lemma {:induction false} WritesNoSign(t: string, n: nat, radix: nat)
    requires IsRadix(radix) && Writes(t, n, radix)
    ensures t != "" && t[0] != '+'
  {
    var zeros, digits :| t == zeros + digits && Zeros(zeros) && SameDigits(digits, Render(n, radix));
    assert Render(n, radix)[0] in Render(n, radix);
    assert zeros != "" ==> zeros[0] in zeros;
  }

  lemma {:induction false} ScalarIff(n: nat, c: char)
    ensures n < 0x1_0000_0000 && FromU32(n) == Some(c) <==> n == c as int
  {
  }

  lemma {:induction false} NumberIff(s: string, radix: nat, c: char)
    requires IsRadix(radix)
    ensures NumericEntity(s, radix) == Some(c) <==> IsNumber(s, radix, c)
  {
    forall t | MaySign(s, t) && Writes(t, c as int, radix) ensures NumericEntity(s, radix) == Some(c) {
      WritesNoSign(t, c as int, radix);
      WrittenHasValue(t, c as int, radix);
      ScalarIff(c as int, c);
      assert s == "+" + t ==> s[1..] == t;
    }
    if NumericEntity(s, radix) == Some(c) {
      var t := if s != "" && s[0] == '+' then s[1..] else s;
      var n := ParseU32(s, radix).value;
      ScalarIff(n, c);
      var zeros, digits := ValueIsWritten(t, n, radix);
      assert Writes(t, c as int, radix);
      assert MaySign(s, t);
    }
  }

  /** The entity means this character: by its name, or by its number. */
  ghost predicate Means(entity: string, c: char) {
    || (entity == "amp" && c == '&') || (entity == "lt" && c == '<') || (entity == "gt" && c == '>')
    || (entity == "quot" && c == '"') || (entity == "apos" && c == '\'') || (entity == "nbsp" && c == ' ')
    || (exists t :: entity == "#" + t && IsNumber(t, 10, c))
    || (exists t :: (entity == "#x" + t || entity == "#X" + t) && IsNumber(t, 16, c))
  }

  lemma {:induction false} DecimalIsNoHex(t: string, c: char)
    requires IsNumber(t, 10, c)
    ensures t != "" && t[0] != 'x' && t[0] != 'X'
  {
    var u :| MaySign(t, u) && Writes(u, c as int, 10);
    WritesNoSign(u, c as int, 10);
    WrittenHasValue(u, c as int, 10);
    var zeros, digits :| u == zeros + digits && Zeros(zeros) && SameDigits(digits, Render(c as int, 10));
    assert Render(c as int, 10)[0] in Render(c as int, 10);
    assert zeros != "" ==> zeros[0] in zeros;
  }

  /** Exactly the entities with a meaning are decoded. */
  lemma {:induction false} EntityIff(entity: string, c: char)
    ensures DecodeEntity(entity) == Some(c) <==> Means(entity, c)
  {
    forall t | entity == "#" + t && IsNumber(t, 10, c) ensures DecodeEntity(entity) == Some(c) {
      DecimalIsNoHex(t, c);
      DecimalForm(t);
      NumberIff(t, 10, c);
    }
    forall t | (entity == "#x" + t || entity == "#X" + t) && IsNumber(t, 16, c)
      ensures DecodeEntity(entity) == Some(c)
    {
      HexForm(entity[1], t);
      assert entity == ['#', entity[1]] + t;
      NumberIff(t, 16, c);
    }
    if DecodeEntity(entity) == Some(c) && NamedEntity(entity).None? {
      DecodedIsNumber(entity, c);
    }
  }

  lemma {:induction false} DecodedIsNumber(entity: string, c: char)
    requires DecodeEntity(entity) == Some(c) && NamedEntity(entity).None?
    ensures Means(entity, c)
  {
    if "#x" <= entity || "#X" <= entity {
      NumberIff(entity[2..], 16, c);
      assert entity == "#x" + entity[2..] || entity == "#X" + entity[2..];
    } else {
      NumberIff(entity[1..], 10, c);
      assert entity == "#" + entity[1..];
    }
  }

  // ---------------------------------------------------------------- the text

  /** Text without ampersands is left as it is. */
  lemma {:induction false} PlainStays(plain: string, rest: string)
    requires '&' !in plain
    ensures Decode(plain + rest) == plain + Decode(rest)
  {
    if plain == "" {
      assert plain + rest == rest;
    } else {
      var s := plain + rest;
      assert s[0] == plain[0] && plain[0] in plain && s[1..] == plain[1..] + rest;
      PlainStays(plain[1..], rest);
      DecodePlain(DecodeEntity, s);
    }
  }

  lemma {:induction false} MeaningOf(entity: string)
    ensures forall c :: Means(entity, c) <==> Replacement(DecodeEntity, entity) == [c] && DecodeEntity(entity).Some?
    ensures (forall c :: !Means(entity, c)) ==> Replacement(DecodeEntity, entity) == "&" + entity
  {
    forall c ensures Means(entity, c) <==> DecodeEntity(entity) == Some(c) {
      EntityIff(entity, c);
    }
  }

  function Behind(rest: string): string {
    if rest != "" && rest[0] == ';' then rest[1..] else rest
  }

  lemma {:induction false} AmpersandBecomes(lookup: Lookup, entity: string, rest: string)
    requires EndsAt(entity + rest, |entity|)
    ensures DecodeWith(lookup, "&" + entity + rest) == Replacement(lookup, entity) + DecodeWith(lookup, Behind(rest))
  {
    LengthIs(entity + rest, |entity|);
    DecodeAmpersand(lookup, entity + rest, entity, rest);
    assert "&" + entity + rest == ['&'] + (entity + rest);
  }

  /** An ampersand and the entity behind it become the character that the entity means; an entity
      without a meaning stays as it is. A semicolon behind either is dropped. */
  lemma {:induction false} AmpersandDecodes(entity: string, rest: string)
    requires EndsAt(entity + rest, |entity|)
    ensures forall c | Means(entity, c) :: Decode("&" + entity + rest) == [c] + Decode(Behind(rest))
    ensures (forall c :: !Means(entity, c)) ==> Decode("&" + entity + rest) == "&" + entity + Decode(Behind(rest))
  {
    AmpersandBecomes(DecodeEntity, entity, rest);
    MeaningOf(entity);
  }
}
