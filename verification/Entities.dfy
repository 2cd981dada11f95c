/**
 `decode_html_entities` of read.rs and its inverse: character references
 (section 13.1.4 of the HTML Living Standard).
*/
module Entities {
  import opened Option
  import opened Text
  import opened Numbers

  const ENTITY_LIMIT: nat := 16

  function Utf8Length(c: char): nat {
    if c as int < 0x80 then 1 else if c as int < 0x800 then 2 else if c as int < 0x1_0000 then 3 else 4
  }

  /** `char::from_u32`: every scalar value, no surrogate. */
  function FromU32(n: nat): Option<char> {
    if n < 0xD800 || 0xE000 <= n < 0x11_0000 then Some(n as char) else None
  }

  function NamedEntity(entity: string): Option<char> {
    if entity == "amp" then Some('&')
    else if entity == "lt" then Some('<')
    else if entity == "gt" then Some('>')
    else if entity == "quot" then Some('"')
    else if entity == "apos" then Some('\'')
    else if entity == "nbsp" then Some(' ')
    else None
  }

  function DecodeEntity(entity: string): Option<char> {
    if NamedEntity(entity).Some? then NamedEntity(entity)
    else if "#x" <= entity || "#X" <= entity then NumericEntity(entity[2..], 16)
    else if "#" <= entity then NumericEntity(entity[1..], 10)
    else None
  }

  function NumericEntity(digits: string, radix: nat): Option<char>
    requires IsRadix(radix)
  {
    match ParseU32(digits, radix)
    case None => None
    case Some(n) => FromU32(n)
  }

  /** The loop over the entity stops in front of this character. */
  predicate StopsAt(c: char, bytes: nat) {
    c == ';' || bytes >= ENTITY_LIMIT || IsWhitespace(c) || c == '&'
  }

  /** How many characters after the ampersand belong to the entity, given `bytes` so far. */
  function EntityLength(s: string, bytes: nat): (n: nat)
    ensures n <= |s|
  {
    if s == "" || StopsAt(s[0], bytes) then 0 else 1 + EntityLength(s[1..], bytes + Utf8Length(s[0]))
  }

  type Lookup = string -> Option<char>

  function Replacement(lookup: Lookup, entity: string): string {
    match lookup(entity)
    case Some(c) => [c]
    case None => "&" + entity
  }

  /** What follows an entity of n characters: a semicolon is swallowed. */
  function AfterEntity(s: string, n: nat): string
    requires n <= |s|
  {
    if n < |s| && s[n] == ';' then s[n + 1..] else s[n..]
  }

  function DecodeWith(lookup: Lookup, s: string): string
    decreases |s|
  {
    if s == "" then ""
    else if s[0] != '&' then [s[0]] + DecodeWith(lookup, s[1..])
    else
      var n := EntityLength(s[1..], 0);
      Replacement(lookup, s[1..][..n]) + DecodeWith(lookup, AfterEntity(s[1..], n))
  }

  function Decode(s: string): string {
    DecodeWith(DecodeEntity, s)
  }

  /** One turn of the decoding loop: what follows the ampersand splits into the entity and the rest. */
  lemma {:induction false} DecodeAmpersand(lookup: Lookup, after: string, entity: string, rest: string)
    requires after == entity + rest && |entity| == EntityLength(after, 0)
    ensures DecodeWith(lookup, ['&'] + after)
      == Replacement(lookup, entity) + DecodeWith(lookup, if rest != "" && rest[0] == ';' then rest[1..] else rest)
  {
    var s := ['&'] + after;
    assert s[1..] == after && after[..|entity|] == entity && after[|entity|..] == rest;
    assert rest != "" ==> after[|entity|] == rest[0] && after[|entity| + 1..] == rest[1..];
  }

  /** The inner loop: collect the entity from the iterator `chars`. */
  method TakeEntity(after: string) returns (entity: string, chars: string)
    ensures entity + chars == after && |entity| == EntityLength(after, 0)
  {
    entity, chars := "", after;
    var bytes: nat := 0;
    while chars != "" && !StopsAt(chars[0], bytes)
      invariant entity + chars == after
      invariant |entity| + EntityLength(chars, bytes) == EntityLength(after, 0)
      decreases |chars|
    {
      entity := entity + [chars[0]];
      bytes := bytes + Utf8Length(chars[0]);
      chars := chars[1..];
    }
  }

  lemma {:induction false} DecodePlain(lookup: Lookup, s: string)
    requires s != "" && s[0] != '&'
    ensures DecodeWith(lookup, s) == [s[0]] + DecodeWith(lookup, s[1..])
  {
  }

  /** One turn at an ampersand: what it adds and where the iterator stands afterwards. */
  method DecodeOne(lookup: Lookup, chars: string) returns (piece: string, rest: string)
    requires chars != "" && chars[0] == '&'
    ensures DecodeWith(lookup, chars) == piece + DecodeWith(lookup, rest) && |rest| < |chars|
  {
    var entity, after := TakeEntity(chars[1..]);
    assert chars == ['&'] + chars[1..];
    DecodeAmpersand(lookup, chars[1..], entity, after);
    rest := if after != "" && after[0] == ';' then after[1..] else after;
    match lookup(entity) {
      case Some(c) => piece := [c];
      case None => piece := "&" + entity;
    }
  }

  /** `chars` is the iterator over the characters still to come. */
  method DecodeReferences(lookup: Lookup, input: string) returns (out: string)
    ensures out == DecodeWith(lookup, input)
  {
    out := "";
    var chars := input;
    ghost var goal := DecodeWith(lookup, input);
    while chars != ""
      invariant goal == out + DecodeWith(lookup, chars)
      decreases |chars|
    {
      if chars[0] != '&' {
        DecodePlain(lookup, chars);
        Regroup(out, [chars[0]], DecodeWith(lookup, chars[1..]));
        out := out + [chars[0]];
        chars := chars[1..];
        continue;
      }
      var piece, rest := DecodeOne(lookup, chars);
      Regroup(out, piece, DecodeWith(lookup, rest));
      out := out + piece;
      chars := rest;
    }
  }

  method DecodeHtmlEntities(input: string) returns (out: string)
    ensures out == Decode(input)
  {
    out := DecodeReferences(DecodeEntity, input);
  }

  // ---------------------------------------------------------------- escaping

  datatype Style = Literal | Named | Decimal | LowerHex | UpperHex

  function NameOf(c: char): Option<string> {
    match c
    case '&' => Some("amp")
    case '<' => Some("lt")
    case '>' => Some("gt")
    case '"' => Some("quot")
    case '\'' => Some("apos")
    case _ => None
  }

  /** A character can be written in this style. */
  predicate Applies(c: char, style: Style) {
    match style
    case Literal => c != '&'
    case Named => NameOf(c).Some?
    case _ => true
  }

  /** The entity between `&` and `;`. */
  function EntityFor(c: char, style: Style): string
    requires Applies(c, style) && style != Literal
  {
    match style
    case Named => NameOf(c).value
    case Decimal => "#" + Render(c as int, 10)
    case LowerHex => "#x" + Render(c as int, 16)
    case UpperHex => "#X" + Render(c as int, 16)
  }

  function EscapeChar(c: char, style: Style): string
    requires Applies(c, style)
  {
    if style == Literal then [c] else "&" + EntityFor(c, style) + ";"
  }

  function Escape(text: string, styles: seq<Style>): string
    requires |styles| == |text| && forall i | 0 <= i < |text| :: Applies(text[i], styles[i])
  {
    if text == "" then "" else EscapeChar(text[0], styles[0]) + Escape(text[1..], styles[1..])
  }

  /** Plain entity text: ASCII without semicolon, ampersand or white space. */
  predicate Plain(e: string) {
    |e| <= ENTITY_LIMIT && forall c <- e :: '!' <= c <= '~' && c != ';' && c != '&'
  }

  lemma {:induction false} EntityEndsAtSemicolon(e: string, rest: string, bytes: nat)
    requires bytes + |e| <= ENTITY_LIMIT && Plain(e)
    ensures EntityLength(e + ";" + rest, bytes) == |e|
    decreases |e|
  {
    var s := e + ";" + rest;
    if e != "" {
      assert e[0] in e && forall c <- e[1..] :: c in e;
      assert s[1..] == e[1..] + ";" + rest;
      EntityEndsAtSemicolon(e[1..], rest, bytes + 1);
    }
  }

  lemma {:induction false} DecodeReference(lookup: Lookup, e: string, rest: string)
    requires Plain(e)
    ensures DecodeWith(lookup, "&" + e + ";" + rest) == Replacement(lookup, e) + DecodeWith(lookup, rest)
  {
    var s := "&" + e + ";" + rest;
    EntityEndsAtSemicolon(e, rest, 0);
    assert s[1..] == e + ";" + rest;
    assert s[1..][..|e|] == e && AfterEntity(s[1..], |e|) == rest;
  }

  lemma {:induction false} DigitsArePlain(n: nat, radix: nat, k: nat)
    requires (radix == 10 || radix == 16) && 0 < k <= 14 && n < Power(radix, k)
    ensures |Render(n, radix)| <= k && Plain(Render(n, radix))
  {
    RenderLength(n, radix, k);
  }

  lemma {:induction false} ScalarBounds(c: char)
    ensures (c as int) < Power(10, 7) && (c as int) < Power(16, 6)
    ensures FromU32(c as int) == Some(c)
  {
    assert Power(10, 7) == 10 * (10 * (10 * (10 * (10 * (10 * (10 * Power(10, 0)))))));
    assert Power(16, 6) == 16 * (16 * (16 * (16 * (16 * (16 * Power(16, 0))))));
  }

  lemma {:induction false} NumericDecodes(c: char, radix: nat)
    requires IsRadix(radix)
    ensures var digits := Render(c as int, radix);
      Plain(digits) && |digits| <= 7 && NumericEntity(digits, radix) == Some(c)
  {
    ScalarBounds(c);
    DigitsArePlain(c as int, radix, if radix == 10 then 7 else 6);
    ParseOfRender(c as int, radix);
  }

  lemma {:induction false} DecimalForm(digits: string)
    requires digits != "" && digits[0] != 'x' && digits[0] != 'X'
    ensures DecodeEntity("#" + digits) == NumericEntity(digits, 10)
  {
    var e := "#" + digits;
    assert e[0] == '#' && e[1] == digits[0] && e[1..] == digits;
  }

  lemma {:induction false} HexForm(x: char, digits: string)
    requires x == 'x' || x == 'X'
    ensures DecodeEntity(['#', x] + digits) == NumericEntity(digits, 16)
  {
    var e := ['#', x] + digits;
    assert e[0] == '#' && e[1] == x && e[2..] == digits;
  }

  lemma {:induction false} NumericEntityDecodes(c: char, style: Style)
    requires style == Decimal || style == LowerHex || style == UpperHex
    ensures Plain(EntityFor(c, style)) && DecodeEntity(EntityFor(c, style)) == Some(c)
  {
    if style == Decimal {
      NumericDecodes(c, 10);
      var digits := Render(c as int, 10);
      assert digits[0] in digits;
      DecimalForm(digits);
    } else {
      NumericDecodes(c, 16);
      HexForm(if style == LowerHex then 'x' else 'X', Render(c as int, 16));
    }
  }

  /** Every reference to a character decodes to that character, within the length limit. */
  lemma {:induction false} EntityDecodes(c: char, style: Style)
    requires Applies(c, style) && style != Literal
    ensures Plain(EntityFor(c, style)) && DecodeEntity(EntityFor(c, style)) == Some(c)
  {
    if style != Named {
      NumericEntityDecodes(c, style);
    }
  }

  /** Decoding undoes escaping, for every text and every choice of references. */
  lemma {:induction false} DecodeOfEscape(text: string, styles: seq<Style>)
    requires |styles| == |text| && forall i | 0 <= i < |text| :: Applies(text[i], styles[i])
    ensures Decode(Escape(text, styles)) == text
  {
    if text != "" {
      var rest := Escape(text[1..], styles[1..]);
      DecodeOfEscape(text[1..], styles[1..]);
      var s := Escape(text, styles);
      if styles[0] == Literal {
        assert s[1..] == rest;
      } else {
        var e := EntityFor(text[0], styles[0]);
        EntityDecodes(text[0], styles[0]);
        assert s == "&" + e + ";" + rest;
        DecodeReference(DecodeEntity, e, rest);
      }
    }
  }
}
