/**
 `get_port_for_session` of connection.rs: a 32-bit wrapping hash of the session name,
 mapped into the dynamic port range (section 6 of RFC 6335).
*/
module Port {
  const TWO32: int := 0x1_0000_0000

  /** The i32 that is congruent to x modulo 2^32. */
  function Wrap(x: int): (r: int)
    ensures -0x8000_0000 <= r < 0x8000_0000 && (x - r) % TWO32 == 0
  {
    (x + 0x8000_0000) % TWO32 - 0x8000_0000
  }

  /** `hash << 5` on i32: the high bits are lost. */
  function ShiftLeft5(h: int): int {
    Wrap(h * 32)
  }

  function Pow31(n: nat): nat {
    if n == 0 then 1 else 31 * Pow31(n - 1)
  }

  /** The base-31 polynomial of the characters, highest power first. */
  function Polynomial(s: string): nat {
    if s == "" then 0 else s[0] as int * Pow31(|s| - 1) + Polynomial(s[1..])
  }

  lemma {:induction false} PolynomialSnoc(s: string, c: char)
    ensures Polynomial(s + [c]) == 31 * Polynomial(s) + c as int
  {
    if s == "" {
      assert s + [c] == [c] && [c][1..] == "";
    } else {
      assert (s + [c])[1..] == s[1..] + [c];
      PolynomialSnoc(s[1..], c);
      assert s[0] as int * (31 * Pow31(|s| - 1)) == 31 * (s[0] as int * Pow31(|s| - 1));
    }
  }

  lemma {:induction false} WrapQuotient(x: int) returns (k: int)
    ensures Wrap(x) == x + k * TWO32
  {
    k := -((x + 0x8000_0000) / TWO32);
  }

  lemma {:induction false} WrapUnique(x: int, y: int, k: int)
    requires x == y + k * TWO32
    ensures Wrap(x) == Wrap(y)
  {
  }

  /** One step of the loop multiplies by 31 and adds, modulo 2^32. */
  lemma {:induction false} HashStep(h: int, x: int, c: int)
    requires h == Wrap(x)
    ensures Wrap(Wrap(ShiftLeft5(h) - h) + c) == Wrap(31 * x + c)
  {
    var i := WrapQuotient(x);
    var j := WrapQuotient(h * 32);
    var k := WrapQuotient(ShiftLeft5(h) - h);
    WrapUnique(Wrap(ShiftLeft5(h) - h) + c, 31 * x + c, 31 * i + j + k);
  }

  function Abs(x: int): nat {
    if x < 0 then -x else x
  }

  method GetPortForSession(name: string) returns (port: nat)
    ensures port == 49152 + Abs(Wrap(Polynomial(name))) % 16383
    ensures 49152 <= port <= 65534
  {
    var hash := 0;
    for i := 0 to |name|
      invariant hash == Wrap(Polynomial(name[..i]))
    {
      HashStep(hash, Polynomial(name[..i]), name[i] as int);
      PolynomialSnoc(name[..i], name[i]);
      assert name[..i + 1] == name[..i] + [name[i]];
      hash := Wrap(Wrap(ShiftLeft5(hash) - hash) + name[i] as int);
    }
    assert name[..|name|] == name;
    port := 49152 + Abs(hash) % 16383;
  }
}
