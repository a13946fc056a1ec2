/** Fixed-width two's-complement integers in network byte order, as written by
    PostgreSQL and read by `binary.Read` with `binary.BigEndian`. */
module BigEndian {

  type byte = b: int | 0 <= b < 0x100

  /** The number of values an `n`-byte integer can take. */
  function Power(n: nat): (p: nat)
    ensures 0 < p
  {
    if n == 0 then 1 else 0x100 * Power(n - 1)
  }

  lemma PowerValues()
    ensures Power(1) == 0x100
    ensures Power(2) == 0x1_0000
    ensures Power(4) == 0x1_0000_0000
    ensures Power(8) == 0x1_0000_0000_0000_0000
  {
    assert Power(2) == 0x100 * Power(1);
    assert Power(4) == 0x100 * Power(3) && Power(3) == 0x100 * Power(2);
    assert Power(6) == 0x100 * Power(5) && Power(5) == 0x100 * Power(4);
    assert Power(8) == 0x100 * Power(7) && Power(7) == 0x100 * Power(6);
  }

  predicate Fits(v: int, n: nat) {
    0 <= 2 * v + Power(n) && 2 * v < Power(n)
  }

  function Unsigned(s: seq<byte>): (u: nat)
    ensures u < Power(|s|)
  {
    if s == [] then 0 else 0x100 * Unsigned(s[..|s| - 1]) + s[|s| - 1]
  }

  /** What `binary.Read` leaves in a signed integer of `|s|` bytes. */
  function Signed(s: seq<byte>): (v: int)
    ensures Fits(v, |s|)
  {
    var u := Unsigned(s);
    if 2 * u < Power(|s|) then u else u - Power(|s|)
  }

  function Digits(u: nat, n: nat): (s: seq<byte>)
    requires u < Power(n)
    ensures |s| == n
  {
    if n == 0 then [] else Digits(u / 0x100, n - 1) + [u % 0x100]
  }

  /** The `n`-byte two's-complement form of `v`. */
  function PutInt(v: int, n: nat): (s: seq<byte>)
    requires Fits(v, n)
    ensures |s| == n
  {
    Digits(if v < 0 then v + Power(n) else v, n)
  }

  lemma {:induction false} UnsignedOfDigits(u: nat, n: nat)
    requires u < Power(n)
    ensures Unsigned(Digits(u, n)) == u
  {
    if n > 0 {
      UnsignedOfDigits(u / 0x100, n - 1);
      assert Digits(u, n)[..n - 1] == Digits(u / 0x100, n - 1);
    }
  }

  lemma {:induction false} DigitsOfUnsigned(s: seq<byte>)
    ensures Digits(Unsigned(s), |s|) == s
  {
    if s != [] {
      var n := |s| - 1;
      DigitsOfUnsigned(s[..n]);
      assert Unsigned(s) / 0x100 == Unsigned(s[..n]) && Unsigned(s) % 0x100 == s[n];
      assert s == s[..n] + [s[n]];
    }
  }

  /** Writing then reading gives the integer back, for every width. */
  lemma SignedOfPutInt(v: int, n: nat)
    requires Fits(v, n)
    ensures Signed(PutInt(v, n)) == v
  {
    UnsignedOfDigits(if v < 0 then v + Power(n) else v, n);
  }

  /** Reading then writing gives the bytes back: no two byte strings of one
      width stand for the same integer. */
  lemma PutIntOfSigned(s: seq<byte>)
    ensures PutInt(Signed(s), |s|) == s
  {
    DigitsOfUnsigned(s);
  }
}
