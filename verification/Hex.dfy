/** Hexadecimal text. */
module Hex {
  import opened Base

  const DIGITS := "0123456789abcdef"

  function Nibble(c: char): Option<nat> {
    if '0' <= c <= '9' then Some(c as int - '0' as int)
    else if 'a' <= c <= 'f' then Some(c as int - 'a' as int + 10)
    else if 'A' <= c <= 'F' then Some(c as int - 'A' as int + 10)
    else None
  }

  function Unhex(s: string): Result<Bytes> {
    if s == [] then Success([])
    else if |s| == 1 then Failure
    else
      match (Nibble(s[0]), Nibble(s[1]))
      case (Some(hi), Some(lo)) =>
        var rest :- Unhex(s[2..]);
        Success([Byte(hi, lo)] + rest)
      case _ => Failure
  }

  function Byte(hi: nat, lo: nat): byte {
    (16 * hi + lo) % 256
  }

  function ToHex(b: Bytes): (s: string)
    ensures |s| == 2 * |b|
  {
    if b == [] then "" else [DIGITS[b[0] / 16], DIGITS[b[0] % 16]] + ToHex(b[1..])
  }

  lemma NibbleOfDigit(d: nat)
    requires d < 16
    ensures Nibble(DIGITS[d]) == Some(d)
  {
  }

  lemma UnhexPair(hi: nat, lo: nat, t: string, rest: Bytes)
    requires hi < 16 && lo < 16 && Unhex(t) == Success(rest)
    ensures Unhex([DIGITS[hi], DIGITS[lo]] + t) == Success([Byte(hi, lo)] + rest)
  {
    var s := [DIGITS[hi], DIGITS[lo]] + t;
    NibbleOfDigit(hi);
    NibbleOfDigit(lo);
    hide Nibble;
    assert s[2..] == t && s[0] == DIGITS[hi] && s[1] == DIGITS[lo];
  }

  lemma ByteOfNibbles(x: byte)
    ensures Byte(x / 16, x % 16) == x
  {
  }

  lemma ToHexPair(b: Bytes)
    requires b != []
    ensures ToHex(b) == [DIGITS[b[0] / 16], DIGITS[b[0] % 16]] + ToHex(b[1..])
    ensures [b[0]] + b[1..] == b
  {
  }

  /** Every byte string is read back from its text. */
  lemma {:induction false} UnhexOfHex(b: Bytes)
    ensures Unhex(ToHex(b)) == Success(b)
  {
    if b != [] {
      hide Unhex, ToHex, Byte;
      var t := ToHex(b[1..]);
      UnhexOfHex(b[1..]);
      UnhexPair(b[0] / 16, b[0] % 16, t, b[1..]);
      ByteOfNibbles(b[0]);
      ToHexPair(b);
    }
  }

  // ---------- Which texts are bytes ----------

  /** The value of a hexadecimal digit in either case, by its code. */
  function DigitValue(c: char): int {
    var code := c as int;
    if 0x30 <= code <= 0x39 then code - 0x30
    else if 0x41 <= code <= 0x46 then code - 0x37
    else if 0x61 <= code <= 0x66 then code - 0x57
    else -1
  }

  predicate IsHex(s: string, n: nat) {
    |s| == 2 * n && forall i :: 0 <= i < |s| ==> DigitValue(s[i]) >= 0
  }

  lemma NibbleValue(c: char)
    ensures Nibble(c) == if DigitValue(c) >= 0 then Some(DigitValue(c)) else None
    ensures DigitValue(c) < 16
  {
  }

  lemma {:induction false} UnhexSize(s: string, n: nat)
    ensures IsHex(s, n) <==> Unhex(s).Success? && |Unhex(s).value| == n
    decreases n
  {
    hide Nibble, DigitValue;
    if |s| >= 2 && n > 0 {
      NibbleValue(s[0]);
      NibbleValue(s[1]);
      UnhexSize(s[2..], n - 1);
      assert s == [s[0], s[1]] + s[2..];
    }
  }

  /** A text stands for n bytes exactly when it has 2n digits; each byte has the value of its two digits. */
  lemma {:induction false} UnhexBytes(s: string, n: nat, i: nat)
    requires IsHex(s, n) && i < n
    ensures Unhex(s).Success? && |Unhex(s).value| == n
    ensures Unhex(s).value[i] as int == 16 * DigitValue(s[2 * i]) + DigitValue(s[2 * i + 1])
    decreases n
  {
    UnhexSize(s, n);
    NibbleValue(s[0]);
    NibbleValue(s[1]);
    hide Nibble, DigitValue;
    UnhexSize(s[2..], n - 1);
    if i > 0 {
      assert IsHex(s[2..], n - 1);
      UnhexBytes(s[2..], n - 1, i - 1);
    }
  }

  /** What remains to be read, put after what was read. */
  function Resume(done: Bytes, rest: Result<Bytes>): Result<Bytes> {
    if rest.Success? then Success(done + rest.value) else Failure
  }

  lemma ResumeStep(done: Bytes, s: string, hi: nat, lo: nat)
    requires |s| >= 2 && Nibble(s[0]) == Some(hi) && Nibble(s[1]) == Some(lo)
    ensures Resume(done, Unhex(s)) == Resume(done + [Byte(hi, lo)], Unhex(s[2..]))
  {
    var rest := Unhex(s[2..]);
    if rest.Success? {
      assert done + ([Byte(hi, lo)] + rest.value) == done + [Byte(hi, lo)] + rest.value;
    }
  }

  lemma ResumeEnds(b: Bytes, r: Result<Bytes>)
    ensures Resume([], r) == r
    ensures Resume(b, Unhex("")) == Success(b)
  {
    if r.Success? {
      assert [] + r.value == r.value;
    }
    assert b + [] == b;
  }

  lemma {:induction false} OddFails(s: string)
    requires |s| % 2 == 1
    ensures Unhex(s) == Failure
  {
    if |s| > 1 {
      OddFails(s[2..]);
    }
  }

  method Decode(s: string) returns (r: Result<Bytes>)
    ensures r == Unhex(s)
  {
    if |s| % 2 == 1 {
      OddFails(s);
      return Failure;
    }
    var b: Bytes := [];
    ResumeEnds(b, Unhex(s));
    assert s[2 * 0..] == s;
    for i := 0 to |s| / 2
      invariant |b| == i && Unhex(s) == Resume(b, Unhex(s[2 * i..]))
    {
      var t := s[2 * i..];
      match (Nibble(s[2 * i]), Nibble(s[2 * i + 1])) {
        case (Some(hi), Some(lo)) =>
          ResumeStep(b, t, hi, lo);
          assert t[2..] == s[2 * (i + 1)..];
          b := b + [Byte(hi, lo)];
        case _ =>
          assert t[0] == s[2 * i] && t[1] == s[2 * i + 1];
          return Failure;
      }
    }
    assert s[2 * (|s| / 2)..] == "";
    ResumeEnds(b, Failure);
    return Success(b);
  }
}
