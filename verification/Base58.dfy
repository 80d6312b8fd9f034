/**
 Base58 with the Bitcoin alphabet, and the identifiers made from public keys.
 */
module Base58 {
  import opened Wrappers
  import opened DidAns

  type Byte = b: int | 0 <= b < 256

  /** The alphabet, by its runs: 1-9, A-H, J-N, P-Z, a-k, m-z. */
  function Symbol(d: int): char
    requires 0 <= d < 58
  {
    if d < 9 then ('1' as int + d) as char
    else if d < 17 then ('A' as int + d - 9) as char
    else if d < 22 then ('J' as int + d - 17) as char
    else if d < 33 then ('P' as int + d - 22) as char
    else if d < 44 then ('a' as int + d - 33) as char
    else ('m' as int + d - 44) as char
  }

  // ----- numbers -----

  function Pow(b: nat, e: nat): (p: nat)
    ensures b > 0 ==> p > 0
  {
    if e == 0 then 1 else b * Pow(b, e - 1)
  }

  /** The big-endian number of a byte string. */
  function Number(bytes: seq<Byte>): nat {
    if bytes == [] then 0 else Number(bytes[..|bytes| - 1]) * 256 + bytes[|bytes| - 1]
  }

  /** The base-58 digits of a number, most significant first; none for zero. */
  function Digits(n: nat): (digits: seq<int>)
    ensures forall i :: 0 <= i < |digits| ==> 0 <= digits[i] < 58
  {
    if n == 0 then [] else Digits(n / 58) + [n % 58]
  }

  function LeadingZeros(bytes: seq<Byte>): (z: nat)
    ensures z <= |bytes|
  {
    if bytes == [] || bytes[0] != 0 then 0 else 1 + LeadingZeros(bytes[1..])
  }

  /** A '1' for each leading zero byte, then the digits of the number. */
  function EncodeDigits(bytes: seq<Byte>): (digits: seq<int>)
    ensures forall i :: 0 <= i < |digits| ==> 0 <= digits[i] < 58
  {
    seq(LeadingZeros(bytes), _ => 0) + Digits(Number(bytes))
  }

  function Encode(bytes: seq<Byte>): (text: string)
    ensures |text| == |EncodeDigits(bytes)|
  {
    seq(|EncodeDigits(bytes)|, i requires 0 <= i < |EncodeDigits(bytes)| => Symbol(EncodeDigits(bytes)[i]))
  }

  // ----- length -----

  lemma {:induction false} DigitCount(n: nat, k: nat)
    ensures n < Pow(58, k) ==> |Digits(n)| <= k
    ensures k > 0 && Pow(58, k - 1) <= n ==> |Digits(n)| >= k
    decreases n
  {
    if n > 0 && k > 0 {
      DigitCount(n / 58, k - 1);
      if k > 1 {
        assert Pow(58, k - 1) == 58 * Pow(58, k - 2);
      }
    }
  }

  lemma {:induction false} NumberBound(bytes: seq<Byte>)
    ensures Number(bytes) < Pow(256, |bytes|)
    ensures bytes != [] && bytes[0] != 0 ==> Pow(256, |bytes| - 1) <= Number(bytes)
  {
    if bytes != [] {
      var init := bytes[..|bytes| - 1];
      NumberBound(init);
      if |bytes| > 1 { assert init[0] == bytes[0]; }
    }
  }

  lemma {:induction false} SkipLeadingZero(bytes: seq<Byte>)
    requires bytes != [] && bytes[0] == 0
    ensures Number(bytes) == Number(bytes[1..])
  {
    if |bytes| == 1 {
      assert bytes[..0] == [] && bytes[1..] == [];
    } else {
      SkipLeadingZero(bytes[..|bytes| - 1]);
      assert bytes[..|bytes| - 1][1..] == bytes[1..][..|bytes| - 2];
    }
  }

  lemma {:induction false} LeadingZerosBound(bytes: seq<Byte>)
    ensures var z := LeadingZeros(bytes);
      && Number(bytes) < Pow(256, |bytes| - z)
      && (z < |bytes| ==> Pow(256, |bytes| - z - 1) <= Number(bytes))
  {
    if bytes != [] && bytes[0] == 0 {
      SkipLeadingZero(bytes);
      LeadingZerosBound(bytes[1..]);
    } else {
      NumberBound(bytes);
    }
  }

  lemma {:induction false} PowMonotone(a: nat, b: nat, e: nat)
    requires a <= b
    ensures Pow(a, e) <= Pow(b, e)
  {
    if e > 0 {
      PowMonotone(a, b, e - 1);
      assert a * Pow(a, e - 1) <= b * Pow(b, e - 1) by {
        MulMonotone(a, b, Pow(a, e - 1), Pow(b, e - 1));
      }
    }
  }

  lemma MulMonotone(a: nat, b: nat, x: nat, y: nat)
    requires a <= b && x <= y
    ensures a * x <= b * y
  {
    assert b * y - a * x == (b - a) * y + a * (y - x);
  }

  lemma {:induction false} PowAdd(b: nat, m: nat, n: nat)
    ensures Pow(b, m + n) == Pow(b, m) * Pow(b, n)
  {
    if m > 0 {
      PowAdd(b, m - 1, n);
      MulAssociative(b, Pow(b, m - 1), Pow(b, n));
    }
  }

  lemma MulAssociative(a: nat, b: nat, c: nat)
    ensures a * (b * c) == a * b * c
  {
  }

  lemma PowerOf256()
    ensures Pow(256, 32) == 115792089237316195423570985008687907853269984665640564039457584007913129639936
  {
    assert Pow(256, 1) == 256;
    PowAdd(256, 1, 1);
    PowAdd(256, 2, 2);
    PowAdd(256, 4, 4);
    PowAdd(256, 8, 8);
    PowAdd(256, 16, 16);
  }

  lemma PowerOf58()
    ensures Pow(58, 11) == 24986644000165537792
    ensures Pow(58, 22) == Pow(58, 11) * Pow(58, 11)
    ensures Pow(58, 44) == Pow(58, 22) * Pow(58, 22)
    ensures Pow(58, 44) == 58 * Pow(58, 43)
  {
    assert Pow(58, 1) == 58;
    PowAdd(58, 1, 1);
    PowAdd(58, 2, 2);
    PowAdd(58, 4, 1);
    PowAdd(58, 5, 5);
    assert Pow(58, 11) == 58 * Pow(58, 10);
    PowAdd(58, 11, 11);
    PowAdd(58, 22, 22);
  }

  /** 58^43 < 256^32 < 58^44 */
  lemma KeySpace()
    ensures Pow(58, 43) < Pow(256, 32) < Pow(58, 44)
  {
    hide Pow;
    PowerOf256();
    PowerOf58();
  }

  /** Dropping a byte from the bound drops at least one digit. */
  lemma {:induction false} FewerBytes(z: nat)
    requires z <= 32
    ensures Pow(256, 32 - z) < Pow(58, 44 - z)
  {
    if z == 0 {
      KeySpace();
    } else {
      FewerBytes(z - 1);
      assert Pow(256, 33 - z) == 256 * Pow(256, 32 - z);
      assert Pow(58, 45 - z) == 58 * Pow(58, 44 - z);
      hide Pow;
    }
  }

  /** The Base58 text of a 32-byte key has 32 to 44 characters. */
  lemma KeyLength(key: seq<Byte>)
    requires |key| == 32
    ensures 32 <= |Encode(key)| <= 44
  {
    var z, n := LeadingZeros(key), Number(key);
    LeadingZerosBound(key);
    FewerBytes(z);
    DigitCount(n, 44 - z);
    if z < 32 {
      PowMonotone(58, 256, 31 - z);
      DigitCount(n, 32 - z);
    }
  }

  /** Both bounds are met. */
  lemma KeyLengthTight()
    ensures |Encode(seq(32, _ => 0))| == 32
    ensures |Encode(seq(32, _ => 255))| == 44
  {
    hide Pow;
    var zeros: seq<Byte>, ones: seq<Byte> := seq(32, _ => 0), seq(32, _ => 255);
    AllZeros(zeros);
    AllOnes(ones);
    KeySpace();
    KeyLength(ones);
    DigitCount(Number(ones), 44);
  }

  lemma {:induction false} AllZeros(bytes: seq<Byte>)
    requires forall i :: 0 <= i < |bytes| ==> bytes[i] == 0
    ensures LeadingZeros(bytes) == |bytes| && Number(bytes) == 0
  {
    if bytes != [] {
      AllZeros(bytes[1..]);
      SkipLeadingZero(bytes);
    }
  }

  lemma {:induction false} AllOnes(bytes: seq<Byte>)
    requires forall i :: 0 <= i < |bytes| ==> bytes[i] == 255
    ensures Number(bytes) == Pow(256, |bytes|) - 1
  {
    if bytes != [] {
      AllOnes(bytes[..|bytes| - 1]);
    }
  }

  // ----- different keys, different texts -----

  function FromDigits(digits: seq<int>): int {
    if digits == [] then 0 else FromDigits(digits[..|digits| - 1]) * 58 + digits[|digits| - 1]
  }

  lemma {:induction false} ZerosValue(z: nat)
    ensures FromDigits(seq(z, _ => 0)) == 0
  {
    if z > 0 {
      ZerosValue(z - 1);
      assert seq(z, _ => 0)[..z - 1] == seq(z - 1, _ => 0);
    }
  }

  lemma {:induction false} DigitsValue(n: nat, zeros: seq<int>)
    requires FromDigits(zeros) == 0
    ensures FromDigits(zeros + Digits(n)) == n
  {
    var digits := zeros + Digits(n);
    if n > 0 {
      DigitsValue(n / 58, zeros);
      assert digits[..|digits| - 1] == zeros + Digits(n / 58);
    } else {
      assert digits == zeros;
    }
  }

  lemma {:induction false} NumberInjective(a: seq<Byte>, b: seq<Byte>)
    requires |a| == |b| && Number(a) == Number(b)
    ensures a == b
  {
    if a != [] {
      NumberInjective(a[..|a| - 1], b[..|b| - 1]);
      assert a == a[..|a| - 1] + [a[|a| - 1]] && b == b[..|b| - 1] + [b[|b| - 1]];
    }
  }

  function CharValue(c: char): int {
    var n := c as int;
    if n <= '9' as int then n - '1' as int
    else if n <= 'H' as int then n - 'A' as int + 9
    else if n <= 'N' as int then n - 'J' as int + 17
    else if n <= 'Z' as int then n - 'P' as int + 22
    else if n <= 'k' as int then n - 'a' as int + 33
    else n - 'm' as int + 44
  }

  lemma SymbolDistinct(d: int)
    requires 0 <= d < 58
    ensures CharValue(Symbol(d)) == d
    ensures IsAlphanumeric(Symbol(d))
  {
  }

  lemma {:induction false} PowGrows(m: nat, n: nat)
    requires m <= n
    ensures Pow(256, m) <= Pow(256, n)
  {
    if m < n {
      PowGrows(m, n - 1);
    }
  }

  /** The number and the leading zeros fix the length. */
  lemma NoLonger(a: seq<Byte>, b: seq<Byte>)
    requires Number(a) == Number(b) && LeadingZeros(a) == LeadingZeros(b)
    ensures |b| <= |a|
  {
    hide Pow, Number, LeadingZeros;
    LeadingZerosBound(a);
    LeadingZerosBound(b);
    if |a| < |b| {
      PowGrows(|a| - LeadingZeros(a), |b| - LeadingZeros(b) - 1);
    }
  }

  /** Different byte strings, of any lengths, have different texts. */
  lemma EncodeInjective(a: seq<Byte>, b: seq<Byte>)
    requires Encode(a) == Encode(b)
    ensures a == b
  {
    hide Pow, Number, LeadingZeros, Digits;
    var x, y := EncodeDigits(a), EncodeDigits(b);
    assert |x| == |Encode(a)| == |Encode(b)| == |y|;
    forall i | 0 <= i < |x| ensures x[i] == y[i] {
      assert Encode(a)[i] == Symbol(x[i]) && Encode(b)[i] == Symbol(y[i]);
      SymbolDistinct(x[i]);
      SymbolDistinct(y[i]);
    }
    ZerosValue(LeadingZeros(a));
    ZerosValue(LeadingZeros(b));
    DigitsValue(Number(a), seq(LeadingZeros(a), _ => 0));
    DigitsValue(Number(b), seq(LeadingZeros(b), _ => 0));
    assert x == y;
    assert |x| == LeadingZeros(a) + |Digits(Number(a))| && |y| == LeadingZeros(b) + |Digits(Number(b))|;
    NoLonger(a, b);
    NoLonger(b, a);
    NumberInjective(a, b);
  }

  // ----- identifiers from keys -----

  function FromPublicKey(semanticCode: string, publicKey: seq<Byte>): Result<Did, DidAnsError> {
    if !IsSemanticCode(semanticCode) then Err(InvalidSemanticCode)
    else Parse(Assemble(semanticCode, "ef" + Encode(publicKey)))
  }

  lemma EncodeAlphanumeric(bytes: seq<Byte>)
    ensures AllAlphanumeric(Encode(bytes))
  {
    forall i | 0 <= i < |Encode(bytes)| ensures IsAlphanumeric(Encode(bytes)[i]) {
      SymbolDistinct(EncodeDigits(bytes)[i]);
    }
  }

  /** Every 32-byte key makes an identifier, under every valid semantic code and no other. */
  lemma KeyMakesIdentifier(code: string, key: seq<Byte>)
    requires |key| == 32
    ensures FromPublicKey(code, key).Ok? <==> IsSemanticCode(code)
    ensures IsSemanticCode(code) ==>
      FromPublicKey(code, key).value == Did(Assemble(code, "ef" + Encode(key)), code, "ef" + Encode(key))
  {
    KeyLength(key);
    EncodeAlphanumeric(key);
    if IsSemanticCode(code) {
      ParseAssembled(code, "ef" + Encode(key));
    }
  }

  /** Identifiers made from different keys or codes differ. */
  lemma IdentifierDeterminesKey(code: string, key: seq<Byte>, code': string, key': seq<Byte>)
    requires |key| == 32 && |key'| == 32
    requires FromPublicKey(code, key).Ok? && FromPublicKey(code, key) == FromPublicKey(code', key')
    ensures code == code' && key == key'
  {
    KeyMakesIdentifier(code, key);
    KeyMakesIdentifier(code', key');
    var s, s' := "ef" + Encode(key), "ef" + Encode(key');
    assert s[2..] == Encode(key) && s'[2..] == Encode(key');
    EncodeInjective(key, key');
  }
}
