/**
 UTF-8 (section 3 of RFC 3629) and the order of encoded strings. Rust compares strings by their
 UTF-8 bytes, Python by their code points; section 1 of RFC 3629 promises the two orders agree.
 */
module Utf8 {
  import opened Ordering

  function EncodeChar(c: char): (bytes: seq<int>)
    ensures 1 <= |bytes| <= 4
    ensures forall b :: b in bytes ==> 0 <= b < 0x100
  {
    var n := c as int;
    if n < 0x80 then [n]
    else if n < 0x800 then [0xC0 + n / 0x40, 0x80 + n % 0x40]
    else if n < 0x10000 then [0xE0 + n / 0x1000, 0x80 + n / 0x40 % 0x40, 0x80 + n % 0x40]
    else [0xF0 + n / 0x40000, 0x80 + n / 0x1000 % 0x40, 0x80 + n / 0x40 % 0x40, 0x80 + n % 0x40]
  }

  function Encode(s: string): seq<int> {
    if s == [] then [] else EncodeChar(s[0]) + Encode(s[1..])
  }

  /** The order of `BTreeMap<String, _>`. */
  predicate ByteLess(s: string, t: string) {
    LexLess(Encode(s), Encode(t))
  }

  lemma LexLessPrefix(p: seq<int>, a: seq<int>, b: seq<int>)
    ensures LexLess(p + a, p + b) == LexLess(a, b)
  {
    if p == [] {
      assert p + a == a && p + b == b;
    } else {
      assert (p + a)[1..] == p[1..] + a && (p + b)[1..] == p[1..] + b;
      LexLessPrefix(p[1..], a, b);
    }
  }

  /** Two different characters are told apart inside their encodings, in code-point order. */
  lemma CharOrder(c: char, d: char, x: seq<int>, y: seq<int>)
    requires c < d
    ensures LexLess(EncodeChar(c) + x, EncodeChar(d) + y)
    ensures !LexLess(EncodeChar(d) + y, EncodeChar(c) + x)
  {
    var a, b := EncodeChar(c) + x, EncodeChar(d) + y;
    var k := FirstDifference(c, d);
    DecidedAt(a, b, k);
  }

  lemma FirstDifference(c: char, d: char) returns (k: nat)
    requires c < d
    ensures k < |EncodeChar(c)| && k < |EncodeChar(d)|
    ensures EncodeChar(c)[..k] == EncodeChar(d)[..k]
    ensures EncodeChar(c)[k] < EncodeChar(d)[k]
  {
    if |EncodeChar(c)| != |EncodeChar(d)| {
      LeadBytes(c, d);
      k := 0;
    } else if |EncodeChar(c)| <= 2 {
      SixBits(c as int, d as int);
      k := if |EncodeChar(c)| == 1 || c as int / 0x40 < d as int / 0x40 then 0 else 1;
    } else {
      k := FirstDifferenceLong(c, d);
    }
  }

  lemma FirstDifferenceLong(c: char, d: char) returns (k: nat)
    requires c < d && |EncodeChar(c)| == |EncodeChar(d)| > 2
    ensures k < |EncodeChar(c)| && k < |EncodeChar(d)|
    ensures EncodeChar(c)[..k] == EncodeChar(d)[..k]
    ensures EncodeChar(c)[k] < EncodeChar(d)[k]
  {
    var n, m := c as int, d as int;
    var n1, m1, n2, m2, n3, m3 := n / 0x40, m / 0x40, n / 0x1000, m / 0x1000, n / 0x40000, m / 0x40000;
    assert n2 == n1 / 0x40 && m2 == m1 / 0x40 && n3 == n2 / 0x40 && m3 == m2 / 0x40;
    SixBits(n, m);
    SixBits(n1, m1);
    SixBits(n2, m2);
    var below := if n1 < m1 then 1 else 2;
    if n < 0x10000 {
      k := if n2 < m2 then 0 else below;
    } else {
      k := if n3 < m3 then 0 else if n2 < m2 then 1 else below + 1;
    }
  }

  lemma SixBits(n: nat, m: nat)
    requires n <= m
    ensures n / 0x40 <= m / 0x40
    ensures n / 0x40 == m / 0x40 ==> m % 0x40 - n % 0x40 == m - n
  {
  }

  lemma LeadBytes(c: char, d: char)
    requires c < d && |EncodeChar(c)| != |EncodeChar(d)|
    ensures EncodeChar(c)[0] < EncodeChar(d)[0]
  {
    var n, m := c as int, d as int;
    assert n < 0x80 ==> EncodeChar(c)[0] < 0x80;
    assert 0x80 <= n < 0x800 ==> 0xC0 <= EncodeChar(c)[0] < 0xE0;
    assert 0x800 <= n < 0x10000 ==> 0xE0 <= EncodeChar(c)[0] < 0xF0;
    assert 0x80 <= m < 0x800 ==> 0xC0 <= EncodeChar(d)[0] < 0xE0;
    assert 0x800 <= m < 0x10000 ==> 0xE0 <= EncodeChar(d)[0] < 0xF0;
    assert 0x10000 <= m ==> 0xF0 <= EncodeChar(d)[0];
  }

  lemma {:induction false} DecidedAt(a: seq<int>, b: seq<int>, k: nat)
    requires k < |a| && k < |b|
    requires a[..k] == b[..k]
    requires a[k] < b[k]
    ensures LexLess(a, b) && !LexLess(b, a)
  {
    if k > 0 {
      assert a[0] == a[..k][0] == b[..k][0] == b[0];
      assert a[1..][..k - 1] == a[..k][1..] == b[..k][1..] == b[1..][..k - 1];
      DecidedAt(a[1..], b[1..], k - 1);
    }
  }

  /** UTF-8 keeps the order of code points. */
  lemma {:induction false} ByteOrderIsCodePointOrder(s: string, t: string)
    ensures ByteLess(s, t) == StringLess(s, t)
  {
    if s != [] && t != [] {
      assert CodePoints(s)[1..] == CodePoints(s[1..]);
      assert CodePoints(t)[1..] == CodePoints(t[1..]);
      if s[0] == t[0] {
        LexLessPrefix(EncodeChar(s[0]), Encode(s[1..]), Encode(t[1..]));
        ByteOrderIsCodePointOrder(s[1..], t[1..]);
      } else if s[0] < t[0] {
        CharOrder(s[0], t[0], Encode(s[1..]), Encode(t[1..]));
      } else {
        CharOrder(t[0], s[0], Encode(t[1..]), Encode(s[1..]));
      }
    }
  }

  lemma ByteLessTotal()
    ensures StrictTotal(ByteLess)
  {
    StringLessTotal();
    forall a: string, b: string ensures ByteLess(a, b) == StringLess(a, b) {
      ByteOrderIsCodePointOrder(a, b);
    }
  }
}
