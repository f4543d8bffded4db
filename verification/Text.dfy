/**
  Strings as sequences of Unicode scalar values, with the three encodings the
  source depends on: UTF-16 code units (the producer's id order), UTF-8 bytes
  (framing and caps) and decimal numerals.
 */
module Text {
  import opened StableSort

  // ---------- UTF-16 order ----------

  function Utf16Units(c: char): seq<int> {
    var v := c as int;
    if v < 0x1_0000 then [v]
    else [0xD800 + (v - 0x1_0000) / 0x400, 0xDC00 + (v - 0x1_0000) % 0x400]
  }

  function Utf16(s: string): seq<int> {
    if s == [] then [] else Utf16Units(s[0]) + Utf16(s[1..])
  }

  predicate LexLeq(a: seq<int>, b: seq<int>) {
    a == [] || (b != [] && (a[0] < b[0] || (a[0] == b[0] && LexLeq(a[1..], b[1..]))))
  }

  /** `utf16_cmp(left, right) != Greater`. */
  predicate IdLeq(a: string, b: string) {
    LexLeq(Utf16(a), Utf16(b))
  }

  lemma {:induction false} LexTotal(a: seq<int>, b: seq<int>)
    ensures LexLeq(a, b) || LexLeq(b, a)
  {
    if a != [] && b != [] && a[0] == b[0] {
      LexTotal(a[1..], b[1..]);
    }
  }

  lemma {:induction false} LexTransitive(a: seq<int>, b: seq<int>, c: seq<int>)
    requires LexLeq(a, b) && LexLeq(b, c)
    ensures LexLeq(a, c)
  {
    if a != [] && a[0] == b[0] == c[0] {
      LexTransitive(a[1..], b[1..], c[1..]);
    }
  }

  lemma {:induction false} LexAntisymmetric(a: seq<int>, b: seq<int>)
    requires LexLeq(a, b) && LexLeq(b, a)
    ensures a == b
  {
    if a != [] {
      LexAntisymmetric(a[1..], b[1..]);
      assert a == [a[0]] + a[1..] && b == [b[0]] + b[1..];
    }
  }

  /** No scalar's units are a proper prefix of another's, so the first scalar can be read back. */
  lemma Utf16UnitsPrefixFree(c: char, d: char, x: seq<int>, y: seq<int>)
    requires Utf16Units(c) + x == Utf16Units(d) + y
    ensures c == d && x == y
  {
    var u, v := Utf16Units(c) + x, Utf16Units(d) + y;
    assert u[0] == Utf16Units(c)[0] && v[0] == Utf16Units(d)[0];
    if 0x1_0000 <= c as int && 0x1_0000 <= d as int {
      assert u[1] == Utf16Units(c)[1] && v[1] == Utf16Units(d)[1];
    }
    assert |Utf16Units(c)| == |Utf16Units(d)|;
    assert x == u[|Utf16Units(c)|..] && y == v[|Utf16Units(d)|..];
  }

  lemma {:induction false} Utf16Injective(a: string, b: string)
    requires Utf16(a) == Utf16(b)
    ensures a == b
  {
    if a != [] && b != [] {
      Utf16UnitsPrefixFree(a[0], b[0], Utf16(a[1..]), Utf16(b[1..]));
      Utf16Injective(a[1..], b[1..]);
      assert a == [a[0]] + a[1..] && b == [b[0]] + b[1..];
    }
  }

  lemma IdOrderIsTotal()
    ensures TotalOrder(IdLeq)
  {
    forall a, b ensures IdLeq(a, b) || IdLeq(b, a) {
      LexTotal(Utf16(a), Utf16(b));
    }
    forall a, b, c | IdLeq(a, b) && IdLeq(b, c) ensures IdLeq(a, c) {
      LexTransitive(Utf16(a), Utf16(b), Utf16(c));
    }
    forall a, b | IdLeq(a, b) && IdLeq(b, a) ensures a == b {
      LexAntisymmetric(Utf16(a), Utf16(b));
      Utf16Injective(a, b);
    }
  }

  /** The scalar that units `i` on encode, and how many units it takes: what a decoder of UTF-16 reads. */
  function ScalarAt(units: seq<int>, i: nat): (int, nat)
    requires i < |units|
  {
    if 0xD800 <= units[i] < 0xDC00 && i + 1 < |units| && 0xDC00 <= units[i + 1] < 0xE000
    then (0x1_0000 + (units[i] - 0xD800) * 0x400 + (units[i + 1] - 0xDC00), 2) else (units[i], 1)
  }

  /** A decoder reads back what was encoded: a scalar below 0x10000 is its own unit, any other is its surrogate pair. */
  lemma {:induction false} Utf16Decodes(a: string, c: char, b: string)
    ensures var units := Utf16(a + [c] + b);
      && |Utf16(a)| < |units| && ScalarAt(units, |Utf16(a)|) == (c as int, if c as int < 0x1_0000 then 1 else 2)
      && |units| == |Utf16(a)| + |Utf16(b)| + (if c as int < 0x1_0000 then 1 else 2)
  {
    Utf16Concat(a, [c] + b);
    assert a + [c] + b == a + ([c] + b) && ([c] + b)[1..] == b;
    var units := Utf16(a + [c] + b);
    assert units == Utf16(a) + (Utf16Units(c) + Utf16(b));
    assert units[|Utf16(a)|] == Utf16Units(c)[0];
    if c as int >= 0x1_0000 {
      assert units[|Utf16(a)| + 1] == Utf16Units(c)[1];
    }
  }

  lemma {:induction false} Utf16Concat(a: string, b: string)
    ensures Utf16(a + b) == Utf16(a) + Utf16(b)
  {
    if a == [] {
      assert a + b == b;
    } else {
      assert (a + b)[1..] == a[1..] + b;
      Utf16Concat(a[1..], b);
    }
  }

  /** `a` comes before `b` at their first difference, index `k`: it ends there, or has the smaller unit. */
  predicate FirstLess(a: seq<int>, b: seq<int>, k: nat) {
    && k <= |a| && k < |b|
    && (forall i :: 0 <= i < k ==> a[i] == b[i])
    && (k == |a| || a[k] < b[k])
  }

  lemma {:induction false} LexAtFirstDifference(a: seq<int>, b: seq<int>)
    ensures (LexLeq(a, b) && a != b) <==> exists k: nat :: FirstLess(a, b, k)
  {
    if a == [] {
      assert b != [] ==> FirstLess(a, b, 0);
    } else if b != [] {
      if a[0] < b[0] {
        assert FirstLess(a, b, 0);
      } else if a[0] == b[0] {
        LexAtFirstDifference(a[1..], b[1..]);
        assert a == [a[0]] + a[1..] && b == [b[0]] + b[1..];
        if k: nat :| FirstLess(a[1..], b[1..], k) {
          assert FirstLess(a, b, k + 1);
        }
        if k: nat :| FirstLess(a, b, k) {
          assert k > 0 && FirstLess(a[1..], b[1..], k - 1);
        }
      }
    }
  }

  /** The order of ids, unit by unit. */
  ghost predicate UnitsBefore(a: string, b: string) {
    exists k: nat :: FirstLess(Utf16(a), Utf16(b), k)
  }

  /** An id is strictly before another exactly when its units are smaller at the first difference. */
  lemma IdOrderByUnits(a: string, b: string)
    ensures UnitsBefore(a, b) <==> IdLeq(a, b) && a != b
    ensures IdLeq(a, b) <==> a == b || UnitsBefore(a, b)
  {
    LexAtFirstDifference(Utf16(a), Utf16(b));
    if Utf16(a) == Utf16(b) {
      Utf16Injective(a, b);
    }
    LexTotal(Utf16(a), Utf16(a));
  }

  // ---------- UTF-8 ----------

  function Utf8Bytes(c: char): (r: seq<int>)
    ensures 1 <= |r| <= 4
  {
    var v := c as int;
    if v < 0x80 then [v]
    else if v < 0x800 then [0xC0 + v / 64, 0x80 + v % 64]
    else if v < 0x1_0000 then [0xE0 + v / 4096, 0x80 + v / 64 % 64, 0x80 + v % 64]
    else [0xF0 + v / 262144, 0x80 + v / 4096 % 64, 0x80 + v / 64 % 64, 0x80 + v % 64]
  }

  function Utf8(s: string): seq<int> {
    if s == [] then [] else Utf8Bytes(s[0]) + Utf8(s[1..])
  }

  lemma Recompose(v: int)
    requires 0 <= v
    ensures v == v / 64 * 64 + v % 64
    ensures v == v / 4096 * 4096 + v / 64 % 64 * 64 + v % 64
    ensures v == v / 262144 * 262144 + v / 4096 % 64 * 4096 + v / 64 % 64 * 64 + v % 64
  {
    assert v / 64 / 64 == v / 4096 && v / 4096 / 64 == v / 262144;
  }

  lemma Utf8BytesPrefixFree(c: char, d: char, x: seq<int>, y: seq<int>)
    requires Utf8Bytes(c) + x == Utf8Bytes(d) + y
    ensures c == d && x == y
  {
    var p, q := Utf8Bytes(c), Utf8Bytes(d);
    var u, v := p + x, q + y;
    assert u[0] == p[0] && v[0] == q[0];
    assert |p| == |q|;
    forall i | 0 <= i < |p| ensures p[i] == q[i] {
      assert u[i] == p[i] && v[i] == q[i];
    }
    Recompose(c as int);
    Recompose(d as int);
    if |p| > 1 {
      assert p[1] == q[1];
      if |p| > 2 {
        assert p[2] == q[2];
        if |p| > 3 {
          assert p[3] == q[3];
        }
      }
    }
    assert x == u[|p|..] && y == v[|q|..];
  }

  lemma {:induction false} Utf8Injective(a: string, b: string)
    requires Utf8(a) == Utf8(b)
    ensures a == b
  {
    if a != [] && b != [] {
      Utf8BytesPrefixFree(a[0], b[0], Utf8(a[1..]), Utf8(b[1..]));
      Utf8Injective(a[1..], b[1..]);
      assert a == [a[0]] + a[1..] && b == [b[0]] + b[1..];
    }
  }

  lemma {:induction false} Utf8Concat(a: string, b: string)
    ensures Utf8(a + b) == Utf8(a) + Utf8(b)
  {
    if a == [] {
      assert a + b == b;
    } else {
      assert (a + b)[1..] == a[1..] + b;
      Utf8Concat(a[1..], b);
    }
  }

  /** The scalar that bytes `i` on encode, and how many bytes it takes: what a decoder of UTF-8 (RFC 3629) reads. */
  function ByteScalarAt(bytes: seq<int>, i: nat): (int, nat)
    requires i + 3 < |bytes|
  {
    var b, x, y, z := bytes[i], bytes[i + 1] - 0x80, bytes[i + 2] - 0x80, bytes[i + 3] - 0x80;
    if b < 0x80 then (b, 1)
    else if b < 0xE0 then ((b - 0xC0) * 0x40 + x, 2)
    else if b < 0xF0 then ((b - 0xE0) * 0x1000 + x * 0x40 + y, 3)
    else ((b - 0xF0) * 0x4_0000 + x * 0x1000 + y * 0x40 + z, 4)
  }

  /** How many bytes a scalar takes. */
  function ByteCount(c: char): nat {
    if c as int <= 0x7F then 1 else if c as int <= 0x7FF then 2 else if c as int <= 0xFFFF then 3 else 4
  }

  /** A decoder reads back what was encoded, in the number of bytes that RFC 3629 gives the scalar. */
  lemma Utf8Decodes(a: string, c: char, b: string, padding: seq<int>)
    requires |padding| == 3
    ensures var bytes := Utf8(a + [c] + b);
      && |bytes| == |Utf8(a)| + ByteCount(c) + |Utf8(b)|
      && ByteScalarAt(bytes + padding, |Utf8(a)|) == (c as int, ByteCount(c))
      && forall p :: |Utf8(a)| < p < |Utf8(a)| + ByteCount(c) ==> 0x80 <= bytes[p] <= 0xBF
  {
    hide Utf8;
    Utf8Split(a, c, b);
    Recompose(c as int);
    var bytes, own, n := Utf8(a + [c] + b) + padding, Utf8Bytes(c), |Utf8(a)|;
    assert bytes[n..n + |own|] == own;
    assert bytes[n] == own[0];
    forall p | n < p < n + |own| ensures bytes[p] == own[p - n] {
    }
  }

  lemma Utf8Split(a: string, c: char, b: string)
    ensures Utf8(a + [c] + b) == Utf8(a) + Utf8Bytes(c) + Utf8(b)
  {
    Utf8Concat(a, [c] + b);
    assert a + [c] + b == a + ([c] + b) && ([c] + b)[1..] == b;
  }

  // ---------- decimal numerals ----------

  function Digit(d: nat): char
    requires d < 10
  {
    '0' + d as char
  }

  function Decimal(n: nat): (s: string)
    ensures s != []
  {
    if n < 10 then [Digit(n)] else Decimal(n / 10) + [Digit(n % 10)]
  }

  lemma {:induction false} DecimalInjective(a: nat, b: nat)
    requires Decimal(a) == Decimal(b)
    ensures a == b
  {
    var s, t := Decimal(a), Decimal(b);
    assert s[|s| - 1] == Digit(a % 10) && t[|t| - 1] == Digit(b % 10);
    if 10 <= a && 10 <= b {
      assert s[..|s| - 1] == Decimal(a / 10) && t[..|t| - 1] == Decimal(b / 10);
      DecimalInjective(a / 10, b / 10);
    }
  }

  function Pow10(k: nat): (p: nat)
    ensures p > 0
  {
    if k == 0 then 1 else 10 * Pow10(k - 1)
  }

  /** The decimal digit of `n` at place `k`. */
  function DigitAt(n: nat, k: nat): nat {
    n / Pow10(k) % 10
  }

  /** `s` is the decimal numeral of `n`: digit by digit, without leading zeros. */
  predicate Spells(s: string, n: nat) {
    && s != "" && n < Pow10(|s|) && (|s| > 1 ==> Pow10(|s| - 1) <= n)
    && forall i :: 0 <= i < |s| ==> s[i] as int == 0x30 + DigitAt(n, |s| - 1 - i)
  }

  lemma Ordered(p: nat, a: nat, b: nat)
    requires a <= b
    ensures p * a <= p * b
  {
  }

  lemma QuotientIs(n: nat, p: nat, d: nat)
    requires p > 0 && p * d <= n < p * d + p
    ensures n / p == d
  {
    var q := n / p;
    assert p * q <= n < p * q + p;
    if q < d {
      Ordered(p, q + 1, d);
    } else if d < q {
      Ordered(p, d + 1, q);
    }
  }

  lemma TenTimes(p: nat, d: nat)
    ensures (10 * p) * d == 10 * (p * d)
  {
  }

  lemma DivTen(n: nat, p: nat)
    requires p > 0
    ensures n / (10 * p) == n / 10 / p
  {
    var m := n / 10;
    var d := m / p;
    var q := p * d;
    assert q <= m < q + p;
    TenTimes(p, d);
    QuotientIs(n, 10 * p, d);
  }

  /** Dividing by ten moves every digit one place. */
  lemma ShiftedDigit(n: nat, k: nat)
    ensures DigitAt(n, k + 1) == DigitAt(n / 10, k)
  {
    assert Pow10(k + 1) == 10 * Pow10(k);
    hide Pow10;
    DivTen(n, Pow10(k));
  }

  /** A numeral extended by one digit. */
  lemma SpellsStep(s: string, c: char, n: nat)
    requires s != ""
    ensures Spells(s + [c], n) <==> Spells(s, n / 10) && n >= 10 && c as int == 0x30 + n % 10
  {
    var t, m := s + [c], |s|;
    assert Pow10(m + 1) == 10 * Pow10(m) && Pow10(m) == 10 * Pow10(m - 1);
    assert DigitAt(n, 0) == n % 10;
    forall i | 0 <= i < m ensures t[i] == s[i] && DigitAt(n, |t| - 1 - i) == DigitAt(n / 10, m - 1 - i) {
      ShiftedDigit(n, m - 1 - i);
    }
    hide DigitAt, Pow10;
    assert t[m] == c;
  }

  lemma SpellsDigit(c: char, n: nat)
    ensures Spells([c], n) <==> n < 10 && c as int == 0x30 + n
  {
    var s := [c];
    assert Pow10(0) == 1 && Pow10(1) == 10 && DigitAt(n, 0) == n % 10;
    assert Spells(s, n) ==> s[0] as int == 0x30 + DigitAt(n, |s| - 1 - 0);
    hide DigitAt, Pow10;
  }

  /** `Decimal` writes the numeral, and nothing else is one. */
  lemma {:induction false} DecimalSpells(n: nat, s: string)
    ensures Spells(s, n) <==> s == Decimal(n)
    decreases n
  {
    if |s| == 1 {
      SpellsDigit(s[0], n);
      assert s == [s[0]];
    } else if |s| > 1 {
      var front, last := s[..|s| - 1], s[|s| - 1];
      assert s == front + [last];
      SpellsStep(front, last, n);
      if n >= 10 {
        DecimalSpells(n / 10, front);
      }
    }
  }

  // ---------- prefixes ----------

  predicate StartsWith(s: string, prefix: string) {
    prefix <= s
  }

  /** `strip_prefix`. */
  function StripPrefix(s: string, prefix: string): string
    requires StartsWith(s, prefix)
  {
    s[|prefix|..]
  }

  // ---------- store keys ----------

  /** `Server::key`: the hash-map key of a record of a corpus. */
  function StoreKey(corpusId: string, id: string): string {
    corpusId + ":" + id
  }

  /** Two records of different corpora can share a key, because both parts may hold colons. */
  lemma StoreKeysCollide()
    ensures StoreKey("a", "b:c") == StoreKey("a:b", "c")
  {
  }

  lemma StoreKeyPrefix(corpusId: string, id: string)
    ensures StartsWith(StoreKey(corpusId, id), corpusId + ":")
  {
    assert StoreKey(corpusId, id) == (corpusId + ":") + id;
  }

  lemma StoreKeyInjective(corpusId: string, a: string, b: string)
    requires StoreKey(corpusId, a) == StoreKey(corpusId, b)
    ensures a == b
  {
    assert StoreKey(corpusId, a) == (corpusId + ":") + a && StoreKey(corpusId, b) == (corpusId + ":") + b;
    assert a == StoreKey(corpusId, a)[|corpusId + ":"|..];
    assert b == StoreKey(corpusId, b)[|corpusId + ":"|..];
  }
}
