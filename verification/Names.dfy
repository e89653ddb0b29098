/**
  Generated names: the decimal printer, and the two name shapes the library
  builds from it ("topic_reader_N" and "prefix-D-N").
*/
module Names {

  function Digit(d: nat): char
    requires d < 10
  {
    "0123456789"[d]
  }

  function DigitValue(c: char): nat {
    if '0' <= c <= '9' then (c - '0') as nat else 0
  }

  predicate IsDigit(c: char) {
    '0' <= c <= '9'
  }

  /** std::to_string on a non-negative int. */
  function Decimal(n: nat): string {
    if n < 10 then [Digit(n)] else Decimal(n / 10) + [Digit(n % 10)]
  }

  /** std::to_string on an int. */
  function DecimalInt(n: int): string {
    if n < 0 then "-" + Decimal(-n) else Decimal(n)
  }

  /** std::stoi, on the digit strings it is applied to. */
  function ParseDecimal(s: string): nat {
    if s == [] then 0 else 10 * ParseDecimal(s[..|s| - 1]) + DigitValue(s[|s| - 1])
  }

  lemma DigitHasItsValue(d: nat)
    requires d < 10
    ensures IsDigit(Digit(d)) && DigitValue(Digit(d)) == d
  {
  }

  /** Printed naturals are digits, without leading zeros, and are read back. */
  lemma {:induction false} ParseInvertsDecimal(n: nat)
    ensures ParseDecimal(Decimal(n)) == n
    ensures Decimal(n) != [] && (Decimal(n)[0] == '0' ==> Decimal(n) == "0")
    ensures forall c :: c in Decimal(n) ==> IsDigit(c)
  {
    assert "0"[..0] == [] && ParseDecimal("0") == 0;
    hide Digit, DigitValue, IsDigit;
    DigitHasItsValue(n % 10);
    if n < 10 {
      assert Decimal(n)[..0] == [];
    } else {
      ParseInvertsDecimal(n / 10);
      var s := Decimal(n / 10);
      assert (s + [Digit(n % 10)])[..|s|] == s;
      assert ParseDecimal(s + [Digit(n % 10)]) == 10 * ParseDecimal(s) + n % 10;
    }
  }

  lemma {:induction false} DecimalInjective(m: nat, n: nat)
    ensures Decimal(m) == Decimal(n) <==> m == n
  {
    ParseInvertsDecimal(m);
    ParseInvertsDecimal(n);
  }

  /** A minus sign for the negative numbers alone, and then the digits. */
  lemma ParseInvertsDecimalInt(n: int)
    ensures if n < 0 then |DecimalInt(n)| > 1 && DecimalInt(n)[0] == '-' && ParseDecimal(DecimalInt(n)[1..]) == -n
            else ParseDecimal(DecimalInt(n)) == n && forall c :: c in DecimalInt(n) ==> IsDigit(c)
  {
    ParseInvertsDecimal(if n < 0 then -n else n);
  }

  lemma DecimalIntInjective(m: int, n: int)
    ensures DecimalInt(m) == DecimalInt(n) <==> m == n
  {
    var a, b := if m < 0 then -m else m, if n < 0 then -n else n;
    ParseInvertsDecimal(a);
    ParseInvertsDecimal(b);
    if m < 0 && n < 0 {
      assert DecimalInt(m)[1..] == Decimal(a) && DecimalInt(n)[1..] == Decimal(b);
    } else if m < 0 {
      assert DecimalInt(m)[0] == '-' && DecimalInt(n)[0] in Decimal(b);
    } else if n < 0 {
      assert DecimalInt(n)[0] == '-' && DecimalInt(m)[0] in Decimal(a);
    }
  }

  /** What follows the last separator: s.substr(s.find_last_of(sep) + 1). */
  function AfterLast(s: string, sep: char): string {
    if s == [] || s[|s| - 1] == sep then []
    else AfterLast(s[..|s| - 1], sep) + [s[|s| - 1]]
  }

  lemma {:induction false} AfterLastOfJoin(a: string, b: string, sep: char)
    requires sep !in b
    ensures AfterLast(a + [sep] + b, sep) == b
  {
    var s := a + [sep] + b;
    if b == [] {
    } else {
      var b' := b[..|b| - 1];
      assert s[..|s| - 1] == a + [sep] + b';
      AfterLastOfJoin(a, b', sep);
    }
  }

  /** A join with a separator-free right part splits in only one way. */
  lemma JoinInjective(a: string, b: string, a': string, b': string, sep: char)
    requires sep !in b && sep !in b'
    ensures a + [sep] + b == a' + [sep] + b' <==> a == a' && b == b'
  {
    var s, s' := a + [sep] + b, a' + [sep] + b';
    AfterLastOfJoin(a, b, sep);
    AfterLastOfJoin(a', b', sep);
    if s == s' {
      assert a == s[..|a|] && a' == s'[..|a'|];
    }
  }

  /** The name of the k-th content filtered topic of a reader. */
  function FilterName(topic: string, reader: string, k: nat): string {
    topic + "_" + reader + "_" + Decimal(k)
  }

  /** How replaceFilter reads the counter back from a filter name. */
  function FilterCounter(name: string): nat {
    ParseDecimal(AfterLast(name, '_'))
  }

  lemma FilterCounterInvertsName(topic: string, reader: string, k: nat)
    ensures FilterCounter(FilterName(topic, reader, k)) == k
  {
    ParseInvertsDecimal(k);
    AfterLastOfJoin(topic + "_" + reader, Decimal(k), '_');
  }

  lemma FilterNamesEqual(t: string, r: string, k: nat, t': string, r': string, k': nat)
    ensures FilterName(t, r, k) == FilterName(t', r', k')
            <==> k == k' && t + "_" + r == t' + "_" + r'
  {
    ParseInvertsDecimal(k);
    ParseInvertsDecimal(k');
    DecimalInjective(k, k');
    JoinInjective(t + "_" + r, Decimal(k), t' + "_" + r', Decimal(k'), '_');
  }

  /** Within one topic, the reader and the counter can be told from the name. */
  lemma FilterNameInjective(t: string, r: string, k: nat, r': string, k': nat)
    requires FilterName(t, r, k) == FilterName(t, r', k')
    ensures r == r' && k == k'
  {
    FilterNamesEqual(t, r, k, t, r', k');
    assert (t + "_" + r)[|t| + 1..] == r;
    assert (t + "_" + r')[|t| + 1..] == r';
  }

  /** Names joinDomain generates: "config-D-N" and "rtps_udp-D-N". */
  function InstanceName(prefix: string, domain: int, n: nat): string {
    prefix + "-" + DecimalInt(domain) + "-" + Decimal(n)
  }

  lemma InstanceNamesEqual(prefix: string, d: int, n: nat, d': int, n': nat)
    ensures InstanceName(prefix, d, n) == InstanceName(prefix, d', n') <==> d == d' && n == n'
  {
    ParseInvertsDecimal(n);
    ParseInvertsDecimal(n');
    DecimalInjective(n, n');
    DecimalIntInjective(d, d');
    var a, a' := prefix + "-" + DecimalInt(d), prefix + "-" + DecimalInt(d');
    JoinInjective(a, Decimal(n), a', Decimal(n'), '-');
    assert a[|prefix| + 1..] == DecimalInt(d) && a'[|prefix| + 1..] == DecimalInt(d');
  }
}
