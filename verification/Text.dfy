/** Decimal text and the unambiguous splitting of separated text. Text is a byte string. */
module Text {
  import opened ByteStrings

  const DOT: byte := 46
  const COLON: byte := 58
  const BAR: byte := 124

  /** Decimal digits without leading zeros. */
  function Decimal(n: nat): (s: Bytes)
    ensures |s| >= 1 && forall i :: 0 <= i < |s| ==> 48 <= s[i] < 58
  {
    if n < 10 then [48 + n] else Decimal(n / 10) + [48 + n % 10]
  }

  function DecimalValue(s: Bytes): int {
    if s == [] then 0 else 10 * DecimalValue(s[..|s| - 1]) + (s[|s| - 1] as int - 48)
  }

  lemma {:induction false} DecimalReadsBack(n: nat)
    ensures DecimalValue(Decimal(n)) == n
  {
    if n < 10 {
      assert Decimal(n)[..0] == [];
    } else {
      DecimalReadsBack(n / 10);
      assert Decimal(n)[..|Decimal(n)| - 1] == Decimal(n / 10);
    }
  }

  lemma DecimalInjective(m: nat, n: nat)
    requires Decimal(m) == Decimal(n)
    ensures m == n
  {
    DecimalReadsBack(m);
    DecimalReadsBack(n);
  }

  /** Text before the first separator is determined, and so is what follows it. */
  lemma SplitFirst(a: Bytes, x: Bytes, b: Bytes, y: Bytes, sep: byte)
    requires sep !in a && sep !in b
    requires a + [sep] + x == b + [sep] + y
    ensures a == b && x == y
  {
    var s := a + [sep] + x;
    assert s[|a|] == sep && s[|b|] == sep;
    assert |a| == |b|;
    assert s[..|a|] == a && s[..|b|] == b;
    assert s[|a| + 1..] == x && s[|b| + 1..] == y;
  }

  /** The same for the last separator. */
  lemma SplitLast(x: Bytes, a: Bytes, y: Bytes, b: Bytes, sep: byte)
    requires sep !in a && sep !in b
    requires x + [sep] + a == y + [sep] + b
    ensures x == y && a == b
  {
    var s := x + [sep] + a;
    assert s[|x|] == sep && s[|y|] == sep;
    assert |x| == |y|;
    assert s[..|x|] == x && s[..|y|] == y;
    assert s[|x| + 1..] == a && s[|y| + 1..] == b;
  }

  // ---- Reading text ----------------------------------------------------------------------

  /** The number a decimal numeral stands for; no sign, no leading zero. */
  function ReadDecimal(s: Bytes): Option<int> {
    if s != [] && (forall i :: 0 <= i < |s| ==> 48 <= s[i] <= 57) && (s[0] == 48 ==> |s| == 1)
    then Some(DecimalValue(s)) else None
  }

  lemma {:induction false} NoLeadingZero(n: nat)
    ensures Decimal(n)[0] == 48 ==> n == 0
  {
    if n >= 10 {
      NoLeadingZero(n / 10);
      assert Decimal(n)[0] == Decimal(n / 10)[0];
    }
  }

  lemma DecimalReads(n: nat)
    ensures ReadDecimal(Decimal(n)) == Some(n)
  {
    DecimalReadsBack(n);
    NoLeadingZero(n);
  }

  /** The text between separators. */
  function Fields(s: Bytes, sep: byte): (fields: seq<Bytes>)
    ensures |fields| >= 1
  {
    if s == [] then [[]]
    else if s[0] == sep then [[]] + Fields(s[1..], sep)
    else
      var rest := Fields(s[1..], sep);
      [[s[0]] + rest[0]] + rest[1..]
  }

  lemma {:induction false} FieldsCons(a: Bytes, rest: Bytes, sep: byte)
    requires sep !in a
    ensures Fields(a, sep) == [a] && Fields(a + [sep] + rest, sep) == [a] + Fields(rest, sep)
    decreases |a|
  {
    if a == [] {
      assert a + [sep] + rest == [sep] + rest && ([sep] + rest)[1..] == rest;
    } else {
      FieldsCons(a[1..], rest, sep);
      assert (a + [sep] + rest)[1..] == a[1..] + [sep] + rest;
      assert [a[0]] + a[1..] == a;
    }
  }
}
