/**
 Names of the datasets inside a container (src/dzfile-intern.cc): "algorithm" holds the tag,
 "block%d" holds the compressed blocks.
 */
module DatasetNames {
  const ALGORITHM := "algorithm"

  function Digit(d: nat): char
    requires d < 10
  {
    ('0' as int + d) as char
  }

  /** Decimal digits, as printf writes them. */
  function Decimal(n: nat): string {
    if n < 10 then [Digit(n)] else Decimal(n / 10) + [Digit(n % 10)]
  }

  /** printf's "%d". */
  function FormatInt(i: int): string {
    if i < 0 then "-" + Decimal(-i) else Decimal(i)
  }

  function BlockName(i: int): string {
    "block" + FormatInt(i)
  }

  /** Reading the digits back. */
  function Value(s: string): int {
    if s == "" then 0 else Value(s[..|s| - 1]) * 10 + (s[|s| - 1] as int - '0' as int)
  }

  lemma {:induction false} ValueOfDecimal(n: nat)
    ensures Value(Decimal(n)) == n
  {
    if n < 10 {
      assert Decimal(n)[..0] == "";
    } else {
      ValueOfDecimal(n / 10);
      assert Decimal(n)[..|Decimal(n)| - 1] == Decimal(n / 10);
    }
  }

  lemma {:induction false} DecimalStartsWithDigit(n: nat)
    ensures |Decimal(n)| > 0 && Decimal(n)[0] != '-'
  {
    if n >= 10 {
      DecimalStartsWithDigit(n / 10);
    }
  }

  lemma FormatIntInjective(i: int, j: int)
    requires FormatInt(i) == FormatInt(j)
    ensures i == j
  {
    var m, n := if i < 0 then -i else i, if j < 0 then -j else j;
    DecimalStartsWithDigit(m);
    DecimalStartsWithDigit(n);
    ValueOfDecimal(m);
    ValueOfDecimal(n);
    if i < 0 {
      assert FormatInt(i)[0] == '-';
      assert Decimal(m) == FormatInt(i)[1..] == FormatInt(j)[1..] == Decimal(n);
    } else {
      assert FormatInt(j)[0] != '-';
    }
  }

  /** Decimal digits, and no zero in front of others. */
  predicate Numeral(s: string) {
    |s| > 0 && (forall i :: 0 <= i < |s| ==> '0' <= s[i] <= '9') && (|s| > 1 ==> s[0] != '0')
  }

  lemma {:induction false} DecimalIsNumeral(n: nat)
    ensures Numeral(Decimal(n)) && (n > 0 ==> Decimal(n)[0] != '0')
  {
    if n >= 10 {
      DecimalIsNumeral(n / 10);
    }
  }

  /** The name of a block is "block" and the block's number in decimal. */
  lemma BlockNameText(i: nat)
    ensures |BlockName(i)| > 5 && BlockName(i)[..5] == "block"
    ensures Numeral(BlockName(i)[5..]) && Value(BlockName(i)[5..]) == i
    ensures BlockName(0) == "block0" && BlockName(10) == "block10" && BlockName(511) == "block511"
  {
    DecimalIsNumeral(i);
    ValueOfDecimal(i);
    assert BlockName(i)[5..] == Decimal(i);
    assert Decimal(0) == "0" && Decimal(10) == "10" && Decimal(51) == "51" && Decimal(511) == "511";
  }

  /** "block%d" names each count once. */
  lemma BlockNameInjective(i: int, j: int)
    requires BlockName(i) == BlockName(j)
    ensures i == j
  {
    assert FormatInt(i) == BlockName(i)[5..] == BlockName(j)[5..] == FormatInt(j);
    FormatIntInjective(i, j);
  }

  /** No block is filed under the name of the tag. */
  lemma BlockNameNotAlgorithm(i: int)
    ensures BlockName(i) != ALGORITHM
  {
    assert BlockName(i)[0] == 'b' && ALGORITHM[0] == 'a';
  }
}
