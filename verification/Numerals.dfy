/** Positional numerals as the relay prints them: decimal parameter suffixes and hexadecimal serials. */
module Numerals {

  function DigitChar(k: nat): char
    requires k < 16
  {
    if k < 10 then '0' + k as char else 'a' + (k - 10) as char
  }

  predicate IsDigit(c: char) {
    '0' <= c <= '9'
  }

  datatype Base = Decimal | Hexadecimal

  function Upper(n: nat, base: Base): nat {
    match base case Decimal => n / 10 case Hexadecimal => n / 16
  }

  function Lowest(n: nat, base: Base): (k: nat)
    ensures k < 16 && (base == Decimal ==> k < 10)
  {
    match base case Decimal => n % 10 case Hexadecimal => n % 16
  }

  function Numeral(n: nat, base: Base): string
    decreases n
  {
    if Upper(n, base) == 0 then [DigitChar(n)] else Numeral(Upper(n, base), base) + [DigitChar(Lowest(n, base))]
  }

  /** A numeral is never empty, has no sign, and in base ten consists of digits only. */
  lemma {:induction false} NumeralChars(n: nat, base: Base)
    ensures var s := Numeral(n, base);
            s != "" && (forall c | c in s :: c != '-' && c != '.')
                && (base == Decimal ==> forall c | c in s :: IsDigit(c))
    decreases n
  {
    if Upper(n, base) != 0 {
      NumeralChars(Upper(n, base), base);
    }
  }

  lemma {:induction false} NumeralInjective(m: nat, n: nat, base: Base)
    requires Numeral(m, base) == Numeral(n, base)
    ensures m == n
    decreases m
  {
    var s, t := Numeral(m, base), Numeral(n, base);
    assert s[|s| - 1] == DigitChar(Lowest(m, base)) && t[|t| - 1] == DigitChar(Lowest(n, base));
    NumeralChars(Upper(m, base), base);
    NumeralChars(Upper(n, base), base);
    if Upper(m, base) != 0 && Upper(n, base) != 0 {
      assert s[..|s| - 1] == Numeral(Upper(m, base), base) && t[..|t| - 1] == Numeral(Upper(n, base), base);
      NumeralInjective(Upper(m, base), Upper(n, base), base);
    }
  }

  /** Python's format(i, "x") for integers of either sign. */
  function Hex(i: int): string {
    if i < 0 then "-" + Numeral(-i, Hexadecimal) else Numeral(i, Hexadecimal)
  }

  lemma SignShows(i: int)
    ensures Hex(i) != "" && (Hex(i)[0] == '-' <==> i < 0)
  {
    var s := Numeral(if i < 0 then -i else i, Hexadecimal);
    NumeralChars(if i < 0 then -i else i, Hexadecimal);
    assert s[0] in s;
  }

  lemma HexInjective(i: int, j: int)
    ensures Hex(i) == Hex(j) ==> i == j
  {
    if Hex(i) == Hex(j) {
      SignShows(i);
      SignShows(j);
      if i < 0 {
        assert Hex(i)[1..] == Numeral(-i, Hexadecimal) && Hex(j)[1..] == Numeral(-j, Hexadecimal);
        NumeralInjective(-i, -j, Hexadecimal);
      } else {
        NumeralInjective(i, j, Hexadecimal);
      }
    }
  }

  // ----- what a numeral looks like

  lemma DigitCharIs(k: nat)
    requires k < 16
    ensures DigitChar(k) == "0123456789abcdef"[k]
  {
  }

  /** The value of a text in positional notation. */
  function ValueOf(s: string, radix: nat): nat {
    if s == "" then 0 else
    var c := s[|s| - 1];
    ValueOf(s[..|s| - 1], radix) * radix
    + if '0' <= c <= '9' then (c - '0') as nat else if 'a' <= c <= 'f' then (c - 'a') as nat + 10 else 0
  }

  /** A decimal numeral is the number's digits, without leading zeros. */
  lemma {:induction false} DecimalReads(n: nat)
    ensures ValueOf(Numeral(n, Decimal), 10) == n
    ensures |Numeral(n, Decimal)| > 0 && (Numeral(n, Decimal)[0] == '0' <==> n == 0)
    decreases n
  {
    var s := Numeral(n, Decimal);
    if n / 10 == 0 {
      assert s[..0] == "";
    } else {
      DecimalReads(n / 10);
      assert s[..|s| - 1] == Numeral(n / 10, Decimal);
    }
  }

  /** A hexadecimal numeral is the number's lower-case digits, without leading zeros. */
  lemma {:induction false} HexadecimalReads(n: nat)
    ensures ValueOf(Numeral(n, Hexadecimal), 16) == n
    ensures |Numeral(n, Hexadecimal)| > 0 && (Numeral(n, Hexadecimal)[0] == '0' <==> n == 0)
    ensures forall c | c in Numeral(n, Hexadecimal) :: '0' <= c <= '9' || 'a' <= c <= 'f'
    decreases n
  {
    var s := Numeral(n, Hexadecimal);
    if n / 16 == 0 {
      assert s[..0] == "";
    } else {
      HexadecimalReads(n / 16);
      assert s[..|s| - 1] == Numeral(n / 16, Hexadecimal);
    }
  }
}
