/** Text helpers shared by the report writers. */
module TextLines {

  /** `"\n".join(lines)` */
  function JoinLines(lines: seq<string>): string {
    if lines == [] then ""
    else if |lines| == 1 then lines[0]
    else lines[0] + "\n" + JoinLines(lines[1..])
  }

  /** `", ".join(items)` */
  function JoinComma(items: seq<string>): string {
    if items == [] then ""
    else if |items| == 1 then items[0]
    else items[0] + ", " + JoinComma(items[1..])
  }

  function Decimal(n: nat): string {
    if n < 10 then [('0' as int + n) as char] else Decimal(n / 10) + [('0' as int + n % 10) as char]
  }

  function SignedDecimal(n: int): string {
    if n < 0 then "-" + Decimal(-n) else Decimal(n)
  }

  lemma JoinLinesCons(l: string, lines: seq<string>)
    requires lines != []
    ensures JoinLines([l] + lines) == l + "\n" + JoinLines(lines)
  {
    assert ([l] + lines)[1..] == lines;
  }

  lemma JoinOne(l: string)
    ensures JoinLines([l]) == l && JoinComma([l]) == l && JoinLines([]) == "" && JoinComma([]) == ""
  {
  }

  lemma JoinCommaCons(x: string, items: seq<string>)
    requires items != []
    ensures JoinComma([x] + items) == x + ", " + JoinComma(items)
  {
    assert ([x] + items)[1..] == items;
  }

  /** The number that decimal digits stand for. */
  function Value(s: string): int {
    if s == "" then 0 else 10 * Value(s[..|s| - 1]) + (s[|s| - 1] as int - '0' as int)
  }

  /** Decimal digits without leading zeros, standing for the number. */
  lemma {:induction false} DecimalReads(n: nat)
    ensures Value(Decimal(n)) == n && Decimal(n) != ""
    ensures forall i :: 0 <= i < |Decimal(n)| ==> '0' <= Decimal(n)[i] <= '9'
    ensures n > 0 ==> Decimal(n)[0] != '0'
  {
    if n < 10 {
      assert Decimal(n)[..0] == "";
    } else {
      DecimalReads(n / 10);
      assert Decimal(n)[..|Decimal(n)| - 1] == Decimal(n / 10);
    }
  }

  lemma SignedDecimalReads(n: int)
    ensures n >= 0 ==> SignedDecimal(n) == Decimal(n)
    ensures n < 0 ==> SignedDecimal(n) == "-" + Decimal(0 - n)
  {
  }
}
