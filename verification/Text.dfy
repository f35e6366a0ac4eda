/** Small text functions. */
module Text {

  /** The parts with the separator between them. */
  function Join(parts: seq<string>, separator: string): string {
    if parts == [] then ""
    else if |parts| == 1 then parts[0]
    else parts[0] + separator + Join(parts[1..], separator)
  }

  /** The decimal digits of n. */
  function Decimal(n: nat): string {
    if n < 10 then ["0123456789"[n]] else Decimal(n / 10) + ["0123456789"[n % 10]]
  }

  /** The number that decimal digits say. */
  function Value(digits: string): int
    decreases |digits|
  {
    if digits == "" then 0
    else 10 * Value(digits[..|digits| - 1]) + (digits[|digits| - 1] as int - '0' as int)
  }

  lemma {:induction false} DecimalSays(n: nat)
    ensures Value(Decimal(n)) == n && Decimal(n) != ""
    ensures forall i :: 0 <= i < |Decimal(n)| ==> '0' <= Decimal(n)[i] <= '9'
  {
    var last := "0123456789"[n % 10];
    assert last as int - '0' as int == n % 10;
    if n < 10 {
      assert Value([last]) == 10 * Value([last][..0]) + n;
    } else {
      DecimalSays(n / 10);
      assert (Decimal(n / 10) + [last])[..|Decimal(n / 10)|] == Decimal(n / 10);
    }
  }

  /** The text with every slash turned into a dot. */
  function SlashesToDots(t: string): (r: string)
    ensures |r| == |t| && '/' !in r
    ensures forall i :: 0 <= i < |t| && t[i] != '/' ==> r[i] == t[i]
    ensures forall i :: 0 <= i < |t| && t[i] == '/' ==> r[i] == '.'
  {
    seq(|t|, i requires 0 <= i < |t| => if t[i] == '/' then '.' else t[i])
  }
}
