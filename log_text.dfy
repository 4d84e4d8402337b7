/** The text of the game's log lines. Numbers are printed the way a JavaScript
    template literal prints an integer: decimal digits, no leading zeros, and a
    leading '-' for negative values. */
module LogText {

  /** The character of one decimal digit. */
  function DigitChar(d: int): (c: char)
    requires 0 <= d < 10
    ensures '0' <= c <= '9'
    ensures c as int - '0' as int == d
  {
    (d + '0' as int) as char
  }

  predicate IsDigits(s: string)
  {
    forall i :: 0 <= i < |s| ==> '0' <= s[i] <= '9'
  }

  /** Decimal digits of a natural number, most significant first. */
  function NatToString(n: nat): (s: string)
    ensures 1 <= |s| && IsDigits(s)
    ensures s[0] == '0' <==> n == 0
    ensures n < 10 ==> s == [DigitChar(n)]
    decreases n
  {
    if n < 10 then [DigitChar(n)] else NatToString(n / 10) + [DigitChar(n % 10)]
  }

  /** The value a string of decimal digits denotes; the inverse of NatToString. */
  function DigitsValue(s: string): nat
    requires IsDigits(s)
  {
    if s == [] then 0 else DigitsValue(s[..|s| - 1]) * 10 + (s[|s| - 1] as int - '0' as int)
  }

  /** Printing a count and reading it back gives the count: no digit is lost or
      reordered, so the numbers in a log line are recoverable from its text. */
  lemma {:induction false} NatToStringRoundTrip(n: nat)
    ensures DigitsValue(NatToString(n)) == n
  {
    var s := NatToString(n);
    if n < 10 {
      assert s[..|s| - 1] == [];
    } else {
      assert s[..|s| - 1] == NatToString(n / 10);
      NatToStringRoundTrip(n / 10);
    }
  }

  function IntToString(n: int): (s: string)
    ensures 1 <= |s|
    ensures s[0] == '-' <==> n < 0
    ensures n < 0 ==> s[1..] == NatToString(-n)
    ensures 0 <= n ==> s == NatToString(n)
  {
    if n < 0 then "-" + NatToString(-n) else NatToString(n)
  }

  /** The refusal line of executeCommand, with the shortfall as `current/cost`. */
  function InsufficientPowerLine(current: int, cost: int): string
  {
    "> ERROR: INSUFFICIENT POWER (" + IntToString(current) + "/" + IntToString(cost) + ")"
  }

  function ExecutingLine(command: string): string
  {
    "> EXECUTING " + command + "..."
  }

  function PowerConsumedLine(cost: int): string
  {
    "> POWER CONSUMED: " + IntToString(cost)
  }

  function BreachedLine(layer: string): string
  {
    "> " + layer + " BREACHED!"
  }

  const BreachFailedLine: string := "> BREACH FAILED - INSUFFICIENT POWER"
  const TraceCompleteLine: string := "> TRACE COMPLETE - CONNECTION TERMINATED"
  const HackSuccessfulLine: string := "> HACK SUCCESSFUL - DATA ACQUIRED"

  /** The lines of a few concrete attacks, written out. */
  lemma SampleLines()
    ensures ExecutingLine("BYPASS.exe") == "> EXECUTING BYPASS.exe..."
    ensures PowerConsumedLine(3) == "> POWER CONSUMED: 3"
    ensures BreachedLine("Firewall") == "> Firewall BREACHED!"
    ensures InsufficientPowerLine(7, 8) == "> ERROR: INSUFFICIENT POWER (7/8)"
  {
    assert DigitChar(3) == '3' && DigitChar(7) == '7' && DigitChar(8) == '8';
  }
}
