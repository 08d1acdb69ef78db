/**
 * Receipt codes (lib/receipt-utils.ts): generation from a timestamp and a
 * random string (both parameters here), display formatting and lookup.
 */
module ReceiptUtils {
  import opened Wrappers
  import opened Types
  import opened Seqs

  // ---------------------------------------------------------------------------
  // Base 36, as `Number.prototype.toString(36)` on a non-negative integer

  /** A base-36 digit in JavaScript's lower-case spelling. */
  function Digit36(d: nat): (c: char)
    requires d < 36
    ensures '0' <= c <= '9' || 'a' <= c <= 'z'
  {
    if d < 10 then ('0' as int + d) as char else ('a' as int + d - 10) as char
  }

  /** The base-36 spelling of `n`, most significant digit first, no leading zeros. */
  function ToBase36(n: nat): (r: string)
    ensures |r| > 0
    ensures forall i :: 0 <= i < |r| ==> '0' <= r[i] <= '9' || 'a' <= r[i] <= 'z'
  {
    if n < 36 then [Digit36(n)] else ToBase36(n / 36) + [Digit36(n % 36)]
  }

  /** An upper-case base-36 digit: 0-9 or A-Z. */
  predicate IsUpperDigit36(c: char) {
    '0' <= c <= '9' || 'A' <= c <= 'Z'
  }

  /** The value of an upper-case base-36 digit. */
  function DigitValue(c: char): nat
    requires IsUpperDigit36(c)
  {
    if c <= '9' then c as int - '0' as int else c as int - 'A' as int + 10
  }

  /** Reads an upper-case base-36 numeral back into a number. */
  function FromBase36(s: string): nat
    requires forall i :: 0 <= i < |s| ==> IsUpperDigit36(s[i])
  {
    if s == [] then 0 else FromBase36(s[..|s| - 1]) * 36 + DigitValue(s[|s| - 1])
  }

  /** Upper-casing distributes over appending one character. */
  lemma UpperSnoc(s: string, c: char)
    ensures Upper(s + [c]) == Upper(s) + [UpperChar(c)]
  {
  }

  /** The upper-cased base-36 spelling of `n` uses only 0-9 and A-Z and reads back as `n`. */
  lemma {:induction false} Base36RoundTrip(n: nat)
    ensures forall i :: 0 <= i < |Upper(ToBase36(n))| ==> IsUpperDigit36(Upper(ToBase36(n))[i])
    ensures FromBase36(Upper(ToBase36(n))) == n
    decreases n
  {
    if n >= 36 {
      Base36RoundTrip(n / 36);
      UpperSnoc(ToBase36(n / 36), Digit36(n % 36));
      var u := Upper(ToBase36(n));
      assert u[..|u| - 1] == Upper(ToBase36(n / 36));
    }
  }

  // ---------------------------------------------------------------------------
  // The receipt-code operations

  /** `s.substring(a, b)`: both bounds are clamped to the string, and swapped if reversed. */
  function Substring(s: string, a: int, b: int): (r: string)
    ensures |r| <= |s|
  {
    var lo := if a < 0 then 0 else if a > |s| then |s| else a;
    var hi := if b < 0 then 0 else if b > |s| then |s| else b;
    if lo <= hi then s[lo..hi] else s[hi..lo]
  }

  /**
   * `generateReceiptCode` with `Date.now()` as `timestamp` and the text of
   * `Math.random().toString(36)` (a "0." followed by digits) as `random36`.
   */
  function GenerateReceiptCode(timestamp: nat, random36: string): (r: string)
    ensures var stamp := Upper(ToBase36(timestamp));
            && r == stamp + "-" + Upper(Substring(random36, 2, 6))
            && (forall i :: 0 <= i < |stamp| ==> IsUpperDigit36(stamp[i]))
            && FromBase36(stamp) == timestamp
    ensures r != "" && '-' in r
    ensures |r| <= |ToBase36(timestamp)| + 5
  {
    Base36RoundTrip(timestamp);
    Upper(ToBase36(timestamp)) + "-" + Upper(Substring(random36, 2, 6))
  }

  /** `formatReceiptCode`: "N/A" for a missing or empty code, otherwise every '-' becomes a space. */
  function FormatReceiptCode(code: Option<string>): (r: string)
    ensures !Truthy(code) ==> r == "N/A"
    ensures Truthy(code) ==> |r| == |code.value|
    ensures Truthy(code) ==> forall i :: 0 <= i < |r| ==>
              r[i] == (if code.value[i] == '-' then ' ' else code.value[i])
    ensures '-' !in r && r != ""
  {
    if !Truthy(code) then "N/A"
    else seq(|code.value|, i requires 0 <= i < |code.value| => if code.value[i] == '-' then ' ' else code.value[i])
  }

  /** Formatting an already formatted code changes nothing. */
  lemma FormatIdempotent(code: Option<string>)
    ensures FormatReceiptCode(Some(FormatReceiptCode(code))) == FormatReceiptCode(code)
  {
    var r := FormatReceiptCode(code);
    assert forall i :: 0 <= i < |r| ==> r[i] != '-';
  }

  /**
   * `validateReceiptCode`: some sale carries exactly this code. A legacy sale
   * without a code (stored as "") matches nothing, so "" never validates.
   */
  function ValidateReceiptCode(code: string, sales: seq<Sale>): (r: bool)
    ensures r <==> exists s :: s in sales && s.receiptCode != "" && s.receiptCode == code
    ensures code == "" ==> !r
  {
    Any(sales, (s: Sale) => s.receiptCode != "" && s.receiptCode == code)
  }

  /** Recording a sale makes its own code valid and leaves every other code's answer as it was. */
  lemma ValidateAfterRecord(code: string, sales: seq<Sale>, s: Sale)
    ensures ValidateReceiptCode(code, sales + [s])
            == (ValidateReceiptCode(code, sales) || (code != "" && s.receiptCode == code))
  {
    assert forall x :: x in sales + [s] <==> x in sales || x == s;
  }
}
