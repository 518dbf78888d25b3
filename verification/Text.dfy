/** The few string operations the rest needs: trimming, lower case, removing a character. */
module Text {
  // Letter case and white space beyond ASCII belong to the Unicode tables, whatever they say.
  datatype Unicode = Unicode(lower: char -> char, space: char -> bool)

  function Lower(tables: Unicode, c: char): char {
    if 'A' <= c <= 'Z' then c + 32 as char else if c < 128 as char then c else tables.lower(c)
  }

  predicate IsSpace(tables: Unicode, c: char) {
    if c < 128 as char then c == ' ' || '\t' <= c <= '\r' else tables.space(c)
  }

  function TrimLeft(s: string, drop: char -> bool): (r: string)
    ensures |r| <= |s|
  {
    if s != "" && drop(s[0]) then TrimLeft(s[1..], drop) else s
  }

  function TrimRight(s: string, drop: char -> bool): (r: string)
    ensures |r| <= |s|
  {
    if s != "" && drop(s[|s| - 1]) then TrimRight(s[..|s| - 1], drop) else s
  }

  function TrimSpace(tables: Unicode, s: string): string {
    TrimRight(TrimLeft(s, c => IsSpace(tables, c)), c => IsSpace(tables, c))
  }

  function ToLower(tables: Unicode, s: string): (r: string)
    ensures |r| == |s| && forall i :: 0 <= i < |s| ==> r[i] == Lower(tables, s[i])
  {
    seq(|s|, i requires 0 <= i < |s| => Lower(tables, s[i]))
  }

  function Without(s: string, c: char): (r: string)
    ensures c !in r
  {
    if s == "" then "" else (if s[0] == c then "" else [s[0]]) + Without(s[1..], c)
  }

  // ----- Digits -----

  predicate IsDigit(c: char) {
    '0' <= c <= '9'
  }

  predicate AllDigits(s: string) {
    forall i :: 0 <= i < |s| ==> IsDigit(s[i])
  }

  function DecimalValue(s: string): nat
    requires AllDigits(s)
  {
    if s == [] then 0
    else
      var last := s[|s| - 1];
      assert IsDigit(last);
      10 * DecimalValue(s[..|s| - 1]) + (last as int - '0' as int)
  }

  function Decimal(n: nat): (r: string)
    ensures r != "" && AllDigits(r)
  {
    (if n < 10 then "" else Decimal(n / 10)) + [('0' as int + n % 10) as char]
  }

  lemma {:induction false} DecimalReadsBack(n: nat)
    ensures DecimalValue(Decimal(n)) == n
  {
    var r := Decimal(n);
    if n >= 10 {
      DecimalReadsBack(n / 10);
      assert r[..|r| - 1] == Decimal(n / 10);
    } else {
      assert r[..|r| - 1] == "";
    }
  }

  /** Every run of digits is a decimal number with zeros in front, and its value is that number. */
  lemma {:induction false} DigitsAreDecimal(s: string) returns (zeros: nat, n: nat)
    requires s != "" && AllDigits(s)
    ensures s == Zeros(zeros) + Decimal(n) && DecimalValue(s) == n
    decreases |s|
  {
    var front, last := s[..|s| - 1], s[|s| - 1];
    assert IsDigit(last);
    var digit := last as int - '0' as int;
    assert s == front + [last];
    if front == "" {
      zeros, n := 0, digit;
      assert DecimalValue(front) == 0;
      assert Zeros(0) + Decimal(n) == Decimal(n) == "" + [('0' as int + n % 10) as char];
    } else {
      var z, m := DigitsAreDecimal(front);
      n := 10 * m + digit;
      if m == 0 {
        zeros := z + 1;
        assert Decimal(0) == "" + ['0'] && Decimal(n) == "" + [last];
        ZerosMore(z);
        assert s == Zeros(z) + ("" + ['0']) + [last];
      } else {
        zeros := z;
        assert n / 10 == m && n % 10 == digit;
        assert Decimal(n) == Decimal(m) + [last];
      }
    }
  }

  function Zeros(n: nat): string {
    if n == 0 then "" else "0" + Zeros(n - 1)
  }

  lemma {:induction false} ZerosMore(n: nat)
    ensures Zeros(n) + "0" == Zeros(n + 1)
  {
    if n > 0 {
      ZerosMore(n - 1);
      assert "0" + Zeros(n - 1) + "0" == "0" + (Zeros(n - 1) + "0");
    }
  }
}
