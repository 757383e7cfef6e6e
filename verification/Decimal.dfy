/** Decimal text of unsigned 64-bit numbers, as `strconv.ParseUint` and `FormatUint` treat it. */
module Decimal {
  import opened Wrappers
  import opened Bytes

  const LIMIT := 0x1_0000_0000_0000_0000

  predicate IsDigits(s: string)
  {
    s != "" && forall i :: 0 <= i < |s| ==> '0' <= s[i] <= '9'
  }

  function Value(s: string): nat
    requires forall i :: 0 <= i < |s| ==> '0' <= s[i] <= '9'
  {
    if s == "" then 0 else 10 * Value(s[..|s| - 1]) + (s[|s| - 1] as int - '0' as int)
  }

  function ParseUint(s: string): Option<uint64>
  {
    if IsDigits(s) && Value(s) < LIMIT then Some(Value(s)) else None
  }

  function Digit(d: nat): (c: char)
    requires d < 10
    ensures '0' <= c <= '9' && c as int - '0' as int == d
  {
    ('0' as int + d) as char
  }

  function FormatUint(n: nat): (s: string)
    ensures IsDigits(s)
    ensures n > 0 ==> s[0] != '0'
  {
    if n < 10 then [Digit(n)] else FormatUint(n / 10) + [Digit(n % 10)]
  }

  /** Decimal text without superfluous leading zeros and within 64 bits. */
  predicate Canonical(s: string)
  {
    IsDigits(s) && (|s| == 1 || s[0] != '0') && Value(s) < LIMIT
  }

  lemma {:induction false} ParseFormat(n: nat)
    ensures Value(FormatUint(n)) == n
  {
    if n >= 10 {
      ParseFormat(n / 10);
      assert FormatUint(n)[..|FormatUint(n)| - 1] == FormatUint(n / 10);
    } else {
      assert FormatUint(n)[..0] == "";
    }
  }

  lemma {:induction false} ValuePositive(s: string)
    requires IsDigits(s) && s[0] != '0'
    ensures Value(s) > 0
  {
    if |s| > 1 {
      ValuePositive(s[..|s| - 1]);
    } else {
      assert s[..|s| - 1] == "";
    }
  }

  lemma {:induction false} FormatParse(s: string)
    requires IsDigits(s) && (|s| == 1 || s[0] != '0')
    ensures FormatUint(Value(s)) == s
  {
    var front, d := s[..|s| - 1], s[|s| - 1] as int - '0' as int;
    assert s == front + [s[|s| - 1]];
    assert Digit(d) == s[|s| - 1];
    if |s| == 1 {
      assert Value(front) == 0;
    } else {
      ValuePositive(front);
      FormatParse(front);
      assert Value(s) / 10 == Value(front) && Value(s) % 10 == d;
    }
  }

  /** Some texts and their numbers: leading zeros are read, signs and blanks are not. */
  lemma SomeNumbers()
    ensures ParseUint("1094") == Some(1094) && ParseUint("007") == Some(7) && ParseUint("0") == Some(0)
    ensures ParseUint("") == ParseUint("+1") == ParseUint("-1") == ParseUint(" 1") == ParseUint("1a") == None
    ensures FormatUint(1094) == "1094" && FormatUint(0) == "0"
  {
    assert "1094"[..3] == "109" && "109"[..2] == "10" && "10"[..1] == "1" && "1"[..0] == "";
    assert Value("1") == 1 && Value("10") == 10 && Value("109") == 109;
    assert "007"[..2] == "00" && "00"[..1] == "0" && "0"[..0] == "";
    assert Value("0") == 0 && Value("00") == 0;
    assert "+1"[0] == '+' && "-1"[0] == '-' && " 1"[0] == ' ' && "1a"[1] == 'a';
    assert FormatUint(109) == FormatUint(10) + "9" && FormatUint(10) == FormatUint(1) + "0";
  }

  /** Formatting what was parsed gives the text back exactly when the text is canonical. */
  lemma FormatParseIff(s: string)
    requires ParseUint(s).Some?
    ensures FormatUint(ParseUint(s).value) == s <==> Canonical(s)
  {
    var v := Value(s);
    if Canonical(s) {
      FormatParse(s);
    } else {
      assert |s| > 1 && s[0] == '0';
      if v == 0 {
        assert |FormatUint(0)| == 1;
      }
    }
  }
}
