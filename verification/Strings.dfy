/** The Go string functions the other modules rely on, and how they invert each other. */
module Strings {
  import opened Options

  /** strings.Split with a one-byte separator. */
  function Split(s: string, sep: char): (parts: seq<string>)
    ensures |parts| >= 1
  {
    if s == "" then [""] else Extend(s[0], Split(s[1..], sep), sep)
  }

  /** The pieces of [c] + s, from the pieces of s. */
  function Extend(c: char, parts: seq<string>, sep: char): (r: seq<string>)
    requires |parts| >= 1
    ensures |r| >= 1
  {
    if c == sep then [""] + parts else [[c] + parts[0]] + parts[1..]
  }

  /** strings.Join with a one-byte separator. */
  function Join(parts: seq<string>, sep: char): string {
    if |parts| == 0 then ""
    else if |parts| == 1 then parts[0]
    else parts[0] + [sep] + Join(parts[1..], sep)
  }

  lemma {:induction false} JoinSplit(s: string, sep: char)
    ensures Join(Split(s, sep), sep) == s
  {
    if s != "" {
      JoinSplit(s[1..], sep);
      var rest := Split(s[1..], sep);
      if s[0] == sep {
        assert ([""] + rest)[1..] == rest;
        assert s == "" + [sep] + s[1..];
      } else {
        assert ([[s[0]] + rest[0]] + rest[1..])[1..] == rest[1..];
      }
    }
  }

  /** The pieces are free of the separator. */
  lemma {:induction false} SplitPieces(s: string, sep: char)
    ensures forall part | part in Split(s, sep) :: sep !in part
  {
    if s != "" {
      SplitPieces(s[1..], sep);
    }
  }

  lemma ExtendConcat(c: char, a: seq<string>, b: seq<string>, sep: char)
    requires |a| >= 1
    ensures Extend(c, a + b, sep) == Extend(c, a, sep) + b
  {
    assert (a + b)[1..] == a[1..] + b;
  }

  /** Splitting distributes over a separator. */
  lemma {:induction false} SplitConcat(a: string, b: string, sep: char)
    ensures Split(a + [sep] + b, sep) == Split(a, sep) + Split(b, sep)
  {
    hide Extend;
    var s := a + [sep] + b;
    if a == "" {
      assert s[0] == sep && s[1..] == b;
      ExtendSep(Split(b, sep), sep);
    } else {
      SplitConcat(a[1..], b, sep);
      assert s[0] == a[0] && s[1..] == a[1..] + [sep] + b;
      ExtendConcat(a[0], Split(a[1..], sep), Split(b, sep), sep);
    }
  }

  lemma ExtendSep(parts: seq<string>, sep: char)
    requires |parts| >= 1
    ensures Extend(sep, parts, sep) == [""] + parts
  {
  }

  lemma {:induction false} SplitOne(s: string, sep: char)
    requires sep !in s
    ensures Split(s, sep) == [s]
  {
    if s != "" {
      SplitOne(s[1..], sep);
      assert [s[0]] + s[1..] == s;
    }
  }

  lemma {:induction false} SplitJoin(parts: seq<string>, sep: char)
    requires |parts| >= 1 && forall part | part in parts :: sep !in part
    ensures Split(Join(parts, sep), sep) == parts
  {
    SplitOne(parts[0], sep);
    if |parts| > 1 {
      SplitJoin(parts[1..], sep);
      SplitConcat(parts[0], Join(parts[1..], sep), sep);
      assert [parts[0]] + parts[1..] == parts;
    }
  }

  /** Joining a longer list is joining its two halves around a separator. */
  lemma {:induction false} JoinConcat(a: seq<string>, b: seq<string>, sep: char)
    requires |a| >= 1 && |b| >= 1
    ensures Join(a + b, sep) == Join(a, sep) + [sep] + Join(b, sep)
  {
    assert (a + b)[1..] == a[1..] + b;
    if |a| > 1 {
      JoinConcat(a[1..], b, sep);
    }
  }

  // ------------------------------------------------------- decimal numbers

  const INT64_LIMIT: int := 0x8000_0000_0000_0000

  predicate IsDigit(c: char) { '0' <= c <= '9' }

  function DigitValue(c: char): int { c as int - '0' as int }

  function DigitChar(d: nat): char
    requires d < 10
  {
    ('0' as int + d) as char
  }

  function Digits(s: string): int {
    if s == "" then 0 else Digits(s[..|s| - 1]) * 10 + DigitValue(s[|s| - 1])
  }

  /** strconv.Atoi: an optional sign and decimal digits, within 64 bits. */
  function Atoi(s: string): Option<int> {
    var digits := if s != "" && (s[0] == '-' || s[0] == '+') then s[1..] else s;
    if digits == "" || exists c | c in digits :: !IsDigit(c) then None
    else
      var n := if s[0] == '-' then -Digits(digits) else Digits(digits);
      if -INT64_LIMIT <= n < INT64_LIMIT then Some(n) else None
  }

  /** strconv.Itoa of a length or an index. */
  function Itoa(n: nat): string {
    if n < 10 then [DigitChar(n)] else Itoa(n / 10) + [DigitChar(n % 10)]
  }

  lemma {:induction false} ItoaDigits(n: nat)
    ensures Itoa(n) != "" && Digits(Itoa(n)) == n && forall c | c in Itoa(n) :: IsDigit(c)
  {
    if n >= 10 {
      ItoaDigits(n / 10);
      assert Itoa(n)[..|Itoa(n)| - 1] == Itoa(n / 10);
    } else {
      assert Itoa(n)[..0] == "";
    }
  }

  /** Atoi reads back what Itoa prints. */
  lemma AtoiItoa(n: nat)
    requires n < INT64_LIMIT
    ensures Atoi(Itoa(n)) == Some(n)
  {
    ItoaDigits(n);
    assert IsDigit(Itoa(n)[0]);
  }

  const DECIMALS: string := "0123456789"

  /** Decimal notation, digit by digit. */
  lemma ItoaIsDecimal(a: nat, d: nat)
    requires d < 10
    ensures Itoa(d) == [DECIMALS[d]]
    ensures a > 0 ==> Itoa(10 * a + d) == Itoa(a) + [DECIMALS[d]]
  {
    assert DigitChar(d) == DECIMALS[d];
  }

  lemma DigitIsDecimal(c: char)
    ensures IsDigit(c) <==> c in DECIMALS
    ensures IsDigit(c) ==> 0 <= DigitValue(c) < 10 && DECIMALS[DigitValue(c)] == c
  {
    assert IsDigit(c) ==> DECIMALS[c as int - '0' as int] == c;
  }

  const UPPERS: string := "ABCDEFGHIJKLMNOPQRSTUVWXYZ"
  const LOWERS: string := "abcdefghijklmnopqrstuvwxyz"

  lemma UpperIsListed(c: char)
    ensures 'A' <= c <= 'Z' <==> c in UPPERS
  {
    if 'A' <= c <= 'Z' { assert UPPERS[c as int - 'A' as int] == c; }
  }

  lemma LowerIsListed(c: char)
    ensures 'a' <= c <= 'z' <==> c in LOWERS
  {
    if 'a' <= c <= 'z' { assert LOWERS[c as int - 'a' as int] == c; }
  }

  function Zeros(k: nat): string {
    seq(k, _ => '0')
  }

  predicate AllDigits(s: string) {
    forall c | c in s :: IsDigit(c)
  }

  lemma {:induction false} DigitsConcat(a: string, n: nat)
    requires Digits(a) == 0
    ensures Digits(a + Itoa(n)) == n
  {
    ItoaIsDecimal(n / 10, n % 10);
    var s, c := a + Itoa(n), DECIMALS[n % 10];
    assert s[|s| - 1] == c;
    DigitIsDecimal(c);
    if n < 10 {
      assert s[..|s| - 1] == a;
    } else {
      DigitsConcat(a, n / 10);
      assert n == 10 * (n / 10) + n % 10;
      assert s[..|s| - 1] == a + Itoa(n / 10);
    }
  }

  lemma {:induction false} ZerosAreZero(k: nat)
    ensures Digits(Zeros(k)) == 0 && AllDigits(Zeros(k))
  {
    if k > 0 {
      ZerosAreZero(k - 1);
      assert Zeros(k)[..k - 1] == Zeros(k - 1);
    }
  }

  lemma DigitsOneMore(front: string, c: char)
    ensures Digits(front + [c]) == 10 * Digits(front) + DigitValue(c)
  {
    assert (front + [c])[..|front|] == front;
  }

  lemma NoDigits()
    ensures Digits("") == 0
  {
  }

  /** One more digit after zeros and a number. */
  lemma NumeralOneMore(k: nat, m: nat, d: nat) returns (k': nat)
    requires d < 10
    ensures Zeros(k) + Itoa(m) + [DECIMALS[d]] == Zeros(k') + Itoa(10 * m + d)
  {
    ItoaIsDecimal(m, d);
    ItoaIsDecimal(0, 0);
    hide Itoa;
    if m == 0 {
      k' := k + 1;
      assert Zeros(k) + [DECIMALS[0]] == Zeros(k');
    } else {
      k' := k;
      assert Zeros(k) + (Itoa(m) + [DECIMALS[d]]) == Zeros(k) + Itoa(m) + [DECIMALS[d]];
    }
  }

  /** Digits are zeros and then a number without leading zeros. */
  lemma {:induction false} DigitsAreNumeral(s: string) returns (k: nat)
    requires s != "" && AllDigits(s)
    ensures Digits(s) >= 0 && s == Zeros(k) + Itoa(Digits(s))
  {
    hide Digits, Itoa, IsDigit, DigitValue, Zeros;
    var front, c := s[..|s| - 1], s[|s| - 1];
    assert c in s && s == front + [c] && forall d | d in front :: d in s;
    DigitIsDecimal(c);
    DigitsOneMore(front, c);
    if front == "" {
      k := 0;
      NoDigits();
      NoZeros();
      ItoaIsDecimal(0, DigitValue(c));
    } else {
      k := DigitsAreNumeral(front);
      k := NumeralOneMore(k, Digits(front), DigitValue(c));
    }
  }

  lemma NoZeros()
    ensures Zeros(0) == ""
  {
  }

  function Signed(sign: string, m: int): int {
    if sign == "-" then -m else m
  }

  /** An optional sign, any number of zeros and a decimal number. */
  predicate Numeral(s: string, sign: string, k: nat, m: nat) {
    (sign == "" || sign == "+" || sign == "-") && s == sign + (Zeros(k) + Itoa(m))
  }

  /** Atoi, given what is the sign and what are the digits. */
  lemma AtoiOfDigits(s: string, sign: string, digits: string)
    requires (sign == "" || sign == "+" || sign == "-") && s == sign + digits && digits != "" && AllDigits(digits)
    ensures var n := Signed(sign, Digits(digits));
            Atoi(s) == if -INT64_LIMIT <= n < INT64_LIMIT then Some(n) else None
  {
    hide Digits;
    assert digits[0] in digits && IsDigit(digits[0]);
    assert s[|sign|..] == digits;
    assert sign == "" ==> s[0] == digits[0] && s == digits;
  }

  /** Whatever Atoi reads is a sign and digits. */
  lemma AtoiSplits(s: string) returns (sign: string, digits: string)
    requires Atoi(s).Some?
    ensures (sign == "" || sign == "+" || sign == "-") && s == sign + digits && digits != "" && AllDigits(digits)
  {
    hide Digits;
    var signed := s != "" && (s[0] == '-' || s[0] == '+');
    sign := if signed then s[..1] else "";
    digits := s[|sign|..];
  }

  /**
   Exactly which texts are read as which integers: an optional sign, any number
   of zeros and a decimal number, as long as the value fits into 64 bits.
   */
  lemma AtoiExact(s: string, n: int)
    ensures Atoi(s) == Some(n) <==>
              && -0x8000_0000_0000_0000 <= n < 0x8000_0000_0000_0000
              && exists sign: string, k: nat, m: nat :: Numeral(s, sign, k, m) && n == Signed(sign, m)
  {
    hide Atoi, Digits, Itoa, Zeros, IsDigit, AllDigits;
    if Atoi(s) == Some(n) {
      var sign, digits := AtoiSplits(s);
      AtoiOfDigits(s, sign, digits);
      var k := DigitsAreNumeral(digits);
      assert Numeral(s, sign, k, Digits(digits));
    }
    if sign: string, k: nat, m: nat :| Numeral(s, sign, k, m) && n == Signed(sign, m) {
      var digits := Zeros(k) + Itoa(m);
      NumeralDigits(k, m);
      AtoiOfDigits(s, sign, digits);
    }
  }

  lemma NumeralDigits(k: nat, m: nat)
    ensures Digits(Zeros(k) + Itoa(m)) == m && AllDigits(Zeros(k) + Itoa(m)) && Zeros(k) + Itoa(m) != ""
  {
    hide Digits, Itoa, Zeros;
    ZerosAreZero(k);
    DigitsConcat(Zeros(k), m);
    ItoaDigits(m);
  }

  // ------------------------------------------------------------ containment

  predicate OccursAt(s: string, sub: string, i: nat) {
    i + |sub| <= |s| && s[i..i + |sub|] == sub
  }

  /** strings.Contains. */
  predicate Contains(s: string, sub: string) {
    exists i | 0 <= i <= |s| :: OccursAt(s, sub, i)
  }
}
