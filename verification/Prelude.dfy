/** Small datatypes and the decimal notation shared by the other modules.

    A Go string is a byte string; it is modelled as a Dafny string whose
    characters stand for single bytes. */
module Prelude {
  datatype Option<+T> = None | Some(value: T)

  datatype Result<+T, +E> = Success(value: T) | Failure(error: E)
}

/** Searching in strings, as Go's strings package does. */
module Text {
  /** Index of the first c, or -1. */
  function IndexOf(s: string, c: char): (k: int)
    ensures -1 <= k < |s|
    ensures k >= 0 ==> s[k] == c && c !in s[..k]
    ensures k < 0 ==> c !in s
  {
    if s == "" then -1
    else if s[0] == c then 0
    else
      var k := IndexOf(s[1..], c);
      if k < 0 then -1
      else
        assert s[..k + 1] == [s[0]] + s[1..][..k];
        k + 1
  }

  /** Index of the last c, or -1. */
  function LastIndexOf(s: string, c: char): (k: int)
    ensures -1 <= k < |s|
    ensures k >= 0 ==> s[k] == c
    ensures forall i :: k < i < |s| ==> s[i] != c
  {
    if s == "" then -1
    else if s[|s| - 1] == c then |s| - 1
    else LastIndexOf(s[..|s| - 1], c)
  }

  /** The first occurrence is found at the end of a part that has none. */
  lemma {:induction false} IndexOfJoined(a: string, c: char, b: string)
    requires c !in a
    ensures IndexOf(a + [c] + b, c) == |a|
  {
    if a == "" {
      assert (a + [c] + b)[0] == c;
    } else {
      IndexOfJoined(a[1..], c, b);
      assert (a + [c] + b)[1..] == a[1..] + [c] + b;
    }
  }

  /** A separator that does not occur in the second part is found again. */
  lemma {:induction false} LastIndexOfJoined(a: string, c: char, b: string)
    requires c !in b
    ensures LastIndexOf(a + [c] + b, c) == |a|
  {
    var s := a + [c] + b;
    if b == "" {
      assert s[|s| - 1] == c;
    } else {
      var last := |b| - 1;
      assert s[|s| - 1] == b[last];
      assert s[..|s| - 1] == a + [c] + b[..last];
      LastIndexOfJoined(a, c, b[..last]);
    }
  }
}

/** Decimal numerals as Go's strconv reads and writes them. */
module Decimal {
  import opened Prelude

  /** The largest value of Go's 64-bit int. */
  const MAX_INT: int := 0x7FFF_FFFF_FFFF_FFFF

  predicate IsDigit(c: char) {
    '0' <= c <= '9'
  }

  predicate AllDigits(s: string) {
    forall i :: 0 <= i < |s| ==> IsDigit(s[i])
  }

  function DigitOf(d: nat): (c: char)
    requires d < 10
    ensures IsDigit(c)
  {
    ('0' as int + d) as char
  }

  /** The number a run of digits denotes; leading zeros are allowed. */
  function Value(s: string): nat
    requires AllDigits(s)
  {
    if s == "" then 0
    else 10 * Value(s[..|s| - 1]) + (s[|s| - 1] as int - '0' as int)
  }

  /** strconv.Itoa on a non-negative number. */
  function Itoa(n: nat): (s: string)
    ensures AllDigits(s) && |s| >= 1
    ensures n >= 10 ==> |s| >= 2
  {
    if n < 10 then [DigitOf(n)] else Itoa(n / 10) + [DigitOf(n % 10)]
  }

  /** The verb %02d on a non-negative number. */
  function Pad2(n: nat): (s: string)
    ensures AllDigits(s) && |s| >= 2
  {
    if n < 10 then "0" + Itoa(n) else Itoa(n)
  }

  /** strconv.Atoi: an optional sign, at least one digit, and a 64-bit range. */
  function Atoi(s: string): Option<int> {
    var signed := s != "" && (s[0] == '+' || s[0] == '-');
    var digits := if signed then s[1..] else s;
    if digits == "" || !AllDigits(digits) then None
    else
      var v: int := Value(digits);
      var n := if signed && s[0] == '-' then -v else v;
      if -MAX_INT - 1 <= n <= MAX_INT then Some(n) else None
  }

  lemma {:induction false} ItoaValue(n: nat)
    ensures Value(Itoa(n)) == n
  {
    var s := Itoa(n);
    if n < 10 {
      assert s[..|s| - 1] == "";
    } else {
      assert s[..|s| - 1] == Itoa(n / 10);
      ItoaValue(n / 10);
    }
  }

  /** A numeral as Itoa writes it: no sign and no leading zero. */
  predicate IsCanonical(s: string) {
    AllDigits(s) && s != "" && (|s| == 1 || s[0] != '0')
  }

  lemma {:induction false} ItoaIsCanonical(n: nat)
    ensures IsCanonical(Itoa(n)) && (n > 0 ==> Itoa(n)[0] != '0')
  {
    if n >= 10 {
      ItoaIsCanonical(n / 10);
      assert Itoa(n)[0] == Itoa(n / 10)[0];
    }
  }

  /** Canonical numerals are those that survive reading and writing. */
  lemma {:induction false} ItoaOfValue(s: string)
    requires AllDigits(s) && s != ""
    ensures Itoa(Value(s)) == s <==> IsCanonical(s)
  {
    ItoaIsCanonical(Value(s));
    if IsCanonical(s) {
      CanonicalIsKept(s);
    }
  }

  lemma {:induction false} CanonicalIsKept(s: string)
    requires IsCanonical(s)
    ensures Itoa(Value(s)) == s && (|s| > 1 ==> Value(s) >= 10)
  {
    var front, last := s[..|s| - 1], s[|s| - 1];
    assert IsDigit(last);
    if |s| == 1 {
      assert front == "" && s == [last];
    } else {
      CanonicalIsKept(front);
      assert Value(front) >= 1 by {
        if |front| == 1 {
          assert front[..0] == "";
          assert IsDigit(front[0]) && front[0] != '0';
        }
      }
      var d: nat := last as int - '0' as int;
      assert Value(s) == 10 * Value(front) + d && Value(s) / 10 == Value(front) && Value(s) % 10 == d;
      assert DigitOf(d) == last;
      assert s == front + [last];
    }
  }

  lemma {:induction false} Pad2Value(n: nat)
    ensures Value(Pad2(n)) == n
  {
    ItoaValue(n);
    if n < 10 {
      var s := Pad2(n);
      assert s[..1] == "0";
      assert "0"[..0] == "";
      assert Value("0") == 0;
    }
  }

  lemma AtoiItoa(n: nat)
    requires n <= MAX_INT
    ensures Atoi(Itoa(n)) == Some(n)
  {
    ItoaValue(n);
    assert IsDigit(Itoa(n)[0]);
  }
}
