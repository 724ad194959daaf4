/** Segment file names: printed from the segment number, sorted as text, parsed back on reopening. */
module WalNames {
  import opened Options

  const DIGITS := "0123456789"

  predicate IsDigit(c: char) {
    '0' <= c <= '9'
  }

  predicate AllDigits(s: string) {
    forall i :: 0 <= i < |s| ==> IsDigit(s[i])
  }

  function DigitOf(c: char): nat
    requires IsDigit(c)
  {
    (c as int) - ('0' as int)
  }

  /** `n` in decimal, padded with zeros to at least `width` digits. */
  function Padded(n: nat, width: nat): (s: string)
    ensures s != "" && AllDigits(s)
    ensures |s| >= width
    decreases width, n
  {
    if n < 10 && width <= 1 then [DIGITS[n]]
    else Padded(n / 10, if width == 0 then 0 else width - 1) + [DIGITS[n % 10]]
  }

  /** `_segment_path`. */
  function Name(n: nat): string {
    "wal-" + Padded(n, 6) + ".jsonl"
  }

  /** The order in which `sorted` lists the files of a directory. */
  predicate Less(a: string, b: string) {
    b != "" && (a == "" || a[0] < b[0] || (a[0] == b[0] && Less(a[1..], b[1..])))
  }

  // ----- reading the number back ------------------------------------------------------------------

  function Value(s: string): nat
    requires AllDigits(s)
  {
    if s == "" then 0 else Value(s[..|s| - 1]) * 10 + DigitOf(s[|s| - 1])
  }

  /** The text up to the next dash. */
  function Field(s: string): string {
    if s == "" || s[0] == '-' then "" else [s[0]] + Field(s[1..])
  }

  /** `int(stem.split("-")[1])`, failing where that raises. */
  function ParseIndex(name: string): Option<nat> {
    if |name| < 6 then None
    else
      var stem := name[..|name| - 6];
      var first := Field(stem);
      if |first| >= |stem| then None
      else
        var second := Field(stem[|first| + 1..]);
        if second != "" && AllDigits(second) then Some(Value(second)) else None
  }

  lemma {:induction false} PaddedReadsBack(n: nat, width: nat)
    ensures Value(Padded(n, width)) == n
    decreases width, n
  {
    var s := Padded(n, width);
    if n < 10 && width <= 1 {
      assert s[..0] == "";
      assert DigitOf(DIGITS[n]) == n;
    } else {
      var w := if width == 0 then 0 else width - 1;
      PaddedReadsBack(n / 10, w);
      assert s[..|s| - 1] == Padded(n / 10, w);
      assert DigitOf(DIGITS[n % 10]) == n % 10;
    }
  }

  lemma {:induction false} FieldOfDigits(s: string)
    requires AllDigits(s)
    ensures Field(s) == s
  {
    if s != "" {
      FieldOfDigits(s[1..]);
    }
  }

  lemma {:induction false} FieldUpToDash(a: string, b: string)
    requires '-' !in a
    ensures Field(a + "-" + b) == a
  {
    if a != "" {
      assert (a + "-" + b)[1..] == a[1..] + "-" + b;
      FieldUpToDash(a[1..], b);
    }
  }

  /** Every segment's name parses back to its number, however large. */
  lemma NameReadsBack(n: nat)
    ensures ParseIndex(Name(n)) == Some(n)
  {
    var digits := Padded(n, 6);
    var stem := Name(n)[..|Name(n)| - 6];
    assert stem == "wal" + "-" + digits;
    FieldUpToDash("wal", digits);
    assert stem[4..] == digits;
    FieldOfDigits(digits);
    PaddedReadsBack(n, 6);
  }

  // ----- text order and number order ----------------------------------------------------------------

  lemma {:induction false} LessPrefix(p: string, a: string, b: string)
    ensures Less(p + a, p + b) <==> Less(a, b)
  {
    if p == "" {
      assert p + a == a && p + b == b;
    } else {
      assert (p + a)[1..] == p[1..] + a && (p + b)[1..] == p[1..] + b;
      LessPrefix(p[1..], a, b);
    }
  }

  lemma {:induction false} LessSelf(a: string)
    ensures !Less(a, a)
  {
    if a != "" {
      LessSelf(a[1..]);
    }
  }

  /** Texts of one length compare before what follows them. */
  lemma {:induction false} LessThen(a: string, b: string, x: string, y: string)
    requires |a| == |b|
    ensures Less(a + x, b + y) <==> Less(a, b) || (a == b && Less(x, y))
  {
    if a == "" {
      assert a + x == x && b + y == y;
    } else {
      assert (a + x)[1..] == a[1..] + x && (b + y)[1..] == b[1..] + y;
      LessThen(a[1..], b[1..], x, y);
      assert a == [a[0]] + a[1..] && b == [b[0]] + b[1..];
    }
  }

  lemma {:induction false} LessIsValueOrder(a: string, b: string)
    requires |a| == |b| && AllDigits(a) && AllDigits(b)
    ensures Less(a, b) <==> Value(a) < Value(b)
    ensures Value(a) == Value(b) <==> a == b
  {
    if a != "" {
      var n := |a| - 1;
      LessIsValueOrder(a[..n], b[..n]);
      assert a == a[..n] + [a[n]] && b == b[..n] + [b[n]];
      LessThen(a[..n], b[..n], [a[n]], [b[n]]);
      assert Less([a[n]], [b[n]]) <==> a[n] < b[n];
    }
  }

  lemma {:induction false} PaddedLength(n: nat, width: nat)
    requires 1 <= width <= 6 && n < Pow10(width)
    ensures |Padded(n, width)| == width
  {
    if width > 1 {
      PaddedLength(n / 10, width - 1);
    }
  }

  function Pow10(k: nat): (p: nat)
    ensures p >= 1
  {
    if k == 0 then 1 else 10 * Pow10(k - 1)
  }

  /** Up to 999999, names sort as their numbers do. */
  lemma SixDigitNamesSortAsNumbers(i: nat, j: nat)
    requires i <= 999999 && j <= 999999
    ensures Less(Name(i), Name(j)) <==> i < j
    ensures Name(i) == Name(j) <==> i == j
  {
    assert Pow10(2) == 100 && Pow10(3) == 1000 && Pow10(4) == 10000 && Pow10(5) == 100000 && Pow10(6) == 1000000;
    PaddedLength(i, 6);
    PaddedLength(j, 6);
    PaddedReadsBack(i, 6);
    PaddedReadsBack(j, 6);
    LessIsValueOrder(Padded(i, 6), Padded(j, 6));
    LessThen(Padded(i, 6), Padded(j, 6), ".jsonl", ".jsonl");
    LessSelf(".jsonl");
    LessPrefix("wal-", Padded(i, 6) + ".jsonl", Padded(j, 6) + ".jsonl");
    assert Name(i) == "wal-" + (Padded(i, 6) + ".jsonl") && Name(j) == "wal-" + (Padded(j, 6) + ".jsonl");
    if Name(i) == Name(j) {
      assert Name(i)[4..10] == Padded(i, 6) && Name(j)[4..10] == Padded(j, 6);
    }
  }

  lemma FirstDigits()
    ensures Padded(1000000, 6)[0] == '1' && Padded(999999, 6)[0] == '9'
  {
    assert Pow10(2) == 100 && Pow10(3) == 1000 && Pow10(4) == 10000 && Pow10(5) == 100000;
    FirstDigit(1000000, 6);
    FirstDigit(999999, 6);
  }

  /** One more digit breaks it: file 1000000 is listed before file 999999. */
  lemma SevenDigitsSortFirst()
    ensures Less(Name(1000000), Name(999999))
  {
    var a, b := Padded(1000000, 6), Padded(999999, 6);
    FirstDigits();
    SmallerStartSortsFirst(a + ".jsonl", b + ".jsonl");
    LessPrefix("wal-", a + ".jsonl", b + ".jsonl");
    assert Name(1000000) == "wal-" + (a + ".jsonl") && Name(999999) == "wal-" + (b + ".jsonl");
  }

  lemma SmallerStartSortsFirst(a: string, b: string)
    requires a != [] && b != [] && a[0] < b[0]
    ensures Less(a, b)
  {
  }

  function Leading(n: nat): (d: nat)
    ensures d <= 9
  {
    if n < 10 then n else Leading(n / 10)
  }

  lemma {:induction false} FirstDigit(n: nat, width: nat)
    requires n >= Pow10(if width <= 1 then 0 else width - 1) || width <= 1
    requires width <= 6
    ensures Padded(n, width)[0] == DIGITS[Leading(n)]
    decreases width, n
  {
    if n >= 10 || width > 1 {
      assert width > 1 ==> Pow10(width - 1) == 10 * Pow10(width - 2);
      var w := if width == 0 then 0 else width - 1;
      FirstDigit(n / 10, w);
    }
  }

  lemma {:induction false} LongerThanWidth(n: nat, width: nat)
    requires 1 <= width && n >= Pow10(width)
    ensures |Padded(n, width)| > width && Padded(n, width)[0] != '0'
    decreases width, n
  {
    if width > 1 {
      LongerThanWidth(n / 10, width - 1);
    } else {
      assert Pow10(1) == 10 * Pow10(0) && Pow10(0) == 1;
      NoLeadingZero(n / 10);
    }
  }

  lemma {:induction false} NoLeadingZero(n: nat)
    requires n > 0
    ensures Padded(n, 0)[0] != '0'
  {
    if n >= 10 {
      NoLeadingZero(n / 10);
    } else {
      assert Padded(n, 0) == [DIGITS[n]] && DIGITS[n] != '0';
    }
  }

  /** A name is a fixed text around the number in decimal: six digits, or more without a leading zero. */
  lemma NameIs(n: nat) returns (digits: string)
    ensures Name(n) == "wal-" + digits + ".jsonl" && AllDigits(digits) && Value(digits) == n
    ensures if n <= 999999 then |digits| == 6 else |digits| > 6 && digits[0] != '0'
  {
    digits := Padded(n, 6);
    PaddedReadsBack(n, 6);
    assert Pow10(2) == 100 && Pow10(3) == 1000 && Pow10(4) == 10000 && Pow10(5) == 100000 && Pow10(6) == 1000000;
    if n <= 999999 {
      PaddedLength(n, 6);
    } else {
      LongerThanWidth(n, 6);
    }
  }

  /** The listing order agrees with the numbers of all segments exactly while six digits are enough. */
  lemma NamesSortAsNumbersIff(last: nat)
    ensures (forall i: nat, j: nat :: i < j <= last ==> Less(Name(i), Name(j))) <==> last <= 999999
  {
    if last <= 999999 {
      forall i: nat, j: nat | i < j <= last ensures Less(Name(i), Name(j)) {
        SixDigitNamesSortAsNumbers(i, j);
      }
    } else {
      SevenDigitsSortFirst();
      LessAsymmetric(Name(1000000), Name(999999));
    }
  }

  lemma {:induction false} LessAsymmetric(a: string, b: string)
    requires Less(a, b)
    ensures !Less(b, a)
  {
    if a != "" && a[0] == b[0] {
      LessAsymmetric(a[1..], b[1..]);
    }
  }

  lemma {:induction false} LessTransitive(a: string, b: string, c: string)
    requires Less(a, b) && Less(b, c)
    ensures Less(a, c)
  {
    if a != "" && a[0] == b[0] == c[0] {
      LessTransitive(a[1..], b[1..], c[1..]);
    }
  }

  lemma {:induction false} LessTotal(a: string, b: string)
    ensures Less(a, b) || a == b || Less(b, a)
  {
    if a != "" && b != "" && a[0] == b[0] {
      LessTotal(a[1..], b[1..]);
      assert a == [a[0]] + a[1..] && b == [b[0]] + b[1..];
    }
  }
}
