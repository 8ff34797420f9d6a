/** Decimal numbers, the key of a partition's log and lock, and the name of its file. */
module Naming {

  function Digit(d: nat): char
    requires d < 10
  {
    ['0', '1', '2', '3', '4', '5', '6', '7', '8', '9'][d]
  }

  predicate IsDigit(c: char) {
    '0' <= c <= '9'
  }

  function Digits(n: nat): (s: string)
    ensures s != "" && forall i :: 0 <= i < |s| ==> IsDigit(s[i])
  {
    (if n < 10 then "" else Digits(n / 10)) + [Digit(n % 10)]
  }

  function Itoa(n: int): (s: string)
    ensures s != ""
    ensures forall i :: 1 <= i < |s| ==> IsDigit(s[i])
    ensures s[0] == '-' || IsDigit(s[0])
    ensures n < 0 <==> s[0] == '-'
    ensures IsDigit(s[|s| - 1])
  {
    if n < 0 then "-" + Digits(-n) else Digits(n)
  }

  /** What a string of digits is worth in base ten. */
  function DecimalValue(s: string): (n: int)
  {
    if s == "" then 0 else 10 * DecimalValue(s[..|s| - 1]) + (s[|s| - 1] as int - '0' as int)
  }

  lemma DigitValue(d: nat)
    requires d < 10
    ensures Digit(d) as int - '0' as int == d
  {
  }

  lemma {:induction false} DigitsAreDecimal(n: nat)
    ensures DecimalValue(Digits(n)) == n && (n >= 10 ==> Digits(n)[0] != '0') && (n < 10 ==> |Digits(n)| == 1)
  {
    var s := Digits(n);
    DigitValue(n % 10);
    var front := if n < 10 then "" else Digits(n / 10);
    assert s == front + [Digit(n % 10)] && s[..|s| - 1] == front;
    if n >= 10 {
      DigitsAreDecimal(n / 10);
      if n / 10 < 10 {
        DigitValue(n / 10);
        assert front == "" + [Digit(n / 10)];
      }
    } else {
      assert DecimalValue("") == 0;
    }
  }

  /** A number is printed in base ten, without leading zeros, and with a minus sign in front if it is negative. */
  lemma ItoaIsDecimal(n: int)
    ensures var s := Itoa(n);
            var digits := if n < 0 then s[1..] else s;
            && (n < 0 ==> s[0] == '-')
            && (forall i :: 0 <= i < |digits| ==> IsDigit(digits[i]))
            && DecimalValue(digits) == (if n < 0 then -n else n)
            && (|digits| > 1 ==> digits[0] != '0')
  {
    hide Digits, DecimalValue;
    var m := if n < 0 then -n else n;
    DigitsAreDecimal(m);
    assert n < 0 ==> Itoa(n)[1..] == Digits(m);
  }

  lemma {:induction false} DigitsInjective(m: nat, n: nat)
    requires Digits(m) == Digits(n)
    ensures m == n
  {
    var s := Digits(m);
    var k := |s| - 1;
    assert s[k] == Digit(m % 10) == Digit(n % 10);
    assert m % 10 == n % 10;
    assert s[..k] == if m < 10 then "" else Digits(m / 10);
    assert s[..k] == if n < 10 then "" else Digits(n / 10);
    if m >= 10 && n >= 10 {
      DigitsInjective(m / 10, n / 10);
    }
  }

  lemma ItoaInjective(m: int, n: int)
    ensures Itoa(m) == Itoa(n) <==> m == n
  {
    hide Digits;
    if Itoa(m) == Itoa(n) {
      if m < 0 {
        assert Itoa(m)[1..] == Digits(-m) && Itoa(n)[1..] == Digits(-n);
        DigitsInjective(-m, -n);
      } else {
        DigitsInjective(m, n);
      }
    }
  }

  /** The key under which a broker keeps the log and the produce lock of a partition. */
  function LogKey(topic: string, p: int): string {
    topic + "/" + Itoa(p)
  }

  lemma SeparatorDiffers(a: string, x: string, b: string, y: string, sep: char)
    requires sep !in x && |a| < |b|
    ensures a + [sep] + x != b + [sep] + y
  {
    var s, t := a + [sep] + x, b + [sep] + y;
    if |s| == |t| {
      assert t[|b|] == sep;
      assert s[|b|] == x[|b| - |a| - 1];
      assert s[|b|] != t[|b|];
    }
  }

  /** Two equal strings split alike at a separator that does not occur after it. */
  lemma SplitAtLast(a: string, x: string, b: string, y: string, sep: char)
    requires a + [sep] + x == b + [sep] + y
    requires sep !in x && sep !in y
    ensures a == b && x == y
  {
    if |a| < |b| {
      SeparatorDiffers(a, x, b, y, sep);
    } else if |b| < |a| {
      SeparatorDiffers(b, y, a, x, sep);
    } else {
      var s := a + [sep] + x;
      assert a == s[..|a|] && b == s[..|b|];
      assert x == s[|a| + 1..] && y == s[|b| + 1..];
    }
  }

  /** Every topic and partition has its own key, whatever characters the topic contains. */
  lemma LogKeyInjective(t: string, p: int, u: string, q: int)
    ensures LogKey(t, p) == LogKey(u, q) <==> t == u && p == q
  {
    if LogKey(t, p) == LogKey(u, q) {
      SplitAtLast(t, Itoa(p), u, Itoa(q), '/');
      ItoaInjective(p, q);
    }
  }

  predicate Plain(c: char) {
    'a' <= c <= 'z' || 'A' <= c <= 'Z' || '0' <= c <= '9' || c == '-' || c == '_'
  }

  /** The code points that a file name keeps: a to z, A to Z, 0 to 9, the hyphen and the underscore. */
  predicate KeptCode(n: int) {
    97 <= n <= 122 || 65 <= n <= 90 || 48 <= n <= 57 || n == 45 || n == 95
  }

  function Sanitize(t: string): (s: string)
    ensures s != ""
    ensures t != "" && (forall i :: 0 <= i < |t| ==> Plain(t[i])) ==> s == t
  {
    if t == "" then "_" else seq(|t|, i requires 0 <= i < |t| => if Plain(t[i]) then t[i] else '_')
  }

  /** The building loop of the source. */
  method SanitizeTopic(t: string) returns (s: string)
    ensures s == Sanitize(t)
    ensures t == "" ==> s == "_"
    ensures t != "" ==> |s| == |t| && forall i :: 0 <= i < |t| ==> s[i] == if KeptCode(t[i] as int) then t[i] else '_'
  {
    s := "";
    for i := 0 to |t|
      invariant |s| == i
      invariant forall k :: 0 <= k < i ==> s[k] == if Plain(t[k]) then t[k] else '_'
    {
      s := s + [if Plain(t[i]) then t[i] else '_'];
    }
    if |s| == 0 {
      return "_";
    }
  }

  function FileName(topic: string, p: int): string {
    Sanitize(topic) + "-partition-" + Itoa(p) + ".log"
  }

  /** The number at the end of a file name is read back without ambiguity, even if it is negative and the topic
      itself ends like "-partition-7". */
  lemma NumberedInjective(a: string, p: int, b: string, q: int)
    ensures a + "-partition-" + Itoa(p) == b + "-partition-" + Itoa(q) <==> a == b && p == q
  {
    var x, y := Itoa(p), Itoa(q);
    var s := a + "-partition-" + x;
    if s == b + "-partition-" + y {
      if |x| < |y| {
        TailsDiffer(a, x, b, y);
      } else if |y| < |x| {
        TailsDiffer(b, y, a, x);
      }
      assert x == s[|s| - |x|..] && y == s[|s| - |y|..];
      ItoaInjective(p, q);
      assert a == s[..|s| - |x| - 11] && b == s[..|s| - |y| - 11];
    }
  }

  /** The shorter number is preceded by "n-", which the longer number cannot contain. */
  lemma TailsDiffer(a: string, x: string, b: string, y: string)
    requires x != "" && y != "" && (forall i :: 1 <= i < |y| ==> IsDigit(y[i])) && (y[0] == '-' || IsDigit(y[0]))
    requires |x| < |y|
    ensures a + "-partition-" + x != b + "-partition-" + y
  {
    var s, t := a + "-partition-" + x, b + "-partition-" + y;
    if |s| == |t| {
      var k := |s| - |x| - 1;
      var d := |y| - |x| - 1;
      assert s[k] == '-' && s[k - 1] == 'n';
      assert t[k] == y[d];
      assert d == 0 ==> t[k - 1] == '-';
      assert s[k] != t[k] || s[k - 1] != t[k - 1];
    }
  }

  /** Two partitions share a file exactly when they are the same partition of topics that sanitize alike. */
  lemma FileNameInjective(t: string, p: int, u: string, q: int)
    ensures FileName(t, p) == FileName(u, q) <==> Sanitize(t) == Sanitize(u) && p == q
  {
    var a, b := Sanitize(t) + "-partition-" + Itoa(p), Sanitize(u) + "-partition-" + Itoa(q);
    if FileName(t, p) == FileName(u, q) {
      assert a == FileName(t, p)[..|FileName(t, p)| - 4] && b == FileName(u, q)[..|FileName(u, q)| - 4];
    }
    NumberedInjective(Sanitize(t), p, Sanitize(u), q);
  }

  lemma SmallNumbers()
    ensures Itoa(0) == "0" && Itoa(7) == "7" && Itoa(12) == "12" && Itoa(-3) == "-3"
  {
    assert Digits(1) == "" + [Digit(1)];
    assert Digits(3) == "" + [Digit(3)];
    assert Digits(12) == Digits(1) + [Digit(2)];
  }

  lemma CleanNames()
    ensures Sanitize("demo") == "demo" && Sanitize("") == "_" && Sanitize("a b.c") == "a_b_c"
  {
    assert Sanitize("a b.c") == "a_b_c";
  }

  /** How keys and file names look. */
  lemma KeysLookLike()
    ensures LogKey("demo", 12) == "demo/12" && LogKey("", -3) == "/-3"
  {
    SmallNumbers();
    hide Itoa;
  }

  lemma FileLooksLike()
    ensures FileName("demo", 12) == "demo-partition-12.log"
  {
    hide Itoa, Sanitize;
    SmallNumbers();
    CleanNames();
    assert "demo" + "-partition-" == "demo-partition-";
    assert "demo-partition-" + "12" == "demo-partition-12";
  }

  lemma CleanedFileLooksLike()
    ensures FileName("a b.c", 0) == "a_b_c-partition-0.log"
  {
    hide Itoa, Sanitize;
    SmallNumbers();
    CleanNames();
    assert "a_b_c" + "-partition-" == "a_b_c-partition-";
    assert "a_b_c-partition-" + "0" == "a_b_c-partition-0";
  }
}
