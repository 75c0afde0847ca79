/** Strings as the source handles them: lines, decimal numerals, substring search. */
module Text {

  datatype Option<+T> = None | Some(value: T)

  lemma Regroup<T>(a: seq<T>, b: seq<T>, c: seq<T>)
    ensures a + (b + c) == a + b + c
  {
  }

  /** `s[:n]` */
  function Cut(s: string, n: nat): (r: string)
    ensures r <= s && |r| == if |s| < n then |s| else n
  {
    if |s| <= n then s else s[..n]
  }

  /* ---- lines ---- */

  /** `s.split("\n")`: never empty; the empty string is one empty line. */
  function Split(s: string): (lines: seq<string>)
    ensures |lines| >= 1
  {
    if s == "" then [""]
    else
      var rest := Split(s[1..]);
      if s[0] == '\n' then [""] + rest else [[s[0]] + rest[0]] + rest[1..]
  }

  /** `"\n".join(lines)`. */
  function Join(lines: seq<string>): string {
    if lines == [] then ""
    else if |lines| == 1 then lines[0]
    else lines[0] + "\n" + Join(lines[1..])
  }

  /** `s.rstrip("\n")`. */
  function StripNewlines(s: string): string {
    if s != "" && s[|s| - 1] == '\n' then StripNewlines(s[..|s| - 1]) else s
  }

  predicate OneLine(s: string) {
    '\n' !in s
  }

  predicate OneLineEach(lines: seq<string>) {
    forall i :: 0 <= i < |lines| ==> OneLine(lines[i])
  }

  lemma {:induction false} SplitOne(s: string)
    requires OneLine(s)
    ensures Split(s) == [s]
  {
    if s != "" {
      assert s[0] == s[0] && OneLine(s[1..]);
      SplitOne(s[1..]);
      assert [s[0]] + s[1..] == s;
    }
  }

  lemma {:induction false} SplitFirst(a: string, b: string)
    requires OneLine(a)
    ensures Split(a + "\n" + b) == [a] + Split(b)
  {
    var s := a + "\n" + b;
    if a == "" {
      assert s[1..] == b;
    } else {
      assert s[0] == a[0] && s[1..] == a[1..] + "\n" + b;
      SplitFirst(a[1..], b);
      assert [a[0]] + a[1..] == a;
    }
  }

  /** Splitting what was joined gives the lines back. */
  lemma {:induction false} SplitJoin(lines: seq<string>)
    requires lines != [] && OneLineEach(lines)
    ensures Split(Join(lines)) == lines
  {
    if |lines| == 1 {
      SplitOne(lines[0]);
    } else {
      SplitFirst(lines[0], Join(lines[1..]));
      SplitJoin(lines[1..]);
    }
  }

  /** Joining what was split gives the string back, and no piece holds a newline. */
  lemma {:induction false} JoinSplit(s: string)
    ensures Join(Split(s)) == s && OneLineEach(Split(s))
  {
    if s != "" {
      JoinSplit(s[1..]);
      var rest := Split(s[1..]);
      if s[0] == '\n' {
        assert Split(s)[1..] == rest;
      } else {
        assert Split(s)[1..] == rest[1..];
        if |rest| > 1 {
          assert [s[0]] + rest[0] + "\n" + Join(rest[1..]) == [s[0]] + (rest[0] + "\n" + Join(rest[1..]));
        }
      }
    }
  }

  lemma {:induction false} JoinSnoc(lines: seq<string>, last: string)
    requires lines != []
    ensures Join(lines + [last]) == Join(lines) + "\n" + last
  {
    if |lines| > 1 {
      assert (lines + [last])[1..] == lines[1..] + [last];
      JoinSnoc(lines[1..], last);
    }
  }

  /** Stripping trailing newlines removes trailing empty lines and nothing else. */
  lemma {:induction false} StripDropsEmptyLines(lines: seq<string>) returns (m: nat)
    requires lines != [] && OneLineEach(lines)
    ensures 1 <= m <= |lines|
    ensures Split(StripNewlines(Join(lines))) == lines[..m]
    ensures forall i :: m <= i < |lines| ==> lines[i] == ""
    ensures m == 1 || lines[m - 1] != ""
  {
    var last := lines[|lines| - 1];
    if |lines| == 1 {
      m := 1;
      SplitOne(last);
      assert lines[..1] == lines;
    } else {
      var front := lines[..|lines| - 1];
      assert front + [last] == lines;
      JoinSnoc(front, last);
      if last == "" {
        assert Join(lines)[..|Join(lines)| - 1] == Join(front);
        m := StripDropsEmptyLines(front);
        assert lines[..m] == front[..m];
      } else {
        m := |lines|;
        assert Join(lines)[|Join(lines)| - 1] == last[|last| - 1];
        SplitJoin(lines);
        assert lines[..m] == lines;
      }
    }
  }

  /* ---- decimal numerals ---- */

  predicate IsDigit(c: char) {
    '0' <= c <= '9'
  }

  predicate AllDigits(s: string) {
    forall i :: 0 <= i < |s| ==> IsDigit(s[i])
  }

  /** `\d+`, ASCII digits only. */
  predicate Numeral(s: string) {
    s != "" && AllDigits(s)
  }

  /** `int(s)` for a string of digits. */
  function Value(s: string): nat
    requires AllDigits(s)
  {
    if s == "" then 0 else 10 * Value(s[..|s| - 1]) + (s[|s| - 1] as int - '0' as int)
  }

  /** Digit by digit. */
  lemma ValueMeaning(s: string, c: char)
    requires AllDigits(s) && IsDigit(c)
    ensures Value("") == 0 && Value(s + [c]) == 10 * Value(s) + (c as int - '0' as int)
  {
    assert (s + [c])[..|s|] == s;
  }

  /** The digits `s` starts with. */
  function DigitPrefix(s: string): (d: string)
    ensures d <= s && AllDigits(d)
  {
    if s != "" && IsDigit(s[0]) then [s[0]] + DigitPrefix(s[1..]) else ""
  }

  lemma {:induction false} DigitPrefixStops(d: string, t: string)
    requires AllDigits(d) && (t == "" || !IsDigit(t[0]))
    ensures DigitPrefix(d + t) == d
  {
    if d == "" {
      assert d + t == t;
    } else {
      assert (d + t)[1..] == d[1..] + t;
      DigitPrefixStops(d[1..], t);
    }
  }

  /** `str(n)` for a natural number. */
  function Decimal(n: nat): (s: string)
    ensures Numeral(s)
  {
    var digit := [(n % 10 + '0' as int) as char];
    if n < 10 then digit else Decimal(n / 10) + digit
  }

  lemma {:induction false} DecimalRoundTrip(n: nat)
    ensures Value(Decimal(n)) == n
  {
    var s := Decimal(n);
    var digit := [(n % 10 + '0' as int) as char];
    if n < 10 {
      assert s[..|s| - 1] == "";
    } else {
      DecimalRoundTrip(n / 10);
      assert s == Decimal(n / 10) + digit;
      assert s[..|s| - 1] == Decimal(n / 10);
    }
  }

  lemma {:induction false} DecimalLonger(m: nat, n: nat)
    requires m <= n
    ensures |Decimal(m)| <= |Decimal(n)|
  {
    if m >= 10 {
      DecimalLonger(m / 10, n / 10);
    }
  }

  /* ---- substring search ---- */

  /** `q in s`. */
  predicate Contains(s: string, q: string) {
    q <= s || (s != "" && Contains(s[1..], q))
  }

  predicate OccursAt(s: string, q: string, j: nat) {
    j + |q| <= |s| && s[j..j + |q|] == q
  }

  lemma {:induction false} ContainsAt(s: string, q: string, j: nat)
    requires OccursAt(s, q, j)
    ensures Contains(s, q)
  {
    if j == 0 {
      assert s[..|q|] == q;
    } else {
      assert s[1..][j - 1..j - 1 + |q|] == s[j..j + |q|];
      ContainsAt(s[1..], q, j - 1);
    }
  }

  lemma {:induction false} FirstOccurrence(s: string, q: string) returns (j: nat)
    requires Contains(s, q)
    ensures OccursAt(s, q, j)
  {
    if q <= s {
      j := 0;
    } else {
      var k := FirstOccurrence(s[1..], q);
      j := k + 1;
      assert s[1..][k..k + |q|] == s[j..j + |q|];
    }
  }

  /** The recursive search succeeds exactly when `q` can be read off `s` somewhere. */
  lemma {:induction false} ContainsMeaning(s: string, q: string)
    ensures Contains(s, q) <==> exists j: nat :: OccursAt(s, q, j)
  {
    if Contains(s, q) {
      var j := FirstOccurrence(s, q);
    }
    if j: nat :| OccursAt(s, q, j) {
      ContainsAt(s, q, j);
    }
  }

  /** How many positions of `s` start an occurrence of `q`. */
  function Count(s: string, q: string): nat {
    if s == "" then 0 else (if q <= s then 1 else 0) + Count(s[1..], q)
  }

  lemma {:induction false} CountZero(s: string, q: string)
    requires q != ""
    ensures Count(s, q) == 0 <==> !Contains(s, q)
  {
    if s != "" {
      CountZero(s[1..], q);
    }
  }

  lemma PrefixAcross(a: string, c: char, b: string, q: string)
    requires c !in q
    ensures q <= a + [c] + b <==> q <= a
  {
    if |q| > |a| {
      assert (a + [c] + b)[|a|] == c && q[|a|] in q;
    }
  }

  /** A character that `q` does not have separates its occurrences. */
  lemma {:induction false} CountAcross(a: string, c: char, b: string, q: string)
    requires q != "" && c !in q
    ensures Count(a + [c] + b, q) == Count(a, q) + Count(b, q)
  {
    var s := a + [c] + b;
    if a == "" {
      assert s[1..] == b;
      PrefixAcross(a, c, b, q);
    } else {
      assert s[1..] == a[1..] + [c] + b;
      CountAcross(a[1..], c, b, q);
      PrefixAcross(a, c, b, q);
    }
  }

  /* ---- the order of `sorted` on strings ---- */

  /** Code-point lexicographic order. */
  predicate LexLeq(a: string, b: string) {
    a == "" || (b != "" && (a[0] < b[0] || (a[0] == b[0] && LexLeq(a[1..], b[1..]))))
  }

  /** The strings agree up to `k`, and there `a` has the smaller character. */
  predicate FirstDiffer(a: string, b: string, k: nat) {
    k < |a| && k < |b| && a[..k] == b[..k] && a[k] < b[k]
  }

  lemma FirstDifferHead(a: string, b: string, k: nat)
    requires FirstDiffer(a, b, k)
    ensures if k == 0 then a[0] < b[0] else a[0] == b[0]
  {
    if k > 0 {
      assert a[0] == a[..k][0] && b[0] == b[..k][0];
    }
  }

  /** `a` is a prefix of `b`, or smaller at the first place where they differ. */
  lemma {:induction false} LexLeqMeaning(a: string, b: string)
    ensures LexLeq(a, b) <==> a <= b || exists k: nat :: FirstDiffer(a, b, k)
  {
    if a != "" && b != "" {
      assert a == [a[0]] + a[1..] && b == [b[0]] + b[1..];
      if a[0] == b[0] {
        LexLeqMeaning(a[1..], b[1..]);
        if k: nat :| FirstDiffer(a[1..], b[1..], k) {
          assert a[..k + 1] == [a[0]] + a[1..][..k] && b[..k + 1] == [b[0]] + b[1..][..k];
          assert FirstDiffer(a, b, k + 1);
        }
        if k: nat :| FirstDiffer(a, b, k) {
          FirstDifferHead(a, b, k);
          assert a[1..][..k - 1] == a[..k][1..] && b[1..][..k - 1] == b[..k][1..];
          assert FirstDiffer(a[1..], b[1..], k - 1);
        }
      } else {
        if k: nat :| FirstDiffer(a, b, k) {
          FirstDifferHead(a, b, k);
        }
        if a[0] < b[0] {
          assert FirstDiffer(a, b, 0);
        }
      }
    }
  }

  lemma {:induction false} LexTotal(a: string, b: string)
    ensures LexLeq(a, b) || LexLeq(b, a)
  {
    if a != "" && b != "" && a[0] == b[0] {
      LexTotal(a[1..], b[1..]);
    }
  }

  lemma {:induction false} LexTransitive(a: string, b: string, c: string)
    requires LexLeq(a, b) && LexLeq(b, c)
    ensures LexLeq(a, c)
  {
    if a != "" && a[0] == b[0] == c[0] {
      LexTransitive(a[1..], b[1..], c[1..]);
    }
  }

  lemma {:induction false} LexAntisymmetric(a: string, b: string)
    requires LexLeq(a, b) && LexLeq(b, a)
    ensures a == b
  {
    if a != "" && b != "" {
      LexAntisymmetric(a[1..], b[1..]);
      assert a == [a[0]] + a[1..] && b == [b[0]] + b[1..];
    }
  }
}
