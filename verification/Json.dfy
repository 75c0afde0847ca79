/** Values of a JSON response, and Python's `str` and `int` of them. */
module Json {
  import opened Text
  import Numbering

  /** `shown`: the text that `str` gives where the value alone does not settle it. */
  datatype Json =
    | Null
    | Bool(flag: bool)
    | Integer(value: int)
    | Float(number: real, shown: string)
    | Infinity(shown: string)
    | NaN
    | Str(text: string)
    | Compound(empty: bool, shown: string)
  {
    predicate Truthy() {
      match this
      case Null => false
      case Bool(flag) => flag
      case Integer(value) => value != 0
      case Float(number, _) => number != 0.0
      case Infinity(_) => true
      case NaN => true
      case Str(text) => text != ""
      case Compound(empty, _) => !empty
    }
  }

  /** `str(j)`. */
  function Show(j: Json): string {
    match j
    case Null => "None"
    case Bool(flag) => if flag then "True" else "False"
    case Integer(value) => Numbering.IntText(value)
    case Float(_, shown) => shown
    case Infinity(shown) => shown
    case NaN => "nan"
    case Str(text) => text
    case Compound(_, shown) => shown
  }

  /** What `int` comes to: a number, or the type of the exception it raises. */
  datatype Coerced = Int(value: int) | Raises(kind: string)

  /** `int(j or 0)`. */
  function ToInt(j: Json): Coerced {
    if !j.Truthy() then Int(0)
    else match j
      case Bool(_) => Int(1)
      case Integer(value) => Int(value)
      case Float(number, _) => Int(if number >= 0.0 then number.Floor else -(-number).Floor)
      case Infinity(_) => Raises("OverflowError")
      case NaN => Raises("ValueError")
      case Str(text) => (match ParseInt(text) case Some(i) => Int(i) case None => Raises("ValueError"))
      case _ => Raises("TypeError")
  }

  /* ---- `int` of a string ---- */

  predicate IsSpace(c: char) {
    c == ' ' || 9 <= c as int <= 13
  }

  lemma SpacesAre(c: char)
    ensures IsSpace(c) <==> c == ' ' || c == '\t' || c == '\n' || c == '\r' || c == '\U{b}' || c == '\U{c}'
  {
  }

  /** `s.strip()`. */
  function Strip(s: string): string {
    if s == "" then ""
    else if IsSpace(s[0]) then Strip(s[1..])
    else if IsSpace(s[|s| - 1]) then Strip(s[..|s| - 1])
    else s
  }

  /** Digits, single underscores allowed between them. */
  predicate Grouped(s: string) {
    s != "" && IsDigit(s[0]) && (|s| == 1 || Grouped(if s[1] == '_' then s[2..] else s[1..]))
  }

  function Digits(s: string): (d: string)
    ensures AllDigits(d)
  {
    if s == "" then "" else (if IsDigit(s[0]) then [s[0]] else "") + Digits(s[1..])
  }

  function ParseInt(s: string): Option<int> {
    var t := Strip(s);
    var body := if t != "" && (t[0] == '+' || t[0] == '-') then t[1..] else t;
    if !Grouped(body) then None
    else if t[0] == '-' then Some(-(Value(Digits(body)) as int))
    else Some(Value(Digits(body)))
  }

  lemma {:induction false} NumeralIsGrouped(s: string)
    requires Numeral(s)
    ensures Grouped(s) && Digits(s) == s
  {
    if |s| > 1 {
      NumeralIsGrouped(s[1..]);
    }
    assert s == [s[0]] + s[1..];
  }

  lemma {:induction false} StripSpaces(n: nat, s: string, m: nat)
    requires s != "" && !IsSpace(s[0]) && !IsSpace(s[|s| - 1])
    ensures Strip(Numbering.Spaces(n) + s + Numbering.Spaces(m)) == s
    decreases n + m
  {
    var t := Numbering.Spaces(n) + s + Numbering.Spaces(m);
    if n > 0 {
      assert t[1..] == Numbering.Spaces(n - 1) + s + Numbering.Spaces(m);
      StripSpaces(n - 1, s, m);
    } else if m > 0 {
      assert t[0] == s[0] && t[..|t| - 1] == Numbering.Spaces(n) + s + Numbering.Spaces(m - 1);
      StripSpaces(n, s, m - 1);
    } else {
      assert t == s;
    }
  }

  /** A count that comes as text is read as the number it shows, spaces around it or not. */
  lemma ShownNumbersReadBack(i: int, before: nat, after: nat)
    ensures ToInt(Integer(i)) == Int(i)
    ensures ToInt(Str(Numbering.Spaces(before) + Show(Integer(i)) + Numbering.Spaces(after))) == Int(i)
  {
    var s := Numbering.IntText(i);
    var n: nat := if i < 0 then -i else i;
    var body := Decimal(n);
    DecimalRoundTrip(n);
    NumeralIsGrouped(body);
    assert IsDigit(body[|body| - 1]);
    hide Decimal, Strip, Grouped, Digits, Value;
    assert i < 0 ==> s[1..] == body && s[0] == '-';
    StripSpaces(before, s, after);
  }

  lemma {:induction false} DigitsConcat(a: string, b: string)
    ensures Digits(a + b) == Digits(a) + Digits(b)
  {
    if a == "" {
      assert a + b == b;
    } else {
      assert (a + b)[0] == a[0] && (a + b)[1..] == a[1..] + b;
      DigitsConcat(a[1..], b);
    }
  }

  lemma {:induction false} GroupsJoin(a: string, b: string)
    requires Numeral(a) && Grouped(b)
    ensures Grouped(a + "_" + b)
  {
    hide Digits;
    var s := a + "_" + b;
    assert s[0] == a[0];
    if |a| == 1 {
      assert s[1] == '_' && s[2..] == b;
    } else {
      assert s[1] == a[1] && s[1..] == a[1..] + "_" + b;
      GroupsJoin(a[1..], b);
    }
  }

  lemma GroupedJoin(a: string, b: string)
    requires Numeral(a) && Numeral(b)
    ensures Grouped(a + "_" + b) && Digits(a + "_" + b) == a + b
  {
    NumeralIsGrouped(a);
    NumeralIsGrouped(b);
    GroupsJoin(a, b);
    assert ("_")[1..] == "" && Digits("_") == "";
    hide Grouped, Digits;
    DigitsConcat(a + "_", b);
    DigitsConcat(a, "_");
  }

  lemma StripIsIdle(s: string)
    requires s != "" && !IsSpace(s[0]) && !IsSpace(s[|s| - 1])
    ensures Strip(s) == s
  {
  }

  /** A plus sign and an underscore between digits make no difference. */
  lemma SignsAndGroups(a: string, b: string)
    requires Numeral(a) && Numeral(b)
    ensures ParseInt("+" + a) == Some(Value(a)) && ParseInt(a + "_" + b) == Some(Value(a + b))
  {
    NumeralIsGrouped(a);
    GroupedJoin(a, b);
    assert IsDigit(a[|a| - 1]) && IsDigit(b[|b| - 1]) && IsDigit(a[0]);
    hide Strip, Grouped, Digits, Value;
    assert ("+" + a)[1..] == a;
    StripIsIdle("+" + a);
    StripIsIdle(a + "_" + b);
  }

  lemma {:induction false} StripDropsSpacesOnly(s: string, c: char)
    requires c in s && !IsSpace(c)
    ensures c in Strip(s)
    decreases |s|
  {
    if IsSpace(s[0]) {
      assert s == [s[0]] + s[1..];
      StripDropsSpacesOnly(s[1..], c);
    } else if IsSpace(s[|s| - 1]) {
      assert s == s[..|s| - 1] + [s[|s| - 1]];
      StripDropsSpacesOnly(s[..|s| - 1], c);
    }
  }

  lemma {:induction false} GroupedHasDigits(s: string, c: char)
    requires Grouped(s) && c in s
    ensures IsDigit(c) || c == '_'
    decreases |s|
  {
    if c != s[0] && |s| > 1 {
      if s[1] == '_' {
        assert s == [s[0], s[1]] + s[2..];
        if c != '_' { GroupedHasDigits(s[2..], c); }
      } else {
        assert s == [s[0]] + s[1..];
        GroupedHasDigits(s[1..], c);
      }
    }
  }

  /** Text with any other character in it is no number. */
  lemma OtherTextIsNoNumber(s: string, c: char)
    requires c in s && !IsDigit(c) && !IsSpace(c) && c != '_' && c != '+' && c != '-'
    ensures ParseInt(s) == None && ToInt(Str(s)) == Raises("ValueError")
  {
    StripDropsSpacesOnly(s, c);
    var t := Strip(s);
    var body := if t != "" && (t[0] == '+' || t[0] == '-') then t[1..] else t;
    assert t == [t[0]] + t[1..];
    if Grouped(body) {
      GroupedHasDigits(body, c);
    }
  }

  /** Counts that are no strings, and the texts of values that are none. */
  lemma OtherValues(n: int, flag: bool, shown: string)
    ensures ToInt(Null) == Int(0) && ToInt(Str("")) == Int(0) && ToInt(Bool(flag)) == Int(if flag then 1 else 0)
    ensures ToInt(Infinity(shown)) == Raises("OverflowError") && ToInt(NaN) == Raises("ValueError")
    ensures ToInt(Compound(true, shown)) == Int(0) && ToInt(Compound(false, shown)) == Raises("TypeError")
    ensures Show(NaN) == "nan"
    ensures Show(Null) == "None" && Show(Bool(true)) == "True" && Show(Bool(false)) == "False"
            && Show(Str(shown)) == shown
  {
  }

  /** A number with a fraction loses it, on either side of zero. */
  lemma FractionsAreCut(x: real, shown: string)
    ensures var i := ToInt(Float(x, shown));
      && i.Int? && (x >= 0.0 ==> 0 <= i.value && i.value as real <= x < (i.value + 1) as real)
      && (x <= 0.0 ==> i.value <= 0 && (i.value - 1) as real < x <= i.value as real)
  {
  }
}
