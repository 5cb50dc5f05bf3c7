/** Letter case, decimal text and order of names. */
module Text {

  function UpperChar(c: char): char
  {
    if 'a' <= c <= 'z' then (c as int - 'a' as int + 'A' as int) as char else c
  }

  /** `str.upper()` on ASCII text. */
  function Upper(s: string): (u: string)
    ensures |u| == |s|
    ensures forall i | 0 <= i < |s| :: u[i] == UpperChar(s[i])
  {
    seq(|s|, i requires 0 <= i < |s| => UpperChar(s[i]))
  }

  /** Small letters become the capital thirty-two code points below, everything else stays. */
  lemma UpperMeans(c: char)
    ensures 'a' <= c <= 'z' ==> 'A' <= UpperChar(c) <= 'Z' && UpperChar(c) as int == c as int - 32
    ensures !('a' <= c <= 'z') ==> UpperChar(c) == c
  {
  }

  lemma UpperTwice(s: string)
    ensures Upper(Upper(s)) == Upper(s)
  {
  }

  function Digit(n: nat): char
    requires n < 10
  {
    ('0' as int + n) as char
  }

  function Digits(n: nat): string
  {
    if n < 10 then [Digit(n)] else Digits(n / 10) + [Digit(n % 10)]
  }

  /** `str(...)` of an integer. */
  function Decimal(n: int): string
  {
    if n < 0 then "-" + Digits(-n) else Digits(n)
  }

  // ------------------------------------------------------------------ order

  /** Python's order of strings, by code point. */
  predicate Less(a: string, b: string)
  {
    b != "" && (a == "" || a[0] < b[0] || (a[0] == b[0] && Less(a[1..], b[1..])))
  }

  lemma {:induction false} LessTransitive(a: string, b: string, c: string)
    requires Less(a, b) && Less(b, c)
    ensures Less(a, c)
  {
    if a != "" && a[0] == b[0] == c[0] {
      LessTransitive(a[1..], b[1..], c[1..]);
    }
  }

  lemma {:induction false} LessTotal(a: string, b: string)
    ensures Less(a, b) || a == b || Less(b, a)
  {
    if a != "" && b != "" && a[0] == b[0] {
      LessTotal(a[1..], b[1..]);
      assert a == [a[0]] + a[1..] && b == [b[0]] + b[1..];
    }
  }

  lemma {:induction false} LessIrreflexive(a: string)
    ensures !Less(a, a)
  {
    if a != "" {
      LessIrreflexive(a[1..]);
    }
  }

  ghost predicate InOrder(names: seq<string>)
  {
    forall i, j | 0 <= i < j < |names| :: Less(names[i], names[j])
  }

  function AddName(names: seq<string>, name: string): seq<string>
  {
    if names == [] then [name]
    else if name == names[0] then names
    else if Less(name, names[0]) then [name] + names
    else [names[0]] + AddName(names[1..], name)
  }

  /** `sorted(...)` of distinct names. */
  function SortNames(names: seq<string>): seq<string>
  {
    if names == [] then [] else AddName(SortNames(names[..|names| - 1]), names[|names| - 1])
  }

  lemma {:induction false} AddNameMembers(names: seq<string>, name: string)
    ensures forall x :: x in AddName(names, name) <==> x in names || x == name
  {
    if names != [] {
      assert names == [names[0]] + names[1..];
      AddNameMembers(names[1..], name);
    }
  }

  lemma {:induction false} AddNameKeepsOrder(names: seq<string>, name: string)
    requires InOrder(names)
    ensures InOrder(AddName(names, name))
  {
    if names != [] && name != names[0] {
      if Less(name, names[0]) {
        forall j | 0 <= j < |names| ensures Less(name, names[j]) {
          if j > 0 {
            LessTransitive(name, names[0], names[j]);
          }
        }
      } else {
        LessTotal(name, names[0]);
        AddNameKeepsOrder(names[1..], name);
        AddNameMembers(names[1..], name);
        HeadKeepsOrder(names[0], AddName(names[1..], name));
      }
    }
  }

  lemma HeadKeepsOrder(head: string, rest: seq<string>)
    requires InOrder(rest) && forall x | x in rest :: Less(head, x)
    ensures InOrder([head] + rest)
  {
    var all := [head] + rest;
    forall i, j | 0 <= i < j < |all| ensures Less(all[i], all[j]) {
      assert all[j] == rest[j - 1] && rest[j - 1] in rest;
      assert i > 0 ==> all[i] == rest[i - 1];
    }
  }

  lemma {:induction false} SortNamesSorts(names: seq<string>)
    ensures InOrder(SortNames(names))
    ensures forall x :: x in SortNames(names) <==> x in names
  {
    if names != [] {
      var init, last := names[..|names| - 1], names[|names| - 1];
      SortNamesSorts(init);
      AddNameKeepsOrder(SortNames(init), last);
      AddNameMembers(SortNames(init), last);
      assert names == init + [last];
    }
  }

  lemma InOrderIsDistinct(names: seq<string>)
    requires InOrder(names)
    ensures forall i, j | 0 <= i < j < |names| :: names[i] != names[j]
  {
    forall i, j | 0 <= i < j < |names| ensures names[i] != names[j] {
      LessIrreflexive(names[i]);
    }
  }

  lemma DigitInjective(a: nat, b: nat)
    requires a < 10 && b < 10 && Digit(a) == Digit(b)
    ensures a == b
  {
  }

  lemma {:induction false} DigitsInjective(a: nat, b: nat)
    requires Digits(a) == Digits(b)
    ensures a == b
  {
    var x, y := Digits(a), Digits(b);
    DigitsLength(a);
    DigitsLength(b);
    assert x[|x| - 1] == Digit(a % 10) && y[|y| - 1] == Digit(b % 10);
    DigitInjective(a % 10, b % 10);
    if a >= 10 {
      assert x[..|x| - 1] == Digits(a / 10) && y[..|y| - 1] == Digits(b / 10);
      DigitsInjective(a / 10, b / 10);
    }
  }

  lemma DigitsLength(n: nat)
    ensures Digits(n) != [] && (|Digits(n)| == 1 <==> n < 10)
    ensures Digits(n)[0] != '-'
  {
  }

  /** Different numbers have different texts. */
  lemma DecimalInjective(a: int, b: int)
    requires Decimal(a) == Decimal(b)
    ensures a == b
  {
    DigitsLength(if a < 0 then -a else a);
    DigitsLength(if b < 0 then -b else b);
    assert (a < 0 <==> Decimal(a)[0] == '-') && (b < 0 <==> Decimal(b)[0] == '-');
    if a < 0 {
      assert Decimal(a)[1..] == Digits(-a) && Decimal(b)[1..] == Digits(-b);
      DigitsInjective(-a, -b);
    } else {
      DigitsInjective(a, b);
    }
  }

  /** The number a row of digits stands for. */
  function Value(digits: string): int
  {
    if digits == "" then 0 else 10 * Value(digits[..|digits| - 1]) + (digits[|digits| - 1] as int - '0' as int)
  }

  /** Reading the digits of a number gives it back. */
  lemma {:induction false} DigitsRoundTrip(n: nat)
    ensures Value(Digits(n)) == n
  {
    if n >= 10 {
      DigitsRoundTrip(n / 10);
      assert Digits(n)[..|Digits(n)| - 1] == Digits(n / 10);
    } else {
      assert Digits(n)[..0] == "";
    }
  }
}
