/** Amounts as text, in the Belgian French way: 1 234,56 (pkg/utils/utils.go:130-160).

    An amount is n/d cents, as in Money. */
module Amounts {
  import opened Prelude
  import opened Money

  const NBSP: char := '\U{00A0}'

  predicate IsDigit(c: char) {
    '0' <= c <= '9'
  }

  predicate AllDigits(s: string) {
    forall i :: 0 <= i < |s| ==> IsDigit(s[i])
  }

  /** A number without leading zeros. */
  function Digits(n: nat): (s: string)
    ensures s != "" && AllDigits(s)
  {
    if n < 10 then [Digit(n)] else Digits(n / 10) + [Digit(n % 10)]
  }

  /** Three by three from the right. */
  function Group(s: string): string {
    if |s| <= 3 then s else Group(s[..|s| - 3]) + [NBSP] + s[|s| - 3..]
  }

  function Format(cents: int): string {
    var m := Abs(cents);
    (if cents < 0 then "-" else "") + Unsigned(m / 100, m % 100)
  }

  function Unsigned(whole: nat, decimals: int): string
    requires 0 <= decimals < 100
  {
    Group(Digits(whole)) + "," + TwoDigits(decimals)
  }

  function TwoDigits(k: int): string
    requires 0 <= k < 100
  {
    [Digit(k / 10), Digit(k % 10)]
  }

  // ---------------------------------------------------------------------------
  // Reading an amount back
  // ---------------------------------------------------------------------------

  /** The number that the digits of a text spell, whatever else there is. */
  function Spelled(s: string): nat {
    if s == "" then 0
    else
      var front, c := Spelled(s[..|s| - 1]), s[|s| - 1];
      if IsDigit(c) then 10 * front + (c - '0') as int else front
  }

  function Comma(s: string): (i: nat)
    ensures i <= |s| && (forall j :: 0 <= j < i ==> s[j] != ',') && (i < |s| ==> s[i] == ',')
  {
    if s == "" || s[0] == ',' then 0 else 1 + Comma(s[1..])
  }

  /** A sign, a number with separators, a comma and two decimals. */
  function Parse(s: string): Option<int> {
    if s != "" && s[0] == '-' then
      var m := ParseUnsigned(s[1..]);
      if m.Some? then Some(-m.value) else None
    else
      ParseUnsigned(s)
  }

  function ParseUnsigned(s: string): Option<int> {
    var i := Comma(s);
    if i + 3 == |s| && AllDigits(s[i + 1..]) && (forall j :: 0 <= j < i ==> IsDigit(s[j]) || s[j] == NBSP)
    then Some(100 * Spelled(s[..i]) + Spelled(s[i + 1..]))
    else None
  }

  lemma SpelledAppend(s: string, c: char)
    ensures Spelled(s + [c]) == if IsDigit(c) then 10 * Spelled(s) + (c - '0') as int else Spelled(s)
  {
  }

  lemma {:induction false} DigitsSpell(n: nat)
    ensures Spelled(Digits(n)) == n
  {
    if n < 10 {
      assert [Digit(n)] == "" + [Digit(n)];
      SpelledAppend("", Digit(n));
    } else {
      DigitsSpell(n / 10);
      SpelledAppend(Digits(n / 10), Digit(n % 10));
    }
  }

  lemma SpelledThree(s: string, a: char, b: char, c: char)
    requires IsDigit(a) && IsDigit(b) && IsDigit(c)
    ensures Spelled(s + [a, b, c]) == 1000 * Spelled(s) + 100 * (a - '0') as int + 10 * (b - '0') as int + (c - '0') as int
  {
    assert s + [a, b, c] == s + [a] + [b] + [c];
    SpelledAppend(s, a);
    SpelledAppend(s + [a], b);
    SpelledAppend(s + [a] + [b], c);
  }

  /** Separators change nothing. */
  lemma {:induction false} GroupSpells(s: string)
    requires AllDigits(s)
    ensures Spelled(Group(s)) == Spelled(s)
    decreases |s|
  {
    if |s| > 3 {
      var k := |s| - 3;
      GroupSpells(s[..k]);
      SpelledAppend(Group(s[..k]), NBSP);
      SpelledThree(Group(s[..k]) + [NBSP], s[k], s[k + 1], s[k + 2]);
      SpelledThree(s[..k], s[k], s[k + 1], s[k + 2]);
      assert s[k..] == [s[k], s[k + 1], s[k + 2]];
      assert s == s[..k] + [s[k], s[k + 1], s[k + 2]];
    }
  }

  lemma GroupUnfold(s: string)
    requires |s| > 3
    ensures var k := |s| - 3; var front, g := Group(s[..k]), Group(s);
      && |g| == |front| + 4 && g[..|front|] == front && g[|front|] == NBSP
      && g[|front| + 1] == s[k] && g[|front| + 2] == s[k + 1] && g[|front| + 3] == s[k + 2]
  {
    var k := |s| - 3;
    assert Group(s) == Group(s[..k]) + [NBSP] + s[k..];
  }

  /** The shape of a grouped number: separators stand exactly at every fourth place from the
      right, never first; so groups have three digits, and the first one to three. */
  lemma {:induction false} GroupShape(s: string, j: nat)
    requires AllDigits(s) && j < |Group(s)|
    ensures Group(s)[j] == NBSP <==> (|Group(s)| - j) % 4 == 0
    ensures Group(s)[j] == NBSP || IsDigit(Group(s)[j])
    decreases |s|
  {
    if |s| > 3 {
      var front, g := Group(s[..|s| - 3]), Group(s);
      GroupUnfold(s);
      if j < |front| {
        GroupShape(s[..|s| - 3], j);
        assert g[j] == g[..|front|][j];
        FourMore(|front| - j);
      } else {
        assert |g| - j == 4 || |g| - j == 3 || |g| - j == 2 || |g| - j == 1;
      }
    }
  }

  lemma {:induction false} GroupStartsWithDigit(s: string)
    requires AllDigits(s) && s != ""
    ensures Group(s) != "" && IsDigit(Group(s)[0])
    decreases |s|
  {
    if |s| > 3 {
      GroupUnfold(s);
      GroupStartsWithDigit(s[..|s| - 3]);
      assert Group(s)[0] == Group(s)[..|Group(s[..|s| - 3])|][0];
    }
  }

  lemma FourMore(x: int)
    ensures (x + 4) % 4 == x % 4
  {
  }

  lemma NoCommaBefore(s: string, i: nat)
    requires i < |s| && s[i] == ',' && ',' !in s[..i]
    ensures Comma(s) == i
    decreases i
  {
  }

  lemma TwoDigitsSpell(k: int)
    requires 0 <= k < 100
    ensures Spelled(TwoDigits(k)) == k && AllDigits(TwoDigits(k))
  {
    assert TwoDigits(k) == "" + [Digit(k / 10)] + [Digit(k % 10)];
    SpelledAppend("", Digit(k / 10));
    SpelledAppend("" + [Digit(k / 10)], Digit(k % 10));
  }

  lemma UnsignedReadsBack(whole: nat, decimals: int)
    requires 0 <= decimals < 100
    ensures ParseUnsigned(Unsigned(whole, decimals)) == Some(100 * whole + decimals)
    ensures IsDigit(Unsigned(whole, decimals)[0])
  {
    var front, back := Group(Digits(whole)), TwoDigits(decimals);
    var text := front + "," + back;
    forall j | 0 <= j < |front|
      ensures IsDigit(front[j]) || front[j] == NBSP
    {
      GroupShape(Digits(whole), j);
    }
    assert text[..|front|] == front && text[|front| + 1..] == back;
    NoCommaBefore(text, |front|);
    DigitsSpell(whole);
    GroupSpells(Digits(whole));
    TwoDigitsSpell(decimals);
    GroupStartsWithDigit(Digits(whole));
  }

  /** A sign when the amount is negative, and a comma before the last two characters. */
  lemma FormatFrames(cents: int)
    ensures |Format(cents)| >= 4 && Format(cents)[|Format(cents)| - 3] == ','
    ensures Format(cents)[0] == '-' <==> cents < 0
  {
    var m := Abs(cents);
    GroupStartsWithDigit(Digits(m / 100));
    var text := Unsigned(m / 100, m % 100);
    assert text[0] == Group(Digits(m / 100))[0];
  }

  /** As in 1 234,56 and -0,05. */
  lemma FormatLooksLike()
    ensures Format(123_456) == "1" + [NBSP] + "234,56" && NBSP as int == 160
    ensures Format(-5) == "-0,05"
  {
    assert Digits(1234) == "1234" by {
      assert Digits(1) == "1" && Digits(12) == "12" && Digits(123) == "123";
    }
    assert Group("1234") == Group("1") + [NBSP] + "234";
  }

  /** Every amount reads back as what was formatted; so no two amounts look alike. */
  lemma FormatReadsBack(cents: int)
    ensures Parse(Format(cents)) == Some(cents)
  {
    var m := Abs(cents);
    UnsignedReadsBack(m / 100, m % 100);
    if cents < 0 {
      assert Format(cents)[1..] == Unsigned(m / 100, m % 100);
    } else {
      assert Format(cents) == Unsigned(m / 100, m % 100);
    }
  }

  // ---------------------------------------------------------------------------
  // The loop
  // ---------------------------------------------------------------------------

  /** The first digits of a number that has `rest` more. */
  function GroupFirst(s: string, rest: nat): string {
    if s == "" then ""
    else
      var k := |s| - 1;
      GroupFirst(s[..k], rest + 1) + (if k > 0 && (rest + 1) % 3 == 0 then [NBSP] else []) + [s[k]]
  }

  lemma {:induction false} GroupFirstByThree(s: string, rest: nat)
    ensures GroupFirst(s, rest + 3) == GroupFirst(s, rest)
    decreases |s|
  {
    if s != "" {
      GroupFirstByThree(s[..|s| - 1], rest + 1);
    }
  }

  lemma OneMoreGroup(front: string, a: char, b: char, c: char)
    requires front != "" && GroupFirst(front, 0) == Group(front)
    ensures GroupFirst(front + [a, b, c], 0) == Group(front + [a, b, c])
  {
    var s := front + [a, b, c];
    assert s[..|s| - 3] == front && s[|s| - 3..] == [a, b, c];
    GroupFirstByThree(front, 0);
    GroupFirstThree(front, a, b, c);
  }

  /** Separating from the left, by what is still to come, is grouping from the right. */
  lemma {:induction false} GroupFirstIsGroup(s: string)
    ensures GroupFirst(s, 0) == Group(s)
    decreases |s|
  {
    var n := |s|;
    if n <= 3 {
      GroupFirstOfShort(s, 0);
    } else {
      GroupFirstIsGroup(s[..n - 3]);
      OneMoreGroup(s[..n - 3], s[n - 3], s[n - 2], s[n - 1]);
      assert s == s[..n - 3] + [s[n - 3], s[n - 2], s[n - 1]];
    }
  }

  lemma GroupFirstOne(s: string, c: char, rest: nat)
    ensures GroupFirst(s + [c], rest) ==
      GroupFirst(s, rest + 1) + (if s != "" && (rest + 1) % 3 == 0 then [NBSP] else []) + [c]
  {
  }

  lemma GroupFirstThree(s: string, a: char, b: char, c: char)
    ensures GroupFirst(s + [a, b, c], 0) ==
      GroupFirst(s, 3) + (if s != "" then [NBSP] else []) + [a, b, c]
  {
    GroupFirstOne(s, a, 2);
    GroupFirstOne(s + [a], b, 1);
    GroupFirstOne(s + [a] + [b], c, 0);
    assert s + [a, b, c] == s + [a] + [b] + [c];
    var lead := GroupFirst(s, 3) + (if s != "" then [NBSP] else []);
    assert GroupFirst(s + [a], 2) == lead + [a];
    assert GroupFirst(s + [a] + [b], 1) == lead + [a] + [b];
    assert lead + [a, b, c] == lead + [a] + [b] + [c];
  }

  lemma GroupFirstOfShort(s: string, rest: nat)
    requires |s| <= 3 && rest == 0
    ensures GroupFirst(s, rest) == s
  {
    if |s| == 1 {
      GroupFirstOfOne(s[0], rest);
      assert s == [s[0]];
    } else if |s| == 2 {
      GroupFirstOfTwo(s[0], s[1]);
      assert s == [s[0], s[1]];
    } else if |s| == 3 {
      GroupFirstThree("", s[0], s[1], s[2]);
      assert s == [s[0], s[1], s[2]] == "" + [s[0], s[1], s[2]];
    }
  }

  lemma GroupFirstOfOne(a: char, rest: nat)
    ensures GroupFirst([a], rest) == [a]
  {
  }

  lemma GroupFirstOfTwo(a: char, b: char)
    ensures GroupFirst([a, b], 0) == [a, b]
  {
    GroupFirstOfOne(a, 1);
    GroupFirstOne([a], b, 0);
    assert [a] + [b] == [a, b];
  }

  method FormatDecimal(n: int, d: int) returns (out: string)
    requires d > 0
    ensures out == Format(RoundDiv(n, d))
  {
    var cents := Round(n, d);
    var neg := cents < 0;
    var m := if neg then -cents else cents;
    var intPart, decPart := Digits(m / 100), TwoDigits(m % 100);
    var b := "";
    var len := |intPart|;
    for i := 0 to len
      invariant b == GroupFirst(intPart[..i], len - i)
    {
      assert intPart[..i + 1][..i] == intPart[..i];
      if i > 0 && (len - i) % 3 == 0 {
        b := b + [NBSP];
      }
      b := b + [intPart[i]];
    }
    assert intPart[..len] == intPart;
    GroupFirstIsGroup(intPart);
    out := b + "," + decPart;
    if neg {
      out := "-" + out;
    }
  }
}
