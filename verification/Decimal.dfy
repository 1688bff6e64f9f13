/** The loops in xUtil::tostr<float>, <double> and <long double> (base/util.cpp) that shorten "%.5f" output. */
module Decimal {

  predicate IsDigit(c: char) {
    '0' <= c <= '9'
  }

  predicate Digits(s: string) {
    forall c :: c in s ==> IsDigit(c)
  }

  function DigitValue(c: char): int {
    c as int - '0' as int
  }

  /** Digits without a leading zero. */
  predicate Canonical(s: string) {
    Digits(s) && s != [] && (s[0] == '0' ==> |s| == 1)
  }

  /** What snprintf with "%.5f" writes: an optional sign, digits without leading zeros, a point, digits. */
  datatype Printed = Printed(negative: bool, whole: string, fraction: string) {

    predicate Valid() {
      Canonical(whole) && Digits(fraction) && fraction != []
    }

    function Sign(): string {
      if negative then "-" else ""
    }

    function Text(): string {
      Sign() + whole + "." + fraction
    }

    /** The magnitude denoted. */
    function Value(): real {
      Whole(whole) as real + Fraction(fraction)
    }
  }

  function Whole(s: string): int {
    if s == [] then 0 else 10 * Whole(s[..|s| - 1]) + DigitValue(s[|s| - 1])
  }

  function Fraction(s: string): real {
    if s == [] then 0.0 else (DigitValue(s[0]) as real + Fraction(s[1..])) / 10.0
  }

  /** The digits of a fraction up to the last one that is not zero. */
  function Significant(s: string): string {
    if s == [] then []
    else
      var rest := Significant(s[1..]);
      if rest == [] && s[0] == '0' then [] else [s[0]] + rest
  }

  function Shortest(p: Printed): string {
    p.Sign() + p.whole + if Significant(p.fraction) == [] then [] else "." + Significant(p.fraction)
  }

  // ---------- the loop

  /** The loop as a function of the text, whatever it holds. */
  function Trim(s: string): string {
    if |s| <= 1 || s[|s| - 1] != '0' then s
    else if s[|s| - 2] == '.' then s[..|s| - 2]
    else Trim(s[..|s| - 1])
  }

  method Strip(s: string) returns (r: string)
    ensures r == Trim(s)
  {
    var flag, pos := false, |s| - 1;
    assert s[..pos + 1] == s;
    while pos > 0
      invariant -1 <= pos < |s|
      invariant Trim(s) == Trim(s[..pos + 1])
      invariant !flag ==> pos == |s| - 1
    {
      ghost var seen := s[..pos + 1];
      if s[pos] == '0' {
        flag := true;
        if s[pos - 1] == '.' {
          assert seen[..|seen| - 2] == s[..pos - 1];
          pos := pos - 2;
          break;
        }
        assert seen[..|seen| - 1] == s[..pos];
      } else {
        break;
      }
      pos := pos - 1;
    }
    r := if flag then s[..pos + 1] else s;
  }

  lemma {:induction false} SignificantEnd(s: string, d: char)
    ensures Significant(s + [d]) == if d == '0' then Significant(s) else s + [d]
  {
    if s == [] {
    } else {
      SignificantEnd(s[1..], d);
      assert (s + [d])[1..] == s[1..] + [d];
      assert s == [s[0]] + s[1..];
    }
  }

  lemma SignificantNothing()
    ensures Significant([]) == []
  {
  }

  lemma TrimStep(head: string, init: string, last: char)
    requires head != [] && Digits(init)
    ensures Trim(head + "." + (init + [last])) ==
            if last != '0' then head + "." + (init + [last])
            else if init == [] then head
            else Trim(head + "." + init)
  {
    var s := head + "." + (init + [last]);
    assert s[..|s| - 1] == head + "." + init;
    if init == [] {
      assert s[..|s| - 2] == head;
    } else {
      assert s[|s| - 2] == init[|init| - 1] && init[|init| - 1] in init;
    }
  }

  lemma {:induction false} TrimKeepsSignificant(head: string, fraction: string)
    requires head != [] && fraction != [] && Digits(fraction)
    ensures Trim(head + "." + fraction) ==
            head + if Significant(fraction) == [] then [] else "." + Significant(fraction)
    decreases |fraction|
  {
    hide Trim, Significant;
    var init, last := fraction[..|fraction| - 1], fraction[|fraction| - 1];
    assert fraction == init + [last];
    SignificantEnd(init, last);
    TrimStep(head, init, last);
    if init == [] {
      SignificantNothing();
      assert head + [] == head;
    } else {
      TrimKeepsSignificant(head, init);
    }
    assert head + "." + fraction == head + ("." + fraction);
  }

  /** On what snprintf writes, the loop yields the shortest text. */
  lemma TrimIsShortest(p: Printed)
    requires p.Valid()
    ensures Trim(p.Text()) == Shortest(p)
  {
    TrimKeepsSignificant(p.Sign() + p.whole, p.fraction);
  }

  // ---------- what the shortest text means

  lemma {:induction false} SignificantValue(s: string)
    requires Digits(s)
    ensures Fraction(Significant(s)) == Fraction(s)
    ensures 0.0 <= Fraction(s) < 1.0
    ensures Fraction(s) == 0.0 <==> Significant(s) == []
  {
    if s == [] {
    } else {
      assert s[0] in s;
      SignificantValue(s[1..]);
      var rest := Significant(s[1..]);
      assert ([s[0]] + rest)[1..] == rest;
    }
  }

  lemma {:induction false} SignificantTight(s: string)
    ensures var t := Significant(s); t <= s && (t != [] ==> t[|t| - 1] != '0')
  {
    if s == [] {
    } else {
      SignificantTight(s[1..]);
    }
  }

  /** A whole number and a magnitude below one are determined by their sum. */
  lemma SumDecides(m: int, n: int, x: real, y: real)
    requires 0.0 <= x < 1.0 && 0.0 <= y < 1.0
    ensures m as real + x == n as real + y <==> m == n && x == y
  {
    if m as real + x == n as real + y {
      assert -1.0 < (m - n) as real < 1.0;
    }
  }

  lemma {:induction false} FractionDecides(s: string, t: string)
    requires Digits(s) && Digits(t)
    ensures Fraction(s) == Fraction(t) <==> Significant(s) == Significant(t)
  {
    SignificantValue(s);
    SignificantValue(t);
    if s != [] && t != [] {
      SignificantValue(s[1..]);
      SignificantValue(t[1..]);
      SumDecides(DigitValue(s[0]), DigitValue(t[0]), Fraction(s[1..]), Fraction(t[1..]));
      FractionDecides(s[1..], t[1..]);
      SignificantHead(s, t);
    }
  }

  lemma SignificantHead(s: string, t: string)
    requires s != [] && t != []
    ensures Significant(s) == Significant(t) <==>
            (Significant(s) == Significant(t) == []) || (s[0] == t[0] && Significant(s[1..]) == Significant(t[1..]))
  {
    var a, b := Significant(s[1..]), Significant(t[1..]);
    assert ([s[0]] + a)[1..] == a && ([t[0]] + b)[1..] == b;
  }

  lemma {:induction false} WholeBound(s: string)
    requires Canonical(s)
    ensures Whole(s) >= 0 && (|s| > 1 ==> Whole(s) >= 10)
  {
    assert s[|s| - 1] in s;
    if |s| > 1 {
      var init := s[..|s| - 1];
      assert init[0] in s;
      WholeBound(init);
      if |init| == 1 {
        assert Whole(init) == DigitValue(init[0]);
      }
    }
  }

  lemma {:induction false} WholeDecides(s: string, t: string)
    requires Canonical(s) && Canonical(t)
    ensures Whole(s) == Whole(t) <==> s == t
    decreases |s|
  {
    WholeBound(s);
    WholeBound(t);
    var s', c := s[..|s| - 1], s[|s| - 1];
    var t', d := t[..|t| - 1], t[|t| - 1];
    assert c in s && d in t;
    if |s| > 1 && |t| > 1 {
      WholeDecides(s', t');
    }
    assert s == s' + [c] && t == t' + [d];
  }

  /** The result still denotes the same number, and ends neither in the point nor in a zero behind one. */
  lemma ResultKeepsValue(p: Printed) returns (fraction: string)
    requires p.Valid()
    ensures Trim(p.Text()) == p.Sign() + p.whole + (if fraction == [] then [] else "." + fraction)
    ensures Whole(p.whole) as real + Fraction(fraction) == p.Value()
    ensures fraction <= p.fraction && (fraction != [] ==> fraction[|fraction| - 1] != '0')
  {
    fraction := Significant(p.fraction);
    TrimIsShortest(p);
    SignificantValue(p.fraction);
    SignificantTight(p.fraction);
  }

  /** The text before the first point. */
  function BeforePoint(s: string): string {
    if s == [] || s[0] == '.' then [] else [s[0]] + BeforePoint(s[1..])
  }

  lemma {:induction false} SplitAtPoint(a: string, x: string)
    requires '.' !in a && (x != [] ==> x[0] == '.')
    ensures BeforePoint(a + x) == a && (a + x)[|a|..] == x
  {
    if a == [] {
      assert a + x == x;
    } else {
      assert (a + x)[1..] == a[1..] + x;
      SplitAtPoint(a[1..], x);
    }
  }

  /** Sign, integer digits and shortened fraction can be read off the shortest text. */
  lemma ShortestDecides(p: Printed, q: Printed)
    requires p.Valid() && q.Valid() && Shortest(p) == Shortest(q)
    ensures p.negative == q.negative && p.whole == q.whole && Significant(p.fraction) == Significant(q.fraction)
  {
    var x := if Significant(p.fraction) == [] then [] else "." + Significant(p.fraction);
    var y := if Significant(q.fraction) == [] then [] else "." + Significant(q.fraction);
    SplitAtPoint(p.Sign() + p.whole, x);
    SplitAtPoint(q.Sign() + q.whole, y);
    SameSign(p, q);
    assert x == y && (x != [] ==> x[1..] == Significant(p.fraction)) && (y != [] ==> y[1..] == Significant(q.fraction));
  }

  lemma SameSign(p: Printed, q: Printed)
    requires p.Valid() && q.Valid() && p.Sign() + p.whole == q.Sign() + q.whole
    ensures p.negative == q.negative && p.whole == q.whole
  {
    assert p.whole[0] in p.whole && q.whole[0] in q.whole;
    assert (p.Sign() + p.whole)[0] == if p.negative then '-' else p.whole[0];
    assert (q.Sign() + q.whole)[0] == if q.negative then '-' else q.whole[0];
    assert p.whole == (p.Sign() + p.whole)[|p.Sign()|..];
    assert q.whole == (q.Sign() + q.whole)[|q.Sign()|..];
  }

  /** Two results are the same text exactly when sign and value are the same. */
  lemma ResultsEqualIff(p: Printed, q: Printed)
    requires p.Valid() && q.Valid()
    ensures Trim(p.Text()) == Trim(q.Text()) <==> p.negative == q.negative && p.Value() == q.Value()
  {
    TrimIsShortest(p);
    TrimIsShortest(q);
    SignificantValue(p.fraction);
    SignificantValue(q.fraction);
    SumDecides(Whole(p.whole), Whole(q.whole), Fraction(p.fraction), Fraction(q.fraction));
    FractionDecides(p.fraction, q.fraction);
    WholeDecides(p.whole, q.whole);
    if Shortest(p) == Shortest(q) {
      ShortestDecides(p, q);
    }
  }
}
