/**
 * The line matcher: how an actual section is scored against an expected one
 * (src/match.py). Tokens are compared by the type the expected token has,
 * lines by the fraction of token positions that agree, and sections either
 * position by position or by greedy exact pairing.
 */
module Match {
  import opened Common
  import opened Text

  /**
   * `float(expected) == round(float(value), digits)`, false where
   * `float(value)` raises ValueError. Floating point parsing and rounding are
   * not modelled; every comparison of a fractional token goes through this.
   */
  type RoundCheck = (string, string, nat) -> bool

  // ---------------------------------------------------------------------
  // token classes of the expected token

  function DropSign(t: string): string
  {
    if t != [] && (t[0] == '-' || t[0] == '+') then t[1..] else t
  }

  /** `_RE_INT.fullmatch(t)`: an optional sign and one or more digits. */
  predicate IsIntToken(t: string)
  {
    var u := DropSign(t);
    u != [] && AllDigits(u)
  }

  /**
   * `_RE_REAL.fullmatch(t)`: an optional sign, one or more digits, '.', then
   * zero or more digits. The result is the length of the `frac` group.
   */
  function FractionDigits(t: string): (r: Option<nat>)
    ensures r.Some? ==> !IsIntToken(t) && r.value < |t|
  {
    var u := DropSign(t);
    match IndexOf(u, '.')
    case None => None
    case Some(k) =>
      if k > 0 && AllDigits(u[..k]) && AllDigits(u[k + 1..]) then Some(|u| - k - 1) else None
  }

  /** A sign, an integer part and a fraction part always form a fractional token. */
  lemma FractionDigitsOf(sign: string, whole: string, frac: string)
    requires sign == "" || sign == "-" || sign == "+"
    requires whole != [] && AllDigits(whole) && AllDigits(frac)
    ensures FractionDigits(sign + whole + "." + frac) == Some(|frac|)
  {
    var t := sign + whole + "." + frac;
    assert DropSign(t) == whole + "." + frac;
    var u := whole + "." + frac;
    assert u[..|whole|] == whole && u[|whole|] == '.' && u[|whole| + 1..] == frac;
    assert '.' !in whole;
  }

  /** The value Python's `int()` gives an integer token. */
  function IntTokenValue(t: string): int
    requires IsIntToken(t)
  {
    var v: int := DecimalValue(DropSign(t));
    if t[0] == '-' then -v else v
  }

  lemma RemoveUnderscoresOfDigits(s: string)
    requires AllDigits(s)
    ensures RemoveUnderscores(s) == s
  {}

  /** Python's `int()` accepts every integer token, with the value above. */
  lemma IntTokenParses(t: string)
    requires IsIntToken(t)
    ensures ParseInt(t) == Some(IntTokenValue(t))
  {
    var u := DropSign(t);
    assert !IsSpace(t[0]) && !IsSpace(t[|t| - 1]);
    StripUnchanged(t);
    RemoveUnderscoresOfDigits(u);
  }

  // ---------------------------------------------------------------------
  // _compare_elements

  /** Whether the actual token `value` matches the expected token. */
  function CompareElements(value: string, expected: string, roundEq: RoundCheck): (r: bool)
    ensures FractionDigits(expected).Some? ==> r == roundEq(value, expected, FractionDigits(expected).value)
    ensures FractionDigits(expected).None? && IsIntToken(expected) ==>
              (r <==> ParseInt(value).Some? && ParseInt(value) == ParseInt(expected))
    ensures FractionDigits(expected).None? && !IsIntToken(expected) ==> (r <==> value == expected)
  {
    match FractionDigits(expected)
    case Some(d) => roundEq(value, expected, d)
    case None =>
      if IsIntToken(expected) then
        IntTokenParses(expected);
        match ParseInt(value)
        case Some(v) => v == IntTokenValue(expected)
        case None => false
      else value == expected
  }

  /** Two integer tokens match exactly when they denote the same integer. */
  lemma IntTokensByValue(v: string, e: string, roundEq: RoundCheck)
    requires IsIntToken(v) && IsIntToken(e)
    ensures CompareElements(v, e, roundEq) <==> IntTokenValue(v) == IntTokenValue(e)
  {
    IntTokenParses(v);
    IntTokenParses(e);
  }

  lemma FortyTwoValues()
    ensures IsIntToken("42") && IsIntToken("+42") && IsIntToken("042")
    ensures IntTokenValue("42") == 42 && IntTokenValue("+42") == 42 && IntTokenValue("042") == 42
  {
    assert "42"[..1] == "4" && "042"[..2] == "04" && "04"[..1] == "0";
    assert DecimalValue("4") == 4 && DecimalValue("0") == 0;
    assert DecimalValue("04") == 4;
    assert DecimalValue("42") == 42 && DecimalValue("042") == 42;
    assert DropSign("+42") == "42" && DropSign("042") == "042";
  }

  lemma ZeroValues()
    ensures IsIntToken("0") && IsIntToken("+0") && IsIntToken("-0") && IsIntToken("00")
    ensures IntTokenValue("0") == 0 && IntTokenValue("+0") == 0 && IntTokenValue("-0") == 0
    ensures IntTokenValue("00") == 0
  {
    assert "00"[..1] == "0";
    assert DropSign("-0") == "0" && DropSign("+0") == "0";
  }

  /** 42, +42 and 042 are the same integer, and so are 0, +0, -0 and 00. */
  lemma IntSpellings(roundEq: RoundCheck)
    ensures CompareElements("+42", "42", roundEq) && CompareElements("042", "42", roundEq)
    ensures CompareElements("-0", "0", roundEq) && CompareElements("+0", "0", roundEq)
    ensures CompareElements("00", "0", roundEq)
  {
    FortyTwoValues();
    ZeroValues();
    IntTokensByValue("+42", "42", roundEq);
    IntTokensByValue("042", "42", roundEq);
    IntTokensByValue("-0", "0", roundEq);
    IntTokensByValue("+0", "0", roundEq);
    IntTokensByValue("00", "0", roundEq);
  }

  /** Plain words compare case-sensitively. */
  lemma CaseSensitive(roundEq: RoundCheck)
    ensures !CompareElements("ABC", "abc", roundEq)
  {
    assert DropSign("abc") == "abc" && !AllDigits("abc") && IndexOf("abc", '.').None?;
  }

  // ---------------------------------------------------------------------
  // _compare_lines

  /** Number of positions where the zipped token sequences match. */
  function CountMatches(act: seq<string>, exp: seq<string>, roundEq: RoundCheck): (ok: nat)
    ensures ok <= Min(|act|, |exp|)
  {
    if act == [] || exp == [] then 0
    else (if CompareElements(act[0], exp[0], roundEq) then 1 else 0) + CountMatches(act[1..], exp[1..], roundEq)
  }

  predicate AllPositionsMatch(act: seq<string>, exp: seq<string>, roundEq: RoundCheck)
  {
    forall i :: 0 <= i < |act| && i < |exp| ==> CompareElements(act[i], exp[i], roundEq)
  }

  lemma {:induction false} CountMatchesFull(act: seq<string>, exp: seq<string>, roundEq: RoundCheck)
    ensures CountMatches(act, exp, roundEq) == Min(|act|, |exp|) <==> AllPositionsMatch(act, exp, roundEq)
    decreases |act|
  {
    if act != [] && exp != [] {
      CountMatchesFull(act[1..], exp[1..], roundEq);
      if AllPositionsMatch(act, exp, roundEq) {
        assert CompareElements(act[0], exp[0], roundEq);
        forall i | 0 <= i < |act| - 1 && i < |exp| - 1
          ensures CompareElements(act[1..][i], exp[1..][i], roundEq)
        {
          assert act[1..][i] == act[i + 1] && exp[1..][i] == exp[i + 1];
        }
      }
      if CountMatches(act, exp, roundEq) == Min(|act|, |exp|) {
        assert CompareElements(act[0], exp[0], roundEq);
        forall i | 0 <= i < |act| && i < |exp|
          ensures CompareElements(act[i], exp[i], roundEq)
        {
          if i > 0 {
            assert act[1..][i - 1] == act[i] && exp[1..][i - 1] == exp[i];
          }
        }
      }
    }
  }

  /** The ratio of the unmatched positions to the token count. */
  function Ratio(unmatched: nat, den: nat): (d: real)
    requires unmatched <= den
    ensures 0.0 <= d <= 1.0
    ensures d == 0.0 <==> unmatched == 0
  {
    var a := unmatched as real;
    var b := Max(den, 1) as real;
    var q := a / b;
    assert q * b == a;
    q
  }

  /**
   * The difference between two token sequences: (den - ok) / max(den, 1)
   * with den the longer token count and ok the number of matching positions.
   */
  function CompareTokens(act: seq<string>, exp: seq<string>, roundEq: RoundCheck): (d: real)
    ensures 0.0 <= d <= 1.0
  {
    Ratio(Max(|act|, |exp|) - CountMatches(act, exp, roundEq), Max(|act|, |exp|))
  }

  /** The difference between an actual and an expected line, compared token by token. */
  function CompareLines(actual: string, expected: string, roundEq: RoundCheck): (d: real)
    ensures 0.0 <= d <= 1.0
  {
    CompareTokens(Split(actual), Split(expected), roundEq)
  }

  /** A line difference is zero exactly when both lines have as many tokens and every token matches. */
  lemma LineExact(actual: string, expected: string, roundEq: RoundCheck)
    ensures CompareLines(actual, expected, roundEq) == 0.0 <==>
              |Split(actual)| == |Split(expected)| && AllPositionsMatch(Split(actual), Split(expected), roundEq)
  {
    CountMatchesFull(Split(actual), Split(expected), roundEq);
  }

  /** Only the token sequences matter: any run of whitespace may replace any other. */
  lemma WhitespaceLayout(a: string, sp1: string, sp2: string, b: string, expected: string, roundEq: RoundCheck)
    requires sp1 != [] && AllSpace(sp1) && sp2 != [] && AllSpace(sp2)
    ensures CompareLines(a + sp1 + b, expected, roundEq) == CompareLines(a + sp2 + b, expected, roundEq)
    ensures CompareLines(expected, a + sp1 + b, roundEq) == CompareLines(expected, a + sp2 + b, roundEq)
  {
    SplitAtSpace(a, sp1, b);
    SplitAtSpace(a, sp2, b);
    SameTokens(a + sp1 + b, a + sp2 + b, expected, roundEq);
  }

  lemma SameTokens(x: string, y: string, other: string, roundEq: RoundCheck)
    requires Split(x) == Split(y)
    ensures CompareLines(x, other, roundEq) == CompareLines(y, other, roundEq)
    ensures CompareLines(other, x, roundEq) == CompareLines(other, y, roundEq)
  {}

  /**
   * Every line matches itself exactly, given only that the fractional check
   * accepts a fractional token against itself at its own number of fraction
   * digits. Python's `float(t) == round(float(t), d)` does: rounding a
   * decimal literal's nearest float to the literal's own digits gives that
   * float back.
   */
  lemma CompareLinesSelf(line: string, roundEq: RoundCheck)
    requires forall t: string :: FractionDigits(t).Some? ==> roundEq(t, t, FractionDigits(t).value)
    ensures CompareLines(line, line, roundEq) == 0.0
  {
    var toks := Split(line);
    forall i | 0 <= i < |toks| ensures CompareElements(toks[i], toks[i], roundEq) {
      var t := toks[i];
      if FractionDigits(t).None? && IsIntToken(t) {
        IntTokenParses(t);
      }
    }
    LineExact(line, line, roundEq);
  }

  lemma ExampleTokens()
    ensures Split("b c a d") == ["b", "c", "a", "d"]
    ensures Split("a b c d") == ["a", "b", "c", "d"]
  {
    assert "b c a d" == Join(" ", ["b", "c", "a", "d"]);
    SplitJoinWords(["b", "c", "a", "d"]);
    assert "a b c d" == Join(" ", ["a", "b", "c", "d"]);
    SplitJoinWords(["a", "b", "c", "d"]);
  }

  lemma ExampleCount(roundEq: RoundCheck)
    ensures CountMatches(["b", "c", "a", "d"], ["a", "b", "c", "d"], roundEq) == 1
  {
    assert FractionDigits("a").None? && !IsIntToken("a");
    assert FractionDigits("b").None? && !IsIntToken("b");
    assert FractionDigits("c").None? && !IsIntToken("c");
    assert FractionDigits("d").None? && !IsIntToken("d");
  }


  lemma ThreeQuartersOfTokens(roundEq: RoundCheck)
    ensures CompareTokens(["b", "c", "a", "d"], ["a", "b", "c", "d"], roundEq) == 0.75
  {
    ExampleCount(roundEq);
    assert Ratio(3, 4) == 0.75;
  }

  /** 'b c a d' against 'a b c d': one token position of four agrees. */
  lemma ThreeQuartersWrong(roundEq: RoundCheck)
    ensures CompareLines("b c a d", "a b c d", roundEq) == 0.75
  {
    ExampleTokens();
    ThreeQuartersOfTokens(roundEq);
  }

  // ---------------------------------------------------------------------
  // sections compared in order

  /** `_compare_ordered_sections`: position by position over the longer section. */
  function CompareOrdered(actual: seq<string>, expected: seq<string>, roundEq: RoundCheck): (diffs: seq<real>)
    ensures |diffs| == Max(|actual|, |expected|)
    ensures forall i :: 0 <= i < |diffs| ==> 0.0 <= diffs[i] <= 1.0
    ensures forall i :: 0 <= i < |diffs| && (i >= |actual| || i >= |expected|) ==> diffs[i] == 1.0
  {
    seq(Max(|actual|, |expected|), i requires 0 <= i < Max(|actual|, |expected|) =>
      if i < |actual| && i < |expected| then CompareLines(actual[i], expected[i], roundEq) else 1.0)
  }

  function Somes(xs: seq<string>): (r: seq<Option<string>>)
    ensures |r| == |xs| && forall i :: 0 <= i < |xs| ==> r[i] == Some(xs[i])
  {
    seq(|xs|, i requires 0 <= i < |xs| => Some(xs[i]))
  }

  function Nones(n: int): (r: seq<Option<string>>)
    ensures |r| == Max(n, 0) && forall i :: 0 <= i < |r| ==> r[i] == None
  {
    if n <= 0 then [] else [None] + Nones(n - 1)
  }

  /** Python `max(diffs, default=0)`. */
  function MaxDiff(diffs: seq<real>): (m: real)
    ensures diffs == [] ==> m == 0.0
    ensures diffs != [] ==> m in diffs
    ensures forall i :: 0 <= i < |diffs| ==> diffs[i] <= m
  {
    if diffs == [] then 0.0
    else if |diffs| == 1 then diffs[0]
    else
      var rest := MaxDiff(diffs[1..]);
      assert forall i :: 1 <= i < |diffs| ==> diffs[i] == diffs[1..][i - 1];
      if diffs[0] < rest then rest else diffs[0]
  }

  /** Over non-negative differences, a zero maximum means every difference is zero. */
  lemma MaxDiffZero(diffs: seq<real>)
    requires forall i :: 0 <= i < |diffs| ==> diffs[i] >= 0.0
    ensures MaxDiff(diffs) == 0.0 <==> forall i :: 0 <= i < |diffs| ==> diffs[i] == 0.0
  {}

  /** An ordered comparison is perfect iff the sections have equal length and every line pair is exact. */
  lemma OrderedPerfect(actual: seq<string>, expected: seq<string>, roundEq: RoundCheck)
    ensures MaxDiff(CompareOrdered(actual, expected, roundEq)) == 0.0 <==>
              |actual| == |expected| &&
              forall i :: 0 <= i < |actual| ==> CompareLines(actual[i], expected[i], roundEq) == 0.0
  {
    var diffs := CompareOrdered(actual, expected, roundEq);
    MaxDiffZero(diffs);
    if |actual| != |expected| {
      assert diffs[Max(|actual|, |expected|) - 1] == 1.0;
    } else {
      assert forall i :: 0 <= i < |actual| ==> diffs[i] == CompareLines(actual[i], expected[i], roundEq);
    }
  }

  /** Comparing a section with itself in order gives all zeros. */
  lemma OrderedSelf(lines: seq<string>, roundEq: RoundCheck)
    requires forall t: string :: FractionDigits(t).Some? ==> roundEq(t, t, FractionDigits(t).value)
    ensures forall i :: 0 <= i < |lines| ==> CompareOrdered(lines, lines, roundEq)[i] == 0.0
  {
    forall i | 0 <= i < |lines| ensures CompareLines(lines[i], lines[i], roundEq) == 0.0 {
      CompareLinesSelf(lines[i], roundEq);
    }
  }

  // ---------------------------------------------------------------------
  // sections compared without regard to order

  /** The expected indices taken by the choices in `p`. */
  function Used(p: seq<Option<nat>>): set<nat>
  {
    if p == [] then {}
    else Used(p[..|p| - 1]) + (if p[|p| - 1].Some? then {p[|p| - 1].value} else {})
  }

  /**
   * One step of the greedy pairing of an actual line: either some expected
   * line not yet taken that matches exactly, or None when there is none.
   */
  ghost predicate GreedyStep(line: string, expected: seq<string>, roundEq: RoundCheck, used: set<nat>, choice: Option<nat>)
  {
    match choice
    case Some(j) => j < |expected| && j !in used && CompareLines(line, expected[j], roundEq) == 0.0
    case None => forall j :: 0 <= j < |expected| && j !in used ==> CompareLines(line, expected[j], roundEq) != 0.0
  }

  /** `p[i]` is the expected index paired with `actual[i]`, chosen greedily in actual order. */
  ghost predicate GreedyPairing(actual: seq<string>, expected: seq<string>, roundEq: RoundCheck, p: seq<Option<nat>>)
  {
    |p| == |actual| &&
    forall i :: 0 <= i < |p| ==> GreedyStep(actual[i], expected, roundEq, Used(p[..i]), p[i])
  }

  function PairedDiffs(p: seq<Option<nat>>): (r: seq<real>)
    ensures |r| == |p|
  {
    seq(|p|, i requires 0 <= i < |p| => if p[i].Some? then 0.0 else 1.0)
  }

  function PairedMatches(expected: seq<string>, p: seq<Option<nat>>): (r: seq<Option<string>>)
    ensures |r| == |p|
  {
    seq(|p|, i requires 0 <= i < |p| =>
      if p[i].Some? && p[i].value < |expected| then Some(expected[p[i].value]) else None)
  }

  /** The expected lines below index `n` that no choice took, in index order. */
  function Unpaired(expected: seq<string>, used: set<nat>, n: nat): seq<string>
    requires n <= |expected|
  {
    if n == 0 then []
    else Unpaired(expected, used, n - 1) + (if n - 1 in used then [] else [expected[n - 1]])
  }

  function Ones(n: nat): (r: seq<real>)
    ensures |r| == n && forall i :: 0 <= i < n ==> r[i] == 1.0
  {
    seq(n, i => 1.0)
  }

  /** The result of `_compare_unordered_sections` for the pairing `p`. */
  ghost predicate UnorderedResult(actual: seq<string>, expected: seq<string>, roundEq: RoundCheck,
                                  p: seq<Option<nat>>, diffs: seq<real>, matches: seq<Option<string>>)
  {
    GreedyPairing(actual, expected, roundEq, p) &&
    var left := Unpaired(expected, Used(p), |expected|);
    diffs == PairedDiffs(p) + Ones(|left|) &&
    matches == PairedMatches(expected, p) + Somes(left)
  }

  /** The indices below `n`. */
  function Range(n: nat): (r: set<nat>)
    ensures forall j: nat :: j in r <==> j < n
  {
    if n == 0 then {} else Range(n - 1) + {n - 1}
  }

  lemma UsedSnoc(p: seq<Option<nat>>, c: Option<nat>)
    ensures Used(p + [c]) == Used(p) + (if c.Some? then {c.value} else {})
  {
    assert (p + [c])[..|p|] == p;
  }

  lemma GreedyExtend(actual: seq<string>, expected: seq<string>, roundEq: RoundCheck,
                     p: seq<Option<nat>>, choice: Option<nat>)
    requires |p| < |actual|
    requires forall k :: 0 <= k < |p| ==> GreedyStep(actual[k], expected, roundEq, Used(p[..k]), p[k])
    requires GreedyStep(actual[|p|], expected, roundEq, Used(p), choice)
    ensures forall k :: 0 <= k < |p| + 1 ==>
              GreedyStep(actual[k], expected, roundEq, Used((p + [choice])[..k]), (p + [choice])[k])
  {
    var q := p + [choice];
    forall k | 0 <= k < |p| + 1
      ensures GreedyStep(actual[k], expected, roundEq, Used(q[..k]), q[k])
    {
      if k < |p| {
        assert q[..k] == p[..k] && q[k] == p[k];
        assert GreedyStep(actual[k], expected, roundEq, Used(p[..k]), p[k]);
      } else {
        assert q[..k] == p && q[k] == choice;
      }
    }
  }

  lemma PairedSnoc(expected: seq<string>, p: seq<Option<nat>>, choice: Option<nat>)
    requires choice.Some? ==> choice.value < |expected|
    ensures PairedDiffs(p + [choice]) == PairedDiffs(p) + [if choice.Some? then 0.0 else 1.0]
    ensures PairedMatches(expected, p + [choice]) ==
              PairedMatches(expected, p) + [if choice.Some? then Some(expected[choice.value]) else None]
  {}

  lemma OnesSomesSnoc(d: seq<real>, m: seq<Option<string>>, left: seq<string>, x: string)
    ensures d + Ones(|left|) + [1.0] == d + Ones(|left + [x]|)
    ensures m + Somes(left) + [Some(x)] == m + Somes(left + [x])
  {}

  /** `_compare_unordered_sections`: greedy exact pairing, any remaining exact match may be chosen. */
  method CompareUnordered(actual: seq<string>, expected: seq<string>, roundEq: RoundCheck)
    returns (diffs: seq<real>, matches: seq<Option<string>>)
    ensures exists p :: UnorderedResult(actual, expected, roundEq, p, diffs, matches)
  {
    var pool, d, m, p := PairGreedily(actual, expected, roundEq);
    diffs, matches := AppendUnpaired(expected, pool, Used(p), d, m);
    assert UnorderedResult(actual, expected, roundEq, p, diffs, matches);
  }

  /**
   * The first loop of `_compare_unordered_sections`: each actual line takes
   * an exact match from the pool of unpaired expected lines, if any.
   */
  method PairGreedily(actual: seq<string>, expected: seq<string>, roundEq: RoundCheck)
    returns (pool: set<nat>, diffs: seq<real>, matches: seq<Option<string>>, ghost p: seq<Option<nat>>)
    ensures GreedyPairing(actual, expected, roundEq, p)
    ensures pool == Range(|expected|) - Used(p)
    ensures diffs == PairedDiffs(p) && matches == PairedMatches(expected, p)
  {
    pool := Range(|expected|);
    p := [];
    diffs, matches := [], [];
    var i := 0;
    while i < |actual|
      invariant 0 <= i <= |actual| && |p| == i
      invariant pool == Range(|expected|) - Used(p)
      invariant forall k :: 0 <= k < i ==> GreedyStep(actual[k], expected, roundEq, Used(p[..k]), p[k])
      invariant diffs == PairedDiffs(p) && matches == PairedMatches(expected, p)
    {
      var x := actual[i];
      ghost var choice: Option<nat>;
      if j :| j in pool && CompareLines(x, expected[j], roundEq) == 0.0 {
        diffs := diffs + [0.0];
        matches := matches + [Some(expected[j])];
        assert j < |expected| && j !in Used(p);
        pool := pool - {j};
        choice := Some(j);
      } else {
        diffs := diffs + [1.0];
        matches := matches + [None];
        choice := None;
        forall j | 0 <= j < |expected| && j !in Used(p)
          ensures CompareLines(x, expected[j], roundEq) != 0.0
        {
          assert j in pool;
        }
      }
      GreedyExtend(actual, expected, roundEq, p, choice);
      UsedSnoc(p, choice);
      PairedSnoc(expected, p, choice);
      p := p + [choice];
      i := i + 1;
    }
  }

  /**
   * The second loop of `_compare_unordered_sections`: every expected line
   * left in the pool adds a difference of 1 and itself as its match, in
   * expected order.
   */
  method AppendUnpaired(expected: seq<string>, pool: set<nat>, ghost used: set<nat>,
                        d: seq<real>, m: seq<Option<string>>)
    returns (diffs: seq<real>, matches: seq<Option<string>>)
    requires pool == Range(|expected|) - used
    ensures var left := Unpaired(expected, used, |expected|);
      diffs == d + Ones(|left|) && matches == m + Somes(left)
  {
    diffs, matches := d, m;
    ghost var left: seq<string> := [];
    var n := 0;
    while n < |expected|
      invariant 0 <= n <= |expected|
      invariant left == Unpaired(expected, used, n)
      invariant diffs == d + Ones(|left|)
      invariant matches == m + Somes(left)
    {
      assert n in pool <==> n !in used;
      if n in pool {
        OnesSomesSnoc(d, m, left, expected[n]);
        diffs := diffs + [1.0];
        matches := matches + [Some(expected[n])];
        left := left + [expected[n]];
      }
      n := n + 1;
    }
  }

  // ---------------------------------------------------------------------
  // properties of the unordered comparison

  /** Number of actual lines that found a partner. */
  function CountSome(p: seq<Option<nat>>): nat
  {
    if p == [] then 0 else CountSome(p[..|p| - 1]) + (if p[|p| - 1].Some? then 1 else 0)
  }

  lemma {:induction false} UsedMember(p: seq<Option<nat>>, v: nat)
    ensures v in Used(p) <==> exists k :: 0 <= k < |p| && p[k] == Some(v)
    decreases |p|
  {
    if p != [] {
      var q := p[..|p| - 1];
      UsedMember(q, v);
      assert forall k :: 0 <= k < |q| ==> q[k] == p[k];
      if v in Used(q) {
        var k :| 0 <= k < |q| && q[k] == Some(v);
        assert p[k] == Some(v);
      }
    }
  }

  /** A greedy pairing never reuses an expected line, so it takes one index per paired actual line. */
  lemma {:induction false} UsedCard(actual: seq<string>, expected: seq<string>, roundEq: RoundCheck, p: seq<Option<nat>>)
    requires |p| <= |actual|
    requires forall i :: 0 <= i < |p| ==> GreedyStep(actual[i], expected, roundEq, Used(p[..i]), p[i])
    ensures |Used(p)| == CountSome(p)
    ensures forall j :: j in Used(p) ==> j < |expected|
    decreases |p|
  {
    if p != [] {
      var q := p[..|p| - 1];
      forall i | 0 <= i < |q| ensures GreedyStep(actual[i], expected, roundEq, Used(q[..i]), q[i]) {
        assert q[..i] == p[..i] && q[i] == p[i];
      }
      UsedCard(actual, expected, roundEq, q);
      assert p[..|p| - 1] == q;
      assert GreedyStep(actual[|q|], expected, roundEq, Used(q), p[|q|]);
    }
  }

  /** Each expected line is paired with at most one actual line. */
  lemma PairedAtMostOnce(actual: seq<string>, expected: seq<string>, roundEq: RoundCheck, p: seq<Option<nat>>)
    requires GreedyPairing(actual, expected, roundEq, p)
    ensures forall i, k :: 0 <= i < k < |p| && p[i].Some? && p[k].Some? ==> p[i].value != p[k].value
  {
    forall i, k | 0 <= i < k < |p| && p[i].Some? && p[k].Some?
      ensures p[i].value != p[k].value
    {
      assert GreedyStep(actual[k], expected, roundEq, Used(p[..k]), p[k]);
      assert p[..k][i] == p[i];
      UsedMember(p[..k], p[i].value);
    }
  }

  /** How many indices below `n` are in `used`. */
  function CountBelow(used: set<nat>, n: nat): nat
  {
    if n == 0 then 0 else CountBelow(used, n - 1) + (if n - 1 in used then 1 else 0)
  }

  lemma {:induction false} UnpairedCount(expected: seq<string>, used: set<nat>, n: nat)
    requires n <= |expected|
    ensures |Unpaired(expected, used, n)| + CountBelow(used, n) == n
    decreases n
  {
    if n > 0 {
      UnpairedCount(expected, used, n - 1);
    }
  }

  lemma {:induction false} CountBelowSame(a: set<nat>, b: set<nat>, n: nat)
    requires forall j :: j < n ==> (j in a <==> j in b)
    ensures CountBelow(a, n) == CountBelow(b, n)
    decreases n
  {
    if n > 0 {
      CountBelowSame(a, b, n - 1);
    }
  }

  /** A set of indices below `n` is counted in full. */
  lemma {:induction false} CountBelowAll(used: set<nat>, n: nat)
    requires forall j :: j in used ==> j < n
    ensures CountBelow(used, n) == |used|
    decreases n
  {
    if n == 0 {
      assert used == {};
    } else {
      var rest := used - {n - 1};
      CountBelowAll(rest, n - 1);
      CountBelowSame(used, rest, n - 1);
      if n - 1 in used {
        assert used == rest + {n - 1};
      } else {
        assert rest == used;
      }
    }
  }

  /**
   * Shape of an unordered comparison: every difference is 0.0 or 1.0, an
   * actual line is unmatched exactly when it scores 1.0, a matched line is an
   * exact match of the expected line it was paired with, and the unpaired
   * expected lines follow in index order, each scoring 1.0.
   */
  lemma UnorderedShape(actual: seq<string>, expected: seq<string>, roundEq: RoundCheck,
                       p: seq<Option<nat>>, diffs: seq<real>, matches: seq<Option<string>>)
    requires UnorderedResult(actual, expected, roundEq, p, diffs, matches)
    ensures |diffs| == |matches| == |actual| + (|expected| - CountSome(p))
    ensures forall i :: 0 <= i < |diffs| ==> diffs[i] == 0.0 || diffs[i] == 1.0
    ensures forall i :: 0 <= i < |actual| ==> (matches[i].None? <==> diffs[i] == 1.0)
    ensures forall i :: 0 <= i < |actual| && matches[i].Some? ==>
              CompareLines(actual[i], matches[i].value, roundEq) == 0.0
    ensures forall i :: |actual| <= i < |diffs| ==> diffs[i] == 1.0 && matches[i].Some?
    ensures matches[|actual|..] == Somes(Unpaired(expected, Used(p), |expected|))
  {
    UsedCard(actual, expected, roundEq, p);
    UnpairedCount(expected, Used(p), |expected|);
    CountBelowAll(Used(p), |expected|);
    forall i | 0 <= i < |actual| && matches[i].Some?
      ensures CompareLines(actual[i], matches[i].value, roundEq) == 0.0
    {
      assert GreedyStep(actual[i], expected, roundEq, Used(p[..i]), p[i]);
    }
    var left := Unpaired(expected, Used(p), |expected|);
    assert matches[|actual|..] == Somes(left);
  }

  /** `perm` maps each position to a distinct index below `n`. */
  predicate IsPermutation(perm: seq<nat>, n: nat)
  {
    |perm| == n && (forall i :: 0 <= i < n ==> perm[i] < n) &&
    forall i, k :: 0 <= i < k < n ==> perm[i] != perm[k]
  }

  /** No two different expected lines match each other exactly. */
  ghost predicate Distinguishable(expected: seq<string>, roundEq: RoundCheck)
  {
    forall a, b :: 0 <= a < |expected| && 0 <= b < |expected| && a != b ==>
      CompareLines(expected[a], expected[b], roundEq) != 0.0
  }

  lemma NotYetUsed(p: seq<Option<nat>>, perm: seq<nat>, m: nat, n: nat)
    requires IsPermutation(perm, n) && m < n && m <= |p|
    requires forall k :: 0 <= k < m ==> p[k] == Some(perm[k])
    ensures perm[m] !in Used(p[..m])
  {
    UsedMember(p[..m], perm[m]);
    forall k | 0 <= k < m ensures p[..m][k] != Some(perm[m]) {
      assert p[..m][k] == p[k];
    }
  }

  lemma {:induction false} PermutationPrefix(actual: seq<string>, expected: seq<string>, roundEq: RoundCheck,
                                             p: seq<Option<nat>>, perm: seq<nat>, i: nat)
    requires forall t: string :: FractionDigits(t).Some? ==> roundEq(t, t, FractionDigits(t).value)
    requires GreedyPairing(actual, expected, roundEq, p)
    requires |actual| == |expected| && IsPermutation(perm, |expected|)
    requires forall k :: 0 <= k < |actual| ==> actual[k] == expected[perm[k]]
    requires Distinguishable(expected, roundEq)
    requires i <= |actual|
    ensures forall k :: 0 <= k < i ==> p[k] == Some(perm[k])
    decreases i
  {
    if i > 0 {
      var m := i - 1;
      PermutationPrefix(actual, expected, roundEq, p, perm, m);
      NotYetUsed(p, perm, m, |expected|);
      CompareLinesSelf(actual[m], roundEq);
      assert GreedyStep(actual[m], expected, roundEq, Used(p[..m]), p[m]);
      assert actual[m] == expected[perm[m]] && perm[m] < |expected|;
      PermutationStep(actual[m], expected, roundEq, Used(p[..m]), p[m], perm[m]);
    }
  }

  /** A line whose own copy is still free is paired, and with that copy when no two expected lines match. */
  lemma PermutationStep(line: string, expected: seq<string>, roundEq: RoundCheck, used: set<nat>,
                        choice: Option<nat>, j: nat)
    requires GreedyStep(line, expected, roundEq, used, choice)
    requires j < |expected| && line == expected[j] && j !in used
    requires CompareLines(line, line, roundEq) == 0.0
    requires Distinguishable(expected, roundEq)
    ensures choice == Some(j)
  {
    assert choice.Some?;
    var j' := choice.value;
    assert CompareLines(expected[j], expected[j'], roundEq) == 0.0;
  }

  /**
   * When the actual lines are a permutation of pairwise distinguishable
   * expected lines, every line finds its own copy: all differences are zero
   * and the matches are the actual lines in actual order.
   */
  lemma PermutationMatchesAll(actual: seq<string>, expected: seq<string>, roundEq: RoundCheck,
                              p: seq<Option<nat>>, diffs: seq<real>, matches: seq<Option<string>>, perm: seq<nat>)
    requires forall t: string :: FractionDigits(t).Some? ==> roundEq(t, t, FractionDigits(t).value)
    requires UnorderedResult(actual, expected, roundEq, p, diffs, matches)
    requires |actual| == |expected| && IsPermutation(perm, |expected|)
    requires forall k :: 0 <= k < |actual| ==> actual[k] == expected[perm[k]]
    requires Distinguishable(expected, roundEq)
    ensures |diffs| == |actual| && forall i :: 0 <= i < |diffs| ==> diffs[i] == 0.0
    ensures matches == Somes(actual)
  {
    PermutationPrefix(actual, expected, roundEq, p, perm, |actual|);
    UsedCard(actual, expected, roundEq, p);
    CountAllSome(p);
    UnpairedCount(expected, Used(p), |expected|);
    CountBelowAll(Used(p), |expected|);
    var left := Unpaired(expected, Used(p), |expected|);
    assert |left| == 0;
    assert diffs == PairedDiffs(p);
    assert matches == PairedMatches(expected, p);
  }

  lemma {:induction false} CountAllSome(p: seq<Option<nat>>)
    requires forall k :: 0 <= k < |p| ==> p[k].Some?
    ensures CountSome(p) == |p|
    decreases |p|
  {
    if p != [] {
      CountAllSome(p[..|p| - 1]);
    }
  }

  // ---------------------------------------------------------------------
  // compare_sections

  /** The (diffs, matches) pairs `compare_sections` may return. */
  ghost predicate SectionComparison(actual: seq<string>, expected: seq<string>, ordered: bool, roundEq: RoundCheck,
                                    diffs: seq<real>, matches: seq<Option<string>>)
  {
    if ordered then
      diffs == CompareOrdered(actual, expected, roundEq) &&
      matches == Somes(expected) + Nones(|actual| - |expected|)
    else
      exists p :: UnorderedResult(actual, expected, roundEq, p, diffs, matches)
  }

  /**
   * `compare_sections`: one difference per compared position, in [0, 1],
   * and one match per difference; the matches never fall short of the actual lines.
   */
  method CompareSections(actual: seq<string>, expected: seq<string>, ordered: bool, roundEq: RoundCheck)
    returns (diffs: seq<real>, matches: seq<Option<string>>)
    ensures SectionComparison(actual, expected, ordered, roundEq, diffs, matches)
    ensures |diffs| == |matches| && |matches| >= |actual|
    ensures forall i :: 0 <= i < |diffs| ==> 0.0 <= diffs[i] <= 1.0
  {
    if ordered {
      matches := Somes(expected);
      diffs := CompareOrdered(actual, expected, roundEq);
      matches := matches + Nones(|actual| - |matches|);
    } else {
      diffs, matches := CompareUnordered(actual, expected, roundEq);
      ghost var p :| UnorderedResult(actual, expected, roundEq, p, diffs, matches);
      UnorderedShape(actual, expected, roundEq, p, diffs, matches);
    }
  }

  /** Ordered mode: `matches` is the expected section followed by None up to the actual length. */
  lemma OrderedMatchesShape(actual: seq<string>, expected: seq<string>, roundEq: RoundCheck,
                            diffs: seq<real>, matches: seq<Option<string>>)
    requires SectionComparison(actual, expected, true, roundEq, diffs, matches)
    ensures |matches| == |diffs| == Max(|actual|, |expected|)
    ensures forall i :: 0 <= i < |expected| ==> matches[i] == Some(expected[i])
    ensures forall i :: |expected| <= i < |matches| ==> matches[i] == None
  {}
}
