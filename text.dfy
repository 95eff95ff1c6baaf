/**
 * The Python string operations the checker relies on, over `seq<char>`.
 * Whitespace is the ASCII set (space, tab, LF, CR, VT, FF) and lines end at
 * '\n' only; Python's Unicode-wide sets are approximated by these.
 */
module Text {
  import opened Common

  predicate IsSpace(c: char) {
    c == ' ' || c == '\t' || c == '\n' || c == '\r' || c == '\U{000B}' || c == '\U{000C}'
  }

  predicate AllSpace(s: string) { forall i :: 0 <= i < |s| ==> IsSpace(s[i]) }

  predicate NoSpace(s: string) { forall i :: 0 <= i < |s| ==> !IsSpace(s[i]) }

  // ---------------------------------------------------------------------
  // str.split() with no separator

  /** Number of leading characters of `s` before the first whitespace. */
  function TokenLength(s: string): (n: nat)
    ensures n <= |s|
    ensures NoSpace(s[..n])
    ensures n < |s| ==> IsSpace(s[n])
  {
    if s == [] || IsSpace(s[0]) then 0
    else
      var m := TokenLength(s[1..]);
      assert s[..1 + m] == [s[0]] + s[1..][..m];
      1 + m
  }

  /** Python `s.split()`: the maximal runs of non-whitespace characters. */
  function Split(s: string): (r: seq<string>)
    ensures forall k :: 0 <= k < |r| ==> r[k] != [] && NoSpace(r[k])
    decreases |s|
  {
    if s == [] then []
    else if IsSpace(s[0]) then Split(s[1..])
    else
      var n := TokenLength(s);
      [s[..n]] + Split(s[n..])
  }

  lemma {:induction false} SplitLeadingSpace(sp: string, b: string)
    requires AllSpace(sp)
    ensures Split(sp + b) == Split(b)
    decreases |sp|
  {
    if sp == [] {
      assert sp + b == b;
    } else {
      assert (sp + b)[0] == sp[0];
      assert (sp + b)[1..] == sp[1..] + b;
      SplitLeadingSpace(sp[1..], b);
    }
  }

  lemma {:induction false} TokenLengthBeforeSpace(a: string, t: string)
    requires t == [] || IsSpace(t[0])
    ensures TokenLength(a + t) == TokenLength(a)
    decreases |a|
  {
    if a != [] && !IsSpace(a[0]) {
      assert (a + t)[1..] == a[1..] + t;
      TokenLengthBeforeSpace(a[1..], t);
    }
  }

  lemma {:induction false} TokenLengthWord(w: string)
    requires NoSpace(w)
    ensures TokenLength(w) == |w|
    decreases |w|
  {
    if w != [] {
      TokenLengthWord(w[1..]);
    }
  }

  /** A single word splits into itself. */
  lemma SplitWord(w: string)
    requires w != [] && NoSpace(w)
    ensures Split(w) == [w]
  {
    TokenLengthWord(w);
    assert w[..|w|] == w && w[|w|..] == [];
  }

  /** Splitting distributes over a whitespace separator of any length and kind. */
  lemma {:induction false} SplitAtSpace(a: string, sp: string, b: string)
    requires sp != [] && AllSpace(sp)
    ensures Split(a + sp + b) == Split(a) + Split(b)
    decreases |a|
  {
    if a == [] {
      assert a + sp + b == sp + b;
      SplitLeadingSpace(sp, b);
    } else if IsSpace(a[0]) {
      assert (a + sp + b)[1..] == a[1..] + sp + b;
      SplitAtSpace(a[1..], sp, b);
    } else {
      var n := TokenLength(a);
      TokenLengthBeforeSpace(a, sp + b);
      assert a + sp + b == a + (sp + b);
      assert (a + sp + b)[..n] == a[..n];
      assert (a + sp + b)[n..] == a[n..] + sp + b;
      SplitAtSpace(a[n..], sp, b);
    }
  }

  // ---------------------------------------------------------------------
  // str.strip(), str.lstrip(), str.rstrip() with no argument

  /** Python `s.lstrip()`: `s` without its leading whitespace. */
  function LStrip(s: string): (r: string)
    ensures |r| <= |s| && r == s[|s| - |r|..]
    ensures AllSpace(s[..|s| - |r|])
    ensures r == [] || !IsSpace(r[0])
    decreases |s|
  {
    if s != [] && IsSpace(s[0]) then
      var r := LStrip(s[1..]);
      assert s[..|s| - |r|] == [s[0]] + s[1..][..|s[1..]| - |r|];
      r
    else s
  }

  /** Python `s.rstrip()`: `s` without its trailing whitespace. */
  function RStrip(s: string): (r: string)
    ensures |r| <= |s| && r == s[..|r|]
    ensures AllSpace(s[|r|..])
    ensures r == [] || !IsSpace(r[|r| - 1])
    decreases |s|
  {
    if s != [] && IsSpace(s[|s| - 1]) then
      var r := RStrip(s[..|s| - 1]);
      assert s[|r|..] == s[..|s| - 1][|r|..] + [s[|s| - 1]];
      r
    else s
  }

  /** Leading whitespace before a non-space character is exactly what `lstrip` removes. */
  lemma {:induction false} LStripOf(sp: string, x: string)
    requires AllSpace(sp) && (x == [] || !IsSpace(x[0]))
    ensures LStrip(sp + x) == x
    decreases |sp|
  {
    if sp == [] {
      assert sp + x == x;
    } else {
      assert (sp + x)[0] == sp[0];
      assert (sp + x)[1..] == sp[1..] + x;
      LStripOf(sp[1..], x);
    }
  }

  /** Python `s.strip()`. */
  function Strip(s: string): string { LStrip(RStrip(s)) }

  lemma RStripIdempotent(s: string)
    ensures RStrip(RStrip(s)) == RStrip(s)
  {}

  lemma StripAfterRStrip(s: string)
    ensures Strip(RStrip(s)) == Strip(s)
  {
    RStripIdempotent(s);
  }

  /** A string with no whitespace at either end is its own strip. */
  lemma StripUnchanged(s: string)
    requires s == [] || (!IsSpace(s[0]) && !IsSpace(s[|s| - 1]))
    ensures Strip(s) == s && RStrip(s) == s
  {}

  // ---------------------------------------------------------------------
  // prefixes, substrings, searching

  predicate StartsWith(s: string, prefix: string) { prefix <= s }

  /** Python `sub in s`. */
  predicate Contains(s: string, sub: string)
    decreases |s|
  {
    sub <= s || (s != [] && Contains(s[1..], sub))
  }

  /** A text inside the second part of a string is inside the string. */
  lemma {:induction false} ContainsSuffix(a: string, b: string, sub: string)
    requires Contains(b, sub)
    ensures Contains(a + b, sub)
    decreases |a|
  {
    if a != [] {
      ContainsSuffix(a[1..], b, sub);
      assert (a + b)[1..] == a[1..] + b;
      assert Contains((a + b)[1..], sub);
    } else {
      assert a + b == b;
    }
  }

  lemma ContainsMiddle(a: string, sub: string, c: string)
    ensures Contains(a + sub + c, sub)
  {
    assert sub <= sub + c;
    ContainsSuffix(a, sub + c, sub);
    assert a + sub + c == a + (sub + c);
  }

  lemma {:induction false} ContainsHead(s: string, sub: string)
    requires sub != [] && Contains(s, sub)
    ensures sub[0] in s
    decreases |s|
  {
    if !(sub <= s) {
      ContainsHead(s[1..], sub);
    }
  }

  /** Index of the first occurrence of `c` in `s`. */
  function IndexOf(s: string, c: char): (r: Option<nat>)
    ensures r.None? ==> c !in s
    ensures r.Some? ==> r.value < |s| && s[r.value] == c && c !in s[..r.value]
  {
    if s == [] then None
    else if s[0] == c then Some(0)
    else match IndexOf(s[1..], c)
      case None => None
      case Some(k) =>
        assert s[..k + 1] == [s[0]] + s[1..][..k];
        Some(k + 1)
  }

  /** Python `s.partition(sep)` for a one-character separator. */
  function Partition(s: string, sep: char): (r: (string, string, string))
    ensures sep !in r.0
    ensures r.0 + r.1 + r.2 == s
    ensures r.1 == [] ==> r.0 == s && r.2 == []
    ensures r.1 != [] ==> r.1 == [sep]
  {
    match IndexOf(s, sep)
    case None => (s, "", "")
    case Some(k) =>
      assert s == s[..k] + [sep] + s[k + 1..];
      (s[..k], [sep], s[k + 1..])
  }

  /** Python `s.replace(c, by)` for a one-character pattern. */
  function ReplaceChar(s: string, c: char, rep: string): (r: string)
    ensures c in r ==> c in rep
    ensures |rep| == 1 ==> |r| == |s|
    ensures |rep| == 1 ==> forall i :: 0 <= i < |s| ==> r[i] == if s[i] == c then rep[0] else s[i]
  {
    if s == [] then []
    else (if s[0] == c then rep else [s[0]]) + ReplaceChar(s[1..], c, rep)
  }

  function Repeat(c: char, n: nat): (r: string)
    ensures |r| == n && forall i :: 0 <= i < n ==> r[i] == c
  {
    if n == 0 then [] else [c] + Repeat(c, n - 1)
  }

  /** `'{:<w}'.format(s)`: `s` padded on the right with spaces to width `w`. */
  function PadRight(s: string, w: int): (r: string)
    ensures |r| == Max(|s|, w) && r[..|s|] == s
  {
    if |s| < w then s + Repeat(' ', w - |s|) else s
  }

  /** `'%wd'`-style padding: `s` padded on the left with spaces to width `w`. */
  function PadLeft(s: string, w: int): (r: string)
    ensures |r| == Max(|s|, w) && r[|r| - |s|..] == s
  {
    if |s| < w then Repeat(' ', w - |s|) + s else s
  }

  // ---------------------------------------------------------------------
  // joining and splitting lines

  /** Concatenation of all strings in `ss` (`"".join(ss)`). */
  function Concat(ss: seq<string>): (r: string)
  {
    if ss == [] then [] else ss[0] + Concat(ss[1..])
  }

  lemma {:induction false} ConcatAppend(a: seq<string>, b: seq<string>)
    ensures Concat(a + b) == Concat(a) + Concat(b)
    decreases |a|
  {
    if a == [] {
      assert a + b == b;
    } else {
      assert (a + b)[0] == a[0];
      assert (a + b)[1..] == a[1..] + b;
      ConcatAppend(a[1..], b);
    }
  }

  /** The first `k` pieces of a split are a prefix of the whole. */
  lemma ConcatPrefix(ss: seq<string>, k: nat)
    requires k <= |ss|
    ensures Concat(ss[..k]) <= Concat(ss)
  {
    assert ss == ss[..k] + ss[k..];
    ConcatAppend(ss[..k], ss[k..]);
  }

  /** Python `sep.join(xs)`. */
  function Join(sep: string, xs: seq<string>): string
  {
    if xs == [] then ""
    else if |xs| == 1 then xs[0]
    else xs[0] + sep + Join(sep, xs[1..])
  }

  /** Words joined by single spaces split back into the same words. */
  lemma {:induction false} SplitJoinWords(ws: seq<string>)
    requires forall k :: 0 <= k < |ws| ==> ws[k] != [] && NoSpace(ws[k])
    ensures Split(Join(" ", ws)) == ws
    decreases |ws|
  {
    if |ws| == 1 {
      SplitWord(ws[0]);
    } else if |ws| > 1 {
      SplitJoinWords(ws[1..]);
      SplitAtSpace(ws[0], " ", Join(" ", ws[1..]));
      SplitWord(ws[0]);
    }
  }

  /** Each line followed by its own '\n'. */
  function Terminated(ls: seq<string>): string
  {
    if ls == [] then "" else ls[0] + "\n" + Terminated(ls[1..])
  }

  lemma {:induction false} JoinTerminated(ls: seq<string>)
    requires ls != []
    ensures Join("\n", ls) + "\n" == Terminated(ls)
    decreases |ls|
  {
    if |ls| > 1 {
      JoinTerminated(ls[1..]);
    }
  }

  /** Length of the first line of `s`, its '\n' terminator included if it has one. */
  function LineLength(s: string): (n: nat)
    requires s != []
    ensures 1 <= n <= |s|
    ensures '\n' !in s[..n - 1]
    ensures n < |s| ==> s[n - 1] == '\n'
  {
    if s[0] == '\n' || |s| == 1 then 1
    else
      var m := LineLength(s[1..]);
      assert s[..m] == [s[0]] + s[1..][..m - 1];
      1 + m
  }

  /** Python `s.splitlines(True)`: the lines of `s`, terminators kept. */
  function SplitLinesKeep(s: string): (r: seq<string>)
    ensures Concat(r) == s
    ensures forall k :: 0 <= k < |r| ==> r[k] != []
    decreases |s|
  {
    if s == [] then []
    else
      var n := LineLength(s);
      assert s == s[..n] + s[n..];
      [s[..n]] + SplitLinesKeep(s[n..])
  }

  /** Python `s.splitlines()`: the lines of `s` without terminators; a final '\n' adds no empty line. */
  function SplitLines(s: string): (r: seq<string>)
    ensures forall k :: 0 <= k < |r| ==> '\n' !in r[k]
    decreases |s|
  {
    if s == [] then []
    else
      var n := LineLength(s);
      [if s[n - 1] == '\n' then s[..n - 1] else s[..n]] + SplitLines(s[n..])
  }

  lemma {:induction false} LineLengthOfTerminated(l: string, rest: string)
    requires '\n' !in l
    ensures LineLength(l + "\n" + rest) == |l| + 1
    decreases |l|
  {
    if l != [] {
      assert (l + "\n" + rest)[1..] == l[1..] + "\n" + rest;
      LineLengthOfTerminated(l[1..], rest);
    }
  }

  /** Splitting '\n'-terminated lines gives the lines back. */
  lemma {:induction false} SplitTerminated(ls: seq<string>)
    requires forall k :: 0 <= k < |ls| ==> '\n' !in ls[k]
    ensures SplitLines(Terminated(ls)) == ls
    decreases |ls|
  {
    if ls != [] {
      var rest := Terminated(ls[1..]);
      assert Terminated(ls) == ls[0] + "\n" + rest;
      SplitLinesOfTerminated(ls[0], rest);
      SplitTerminated(ls[1..]);
    }
  }

  /** A text that starts with a '\n'-terminated line splits into that line and the lines after it. */
  lemma SplitLinesOfTerminated(l: string, rest: string)
    requires '\n' !in l
    ensures SplitLines(l + "\n" + rest) == [l] + SplitLines(rest)
  {
    var s := l + "\n" + rest;
    LineLengthOfTerminated(l, rest);
    var n := |l| + 1;
    assert s[n - 1] == '\n';
    assert s[..n - 1] == l;
    assert s[n..] == rest;
  }

  // ---------------------------------------------------------------------
  // integers

  predicate IsDigit(c: char) { '0' <= c <= '9' }

  predicate AllDigits(s: string) { forall i :: 0 <= i < |s| ==> IsDigit(s[i]) }

  function DigitValue(c: char): nat
    requires IsDigit(c)
  {
    c as int - '0' as int
  }

  /** The value of a string of decimal digits. */
  function DecimalValue(ds: string): nat
    requires AllDigits(ds)
    decreases |ds|
  {
    if ds == [] then 0 else 10 * DecimalValue(ds[..|ds| - 1]) + DigitValue(ds[|ds| - 1])
  }

  /** Digits with single underscores between them, as Python's `int()` accepts them. */
  predicate IsDigitGroup(s: string)
  {
    |s| > 0 && IsDigit(s[0]) && IsDigit(s[|s| - 1]) &&
    (forall i :: 0 <= i < |s| ==> IsDigit(s[i]) || s[i] == '_') &&
    (forall i :: 0 < i < |s| && s[i] == '_' ==> s[i - 1] != '_')
  }

  function RemoveUnderscores(s: string): (r: string)
    requires forall i :: 0 <= i < |s| ==> IsDigit(s[i]) || s[i] == '_'
    ensures AllDigits(r)
  {
    if s == [] then []
    else (if s[0] == '_' then [] else [s[0]]) + RemoveUnderscores(s[1..])
  }

  /** Python `int(s)` on a decimal string; None where Python raises ValueError. */
  function ParseInt(s: string): Option<int>
  {
    var t := Strip(s);
    var negative := t != [] && t[0] == '-';
    var body := if t != [] && (t[0] == '-' || t[0] == '+') then t[1..] else t;
    if IsDigitGroup(body) then
      var v: int := DecimalValue(RemoveUnderscores(body));
      var n: int := if negative then -v else v;
      Some(n)
    else None
  }

  function DigitChar(d: nat): char
    requires d < 10
  {
    ('0' as int + d) as char
  }

  /** Python `str(n)` / `'%d' % n` for a natural number. */
  function NatToString(n: nat): (r: string)
    ensures |r| > 0 && AllDigits(r)
    ensures DecimalValue(r) == n
    decreases n
  {
    if n < 10 then [DigitChar(n)]
    else
      var r := NatToString(n / 10) + [DigitChar(n % 10)];
      assert r[..|r| - 1] == NatToString(n / 10);
      r
  }

  /** Python `str(i)` / `'%d' % i`. */
  function IntToString(i: int): string
  {
    if i < 0 then "-" + NatToString(-i) else NatToString(i)
  }
}
