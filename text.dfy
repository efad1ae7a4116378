/**
 * ASCII models of the Python `str` operations the scripts rely on:
 * `isspace`, `lower`, `title`, `strip`, `in`, `startswith`, `endswith`,
 * `split` on one character, `join`, and decimal printing of integers.
 * Unicode case mapping and Unicode whitespace beyond ASCII are not modelled.
 */
module Text {

  /** Python's `str.isspace` on ASCII: space, \t, \n, \v, \f, \r and \x1c-\x1f (also regex `\s`). */
  predicate IsSpace(c: char) {
    c == ' ' || c == '\t' || c == '\n' || c == '\r' || c == '\U{B}' || c == '\U{C}'
    || ('\U{1C}' <= c <= '\U{1F}')
  }

  predicate IsDigit(c: char) { '0' <= c <= '9' }

  predicate IsLetter(c: char) { 'a' <= c <= 'z' || 'A' <= c <= 'Z' }

  /** Regex `\w` on ASCII: letters, digits and the underscore. */
  predicate IsWordChar(c: char) { IsLetter(c) || IsDigit(c) || c == '_' }

  function LowerChar(c: char): char {
    if 'A' <= c <= 'Z' then (c as int + 32) as char else c
  }

  function UpperChar(c: char): char {
    if 'a' <= c <= 'z' then (c as int - 32) as char else c
  }

  /** `s.lower()` on ASCII letters. */
  function Lower(s: string): (r: string)
    ensures |r| == |s|
    ensures forall i {:trigger r[i]} :: 0 <= i < |s| ==> r[i] == LowerChar(s[i])
  {
    seq(|s|, i requires 0 <= i < |s| => LowerChar(s[i]))
  }

  lemma LowerConcat(a: string, b: string)
    ensures Lower(a + b) == Lower(a) + Lower(b)
  {
  }

  /** Every character of `r` occurs in `s`. */
  ghost predicate CharsFrom(r: string, s: string) {
    forall k :: 0 <= k < |r| ==> r[k] in s
  }

  ghost predicate AllSpace(s: string) {
    forall k :: 0 <= k < |s| ==> IsSpace(s[k])
  }

  /** No whitespace at either end (what `strip()` guarantees). */
  ghost predicate NoEdgeSpace(s: string) {
    s == [] || (!IsSpace(s[0]) && !IsSpace(s[|s| - 1]))
  }

  /** No two adjacent whitespace characters. */
  ghost predicate NoDoubleSpace(s: string) {
    forall i :: 0 < i < |s| ==> !(IsSpace(s[i - 1]) && IsSpace(s[i]))
  }

  /** `r` is the slice of `s` that starts at `i`. */
  ghost predicate InfixAt(r: string, s: string, i: int) {
    0 <= i <= |s| - |r| && r == s[i..i + |r|]
  }

  /** `r` is a contiguous slice of `s`. */
  ghost predicate IsInfix(r: string, s: string) {
    exists i :: InfixAt(r, s, i)
  }

  /** No occurrence of `a` is followed, anywhere later, by an occurrence of `b`. */
  ghost predicate NoPairAfter(s: string, a: char, b: char) {
    forall i, j :: 0 <= i < j < |s| ==> !(s[i] == a && s[j] == b)
  }

  lemma InfixKeeps(r: string, s: string)
    requires IsInfix(r, s)
    ensures CharsFrom(r, s)
    ensures NoDoubleSpace(s) ==> NoDoubleSpace(r)
    ensures forall a, b :: NoPairAfter(s, a, b) ==> NoPairAfter(r, a, b)
  {
    var i :| InfixAt(r, s, i);
    forall k | 0 <= k < |r| ensures r[k] in s {
      assert r[k] == s[i + k];
    }
    forall a, b | NoPairAfter(s, a, b) ensures NoPairAfter(r, a, b) {
      forall x, y | 0 <= x < y < |r| ensures !(r[x] == a && r[y] == b) {
        assert r[x] == s[i + x] && r[y] == s[i + y];
      }
    }
    if NoDoubleSpace(s) {
      forall x | 0 < x < |r| ensures !(IsSpace(r[x - 1]) && IsSpace(r[x])) {
        assert r[x - 1] == s[i + x - 1] && r[x] == s[i + x];
      }
    }
  }

  /** Drops the leading whitespace of `s`. */
  function StripLeft(s: string): (r: string)
    ensures |r| <= |s|
  {
    if s != [] && IsSpace(s[0]) then StripLeft(s[1..]) else s
  }

  /** `StripLeft` keeps a suffix that starts without whitespace, after only whitespace. */
  lemma {:induction false} StripLeftFacts(s: string)
    ensures StripLeft(s) == s[|s| - |StripLeft(s)|..]
    ensures StripLeft(s) == [] || !IsSpace(StripLeft(s)[0])
    ensures forall k :: 0 <= k < |s| - |StripLeft(s)| ==> IsSpace(s[k])
  {
    if s != [] && IsSpace(s[0]) {
      StripLeftFacts(s[1..]);
      assert s[1..][|s| - 1 - |StripLeft(s)|..] == s[|s| - |StripLeft(s)|..];
      forall k | 1 <= k < |s| - |StripLeft(s)| ensures IsSpace(s[k]) {
        assert s[k] == s[1..][k - 1];
      }
    }
  }

  /** Drops the trailing whitespace of `s`. */
  function StripRight(s: string): (r: string)
    ensures |r| <= |s|
  {
    if s != [] && IsSpace(s[|s| - 1]) then StripRight(s[..|s| - 1]) else s
  }

  /** `StripRight` keeps a prefix that ends without whitespace, before only whitespace. */
  lemma {:induction false} StripRightFacts(s: string)
    ensures StripRight(s) == s[..|StripRight(s)|]
    ensures StripRight(s) == [] || !IsSpace(StripRight(s)[|StripRight(s)| - 1])
    ensures forall k :: |StripRight(s)| <= k < |s| ==> IsSpace(s[k])
  {
    if s != [] && IsSpace(s[|s| - 1]) {
      StripRightFacts(s[..|s| - 1]);
      assert s[..|s| - 1][..|StripRight(s)|] == s[..|StripRight(s)|];
      forall k | |StripRight(s)| <= k < |s| - 1 ensures IsSpace(s[k]) {
        assert s[k] == s[..|s| - 1][k];
      }
    }
  }

  /** `s.strip()`: the slice of `s` between its leading and trailing whitespace. */
  function Strip(s: string): (r: string)
    ensures NoEdgeSpace(r)
    ensures r == [] <==> AllSpace(s)
  {
    var l := StripLeft(s);
    StripLeftFacts(s);
    StripRightFacts(l);
    var r := StripRight(l);
    assert AllSpace(s) ==> l == [];
    assert r == [] ==> l == [];
    assert r != [] ==> r[0] == l[0];
    r
  }

  /** Stripping keeps the absence of an `a` followed later by a `b`. */
  lemma StripNoPair(s: string, a: char, b: char)
    requires NoPairAfter(s, a, b)
    ensures NoPairAfter(Strip(s), a, b)
  {
    StripInfix(s);
    InfixKeeps(Strip(s), s);
  }

  /** `strip()` keeps a contiguous slice of its argument. */
  lemma StripInfix(s: string)
    ensures IsInfix(Strip(s), s)
  {
    var l := StripLeft(s);
    StripLeftFacts(s);
    StripRightFacts(l);
    var r := StripRight(l);
    var i := |s| - |l|;
    assert Strip(s) == r;
    assert l == s[i..];
    assert r == l[..|r|] == s[i..][..|r|];
    assert s[i..][..|r|] == s[i..i + |r|];
    assert InfixAt(r, s, i);
  }

  /** `strip()` leaves a string without edge whitespace as it is. */
  lemma StripClean(s: string)
    requires NoEdgeSpace(s)
    ensures Strip(s) == s
  {
    var l := StripLeft(s);
    StripLeftFacts(s);
    StripRightFacts(l);
    assert s != [] ==> |l| == |s| && |StripRight(l)| == |l|;
  }

  /** `sub in s` for strings. */
  predicate Contains(s: string, sub: string)
    decreases |s|
  {
    sub <= s || (s != [] && Contains(s[1..], sub))
  }

  lemma {:induction false} ContainsAt(s: string, sub: string, i: nat)
    requires i + |sub| <= |s| && s[i..i + |sub|] == sub
    ensures Contains(s, sub)
    decreases i
  {
    if i == 0 {
      assert sub <= s;
    } else {
      assert s[1..][i - 1..i - 1 + |sub|] == sub;
      ContainsAt(s[1..], sub, i - 1);
    }
  }

  /** The middle part of a concatenation occurs in it. */
  lemma ContainsMiddle(a: string, b: string, c: string)
    ensures Contains(a + b + c, b)
  {
    assert (a + b + c)[|a|..|a| + |b|] == b;
    ContainsAt(a + b + c, b, |a|);
  }

  lemma {:induction false} ContainsWitness(s: string, sub: string) returns (i: nat)
    requires Contains(s, sub)
    ensures i + |sub| <= |s| && s[i..i + |sub|] == sub
    decreases |s|
  {
    if sub <= s {
      i := 0;
    } else {
      var j := ContainsWitness(s[1..], sub);
      i := j + 1;
      assert s[1..][j..j + |sub|] == s[i..i + |sub|];
    }
  }

  /** `s.startswith(p)`. */
  predicate StartsWith(s: string, p: string) { p <= s }

  /** `s.endswith(p)`. */
  predicate EndsWith(s: string, p: string) {
    |p| <= |s| && s[|s| - |p|..] == p
  }

  /** `sep.join(parts)`. */
  function Join(sep: string, parts: seq<string>): string {
    if |parts| == 0 then ""
    else if |parts| == 1 then parts[0]
    else parts[0] + sep + Join(sep, parts[1..])
  }

  /** `s.split(c)` for a one-character separator `c`: never an empty list, no part holds `c`. */
  function Split(s: string, c: char): (parts: seq<string>)
    ensures |parts| >= 1
    ensures forall i :: 0 <= i < |parts| ==> c !in parts[i]
  {
    if s == [] then [""]
    else
      var rest := Split(s[1..], c);
      if s[0] == c then [""] + rest else [[s[0]] + rest[0]] + rest[1..]
  }

  /** Joining the parts of a split with the separator gives back the string. */
  lemma {:induction false} JoinSplit(s: string, c: char)
    ensures Join([c], Split(s, c)) == s
  {
    if s != [] {
      var rest := Split(s[1..], c);
      JoinSplit(s[1..], c);
      if s[0] == c {
        assert Split(s, c) == [""] + rest;
        assert Join([c], [""] + rest) == "" + [c] + Join([c], rest);
      } else {
        var parts := [[s[0]] + rest[0]] + rest[1..];
        if |rest| == 1 {
          assert Join([c], parts) == [s[0]] + rest[0];
        } else {
          assert Join([c], rest) == rest[0] + [c] + Join([c], rest[1..]);
          assert parts[1..] == rest[1..];
          assert Join([c], parts) == [s[0]] + rest[0] + [c] + Join([c], rest[1..]);
        }
      }
    }
  }

  /** The first part of a split: the text before the first `c` (all of `s` when there is none). */
  lemma {:induction false} SplitHead(s: string, c: char)
    ensures Split(s, c)[0] <= s
    ensures c !in s ==> Split(s, c) == [s]
    ensures c in s ==> |Split(s, c)[0]| < |s| && s[|Split(s, c)[0]|] == c
  {
    if s != [] {
      SplitHead(s[1..], c);
      assert s == [s[0]] + s[1..];
    }
  }

  /** `s.replace(a, b)` for single characters. */
  function ReplaceChar(s: string, a: char, b: char): (r: string)
    ensures |r| == |s|
    ensures forall i :: 0 <= i < |s| ==> r[i] == if s[i] == a then b else s[i]
  {
    seq(|s|, i requires 0 <= i < |s| => if s[i] == a then b else s[i])
  }

  function DigitChar(d: nat): (c: char)
    requires d < 10
    ensures IsDigit(c)
  {
    ('0' as int + d) as char
  }

  function DigitValue(c: char): (d: nat)
    requires IsDigit(c)
    ensures d < 10 && DigitChar(d) == c
  {
    c as int - '0' as int
  }

  /** Decimal text of a natural number, as `str(n)` and f-strings print it. */
  function NatText(n: nat): (r: string)
    ensures |r| >= 1
    ensures forall i :: 0 <= i < |r| ==> IsDigit(r[i])
    ensures (|r| == 1) == (n < 10)
  {
    if n < 10 then [DigitChar(n)] else NatText(n / 10) + [DigitChar(n % 10)]
  }

  /** Decimal text of an integer. */
  function IntText(n: int): string {
    if n < 0 then "-" + NatText(-n) else NatText(n)
  }

  /** The value of a string of decimal digits, as `int(s)` gives it (leading zeros allowed). */
  function DigitsValue(s: string): (n: nat)
    requires forall i :: 0 <= i < |s| ==> IsDigit(s[i])
  {
    if s == [] then 0 else 10 * DigitsValue(s[..|s| - 1]) + DigitValue(s[|s| - 1])
  }

  /** Printing a number and reading it back gives the number. */
  lemma {:induction false} DigitsValueNatText(n: nat)
    ensures DigitsValue(NatText(n)) == n
  {
    if n >= 10 {
      DigitsValueNatText(n / 10);
      var t := NatText(n);
      assert t[..|t| - 1] == NatText(n / 10);
    }
  }

  /** Distinct numbers print differently. */
  lemma NatTextInjective(a: nat, b: nat)
    requires NatText(a) == NatText(b)
    ensures a == b
  {
    DigitsValueNatText(a);
    DigitsValueNatText(b);
  }

  /** `s.title()` on ASCII: a letter is upper-cased when it follows a non-letter, lower-cased otherwise. */
  function Title(s: string): (r: string)
    ensures |r| == |s|
    ensures forall i :: 0 <= i < |s| && !IsLetter(s[i]) ==> r[i] == s[i]
    ensures forall i :: 0 <= i < |s| && IsLetter(s[i]) && (i == 0 || !IsLetter(s[i - 1])) ==> r[i] == UpperChar(s[i])
    ensures forall i :: 0 < i < |s| && IsLetter(s[i]) && IsLetter(s[i - 1]) ==> r[i] == LowerChar(s[i])
  {
    TitleFrom(s, false)
  }

  /** `Title` on `s`, where `afterLetter` says whether the character before `s` is a letter. */
  function TitleFrom(s: string, afterLetter: bool): (r: string)
    ensures |r| == |s|
    ensures forall i :: 0 <= i < |s| ==> (IsSpace(r[i]) <==> IsSpace(s[i]))
    ensures forall i :: 0 <= i < |s| && !IsLetter(s[i]) ==> r[i] == s[i]
    ensures forall i :: 0 <= i < |s| && IsLetter(s[i]) ==>
      r[i] == if (if i == 0 then afterLetter else IsLetter(s[i - 1])) then LowerChar(s[i]) else UpperChar(s[i])
  {
    if s == [] then []
    else
      var c := s[0];
      var t := if IsLetter(c) then (if afterLetter then LowerChar(c) else UpperChar(c)) else c;
      var rest := TitleFrom(s[1..], IsLetter(c));
      assert forall i :: 1 <= i < |s| ==> s[1..][i - 1] == s[i];
      [t] + rest
  }

  /** The length of the whitespace run at the start of `s`. */
  function SpaceRun(s: string): (n: nat)
    ensures n <= |s|
    ensures forall k :: 0 <= k < n ==> IsSpace(s[k])
    ensures n < |s| ==> !IsSpace(s[n])
  {
    if s != [] && IsSpace(s[0]) then 1 + SpaceRun(s[1..]) else 0
  }

  /** `re.sub(r"\s+", " ", s)`: every whitespace run becomes one space. */
  function CollapseSpaces(s: string): (r: string)
    ensures (r == []) == (s == [])
    ensures s != [] ==> (IsSpace(r[0]) <==> IsSpace(s[0]))
    ensures s != [] ==> (IsSpace(r[|r| - 1]) <==> IsSpace(s[|s| - 1]))
    ensures NoDoubleSpace(r)
    ensures forall k :: 0 <= k < |r| && IsSpace(r[k]) ==> r[k] == ' '
    ensures forall k :: 0 <= k < |r| ==> r[k] == ' ' || r[k] in s
    decreases |s|
  {
    if s == [] then []
    else if IsSpace(s[0]) then
      var n := SpaceRun(s);
      var rest := CollapseSpaces(s[n..]);
      assert forall k :: 0 <= k < |rest| && rest[k] != ' ' ==> rest[k] in s;
      " " + rest
    else
      var rest := CollapseSpaces(s[1..]);
      assert forall k :: 0 <= k < |rest| && rest[k] != ' ' ==> rest[k] in s;
      [s[0]] + rest
  }

  /** `re.sub(r"\s{2,}", " ", s)`: every run of two or more whitespace characters becomes one space. */
  function CollapseLongRuns(s: string): (r: string)
    ensures (r == []) == (s == [])
    ensures s != [] ==> (IsSpace(r[0]) <==> IsSpace(s[0]))
    ensures NoDoubleSpace(r)
    ensures forall k :: 0 <= k < |r| ==> r[k] == ' ' || r[k] in s
    decreases |s|
  {
    if s == [] then []
    else if IsSpace(s[0]) then
      var n := SpaceRun(s);
      var rest := CollapseLongRuns(s[n..]);
      assert forall k :: 0 <= k < |rest| && rest[k] != ' ' ==> rest[k] in s;
      (if n >= 2 then " " else [s[0]]) + rest
    else
      var rest := CollapseLongRuns(s[1..]);
      assert forall k :: 0 <= k < |rest| && rest[k] != ' ' ==> rest[k] in s;
      [s[0]] + rest
  }

  /** Collapsing whitespace keeps whether the text ends with whitespace. */
  lemma {:induction false} CollapseLongRunsLast(s: string)
    requires s != []
    ensures var r := CollapseLongRuns(s); IsSpace(r[|r| - 1]) <==> IsSpace(s[|s| - 1])
    decreases |s|
  {
    var n := if IsSpace(s[0]) then SpaceRun(s) else 1;
    if n < |s| {
      CollapseLongRunsLast(s[n..]);
      assert s[n..][|s[n..]| - 1] == s[|s| - 1];
    } else if IsSpace(s[0]) {
      assert IsSpace(s[|s| - 1]);
    }
  }

  /** Collapsing whitespace keeps "no `a` before a later `b`" for non-space `b`. */
  lemma {:induction false} CollapseLongRunsNoPair(s: string, a: char, b: char)
    requires !IsSpace(a) && !IsSpace(b)
    requires NoPairAfter(s, a, b)
    ensures NoPairAfter(CollapseLongRuns(s), a, b)
    decreases |s|
  {
    if s != [] {
      var r := CollapseLongRuns(s);
      var n := if IsSpace(s[0]) then SpaceRun(s) else 1;
      var rest := CollapseLongRuns(s[n..]);
      assert NoPairAfter(s[n..], a, b) by {
        forall x, y | 0 <= x < y < |s[n..]| ensures !(s[n..][x] == a && s[n..][y] == b) {
          assert s[n..][x] == s[n + x] && s[n..][y] == s[n + y];
        }
      }
      CollapseLongRunsNoPair(s[n..], a, b);
      assert r == r[..1] + rest;
      if r[0] == a {
        assert s[0] == a;
        forall y | 0 <= y < |rest| ensures rest[y] != b {
          assert rest[y] == ' ' || rest[y] in s[n..];
        }
      }
      forall x, y | 0 <= x < y < |r| ensures !(r[x] == a && r[y] == b) {
        if x > 0 {
          assert r[x] == rest[x - 1] && r[y] == rest[y - 1];
        } else {
          assert r[y] == rest[y - 1];
        }
      }
    }
  }

  /** An occurrence of a whitespace-free `w` in the collapsed text is an occurrence in the original. */
  lemma {:induction false} CollapseSpacesContains(s: string, w: string)
    requires w != [] && forall k :: 0 <= k < |w| ==> !IsSpace(w[k])
    requires Contains(CollapseSpaces(s), w)
    ensures Contains(s, w)
    decreases |s|
  {
    var r := CollapseSpaces(s);
    assert s != [];
    var n := if IsSpace(s[0]) then SpaceRun(s) else 1;
    var rest := CollapseSpaces(s[n..]);
    assert r[1..] == rest;
    if w <= r {
      CollapsePrefix(s, w);
    } else {
      assert Contains(rest, w);
      CollapseSpacesContains(s[n..], w);
      ContainsSuffix(s, n, w);
    }
  }

  lemma {:induction false} ContainsSuffix(s: string, n: nat, w: string)
    requires n <= |s| && Contains(s[n..], w)
    ensures Contains(s, w)
    decreases n
  {
    if n > 0 {
      assert s[1..][n - 1..] == s[n..];
      ContainsSuffix(s[1..], n - 1, w);
    }
  }

  lemma {:induction false} CollapsePrefix(s: string, w: string)
    requires forall k :: 0 <= k < |w| ==> !IsSpace(w[k])
    requires w <= CollapseSpaces(s)
    ensures w <= s
    decreases |s|
  {
    if w != [] {
      var r := CollapseSpaces(s);
      assert s != [];
      if !IsSpace(s[0]) {
        assert r == [s[0]] + CollapseSpaces(s[1..]);
        assert w[1..] <= CollapseSpaces(s[1..]);
        CollapsePrefix(s[1..], w[1..]);
      }
    }
  }

  /** Lower-casing commutes with collapsing whitespace (it never changes which characters are whitespace). */
  lemma {:induction false} LowerCollapseSpaces(s: string)
    ensures Lower(CollapseSpaces(s)) == CollapseSpaces(Lower(s))
    decreases |s|
  {
    if s != [] {
      var l := Lower(s);
      assert IsSpace(l[0]) == IsSpace(s[0]);
      if IsSpace(s[0]) {
        var n := SpaceRun(s);
        LowerSpaceRun(s);
        assert Lower(s[n..]) == l[n..];
        LowerCollapseSpaces(s[n..]);
        LowerConcat(" ", CollapseSpaces(s[n..]));
      } else {
        assert Lower(s[1..]) == l[1..];
        LowerCollapseSpaces(s[1..]);
        LowerConcat([s[0]], CollapseSpaces(s[1..]));
      }
    }
  }

  lemma {:induction false} LowerSpaceRun(s: string)
    ensures SpaceRun(Lower(s)) == SpaceRun(s)
    decreases |s|
  {
    if s != [] {
      assert Lower(s)[1..] == Lower(s[1..]);
      LowerSpaceRun(s[1..]);
    }
  }
}
