/**
 * The regular-expression substitutions of the two company-name cleaners,
 * modelled exactly on ASCII text. `re.sub` scans left to right, replaces the
 * leftmost match and resumes after it; `MatchEnd` gives, for each pattern, the
 * end of the match Python's backtracking engine finds at a position.
 */
module Patterns {
  import opened Wrappers
  import opened Text

  datatype Pattern =
    | Literal(p: string)   // re.escape(p), re.IGNORECASE
    | Word(w: string)      // rf"\b{w}\b", re.IGNORECASE (w has no regex metacharacters)
    | NumberRange          // r"\b\d+\s*To\s*(\d+)?\b", re.IGNORECASE
    | Parens               // r"\(.*?\)"
    | DashTail             // r"\s*-\s*.*$"
    | DoubleComma          // r",\s*,"
    | CountWords           // r"(\d+|years|yrs|0 to \d+)", re.IGNORECASE

  /** What a match is replaced with. */
  function Replacement(pat: Pattern): string {
    if pat.DoubleComma? then "," else ""
  }

  /** Regex `\b` at position `i`: a word character on exactly one side. */
  predicate Boundary(t: string, i: nat)
    requires i <= |t|
  {
    (i > 0 && IsWordChar(t[i - 1])) != (i < |t| && IsWordChar(t[i]))
  }

  /** `p` occurs at position `i` of `t`, ignoring ASCII case. */
  predicate MatchesCI(t: string, i: nat, p: string)
    requires i <= |t|
  {
    i + |p| <= |t| && Lower(t[i..i + |p|]) == Lower(p)
  }

  /** Length of the leading run of decimal digits. */
  function DigitRun(s: string): (n: nat)
    ensures n <= |s|
    ensures forall k :: 0 <= k < n ==> IsDigit(s[k])
    ensures n < |s| ==> !IsDigit(s[n])
  {
    if s != [] && IsDigit(s[0]) then 1 + DigitRun(s[1..]) else 0
  }

  /** Length of the leading run of characters that `.` matches (anything but a newline). */
  function LineRun(s: string): (n: nat)
    ensures n <= |s|
    ensures forall k :: 0 <= k < n ==> s[k] != '\n'
    ensures n < |s| ==> s[n] == '\n'
  {
    if s != [] && s[0] != '\n' then 1 + LineRun(s[1..]) else 0
  }

  /** How far the lazy `.*?` of `\(.*?\)` can go: up to the first `)` or newline. */
  function LazyRun(s: string): (n: nat)
    ensures n <= |s|
    ensures forall k :: 0 <= k < n ==> s[k] != ')' && s[k] != '\n'
    ensures n < |s| ==> s[n] == ')' || s[n] == '\n'
  {
    if s != [] && s[0] != ')' && s[0] != '\n' then 1 + LazyRun(s[1..]) else 0
  }

  /**
   * End of the match of `\b\d+\s*To\s*(\d+)?\b` at `i`. The digit run and the
   * blanks before "to" are taken whole (a shorter take leaves a digit or a blank
   * where the next token must start). After "to" at `q` and the blanks up to
   * `d`, the engine tries the end of a digit run at `d`, then `d` itself, then
   * giving blanks back; only `q` can be a boundary among the latter.
   */
  function RangeEnd(t: string, i: nat): (e: Option<nat>)
    requires i <= |t|
    ensures e.Some? ==> i + 3 <= e.value <= |t|
  {
    if !(i < |t| && IsDigit(t[i]) && Boundary(t, i)) then None
    else
      var a := i + DigitRun(t[i..]);
      var b := a + SpaceRun(t[a..]);
      if !MatchesCI(t, b, "to") then None
      else
        var q := b + 2;
        var d := q + SpaceRun(t[q..]);
        if d < |t| && IsDigit(t[d]) && Boundary(t, d + DigitRun(t[d..])) then Some(d + DigitRun(t[d..]))
        else if Boundary(t, d) then Some(d)
        else if Boundary(t, q) then Some(q)
        else None
  }

  /** End of the match of `\(.*?\)` at `i`: the first `)` on the same line. */
  function ParensEnd(t: string, i: nat): (e: Option<nat>)
    requires i <= |t|
    ensures e.Some? ==> i + 2 <= e.value <= |t|
  {
    if !(i < |t| && t[i] == '(') then None
    else
      var j := i + 1 + LazyRun(t[i + 1..]);
      if j < |t| && t[j] == ')' then Some(j + 1) else None
  }

  /**
   * End of the match of `\s*-\s*.*$` at `i`: blanks, a hyphen, blanks (newlines
   * included), then the rest of the line, which must be the last line; `$` also
   * matches just before a final newline.
   */
  function DashEnd(t: string, i: nat): (e: Option<nat>)
    requires i <= |t|
    ensures e.Some? ==> i + 1 <= e.value <= |t|
  {
    var h := i + SpaceRun(t[i..]);
    if !(h < |t| && t[h] == '-') then None
    else
      var p := h + 1 + SpaceRun(t[h + 1..]);
      var q := p + LineRun(t[p..]);
      if q == |t| then Some(|t|)
      else if q == |t| - 1 then Some(|t| - 1)
      else None
  }

  /** End of the match of `,\s*,` at `i`. */
  function CommasEnd(t: string, i: nat): (e: Option<nat>)
    requires i <= |t|
    ensures e.Some? ==> i + 2 <= e.value <= |t|
  {
    if !(i < |t| && t[i] == ',') then None
    else
      var j := i + 1 + SpaceRun(t[i + 1..]);
      if j < |t| && t[j] == ',' then Some(j + 1) else None
  }

  /**
   * End of the match of `(\d+|years|yrs|0 to \d+)` at `i`. The alternatives are
   * tried in order; the fourth can never be reached, since a leading `0` is
   * already taken by `\d+`.
   */
  function CountEnd(t: string, i: nat): (e: Option<nat>)
    requires i <= |t|
    ensures e.Some? ==> i + 1 <= e.value <= |t|
  {
    if i < |t| && IsDigit(t[i]) then Some(i + DigitRun(t[i..]))
    else if MatchesCI(t, i, "years") then Some(i + 5)
    else if MatchesCI(t, i, "yrs") then Some(i + 3)
    else None
  }

  /** Where the match of `pat` that starts at `i` ends, if there is one. */
  function MatchEnd(pat: Pattern, t: string, i: nat): (e: Option<nat>)
    requires i <= |t|
    ensures e.Some? ==> i < e.value <= |t| && |Replacement(pat)| < e.value - i + (if pat.DoubleComma? then 0 else 1)
  {
    match pat
    case Literal(p) => if p != [] && MatchesCI(t, i, p) then Some(i + |p|) else None
    case Word(w) =>
      if w != [] && Boundary(t, i) && MatchesCI(t, i, w) && Boundary(t, i + |w|) then Some(i + |w|) else None
    case NumberRange => RangeEnd(t, i)
    case Parens => ParensEnd(t, i)
    case DashTail => DashEnd(t, i)
    case DoubleComma => CommasEnd(t, i)
    case CountWords => CountEnd(t, i)
  }

  /** `re.sub(pat, Replacement(pat), t[i:])`, scanning from position `i`. */
  function SubFrom(pat: Pattern, t: string, i: nat): (r: string)
    requires i <= |t|
    ensures |r| <= |t| - i
    ensures forall k :: 0 <= k < |r| ==> r[k] in t[i..] || r[k] in Replacement(pat)
    decreases |t| - i
  {
    if i == |t| then []
    else
      match MatchEnd(pat, t, i)
      case Some(e) =>
        var rest := SubFrom(pat, t, e);
        assert forall k :: 0 <= k < |rest| && rest[k] in t[e..] ==> rest[k] in t[i..] by {
          forall k | 0 <= k < |rest| && rest[k] in t[e..] ensures rest[k] in t[i..] {
            var m :| 0 <= m < |t[e..]| && t[e..][m] == rest[k];
            assert t[i..][e - i + m] == rest[k];
          }
        }
        Replacement(pat) + rest
      case None =>
        var rest := SubFrom(pat, t, i + 1);
        assert forall k :: 0 <= k < |rest| && rest[k] in t[i + 1..] ==> rest[k] in t[i..] by {
          forall k | 0 <= k < |rest| && rest[k] in t[i + 1..] ensures rest[k] in t[i..] {
            var m :| 0 <= m < |t[i + 1..]| && t[i + 1..][m] == rest[k];
            assert t[i..][m + 1] == rest[k];
          }
        }
        [t[i]] + rest
  }

  /** `re.sub(pat, Replacement(pat), t)`. */
  function Sub(pat: Pattern, t: string): (r: string)
    ensures |r| <= |t|
    ensures forall k :: 0 <= k < |r| ==> r[k] in t || r[k] in Replacement(pat)
  {
    assert t[0..] == t;
    SubFrom(pat, t, 0)
  }

  /** Where the pattern matches nowhere, the substitution changes nothing. */
  lemma {:induction false} SubNoMatch(pat: Pattern, t: string, i: nat)
    requires i <= |t|
    requires forall j :: i <= j < |t| ==> MatchEnd(pat, t, j).None?
    ensures SubFrom(pat, t, i) == t[i..]
    decreases |t| - i
  {
    if i < |t| {
      SubNoMatch(pat, t, i + 1);
      assert t[i..] == [t[i]] + t[i + 1..];
    }
  }

  /** A word whose first letter, in any case, is nowhere in `t` is never removed from it. */
  lemma WordAbsent(w: string, t: string)
    requires w != [] && LowerChar(w[0]) !in Lower(t)
    ensures Sub(Word(w), t) == t
  {
    forall j | 0 <= j < |t| ensures MatchEnd(Word(w), t, j).None? {
      if j + |w| <= |t| {
        assert Lower(t[j..j + |w|])[0] == Lower(t)[j];
      }
    }
    assert t[0..] == t;
    SubNoMatch(Word(w), t, 0);
  }

  /** The patterns `rf"\b{w}\b"` for the words `ws`, in order. */
  function Words(ws: seq<string>): (ps: seq<Pattern>)
    ensures |ps| == |ws| && forall i :: 0 <= i < |ws| ==> ps[i] == Word(ws[i])
  {
    seq(|ws|, i requires 0 <= i < |ws| => Word(ws[i]))
  }

  /** The substitutions `pats` applied one after another, first to last. */
  function SubAll(pats: seq<Pattern>, t: string): (r: string)
    ensures |r| <= |t|
    ensures (forall i :: 0 <= i < |pats| ==> Replacement(pats[i]) == "") ==> CharsFrom(r, t)
  {
    if pats == [] then t
    else
      var prev := SubAll(pats[..|pats| - 1], t);
      assert forall i :: 0 <= i < |pats| - 1 ==> pats[..|pats| - 1][i] == pats[i];
      Sub(pats[|pats| - 1], prev)
  }

  /** Word removals only ever delete characters. */
  lemma WordsKeepChars(ws: seq<string>, t: string)
    ensures CharsFrom(SubAll(Words(ws), t), t)
  {
    assert forall i :: 0 <= i < |Words(ws)| ==> Replacement(Words(ws)[i]) == "";
  }

  /** Applying one more substitution extends the chain by one. */
  lemma SubAllStep(pats: seq<Pattern>, i: nat, t: string)
    requires i < |pats|
    ensures SubAll(pats[..i + 1], t) == Sub(pats[i], SubAll(pats[..i], t))
  {
    assert pats[..i + 1][..i] == pats[..i];
  }

  /** Two chains applied one after the other are one chain. */
  lemma {:induction false} SubAllConcat(a: seq<Pattern>, b: seq<Pattern>, t: string)
    ensures SubAll(a + b, t) == SubAll(b, SubAll(a, t))
    decreases |b|
  {
    if b == [] {
      assert a + b == a;
    } else {
      assert (a + b)[..|a + b| - 1] == a + b[..|b| - 1];
      SubAllConcat(a, b[..|b| - 1], t);
    }
  }

  /** The index of the first `c` in `s`. */
  function IndexOf(s: string, c: char): (i: nat)
    requires c in s
    ensures i < |s| && s[i] == c && c !in s[..i]
  {
    if s[0] == c then 0
    else
      var j := IndexOf(s[1..], c);
      assert s[..j + 1] == [s[0]] + s[1..][..j];
      j + 1
  }

  /**
   * `re.sub(r"\s*-\s*.*$", "", t)` on newline-free text cuts everything from
   * the first hyphen on, together with the whitespace before it; text without
   * a hyphen is unchanged.
   */
  lemma DashTailCut(t: string)
    requires '\n' !in t
    ensures '-' !in t ==> Sub(DashTail, t) == t
    ensures '-' in t ==> Sub(DashTail, t) == StripRight(t[..IndexOf(t, '-')])
  {
    assert t[0..] == t;
    if '-' !in t {
      forall j | 0 <= j < |t| ensures MatchEnd(DashTail, t, j).None? {
        var h := j + SpaceRun(t[j..]);
        assert h < |t| ==> t[h] != '-';
      }
      SubNoMatch(DashTail, t, 0);
    } else {
      var h := IndexOf(t, '-');
      var c := |StripRight(t[..h])|;
      StripRightFacts(t[..h]);
      DashCutFrom(t, h, c, 0);
      assert t[0..c] == StripRight(t[..h]);
    }
  }

  /**
   * On newline-free text the hyphen cut leaves no hyphen and keeps a leading
   * slice of the text.
   */
  lemma DashTailFacts(t: string)
    requires '\n' !in t
    ensures '-' !in Sub(DashTail, t)
    ensures IsInfix(Sub(DashTail, t), t)
  {
    DashTailCut(t);
    var r := Sub(DashTail, t);
    if '-' in t {
      var h := IndexOf(t, '-');
      StripRightFacts(t[..h]);
      assert r == t[..h][..|r|];
      assert InfixAt(r, t, 0);
    } else {
      assert InfixAt(r, t, 0);
    }
  }

  /** Where no match starts, the scan keeps the character and moves on. */
  lemma SubFromMiss(pat: Pattern, t: string, i: nat)
    requires i < |t| && MatchEnd(pat, t, i).None?
    ensures SubFrom(pat, t, i) == [t[i]] + SubFrom(pat, t, i + 1)
  {
  }

  lemma {:induction false} DashCutFrom(t: string, h: nat, c: nat, i: nat)
    requires '\n' !in t
    requires h < |t| && t[h] == '-' && '-' !in t[..h]
    requires c == |StripRight(t[..h])| && i <= c
    ensures SubFrom(DashTail, t, i) == t[i..c]
    decreases c - i
  {
    if i == c {
      DashMatchAtCut(t, h, c);
    } else {
      DashNoMatchBefore(t, h, c, i);
      SubFromMiss(DashTail, t, i);
      DashCutFrom(t, h, c, i + 1);
      assert t[i..c] == [t[i]] + t[i + 1..c];
    }
  }

  /** At the start of the blanks before the first hyphen, the match runs to the end. */
  lemma DashMatchAtCut(t: string, h: nat, c: nat)
    requires '\n' !in t
    requires h < |t| && t[h] == '-'
    requires c == |StripRight(t[..h])|
    ensures DashEnd(t, c) == Some(|t|)
  {
    var pre := StripRight(t[..h]);
    StripRightFacts(t[..h]);
    assert pre == t[..h][..c];
    assert forall k :: c <= k < h ==> IsSpace(t[..h][k]);
    assert SpaceRun(t[c..]) == h - c;
    DashEndAt(t, c, h);
  }

  /** Blanks from `c` up to a hyphen at `h`, and no newline: the match runs to the end. */
  lemma DashEndAt(t: string, c: nat, h: nat)
    requires '\n' !in t
    requires c <= h < |t| && t[h] == '-' && SpaceRun(t[c..]) == h - c
    ensures DashEnd(t, c) == Some(|t|)
  {
    var p := h + 1 + SpaceRun(t[h + 1..]);
    assert LineRun(t[p..]) == |t| - p;
  }

  /** Before the blanks that precede the first hyphen, nothing matches. */
  lemma DashNoMatchBefore(t: string, h: nat, c: nat, i: nat)
    requires h < |t| && t[h] == '-' && '-' !in t[..h]
    requires c == |StripRight(t[..h])| && i < c
    ensures DashEnd(t, i).None?
  {
    var pre := StripRight(t[..h]);
    StripRightFacts(t[..h]);
    assert pre == t[..h][..c];
    assert !IsSpace(t[c - 1]) by {
      assert pre[c - 1] == t[c - 1];
    }
    var n := SpaceRun(t[i..]);
    assert i + n <= c - 1;
    assert t[i + n] == t[..h][i + n];
  }

  /** On newline-free text, `re.sub(r"\(.*?\)", "", t)` leaves no `(` followed later by `)`. */
  lemma ParensNoPair(t: string)
    requires '\n' !in t
    ensures NoPairAfter(Sub(Parens, t), '(', ')')
  {
    assert t[0..] == t;
    ParensNoPairFrom(t, 0);
  }

  lemma {:induction false} ParensNoPairFrom(t: string, i: nat)
    requires '\n' !in t && i <= |t|
    ensures NoPairAfter(SubFrom(Parens, t, i), '(', ')')
    decreases |t| - i
  {
    if i < |t| {
      var r := SubFrom(Parens, t, i);
      match MatchEnd(Parens, t, i)
      case Some(e) =>
        ParensNoPairFrom(t, e);
      case None =>
        var rest := SubFrom(Parens, t, i + 1);
        ParensNoPairFrom(t, i + 1);
        assert r == [t[i]] + rest;
        if t[i] == '(' {
          var j := i + 1 + LazyRun(t[i + 1..]);
          assert j == |t|;
          forall y | 0 <= y < |rest| ensures rest[y] != ')' {
            var m :| 0 <= m < |t[i + 1..]| && t[i + 1..][m] == rest[y];
          }
        }
        forall x, y | 0 <= x < y < |r| ensures !(r[x] == '(' && r[y] == ')') {
          if x > 0 {
            assert r[x] == rest[x - 1] && r[y] == rest[y - 1];
          } else {
            assert r[y] == rest[y - 1];
          }
        }
    }
  }

  /**
   * `re.sub(r",\s*,", ",", t[i:])` is empty only for empty `t[i:]`; it starts
   * with a comma or with `t[i]`, and ends with a comma or with the last
   * character of `t`.
   */
  lemma {:induction false} CommasEdges(t: string, i: nat)
    requires i <= |t|
    ensures var r := SubFrom(DoubleComma, t, i);
            (r == [] <==> i == |t|)
            && (r != [] ==> (r[0] == ',' || r[0] == t[i]) && (r[|r| - 1] == ',' || r[|r| - 1] == t[|t| - 1]))
    decreases |t| - i
  {
    if i < |t| {
      var r := SubFrom(DoubleComma, t, i);
      var e := match MatchEnd(DoubleComma, t, i) case Some(e) => e case None => i + 1;
      var rest := SubFrom(DoubleComma, t, e);
      CommasEdges(t, e);
      assert r == r[..1] + rest;
      assert rest != [] ==> r[|r| - 1] == rest[|rest| - 1];
    }
  }

  /** The comma substitution creates no two adjacent whitespace characters. */
  lemma {:induction false} CommasNoDouble(t: string, i: nat)
    requires i <= |t| && NoDoubleSpace(t[i..])
    ensures NoDoubleSpace(SubFrom(DoubleComma, t, i))
    decreases |t| - i
  {
    if i < |t| {
      var r := SubFrom(DoubleComma, t, i);
      var e := match MatchEnd(DoubleComma, t, i) case Some(e) => e case None => i + 1;
      var rest := SubFrom(DoubleComma, t, e);
      assert NoDoubleSpace(t[e..]) by {
        forall x | 0 < x < |t[e..]| ensures !(IsSpace(t[e..][x - 1]) && IsSpace(t[e..][x])) {
          assert t[e..][x - 1] == t[i..][e - i + x - 1] && t[e..][x] == t[i..][e - i + x];
        }
      }
      CommasNoDouble(t, e);
      CommasEdges(t, e);
      assert r == r[..1] + rest;
      assert IsSpace(r[0]) ==> e == i + 1 && r[0] == t[i];
      assert i + 1 < |t| ==> t[i..][0] == t[i] && t[i..][1] == t[i + 1];
      forall x | 0 < x < |r| ensures !(IsSpace(r[x - 1]) && IsSpace(r[x])) {
        if x > 1 {
          assert r[x - 1] == rest[x - 2] && r[x] == rest[x - 1];
        } else {
          assert r[x] == rest[0];
        }
      }
    }
  }

  /** On text without edge or doubled whitespace, the comma substitution keeps both absent. */
  lemma CommasTidy(c: string)
    requires NoEdgeSpace(c) && NoDoubleSpace(c)
    ensures NoEdgeSpace(Sub(DoubleComma, c)) && NoDoubleSpace(Sub(DoubleComma, c))
  {
    assert c[0..] == c;
    CommasNoDouble(c, 0);
    CommasEdges(c, 0);
  }

  /** The comma substitution keeps "no `a` before a later `b`" for `b` other than a comma. */
  lemma {:induction false} CommasNoPair(t: string, i: nat, a: char, b: char)
    requires i <= |t| && b != ',' && NoPairAfter(t[i..], a, b)
    ensures NoPairAfter(SubFrom(DoubleComma, t, i), a, b)
    decreases |t| - i
  {
    if i < |t| {
      var r := SubFrom(DoubleComma, t, i);
      var e := match MatchEnd(DoubleComma, t, i) case Some(e) => e case None => i + 1;
      var rest := SubFrom(DoubleComma, t, e);
      assert NoPairAfter(t[e..], a, b) by {
        forall x, y | 0 <= x < y < |t[e..]| ensures !(t[e..][x] == a && t[e..][y] == b) {
          assert t[e..][x] == t[i..][e - i + x] && t[e..][y] == t[i..][e - i + y];
        }
      }
      CommasNoPair(t, e, a, b);
      assert r == r[..1] + rest;
      if r[0] == a && r[0] != ',' {
        assert e == i + 1 && r[0] == t[i];
        assert forall m :: 0 <= m < |t[e..]| ==> t[e..][m] == t[i..][m + 1];
        assert t[i..][0] == a;
        assert b !in t[e..];
      }
      forall x, y | 0 <= x < y < |r| ensures !(r[x] == a && r[y] == b) {
        if x > 0 {
          assert r[x] == rest[x - 1] && r[y] == rest[y - 1];
        } else {
          assert r[y] == rest[y - 1];
        }
      }
    }
  }

  /** `re.sub(r"(\d+|years|yrs|0 to \d+)", "", t, flags=re.I)` leaves no digit. */
  lemma {:induction false} CountWordsNoDigit(t: string, i: nat)
    requires i <= |t|
    ensures forall k :: 0 <= k < |SubFrom(CountWords, t, i)| ==> !IsDigit(SubFrom(CountWords, t, i)[k])
    decreases |t| - i
  {
    if i < |t| {
      match MatchEnd(CountWords, t, i)
      case Some(e) =>
        CountWordsNoDigit(t, e);
      case None =>
        CountWordsNoDigit(t, i + 1);
    }
  }
}
