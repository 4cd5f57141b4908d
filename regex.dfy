/**
 * The shape shared by every extraction pattern of the field catalogue,
 * `<literal>[:\s]+\$?(<class>+)` compiled with `re.IGNORECASE`, and an exact
 * model of `re.search(pattern, text).group(1)` for that shape.
 */
module Regex {
  import opened Wrappers
  import opened Strings

  /** The capture group's character class, read case-insensitively. */
  datatype CharClass =
    | AlnumDash      // [A-Z0-9\-]+
    | Alnum          // [A-Z0-9]+
    | DigitDash      // [0-9\-]+
    | DigitComma     // [0-9,]+
    | AnyButNewline  // .+

  /** A literal matched case-insensitively, a run of colons and white space,
      an optional dollar sign when `dollar` holds, then the capture group. */
  datatype Pattern = Pattern(literal: string, dollar: bool, capture: CharClass)

  predicate InClass(c: CharClass, ch: char) {
    match c
    case AlnumDash => IsLetter(ch) || IsDigit(ch) || ch == '-'
    case Alnum => IsLetter(ch) || IsDigit(ch)
    case DigitDash => IsDigit(ch) || ch == '-'
    case DigitComma => IsDigit(ch) || ch == ','
    case AnyButNewline => ch != '\n'
  }

  /** `[:\s]`. */
  predicate IsSeparator(ch: char) {
    ch == ':' || IsSpace(ch)
  }

  /** The literal occurs at `i`, ignoring case. */
  predicate LiteralAt(lit: string, t: string, i: nat) {
    i + |lit| <= |t| && Lower(t[i..i + |lit|]) == Lower(lit)
  }

  /** Length of the longest run of separators starting at `q`. */
  function SeparatorRun(t: string, q: nat): (n: nat)
    requires q <= |t|
    ensures q + n <= |t|
    ensures forall k :: q <= k < q + n ==> IsSeparator(t[k])
    ensures q + n == |t| || !IsSeparator(t[q + n])
    decreases |t| - q
  {
    if q < |t| && IsSeparator(t[q]) then 1 + SeparatorRun(t, q + 1) else 0
  }

  /** Length of the longest run of characters of class `c` starting at `q`. */
  function ClassRun(c: CharClass, t: string, q: nat): (n: nat)
    requires q <= |t|
    ensures q + n <= |t|
    ensures forall k :: q <= k < q + n ==> InClass(c, t[k])
    ensures q + n == |t| || !InClass(c, t[q + n])
    decreases |t| - q
  {
    if q < |t| && InClass(c, t[q]) then 1 + ClassRun(c, t, q + 1) else 0
  }

  /** A capture string: non-empty, every character in the class. */
  predicate IsCapture(c: CharClass, v: string) {
    |v| >= 1 && forall k :: 0 <= k < |v| ==> InClass(c, v[k])
  }

  /** Greedy `(<class>+)` at `q`: the longest run, if it is not empty. */
  function CaptureAt(c: CharClass, t: string, q: nat): (r: Option<string>)
    requires q <= |t|
    ensures r.Some? ==> IsCapture(c, r.value)
  {
    var n := ClassRun(c, t, q);
    if n == 0 then None else Some(t[q..q + n])
  }

  /** `\$?(<class>+)` at `q`: with the dollar sign first, then without. */
  function AfterSeparator(p: Pattern, t: string, q: nat): (r: Option<string>)
    requires q <= |t|
    ensures r.Some? ==> IsCapture(p.capture, r.value)
  {
    if p.dollar && q < |t| && t[q] == '$' && CaptureAt(p.capture, t, q + 1).Some? then
      CaptureAt(p.capture, t, q + 1)
    else
      CaptureAt(p.capture, t, q)
  }

  /** Backtracking over the greedy `[:\s]+` that starts at `lo`: the
      separator is tried as ending at `q`, then at `q - 1`, down to `lo + 1`. */
  function Backtrack(p: Pattern, t: string, lo: nat, q: nat): (r: Option<string>)
    requires q <= |t|
    ensures r.Some? ==> IsCapture(p.capture, r.value)
    decreases q
  {
    if q <= lo then None
    else
      var here := AfterSeparator(p, t, q);
      if here.Some? then here else Backtrack(p, t, lo, q - 1)
  }

  /** The group captured by a match of `p` that starts exactly at `i`. */
  function MatchAt(p: Pattern, t: string, i: nat): (r: Option<string>)
    ensures r.Some? ==> IsCapture(p.capture, r.value)
  {
    if LiteralAt(p.literal, t, i) then
      var lo := i + |p.literal|;
      Backtrack(p, t, lo, lo + SeparatorRun(t, lo))
    else None
  }

  /** What backtracking finds is what `\$?(<class>+)` matches after some
      end `e` of the separator in `lo + 1 .. q`. */
  lemma {:induction false} BacktrackFrom(p: Pattern, t: string, lo: nat, q: nat)
    requires q <= |t|
    ensures Backtrack(p, t, lo, q).Some? ==>
      exists e :: lo < e <= q && AfterSeparator(p, t, e) == Backtrack(p, t, lo, q)
    decreases q
  {
    if q > lo && AfterSeparator(p, t, q).None? {
      BacktrackFrom(p, t, lo, q - 1);
    }
  }

  /** Backtracking takes the longest separator after which `\$?(<class>+)`
      matches: when `e` is the latest end in `lo + 1 .. q` that works, the
      result is what matches after `e`. */
  lemma {:induction false} BacktrackLatest(p: Pattern, t: string, lo: nat, q: nat, e: nat)
    requires q <= |t| && lo < e <= q
    requires AfterSeparator(p, t, e).Some?
    requires forall f :: e < f <= q ==> AfterSeparator(p, t, f).None?
    ensures Backtrack(p, t, lo, q) == AfterSeparator(p, t, e)
    decreases q
  {
    if e < q {
      assert AfterSeparator(p, t, q).None?;
      BacktrackLatest(p, t, lo, q - 1, e);
    }
  }

  /** Backtracking fails only when no separator end in `lo + 1 .. q` works. */
  lemma {:induction false} BacktrackNone(p: Pattern, t: string, lo: nat, q: nat)
    requires q <= |t|
    ensures Backtrack(p, t, lo, q).None? <==> forall e :: lo < e <= q ==> AfterSeparator(p, t, e).None?
    decreases q
  {
    if q > lo {
      BacktrackNone(p, t, lo, q - 1);
    }
  }

  /** A match at `i` is the literal at `i`, then a non-empty run of
      separators ending at some `e`, then `\$?(<class>+)` at `e`. */
  lemma MatchAtShape(p: Pattern, t: string, i: nat)
    ensures var r := MatchAt(p, t, i);
      r.Some? ==>
        && LiteralAt(p.literal, t, i)
        && exists e :: i + |p.literal| < e <= |t| && AfterSeparator(p, t, e) == r &&
             forall k :: i + |p.literal| <= k < e ==> IsSeparator(t[k])
  {
    if LiteralAt(p.literal, t, i) {
      var lo := i + |p.literal|;
      BacktrackFrom(p, t, lo, lo + SeparatorRun(t, lo));
    }
  }

  /** Scan of the start positions `i`, `i + 1`, ..., `|t|`. */
  function SearchFrom(p: Pattern, t: string, i: nat): (r: Option<string>)
    ensures r.Some? ==> IsCapture(p.capture, r.value)
    ensures r.Some? ==> exists j :: i <= j <= |t| && MatchAt(p, t, j) == r &&
                          forall k :: i <= k < j ==> MatchAt(p, t, k).None?
    ensures r.None? ==> forall k :: i <= k <= |t| ==> MatchAt(p, t, k).None?
    decreases |t| - i
  {
    if i > |t| then None
    else
      var here := MatchAt(p, t, i);
      if here.Some? then here else SearchFrom(p, t, i + 1)
  }

  /** `re.search(p, t, re.IGNORECASE).group(1)`, `None` when there is no match:
      the capture of the leftmost match, and only of that one. */
  function Search(p: Pattern, t: string): (r: Option<string>)
    ensures r.Some? ==> IsCapture(p.capture, r.value)
    ensures r.Some? ==> exists j :: 0 <= j <= |t| && MatchAt(p, t, j) == r &&
                          forall k :: 0 <= k < j ==> MatchAt(p, t, k).None?
    ensures r.None? ==> forall k :: 0 <= k <= |t| ==> MatchAt(p, t, k).None?
  {
    SearchFrom(p, t, 0)
  }

  /** Two patterns whose literals differ only in case find the same captures. */
  lemma {:induction false} SearchIgnoresLiteralCase(p: Pattern, q: Pattern, t: string)
    requires Lower(p.literal) == Lower(q.literal)
    requires p.dollar == q.dollar && p.capture == q.capture
    ensures Search(p, t) == Search(q, t)
  {
    forall i: nat | i <= |t| + 1 ensures MatchAt(p, t, i) == MatchAt(q, t, i) {
      assert |p.literal| == |q.literal| by {
        assert |Lower(p.literal)| == |Lower(q.literal)|;
      }
      assert p.(literal := q.literal) == q;
      assert LiteralAt(p.literal, t, i) == LiteralAt(q.literal, t, i);
      BacktrackIgnoresLiteral(p, q.literal, t, i + |p.literal|, i + |p.literal| + (if i + |p.literal| <= |t| then SeparatorRun(t, i + |p.literal|) else 0));
    }
    SearchFromAgree(p, q, t, 0);
  }

  /** `Backtrack` (and so `AfterSeparator`) never looks at the literal. */
  lemma {:induction false} BacktrackIgnoresLiteral(p: Pattern, lit: string, t: string, lo: nat, q: nat)
    ensures q <= |t| ==> Backtrack(p, t, lo, q) == Backtrack(p.(literal := lit), t, lo, q)
    decreases q
  {
    if q <= |t| && q > lo {
      BacktrackIgnoresLiteral(p, lit, t, lo, q - 1);
    }
  }

  /** Scans agree once the matches at every start position agree. */
  lemma {:induction false} SearchFromAgree(p: Pattern, q: Pattern, t: string, i: nat)
    requires forall k: nat :: i <= k <= |t| ==> MatchAt(p, t, k) == MatchAt(q, t, k)
    ensures SearchFrom(p, t, i) == SearchFrom(q, t, i)
    decreases |t| - i
  {
    if i <= |t| {
      SearchFromAgree(p, q, t, i + 1);
    }
  }
}
