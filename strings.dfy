/**
 * The Python `str` operations the core relies on, over ASCII:
 * `strip`, `upper`, `lower`, `isupper`, `in` (substring), `replace`,
 * `", ".join` and `int(...)` on a decimal string.
 */
module Strings {
  import opened Wrappers

  /** `str.isspace()` restricted to ASCII: tab, line feed, vertical tab,
      form feed, carriage return, the four separators 0x1C-0x1F and space. */
  predicate IsSpace(c: char) {
    9 <= c as int <= 13 || 28 <= c as int <= 32
  }

  predicate IsLowerChar(c: char) { 'a' <= c <= 'z' }
  predicate IsUpperChar(c: char) { 'A' <= c <= 'Z' }
  predicate IsLetter(c: char) { IsLowerChar(c) || IsUpperChar(c) }
  predicate IsDigit(c: char) { '0' <= c <= '9' }

  function UpperChar(c: char): (u: char)
    ensures !IsLowerChar(u)
    ensures IsLetter(c) <==> IsLetter(u)
    ensures !IsLowerChar(c) ==> u == c
  {
    if IsLowerChar(c) then (c as int - 32) as char else c
  }

  function LowerChar(c: char): (l: char)
    ensures !IsUpperChar(l)
    ensures IsLetter(c) <==> IsLetter(l)
    ensures !IsUpperChar(c) ==> l == c
  {
    if IsUpperChar(c) then (c as int + 32) as char else c
  }

  /** `s.upper()`: every ASCII lower-case letter mapped to upper case. */
  function Upper(s: string): (r: string)
    ensures |r| == |s|
    ensures forall i :: 0 <= i < |s| ==> r[i] == UpperChar(s[i])
  {
    seq(|s|, i requires 0 <= i < |s| => UpperChar(s[i]))
  }

  /** `s.lower()`: every ASCII upper-case letter mapped to lower case. */
  function Lower(s: string): (r: string)
    ensures |r| == |s|
    ensures forall i :: 0 <= i < |s| ==> r[i] == LowerChar(s[i])
  {
    seq(|s|, i requires 0 <= i < |s| => LowerChar(s[i]))
  }

  /** `s.isupper()`: there is at least one cased character and none is lower case. */
  predicate IsUpper(s: string): (b: bool)
    ensures b ==> |s| > 0
  {
    (exists i :: 0 <= i < |s| && IsLetter(s[i])) && forall i :: 0 <= i < |s| ==> !IsLowerChar(s[i])
  }

  /** `s.isupper()` holds exactly when `s` has a cased character and
      `s.upper()` leaves it unchanged. */
  lemma IsUpperIff(s: string)
    ensures IsUpper(s) <==> (exists i :: 0 <= i < |s| && IsLetter(s[i])) && Upper(s) == s
  {
    if Upper(s) == s {
      forall i | 0 <= i < |s| ensures !IsLowerChar(s[i]) {
        assert Upper(s)[i] == UpperChar(s[i]);
      }
    }
    if forall i :: 0 <= i < |s| ==> !IsLowerChar(s[i]) {
      assert forall i :: 0 <= i < |s| ==> Upper(s)[i] == s[i];
    }
  }

  /** `s.lstrip()`. */
  function StripLeft(s: string): (r: string)
    ensures |r| <= |s|
    ensures r == [] || !IsSpace(r[0])
  {
    if s != [] && IsSpace(s[0]) then StripLeft(s[1..]) else s
  }

  /** `s.rstrip()`. */
  function StripRight(s: string): (r: string)
    ensures |r| <= |s|
    ensures r == [] || !IsSpace(r[|r| - 1])
    ensures r != [] ==> r[0] == s[0]
  {
    if s != [] && IsSpace(s[|s| - 1]) then StripRight(s[..|s| - 1]) else s
  }

  /** `s.strip()`: white space removed from both ends. */
  function Strip(s: string): (r: string)
    ensures r == [] || (!IsSpace(r[0]) && !IsSpace(r[|r| - 1]))
    ensures |r| <= |s|
  {
    StripRight(StripLeft(s))
  }

  /** Stripping a string that has no white space at either end leaves it unchanged. */
  lemma StripNoSpace(s: string)
    requires s == [] || (!IsSpace(s[0]) && !IsSpace(s[|s| - 1]))
    ensures Strip(s) == s
  {
  }

  /** `s.lstrip()` drops a prefix made of white space only. */
  lemma {:induction false} StripLeftIsSuffix(s: string)
    ensures StripLeft(s) == s[|s| - |StripLeft(s)|..]
    ensures forall k :: 0 <= k < |s| - |StripLeft(s)| ==> IsSpace(s[k])
  {
    if s != [] && IsSpace(s[0]) {
      var t := s[1..];
      StripLeftIsSuffix(t);
      var i := |t| - |StripLeft(t)|;
      assert t[i..] == s[i + 1..];
      forall k | 0 <= k < i + 1 ensures IsSpace(s[k]) {
        if k > 0 {
          assert s[k] == t[k - 1];
        }
      }
    } else {
      assert s == s[0..];
    }
  }

  /** `s.rstrip()` drops a suffix made of white space only. */
  lemma {:induction false} StripRightIsPrefix(s: string)
    ensures StripRight(s) == s[..|StripRight(s)|]
    ensures forall k :: |StripRight(s)| <= k < |s| ==> IsSpace(s[k])
  {
    if s != [] && IsSpace(s[|s| - 1]) {
      var t := s[..|s| - 1];
      StripRightIsPrefix(t);
      var j := |StripRight(t)|;
      assert t[..j] == s[..j];
      forall k | j <= k < |s| ensures IsSpace(s[k]) {
        if k < |s| - 1 {
          assert s[k] == t[k];
        }
      }
    } else {
      assert s == s[..|s|];
    }
  }

  /** `s.strip()` is `s` with white space dropped from its two ends and
      nothing else: a slice of `s` outside of which there is only white space. */
  lemma StripIsSlice(s: string)
    ensures exists i, j :: TrimmedSlice(s, Strip(s), i, j)
  {
    StripLeftIsSuffix(s);
    var l := StripLeft(s);
    var i := |s| - |l|;
    StripRightIsPrefix(l);
    var j := |StripRight(l)|;
    assert Strip(s) == l[..j];
    TrimmedSliceOf(s, i, j);
    assert TrimmedSlice(s, Strip(s), i, i + j);
  }

  /** White space before `i`, then a suffix whose tail after `j` is white
      space: the prefix of length `j` of that suffix is a trimmed slice. */
  lemma TrimmedSliceOf(s: string, i: nat, j: nat)
    requires i <= |s| && j <= |s| - i
    requires forall k :: 0 <= k < i ==> IsSpace(s[k])
    requires forall k :: j <= k < |s[i..]| ==> IsSpace(s[i..][k])
    ensures TrimmedSlice(s, s[i..][..j], i, i + j)
  {
    assert s[i..][..j] == s[i..i + j];
    forall k | i + j <= k < |s| ensures IsSpace(s[k]) {
      assert s[k] == s[i..][k - i];
    }
  }

  /** `r` is the slice `s[i..j]`, and outside it `s` has white space only. */
  predicate TrimmedSlice(s: string, r: string, i: int, j: int) {
    && 0 <= i <= j <= |s|
    && r == s[i..j]
    && (forall k :: 0 <= k < i ==> IsSpace(s[k]))
    && (forall k :: j <= k < |s| ==> IsSpace(s[k]))
  }

  /** `Strip` is idempotent. */
  lemma StripIdempotent(s: string)
    ensures Strip(Strip(s)) == Strip(s)
  {
    StripNoSpace(Strip(s));
  }

  /** `w` occurs in `s` starting at index `i`. */
  predicate OccursAt(s: string, w: string, i: int) {
    0 <= i <= |s| - |w| && s[i..i + |w|] == w
  }

  /** `w in s` for strings: `w` occurs as a contiguous slice of `s`
      (the empty string occurs in every string). */
  predicate Contains(s: string, w: string)
    decreases |s|
  {
    |w| <= |s| && (s[..|w|] == w || Contains(s[1..], w))
  }

  /** `Contains` agrees with the positional definition of a substring, both ways. */
  lemma {:induction false} ContainsIff(s: string, w: string)
    ensures Contains(s, w) <==> exists i :: OccursAt(s, w, i)
    decreases |s|
  {
    if |w| <= |s| && s[..|w|] != w {
      ContainsIff(s[1..], w);
      if exists i :: OccursAt(s, w, i) {
        var i :| OccursAt(s, w, i);
        assert i != 0;
        assert OccursAt(s[1..], w, i - 1) by {
          assert s[1..][i - 1..i - 1 + |w|] == s[i..i + |w|];
        }
      }
      if Contains(s[1..], w) {
        var j :| OccursAt(s[1..], w, j);
        assert OccursAt(s, w, j + 1) by {
          assert s[1..][j..j + |w|] == s[j + 1..j + 1 + |w|];
        }
      }
    } else if |w| <= |s| {
      assert OccursAt(s, w, 0);
    }
  }

  /** Every character of a contained word is a character of the text. */
  lemma ContainedChar(s: string, w: string, k: nat)
    requires Contains(s, w) && k < |w|
    ensures w[k] in s
  {
    ContainsIff(s, w);
    var i :| OccursAt(s, w, i);
    assert s[i..i + |w|][k] == s[i + k];
  }

  /** A word occurs in any text built around it. */
  lemma ContainsMiddle(a: string, w: string, b: string)
    ensures Contains(a + w + b, w)
  {
    assert (a + w + b)[|a|..|a| + |w|] == w;
    assert OccursAt(a + w + b, w, |a|);
    ContainsIff(a + w + b, w);
  }

  /** A non-empty string whose first character is a letter never occurs in a
      string without letters. */
  lemma NoLetterNoWord(s: string, w: string)
    requires forall i :: 0 <= i < |s| ==> !IsLetter(s[i])
    requires |w| > 0 && IsLetter(w[0])
    ensures !Contains(s, w)
  {
    ContainsIff(s, w);
    assert !exists i :: OccursAt(s, w, i);
  }

  /** `s.replace(c, "")` for a one-character `c`. */
  function RemoveChar(s: string, c: char): (r: string)
    ensures c !in r
    ensures |r| <= |s|
    ensures forall x :: x in r <==> x in s && x != c
  {
    if s == [] then []
    else (if s[0] == c then [] else [s[0]]) + RemoveChar(s[1..], c)
  }

  /** `sep.join(parts)`. */
  function Join(parts: seq<string>, sep: string): (r: string)
    ensures parts == [] ==> r == []
    ensures |parts| == 1 ==> r == parts[0]
    ensures |parts| >= 1 ==> parts[0] <= r
  {
    if parts == [] then []
    else if |parts| == 1 then parts[0]
    else parts[0] + sep + Join(parts[1..], sep)
  }

  /** The joined names of two non-empty lists are the two joins with one
      separator between them, so every name appears, in order. */
  lemma {:induction false} JoinAppend(a: seq<string>, b: seq<string>, sep: string)
    requires a != [] && b != []
    ensures Join(a + b, sep) == Join(a, sep) + sep + Join(b, sep)
    decreases |a|
  {
    if |a| == 1 {
      assert (a + b)[1..] == b;
    } else {
      assert (a + b)[1..] == a[1..] + b;
      JoinAppend(a[1..], b, sep);
    }
  }

  function DigitValue(c: char): (d: nat)
    requires IsDigit(c)
    ensures d < 10
  {
    c as int - '0' as int
  }

  /** The value of a run of decimal digits. */
  function DigitsValue(ds: string): (n: nat)
    requires forall i :: 0 <= i < |ds| ==> IsDigit(ds[i])
  {
    if ds == [] then 0
    else 10 * DigitsValue(ds[..|ds| - 1]) + DigitValue(ds[|ds| - 1])
  }

  /** The body of a decimal integer literal as `int()` reads it: digits, with
      single underscores allowed between two digits. */
  predicate IsDigitBody(b: string) {
    && |b| >= 1
    && IsDigit(b[0]) && IsDigit(b[|b| - 1])
    && (forall i :: 0 <= i < |b| ==> IsDigit(b[i]) || b[i] == '_')
    && (forall i :: 0 <= i < |b| - 1 ==> !(b[i] == '_' && b[i + 1] == '_'))
  }

  /** Removing the underscores from a digit body leaves digits only. */
  lemma DigitBodyDigits(b: string)
    requires IsDigitBody(b)
    ensures forall i :: 0 <= i < |RemoveChar(b, '_')| ==> IsDigit(RemoveChar(b, '_')[i])
  {
    var r := RemoveChar(b, '_');
    forall i | 0 <= i < |r| ensures IsDigit(r[i]) {
      assert r[i] in r;
      var j :| 0 <= j < |b| && b[j] == r[i];
    }
  }

  /** The white space `int()` skips around the literal: tab, line feed,
      vertical tab, form feed, carriage return and space. Unlike `strip()`,
      it does not skip the separators 0x1C-0x1F. */
  predicate IsIntSpace(c: char) {
    9 <= c as int <= 13 || c == ' '
  }

  /** The text `int()` reads: `s` without its leading and trailing `int()`
      white space. */
  function IntTrimLeft(s: string): (r: string)
    ensures |r| <= |s|
    ensures r == [] || !IsIntSpace(r[0])
  {
    if s != [] && IsIntSpace(s[0]) then IntTrimLeft(s[1..]) else s
  }

  function IntTrimRight(s: string): (r: string)
    ensures |r| <= |s|
    ensures r == [] || !IsIntSpace(r[|r| - 1])
    ensures r != [] ==> r[0] == s[0]
  {
    if s != [] && IsIntSpace(s[|s| - 1]) then IntTrimRight(s[..|s| - 1]) else s
  }

  function IntTrim(s: string): (r: string)
    ensures r == [] || (!IsIntSpace(r[0]) && !IsIntSpace(r[|r| - 1]))
    ensures |r| <= |s|
  {
    IntTrimRight(IntTrimLeft(s))
  }

  /** The left trim drops a prefix made of `int()` white space only. */
  lemma {:induction false} IntTrimLeftIsSuffix(s: string)
    ensures IntTrimLeft(s) == s[|s| - |IntTrimLeft(s)|..]
    ensures forall k :: 0 <= k < |s| - |IntTrimLeft(s)| ==> IsIntSpace(s[k])
  {
    if s != [] && IsIntSpace(s[0]) {
      var t := s[1..];
      IntTrimLeftIsSuffix(t);
      var i := |t| - |IntTrimLeft(t)|;
      assert t[i..] == s[i + 1..];
      forall k | 0 <= k < i + 1 ensures IsIntSpace(s[k]) {
        if k > 0 {
          assert s[k] == t[k - 1];
        }
      }
    } else {
      assert s == s[0..];
    }
  }

  /** The right trim drops a suffix made of `int()` white space only. */
  lemma {:induction false} IntTrimRightIsPrefix(s: string)
    ensures IntTrimRight(s) == s[..|IntTrimRight(s)|]
    ensures forall k :: |IntTrimRight(s)| <= k < |s| ==> IsIntSpace(s[k])
  {
    if s != [] && IsIntSpace(s[|s| - 1]) {
      var t := s[..|s| - 1];
      IntTrimRightIsPrefix(t);
      var j := |IntTrimRight(t)|;
      assert t[..j] == s[..j];
      forall k | j <= k < |s| ensures IsIntSpace(s[k]) {
        if k < |s| - 1 {
          assert s[k] == t[k];
        }
      }
    } else {
      assert s == s[..|s|];
    }
  }

  /** `r` is the slice `s[i..j]`, and `s` has only `int()` white space outside it. */
  predicate IntTrimmedSlice(s: string, r: string, i: int, j: int) {
    && 0 <= i <= j <= |s|
    && r == s[i..j]
    && (forall k :: 0 <= k < i ==> IsIntSpace(s[k]))
    && (forall k :: j <= k < |s| ==> IsIntSpace(s[k]))
  }

  /** The text `int()` reads is a slice of `s` outside of which there is
      only `int()` white space. */
  lemma IntTrimIsSlice(s: string)
    ensures exists i, j :: IntTrimmedSlice(s, IntTrim(s), i, j)
  {
    IntTrimLeftIsSuffix(s);
    var l := IntTrimLeft(s);
    var i := |s| - |l|;
    IntTrimRightIsPrefix(l);
    var j := |IntTrimRight(l)|;
    assert IntTrim(s) == l[..j];
    assert l[..j] == s[i..i + j];
    forall k | i + j <= k < |s| ensures IsIntSpace(s[k]) {
      assert s[k] == l[k - i];
    }
    assert IntTrimmedSlice(s, IntTrim(s), i, i + j);
  }

  /** Trimming a string with no `int()` white space at either end leaves it unchanged. */
  lemma IntTrimNoSpace(s: string)
    requires s == [] || (!IsIntSpace(s[0]) && !IsIntSpace(s[|s| - 1]))
    ensures IntTrim(s) == s
  {
  }

  /** The digit body of a signed decimal literal: the stripped text without its sign. */
  function UnsignedPart(t: string): string {
    if |t| > 0 && (t[0] == '+' || t[0] == '-') then t[1..] else t
  }

  /** The default limit on the number of digits `int()` converts from a
      decimal string (`sys.get_int_max_str_digits()`, Python 3.11 on). */
  const MaxStrDigits := 4300

  /** `int(s)` for a base-10 string: surrounding `int()` white space is
      ignored, then one optional sign, then a digit body of at most
      `MaxStrDigits` digits, the underscores not counted. `None` stands for
      the `ValueError`. */
  function ParseInt(s: string): (r: Option<int>)
    ensures r.Some? ==> IsDigitBody(UnsignedPart(IntTrim(s)))
    ensures r.Some? ==> |RemoveChar(UnsignedPart(IntTrim(s)), '_')| <= MaxStrDigits
    ensures r.Some? && r.value < 0 ==> IntTrim(s)[0] == '-'
  {
    var t := IntTrim(s);
    var body := UnsignedPart(t);
    if IsDigitBody(body) && |RemoveChar(body, '_')| <= MaxStrDigits then
      DigitBodyDigits(body);
      var n: int := DigitsValue(RemoveChar(body, '_'));
      Some(if |t| > 0 && t[0] == '-' then -n else n)
    else None
  }

  /** `int()` does not skip a file separator (0x1C), which `strip()` would:
      `int("\x1c5")` raises. */
  lemma SeparatorNotSkipped(s: string)
    requires s == ['\U{1C}', '5']
    ensures ParseInt(s) == None
  {
    assert IntTrimLeft(s) == s;
    assert IntTrimRight(s) == s;
    assert !IsDigit(UnsignedPart(s)[0]);
  }

  /** One more digit: the value of the first `k + 1` digits. */
  lemma DigitsValuePrefix(ds: string, k: nat)
    requires k < |ds|
    requires forall i :: 0 <= i < |ds| ==> IsDigit(ds[i])
    ensures DigitsValue(ds[..k + 1]) == 10 * DigitsValue(ds[..k]) + DigitValue(ds[k])
  {
    assert ds[..k + 1][..k] == ds[..k];
  }

  /** A string of digits alone, no longer than the limit, parses as its
      decimal value. */
  lemma {:induction false} ParseDigits(ds: string)
    requires 1 <= |ds| <= MaxStrDigits && forall i :: 0 <= i < |ds| ==> IsDigit(ds[i])
    ensures ParseInt(ds) == Some(DigitsValue(ds))
  {
    assert !IsIntSpace(ds[0]) && !IsIntSpace(ds[|ds| - 1]);
    IntTrimNoSpace(ds);
    assert UnsignedPart(ds) == ds;
    assert IsDigitBody(ds);
    assert '_' !in ds;
    RemoveAbsent(ds, '_');
  }

  /** A string of more digits than the limit is refused, leading zeros
      included: `int("0" * 4300 + "1")` raises. */
  lemma TooManyDigits(ds: string)
    requires |ds| > MaxStrDigits && forall i :: 0 <= i < |ds| ==> IsDigit(ds[i])
    ensures ParseInt(ds) == None
  {
    assert !IsIntSpace(ds[0]) && !IsIntSpace(ds[|ds| - 1]);
    IntTrimNoSpace(ds);
    assert UnsignedPart(IntTrim(ds)) == ds;
    assert '_' !in ds;
    RemoveAbsent(ds, '_');
  }

  /** Removing a character from one character. */
  lemma RemoveCharSingle(x: char, c: char)
    ensures RemoveChar([x], c) == if x == c then [] else [x]
  {
    assert [x][1..] == [];
  }

  /** Removing a character distributes over concatenation, so the kept
      characters stay in their order. */
  lemma {:induction false} RemoveCharAppend(a: string, b: string, c: char)
    ensures RemoveChar(a + b, c) == RemoveChar(a, c) + RemoveChar(b, c)
    decreases |a|
  {
    if a == [] {
      assert a + b == b;
    } else {
      var h := if a[0] == c then [] else [a[0]];
      assert (a + b)[0] == a[0] && (a + b)[1..] == a[1..] + b;
      RemoveCharAppend(a[1..], b, c);
      calc {
        RemoveChar(a + b, c);
        h + RemoveChar(a[1..] + b, c);
        h + (RemoveChar(a[1..], c) + RemoveChar(b, c));
        (h + RemoveChar(a[1..], c)) + RemoveChar(b, c);
        RemoveChar(a, c) + RemoveChar(b, c);
      }
    }
  }

  /** Removing the one occurrence of `c` between `x` and `y`. */
  lemma {:induction false} RemoveSingle(x: string, y: string, c: char)
    requires c !in x && c !in y
    ensures RemoveChar(x + [c] + y, c) == x + y
  {
    if x == [] {
      assert x + [c] + y == [c] + y;
      assert ([c] + y)[1..] == y;
      RemoveAbsent(y, c);
    } else {
      assert (x + [c] + y)[1..] == x[1..] + [c] + y;
      RemoveSingle(x[1..], y, c);
      assert x + y == [x[0]] + (x[1..] + y);
    }
  }

  /** Removing the only character a string is made of leaves nothing. */
  lemma {:induction false} RemoveOnly(s: string, c: char)
    requires forall i :: 0 <= i < |s| ==> s[i] == c
    ensures RemoveChar(s, c) == []
  {
    if s != [] {
      RemoveOnly(s[1..], c);
    }
  }

  /** Removing a character that does not occur changes nothing. */
  lemma {:induction false} RemoveAbsent(s: string, c: char)
    requires c !in s
    ensures RemoveChar(s, c) == s
  {
    if s != [] {
      RemoveAbsent(s[1..], c);
    }
  }
}
