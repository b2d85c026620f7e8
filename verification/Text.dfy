/** The parts of JavaScript's string library that the front end relies on,
    stated on `seq<char>`: `toLowerCase` (ASCII letters), `trim`,
    `includes`, `split` on one character, `replace` of the first occurrence
    of a literal, and the decimal rendering of a natural number. */
module Text {
  import opened Wrappers

  // ---------------------------------------------------------------------
  // toLowerCase

  predicate IsUpper(c: char) {
    'A' <= c <= 'Z'
  }

  /** `toLowerCase` on one character; only ASCII letters change. */
  function LowerChar(c: char): (d: char)
    ensures !IsUpper(d)
    ensures IsUpper(c) ==> d as int == c as int + 32
    ensures !IsUpper(c) ==> d == c
  {
    if IsUpper(c) then (c as int + 32) as char else c
  }

  /** `s.toLowerCase()`: character by character, length unchanged. */
  function Lower(s: string): (r: string)
    ensures |r| == |s|
    ensures forall i :: 0 <= i < |s| ==> r[i] == LowerChar(s[i])
  {
    seq(|s|, i requires 0 <= i < |s| => LowerChar(s[i]))
  }

  // ---------------------------------------------------------------------
  // trim

  /** The characters `String.prototype.trim` removes: the WhiteSpace and
      LineTerminator code points of ECMAScript. */
  predicate IsWhitespace(c: char) {
    c == '\t' || c == '\n' || c == '\U{0B}' || c == '\U{0C}' || c == '\r' || c == ' '
    || c == '\U{A0}' || c == '\U{1680}' || ('\U{2000}' <= c <= '\U{200A}')
    || c == '\U{2028}' || c == '\U{2029}' || c == '\U{202F}' || c == '\U{205F}'
    || c == '\U{3000}' || c == '\U{FEFF}'
  }

  /** Every character is whitespace (the empty string included). */
  predicate Blank(s: string) {
    forall i :: 0 <= i < |s| ==> IsWhitespace(s[i])
  }

  /** Where the text after the leading whitespace starts: everything
      before it is whitespace and the character there is not. */
  function TrimStartIndex(s: string): (i: nat)
    ensures i <= |s| && Blank(s[..i])
    ensures i == |s| || !IsWhitespace(s[i])
  {
    SkipBlanks(s, 0)
  }

  function SkipBlanks(s: string, k: nat): (i: nat)
    requires k <= |s| && Blank(s[..k])
    ensures k <= i <= |s| && Blank(s[..i])
    ensures i == |s| || !IsWhitespace(s[i])
    decreases |s| - k
  {
    if k < |s| && IsWhitespace(s[k]) then
      assert s[..k + 1] == s[..k] + [s[k]];
      SkipBlanks(s, k + 1)
    else k
  }

  /** Where the trailing whitespace after position `i` starts: everything
      from it on is whitespace and the character before it, if past `i`,
      is not. */
  function TrimEndIndex(s: string, i: nat): (j: nat)
    requires i <= |s|
    ensures i <= j <= |s| && Blank(s[j..])
    ensures j == i || !IsWhitespace(s[j - 1])
  {
    SkipBlanksBack(s, i, |s|)
  }

  function SkipBlanksBack(s: string, i: nat, k: nat): (j: nat)
    requires i <= k <= |s| && Blank(s[k..])
    ensures i <= j <= k && Blank(s[j..])
    ensures j == i || !IsWhitespace(s[j - 1])
    decreases k
  {
    if i < k && IsWhitespace(s[k - 1]) then
      assert s[k - 1..] == [s[k - 1]] + s[k..];
      SkipBlanksBack(s, i, k - 1)
    else k
  }

  /** `s.trim()`: a slice `s[i..j]` whose two ends are not whitespace, with
      only whitespace cut off on either side. */
  function Trim(s: string): (r: string)
    ensures exists i, j :: 0 <= i <= j <= |s| && r == s[i..j] && Blank(s[..i]) && Blank(s[j..])
    ensures r == [] || (!IsWhitespace(r[0]) && !IsWhitespace(r[|r| - 1]))
  {
    var i := TrimStartIndex(s);
    var j := TrimEndIndex(s, i);
    assert j > i ==> s[i..j][0] == s[i] && s[i..j][j - i - 1] == s[j - 1];
    s[i..j]
  }

  /** The trimmed text is empty exactly when the input is blank, which is the
      test `!s.trim()` performs. */
  lemma TrimEmptyIffBlank(s: string)
    ensures Trim(s) == [] <==> Blank(s)
  {
    var i := TrimStartIndex(s);
    var j := TrimEndIndex(s, i);
    assert Trim(s) == s[i..j];
    if i < |s| {
      assert !Blank(s) by {
        assert !IsWhitespace(s[i]);
      }
      forall q | j <= q < |s| ensures IsWhitespace(s[q]) {
        assert s[j..][q - j] == s[q];
      }
      assert j > i;
    } else {
      assert s[..i] == s;
    }
  }

  /** A text with no whitespace at either end is its own trim. */
  lemma TrimOfTrimmed(t: string)
    requires t == [] || (!IsWhitespace(t[0]) && !IsWhitespace(t[|t| - 1]))
    ensures Trim(t) == t
  {
    var i := TrimStartIndex(t);
    if t != [] {
      assert i == 0;
      var j := TrimEndIndex(t, 0);
      assert j == |t|;
      assert t[0..|t|] == t;
    }
  }

  /** Trimming twice is trimming once. */
  lemma TrimIdempotent(s: string)
    ensures Trim(Trim(s)) == Trim(s)
  {
    TrimOfTrimmed(Trim(s));
  }

  // ---------------------------------------------------------------------
  // includes

  /** `t` occurs in `s` starting at index `i`. */
  predicate OccursAt(s: string, t: string, i: int) {
    0 <= i && i + |t| <= |s| && s[i..i + |t|] == t
  }

  /** `s.includes(t)`: only a text no longer than `s` can be included;
      the empty text and `s` itself always are, as in JavaScript. */
  predicate Contains(s: string, t: string)
    ensures Contains(s, t) ==> |t| <= |s|
    ensures t == [] || t == s ==> Contains(s, t)
  {
    assert t == [] || t == s ==> OccursAt(s, t, 0);
    exists i | 0 <= i <= |s| :: OccursAt(s, t, i)
  }

  /** Inclusion is transitive: a string that includes `t` includes every
      substring of `t`. */
  lemma ContainsTransitive(s: string, t: string, u: string)
    requires Contains(s, t) && Contains(t, u)
    ensures Contains(s, u)
  {
    var i :| 0 <= i <= |s| && OccursAt(s, t, i);
    var k :| 0 <= k <= |t| && OccursAt(t, u, k);
    forall j | 0 <= j < |u| ensures s[i + k + j] == u[j] {
      assert u[j] == t[k + j];
    }
    assert OccursAt(s, u, i + k);
  }

  /** An occurrence inside a part of a concatenation is one in the whole. */
  lemma ContainsInConcat(a: string, b: string, t: string)
    ensures Contains(a, t) ==> Contains(a + b, t)
    ensures Contains(b, t) ==> Contains(a + b, t)
  {
    if Contains(a, t) {
      var i :| 0 <= i <= |a| && OccursAt(a, t, i);
      forall j | 0 <= j < |t| ensures (a + b)[i + j] == t[j] {
        assert t[j] == a[i + j];
      }
      assert OccursAt(a + b, t, i);
    }
    if Contains(b, t) {
      var i :| 0 <= i <= |b| && OccursAt(b, t, i);
      forall j | 0 <= j < |t| ensures (a + b)[|a| + i + j] == t[j] {
        assert t[j] == b[i + j];
      }
      assert OccursAt(a + b, t, |a| + i);
    }
  }

  /** Lower-casing preserves an inclusion. */
  lemma LowerPreservesContains(s: string, t: string)
    requires Contains(s, t)
    ensures Contains(Lower(s), Lower(t))
  {
    var i :| 0 <= i <= |s| && OccursAt(s, t, i);
    forall j | 0 <= j < |t| ensures Lower(s)[i + j] == Lower(t)[j] {
      assert t[j] == s[i + j];
    }
    assert OccursAt(Lower(s), Lower(t), i);
  }

  /** Trimming does not hide or create an occurrence of a text whose first
      and last characters are not whitespace. */
  lemma ContainsTrimIff(s: string, t: string)
    requires t != [] && !IsWhitespace(t[0]) && !IsWhitespace(t[|t| - 1])
    ensures Contains(Trim(s), t) <==> Contains(s, t)
  {
    var i := TrimStartIndex(s);
    var j := TrimEndIndex(s, i);
    assert Trim(s) == s[i..j];
    if Contains(Trim(s), t) {
      ContainsInSlice(s, i, j, t);
    }
    if Contains(s, t) {
      ContainsBetweenBlanks(s, i, j, t);
    }
  }

  lemma ContainsInSlice(s: string, i: nat, j: nat, t: string)
    requires i <= j <= |s| && Contains(s[i..j], t)
    ensures Contains(s, t)
  {
    var r := s[i..j];
    var p :| 0 <= p <= |r| && OccursAt(r, t, p);
    forall k | 0 <= k < |t| ensures s[i + p + k] == t[k] {
      assert r[p + k] == t[k];
    }
    assert OccursAt(s, t, i + p);
  }

  lemma ContainsBetweenBlanks(s: string, i: nat, j: nat, t: string)
    requires i <= j <= |s| && Blank(s[..i]) && Blank(s[j..])
    requires t != [] && !IsWhitespace(t[0]) && !IsWhitespace(t[|t| - 1])
    requires Contains(s, t)
    ensures Contains(s[i..j], t)
  {
    var p :| 0 <= p <= |s| && OccursAt(s, t, p);
    forall q | 0 <= q < i ensures IsWhitespace(s[q]) {
      assert s[..i][q] == s[q];
    }
    forall q | j <= q < |s| ensures IsWhitespace(s[q]) {
      assert s[j..][q - j] == s[q];
    }
    assert s[p] == t[0];
    assert s[p + |t| - 1] == t[|t| - 1];
    assert i <= p && p + |t| <= j;
    var r := s[i..j];
    forall k | 0 <= k < |t| ensures r[p - i + k] == t[k] {
      assert s[p + k] == t[k];
    }
    assert OccursAt(r, t, p - i);
  }

  /** The first index at or after `from` where `t` occurs in `s`. */
  function IndexOfFrom(s: string, t: string, from: nat): (r: Option<nat>)
    ensures r.Some? ==> from <= r.value && OccursAt(s, t, r.value)
    ensures r.Some? ==> forall j :: from <= j < r.value ==> !OccursAt(s, t, j)
    ensures r.None? ==> forall j :: from <= j ==> !OccursAt(s, t, j)
    decreases |s| + 1 - from
  {
    if from + |t| > |s| then None
    else if OccursAt(s, t, from) then Some(from)
    else IndexOfFrom(s, t, from + 1)
  }

  /** `s.indexOf(t)`, with `None` for -1: the first occurrence, if any. */
  function IndexOf(s: string, t: string): (r: Option<nat>)
    ensures r.Some? <==> Contains(s, t)
    ensures r.Some? ==> OccursAt(s, t, r.value) && forall j :: 0 <= j < r.value ==> !OccursAt(s, t, j)
  {
    IndexOfFrom(s, t, 0)
  }

  /** `s.replace(pat, rep)` with a string pattern: only the FIRST occurrence
      of `pat` is replaced, wherever it is; without one, `s` is returned. */
  function ReplaceFirst(s: string, pat: string, rep: string): (r: string)
    ensures !Contains(s, pat) ==> r == s
    ensures Contains(s, pat) ==>
      exists k :: OccursAt(s, pat, k) && (forall j :: 0 <= j < k ==> !OccursAt(s, pat, j))
                  && r == s[..k] + rep + s[k + |pat|..]
  {
    match IndexOf(s, pat)
    case None => s
    case Some(k) => s[..k] + rep + s[k + |pat|..]
  }

  // ---------------------------------------------------------------------
  // split and join on one character

  /** `s.split(sep)` for a one-character separator: every separator ends a
      part, so adjacent, leading or trailing separators give empty parts,
      and the empty string gives one empty part. */
  function SplitOn(s: string, sep: char): (parts: seq<string>)
    ensures |parts| >= 1
    ensures forall p :: p in parts ==> sep !in p
    decreases |s|
  {
    if s == [] then [""]
    else
      var rest := SplitOn(s[1..], sep);
      if s[0] == sep then [""] + rest
      else [[s[0]] + rest[0]] + rest[1..]
  }

  /** `parts.join(sep)`. */
  function JoinOn(parts: seq<string>, sep: char): string
    requires |parts| >= 1
    decreases |parts|
  {
    if |parts| == 1 then parts[0] else parts[0] + [sep] + JoinOn(parts[1..], sep)
  }

  /** Joining the parts of a split gives back the string. */
  lemma {:induction false} JoinSplit(s: string, sep: char)
    ensures JoinOn(SplitOn(s, sep), sep) == s
    decreases |s|
  {
    if s != [] {
      var rest := SplitOn(s[1..], sep);
      JoinSplit(s[1..], sep);
      if s[0] == sep {
        assert SplitOn(s, sep)[1..] == rest;
      } else {
        var parts := SplitOn(s, sep);
        if |rest| == 1 {
          assert parts == [[s[0]] + rest[0]];
        } else {
          assert parts[1..] == rest[1..];
          assert JoinOn(rest, sep) == rest[0] + [sep] + JoinOn(rest[1..], sep);
        }
      }
    }
  }

  /** Splitting a string that starts with a separator-free prefix `a`: `a`
      is glued to the front of the first part of the rest. */
  lemma {:induction false} SplitPrefix(a: string, b: string, sep: char)
    requires sep !in a
    ensures SplitOn(a + b, sep) == [a + SplitOn(b, sep)[0]] + SplitOn(b, sep)[1..]
    decreases |a|
  {
    if a != [] {
      var rest := SplitOn(b, sep);
      assert (a + b)[0] == a[0] != sep;
      assert (a + b)[1..] == a[1..] + b;
      SplitPrefix(a[1..], b, sep);
      var inner := SplitOn(a[1..] + b, sep);
      assert inner[0] == a[1..] + rest[0] && inner[1..] == rest[1..];
      assert [a[0]] + (a[1..] + rest[0]) == a + rest[0];
    } else {
      var rest := SplitOn(b, sep);
      assert a + b == b;
      assert a + rest[0] == rest[0];
      assert [rest[0]] + rest[1..] == rest;
    }
  }

  /** Splitting the join of separator-free parts gives back the parts. */
  lemma {:induction false} SplitJoin(parts: seq<string>, sep: char)
    requires |parts| >= 1
    requires forall p :: p in parts ==> sep !in p
    ensures SplitOn(JoinOn(parts, sep), sep) == parts
    decreases |parts|
  {
    if |parts| == 1 {
      SplitPrefix(parts[0], "", sep);
      assert SplitOn("", sep) == [""];
      assert parts[0] + "" == parts[0];
    } else {
      var tail := JoinOn(parts[1..], sep);
      SplitJoin(parts[1..], sep);
      SplitPrefix(parts[0], [sep] + tail, sep);
      assert ([sep] + tail)[0] == sep && ([sep] + tail)[1..] == tail;
      assert SplitOn([sep] + tail, sep) == [""] + SplitOn(tail, sep);
      var x := SplitOn([sep] + tail, sep);
      assert x[0] == "" && x[1..] == parts[1..];
      assert JoinOn(parts, sep) == parts[0] + ([sep] + tail);
      assert parts[0] + x[0] == parts[0];
      assert parts == [parts[0]] + parts[1..];
    }
  }

  /** A string without the separator is a single part. */
  lemma SplitWithoutSeparator(s: string, sep: char)
    requires sep !in s
    ensures SplitOn(s, sep) == [s]
  {
    SplitPrefix(s, "", sep);
    assert s + "" == s;
  }

  /** A separator splits the parts of what precedes it from the parts of
      what follows it. */
  lemma {:induction false} SplitAtSeparator(a: string, b: string, sep: char)
    ensures SplitOn(a + [sep] + b, sep) == SplitOn(a, sep) + SplitOn(b, sep)
    decreases |a|
  {
    var s := a + [sep] + b;
    if a == [] {
      assert s == [sep] + b && s[1..] == b;
    } else {
      assert s[0] == a[0] && s[1..] == a[1..] + [sep] + b;
      SplitAtSeparator(a[1..], b, sep);
      var p := SplitOn(a[1..], sep);
      var q := SplitOn(b, sep);
      var r := SplitOn(s[1..], sep);
      assert r == p + q;
      if a[0] == sep {
        assert SplitOn(s, sep) == [""] + r;
      } else {
        GlueFirst(a[0], p, q);
      }
    }
  }

  /** Gluing a character to the first part commutes with appending
      further parts. */
  lemma GlueFirst(c: char, p: seq<string>, q: seq<string>)
    requires |p| >= 1
    ensures [[c] + (p + q)[0]] + (p + q)[1..] == ([[c] + p[0]] + p[1..]) + q
  {
    assert (p + q)[0] == p[0];
    assert (p + q)[1..] == p[1..] + q;
  }

  /** Two separators in a row produce an empty part that is not the first. */
  lemma {:induction false} DoubledSeparatorGivesEmptyPart(s: string, sep: char)
    requires Contains(s, [sep, sep])
    ensures "" in SplitOn(s, sep)[1..]
    decreases |s|
  {
    var k :| 0 <= k <= |s| && OccursAt(s, [sep, sep], k);
    assert s[k] == s[k..k + 2][0] && s[k + 1] == s[k..k + 2][1];
    var rest := SplitOn(s[1..], sep);
    if k == 0 {
      assert s[1..][0] == sep;
      assert rest[0] == "";
    } else {
      assert s[1..][k - 1..k + 1] == s[k..k + 2];
      assert OccursAt(s[1..], [sep, sep], k - 1);
      DoubledSeparatorGivesEmptyPart(s[1..], sep);
      if s[0] == sep {
        assert SplitOn(s, sep)[1..] == rest;
      } else {
        assert SplitOn(s, sep)[1..] == rest[1..];
      }
    }
  }

  /** A trailing separator produces an empty last part. */
  lemma {:induction false} TrailingSeparatorGivesEmptyPart(s: string, sep: char)
    requires s != [] && s[|s| - 1] == sep
    ensures |SplitOn(s, sep)| >= 2 && SplitOn(s, sep)[|SplitOn(s, sep)| - 1] == ""
    decreases |s|
  {
    var t := s[1..];
    if t == [] {
      assert SplitOn(t, sep) == [""];
    } else {
      assert t[|t| - 1] == sep;
      TrailingSeparatorGivesEmptyPart(t, sep);
    }
  }

  // ---------------------------------------------------------------------
  // decimal rendering of a natural number (template literal `${n}`)

  predicate IsDigit(c: char) {
    '0' <= c <= '9'
  }

  function DigitChar(d: nat): (c: char)
    requires d < 10
    ensures IsDigit(c) && c as int - '0' as int == d
  {
    (d + '0' as int) as char
  }

  /** The decimal digits of `n`, most significant first, without leading
      zeros. */
  function NatToString(n: nat): (r: string)
    ensures |r| >= 1
    ensures forall i :: 0 <= i < |r| ==> IsDigit(r[i])
    ensures |r| > 1 ==> r[0] != '0'
    decreases n
  {
    if n < 10 then [DigitChar(n)] else NatToString(n / 10) + [DigitChar(n % 10)]
  }

  function DigitValue(c: char): nat
    requires IsDigit(c)
  {
    c as int - '0' as int
  }

  /** The value of a string of decimal digits. */
  function ParseDecimal(s: string): nat
    requires forall i :: 0 <= i < |s| ==> IsDigit(s[i])
    decreases |s|
  {
    if s == [] then 0 else ParseDecimal(s[..|s| - 1]) * 10 + DigitValue(s[|s| - 1])
  }

  /** Rendering a number in decimal loses nothing: parsing gives it back. */
  lemma {:induction false} ParseNatToString(n: nat)
    ensures ParseDecimal(NatToString(n)) == n
    decreases n
  {
    if n >= 10 {
      ParseNatToString(n / 10);
      var r := NatToString(n);
      assert r[..|r| - 1] == NatToString(n / 10);
    }
  }
}
