/** String operations with the semantics of the Python and JavaScript
    built-ins the repository relies on: `str.zfill`, `String.prototype.padStart`,
    `split`/`join` on one separator, Python's `str.replace` (every occurrence),
    JavaScript's `replace` with a string pattern (first occurrence only),
    JavaScript's `trim`, decimal rendering of naturals (`str(n)`, `String(n)`)
    and POSIX `os.path.join` / `os.path.basename`. */
module Strings {

  datatype Option<+T> = None | Some(value: T)

  function Max(a: int, b: int): int { if a >= b then a else b }

  /* ---------------------------------------------------------------------- */
  /* Prefixes, suffixes, substrings                                          */

  predicate StartsWith(s: string, prefix: string) {
    |prefix| <= |s| && s[..|prefix|] == prefix
  }

  predicate EndsWith(s: string, suffix: string) {
    |suffix| <= |s| && s[|s| - |suffix|..] == suffix
  }

  /** A concatenation starts with its first part and ends with its last. */
  lemma PrefixAndSuffix(a: string, m: string, b: string)
    ensures StartsWith(a + m + b, a) && EndsWith(a + m + b, b)
  {
    assert (a + m + b)[..|a|] == a;
    assert (a + m + b)[|a + m|..] == b;
  }

  /** Python's `p in s` and JavaScript's `s.includes(p)`. */
  predicate IsSubstring(p: string, s: string) {
    exists i | 0 <= i <= |s| :: OccursAt(p, s, i)
  }

  predicate OccursAt(p: string, s: string, i: int) {
    0 <= i && i + |p| <= |s| && s[i..i + |p|] == p
  }

  /* ---------------------------------------------------------------------- */
  /* Zero padding                                                            */

  function Zeros(n: nat): (r: string)
    ensures |r| == n
    ensures forall i :: 0 <= i < n ==> r[i] == '0'
  {
    if n == 0 then "" else "0" + Zeros(n - 1)
  }

  predicate AllZeros(s: string) {
    forall i :: 0 <= i < |s| ==> s[i] == '0'
  }

  predicate IsSign(c: char) { c == '+' || c == '-' }

  predicate Unsigned(s: string) { |s| == 0 || !IsSign(s[0]) }

  /** Python `s.zfill(width)`: zeros go after a leading sign, if there is one. */
  function Zfill(s: string, width: nat): (r: string)
    ensures |r| == Max(|s|, width)
    ensures |s| >= width ==> r == s
    ensures Unsigned(s) ==> r[|r| - |s|..] == s && AllZeros(r[..|r| - |s|])
    ensures !Unsigned(s) ==> r[0] == s[0] && r[|r| - |s| + 1..] == s[1..] && AllZeros(r[1..|r| - |s| + 1])
  {
    if |s| >= width then s
    else if !Unsigned(s) then [s[0]] + Zeros(width - |s|) + s[1..]
    else Zeros(width - |s|) + s
  }

  /** JavaScript `s.padStart(width, pad)` with a one-character pad string. */
  function PadStart(s: string, width: nat, pad: char): (r: string)
    ensures |r| == Max(|s|, width)
    ensures r[|r| - |s|..] == s
    ensures forall i :: 0 <= i < |r| - |s| ==> r[i] == pad
  {
    if |s| >= width then s else seq(width - |s|, _ => pad) + s
  }

  /** On unsigned text, Python's zfill and JavaScript's padStart with '0' agree;
      on signed text they do not. */
  lemma ZfillIsPadStart(s: string, width: nat)
    ensures Unsigned(s) ==> Zfill(s, width) == PadStart(s, width, '0')
    ensures !Unsigned(s) && |s| < width ==> Zfill(s, width) != PadStart(s, width, '0')
  {
    if !Unsigned(s) && |s| < width {
      assert Zfill(s, width)[0] == s[0] != '0' == PadStart(s, width, '0')[0];
    }
  }

  /* ---------------------------------------------------------------------- */
  /* Decimal rendering                                                       */

  predicate IsDigit(c: char) { '0' <= c <= '9' }

  predicate AllDigits(s: string) { forall i :: 0 <= i < |s| ==> IsDigit(s[i]) }

  function DigitChar(d: nat): (c: char)
    requires d < 10
    ensures IsDigit(c) && c as int - '0' as int == d
  {
    ('0' as int + d) as char
  }

  /** `str(n)` in Python, `String(n)` in JavaScript, for a natural n. */
  function NatToString(n: nat): (r: string)
    ensures |r| >= 1 && AllDigits(r)
    ensures |r| > 1 ==> r[0] != '0'
  {
    if n < 10 then [DigitChar(n)] else NatToString(n / 10) + [DigitChar(n % 10)]
  }

  function ParseNat(s: string): nat
    requires AllDigits(s)
  {
    if s == [] then 0 else 10 * ParseNat(s[..|s| - 1]) + (s[|s| - 1] as int - '0' as int)
  }

  /** Reading back the decimal text of n gives n. */
  lemma {:induction false} ParseNatToString(n: nat)
    ensures ParseNat(NatToString(n)) == n
  {
    var r := NatToString(n);
    if n >= 10 {
      ParseNatToString(n / 10);
      assert r[..|r| - 1] == NatToString(n / 10);
    }
  }

  /** Distinct naturals have distinct decimal texts. */
  lemma NatToStringInjective(a: nat, b: nat)
    requires a != b
    ensures NatToString(a) != NatToString(b)
  {
    ParseNatToString(a);
    ParseNatToString(b);
  }

  /* ---------------------------------------------------------------------- */
  /* Split and join on one separator                                         */

  /** First position of c in s. */
  function IndexOf(s: string, c: char): (i: nat)
    requires c in s
    ensures i < |s| && s[i] == c && c !in s[..i]
  {
    if s[0] == c then 0
    else
      assert c in s[1..] by { var k :| 0 <= k < |s| && s[k] == c; assert s[1..][k - 1] == c; }
      var j := IndexOf(s[1..], c);
      assert s[..j + 1] == [s[0]] + s[1..][..j];
      j + 1
  }

  /** `sep.join(parts)` in Python, `parts.join(sep)` in JavaScript. */
  function Join(parts: seq<string>, sep: string): string {
    if |parts| == 0 then ""
    else if |parts| == 1 then parts[0]
    else parts[0] + sep + Join(parts[1..], sep)
  }

  /** `s.split(c)` in Python and JavaScript for a one-character separator:
      the pieces between separators, never an empty list. */
  function Split(s: string, c: char): (parts: seq<string>)
    ensures |parts| >= 1
    ensures forall k :: 0 <= k < |parts| ==> c !in parts[k]
    ensures Join(parts, [c]) == s
    decreases |s|
  {
    if c !in s then [s]
    else
      var i := IndexOf(s, c);
      var rest := Split(s[i + 1..], c);
      assert ([s[..i]] + rest)[1..] == rest;
      assert s == s[..i] + [c] + s[i + 1..];
      [s[..i]] + rest
  }

  /** The first c after a c-free head is the one right after it. */
  lemma {:induction false} IndexOfAfter(head: string, c: char, rest: string)
    requires c !in head
    ensures c in head + [c] + rest
    ensures IndexOf(head + [c] + rest, c) == |head|
  {
    var s := head + [c] + rest;
    assert s[|head|] == c;
    if head != [] {
      assert s[1..] == head[1..] + [c] + rest;
      assert head[0] != c by { assert head[0] in head; }
      assert c !in head[1..] by { assert forall x :: x in head[1..] ==> x in head; }
      IndexOfAfter(head[1..], c, rest);
    }
  }

  /** Splitting at the first separator: the head, then the pieces of the
      rest. */
  lemma SplitAt(head: string, c: char, rest: string)
    requires c !in head
    ensures Split(head + [c] + rest, c) == [head] + Split(rest, c)
  {
    var s := head + [c] + rest;
    IndexOfAfter(head, c, rest);
    assert s[..|head|] == head && s[|head| + 1..] == rest;
  }

  /** Splitting a join recovers the parts when no part holds the separator. */
  lemma {:induction false} SplitOfJoin(parts: seq<string>, c: char)
    requires |parts| >= 1
    requires forall k :: 0 <= k < |parts| ==> c !in parts[k]
    ensures Split(Join(parts, [c]), c) == parts
  {
    if |parts| > 1 {
      var tail := Join(parts[1..], [c]);
      assert Join(parts, [c]) == parts[0] + [c] + tail;
      SplitAt(parts[0], c, tail);
      SplitOfJoin(parts[1..], c);
      assert parts == [parts[0]] + parts[1..];
    }
  }

  /** A join of non-empty parts starts with the first part's first character
      and ends with the last part's last character. */
  lemma {:induction false} JoinEnds(parts: seq<string>, sep: string)
    requires |parts| >= 1 && forall k :: 0 <= k < |parts| ==> parts[k] != []
    ensures var j := Join(parts, sep);
      j != [] && j[0] == parts[0][0] && j[|j| - 1] == parts[|parts| - 1][|parts[|parts| - 1]| - 1]
  {
    if |parts| > 1 {
      var rest := Join(parts[1..], sep);
      JoinEnds(parts[1..], sep);
      assert parts[1..][|parts| - 2] == parts[|parts| - 1];
      var j := parts[0] + sep + rest;
      assert Join(parts, sep) == j;
      assert j[0] == parts[0][0] && j[|j| - 1] == rest[|rest| - 1];
    }
  }

  /** A join holds a character only if a part or the separator does. */
  lemma {:induction false} JoinAvoids(parts: seq<string>, sep: string, c: char)
    requires c !in sep
    requires forall k :: 0 <= k < |parts| ==> c !in parts[k]
    ensures c !in Join(parts, sep)
  {
    if |parts| > 1 {
      JoinAvoids(parts[1..], sep, c);
    }
  }

  /** A text that starts with `prefix` and then has c takes `prefix` as its
      part before the first c, when `prefix` has no c. */
  lemma BeforeFirstOfPrefix(prefix: string, c: char, rest: string)
    requires c !in prefix
    ensures BeforeFirst(prefix + [c] + rest, c) == prefix
  {
    var s := prefix + [c] + rest;
    assert s[|prefix|] == c;
    var i := IndexOf(s, c);
    assert s[..|prefix|] == prefix;
  }

  /** A field followed by a newline is read back as the text before the
      first newline, when it holds no newline itself. */
  lemma ReadField(x: string, rest: string)
    requires '\n' !in x && |rest| > 0 && rest[0] == '\n'
    ensures BeforeFirst(x + rest, '\n') == x
  {
    assert x + rest == x + ['\n'] + rest[1..];
    BeforeFirstOfPrefix(x, '\n', rest[1..]);
  }

  /** The window of a right-nested concatenation that holds x. */
  lemma Window(a: string, b: string, x: string, c: string)
    ensures (a + (b + (x + c)))[|a| + |b|..|a| + |b| + |x|] == x
  {
    assert a + (b + (x + c)) == (a + b) + x + c;
  }

  /** The middle of a three-way concatenation is a substring of it. */
  lemma InfixOccurs(a: string, b: string, c: string)
    ensures IsSubstring(b, a + b + c)
  {
    var s := a + b + c;
    assert s[|a|..|a| + |b|] == b;
    assert OccursAt(b, s, |a|);
  }

  /** Python `s.split(c)[0]`: the text before the first c, or all of s. */
  function BeforeFirst(s: string, c: char): (r: string)
    ensures c !in r
    ensures c !in s ==> r == s
    ensures c in s ==> r == s[..IndexOf(s, c)]
  {
    Split(s, c)[0]
  }

  /* ---------------------------------------------------------------------- */
  /* Replacement                                                             */

  /** Python `s.replace(pat, rep)`: every non-overlapping occurrence, scanning
      left to right. */
  function ReplaceAll(s: string, pat: string, rep: string): string
    requires |pat| > 0
    decreases |s|
  {
    if StartsWith(s, pat) then rep + ReplaceAll(s[|pat|..], pat, rep)
    else if s == [] then []
    else [s[0]] + ReplaceAll(s[1..], pat, rep)
  }

  /** Replacing a pattern that does not occur leaves the text unchanged. */
  lemma {:induction false} ReplaceAllAbsent(s: string, pat: string, rep: string)
    requires |pat| > 0 && !IsSubstring(pat, s)
    ensures ReplaceAll(s, pat, rep) == s
  {
    if StartsWith(s, pat) {
      assert OccursAt(pat, s, 0);
    } else if s != [] {
      if IsSubstring(pat, s[1..]) {
        var i :| 0 <= i <= |s[1..]| && OccursAt(pat, s[1..], i);
        assert s[1..][i..i + |pat|] == s[i + 1..i + 1 + |pat|];
        assert OccursAt(pat, s, i + 1);
      }
      ReplaceAllAbsent(s[1..], pat, rep);
    }
  }

  /** A leading occurrence is removed by the first step of the scan. */
  lemma ReplaceAllLeading(pat: string, rest: string, rep: string)
    requires |pat| > 0
    ensures ReplaceAll(pat + rest, pat, rep) == rep + ReplaceAll(rest, pat, rep)
  {
    assert (pat + rest)[..|pat|] == pat;
    assert (pat + rest)[|pat|..] == rest;
  }

  /** Replacing a character by another: same length, and the old character is gone. */
  lemma {:induction false} ReplaceCharAll(s: string, a: char, b: char)
    requires a != b
    ensures |ReplaceAll(s, [a], [b])| == |s|
    ensures a !in ReplaceAll(s, [a], [b])
    ensures forall i :: 0 <= i < |s| && s[i] != a ==> ReplaceAll(s, [a], [b])[i] == s[i]
    ensures forall i :: 0 <= i < |s| && s[i] == a ==> ReplaceAll(s, [a], [b])[i] == b
  {
    if s != [] {
      ReplaceCharAll(s[1..], a, b);
      if s[0] == a {
        assert StartsWith(s, [a]);
      }
    }
  }

  /** JavaScript `s.replace(a, b)` with a one-character string pattern: only
      the first occurrence changes. */
  function ReplaceFirst(s: string, a: char, b: char): (r: string)
    ensures |r| == |s|
    ensures a !in s ==> r == s
    ensures a in s ==> r[IndexOf(s, a)] == b &&
                       forall i :: 0 <= i < |s| && i != IndexOf(s, a) ==> r[i] == s[i]
  {
    if a !in s then s else var i := IndexOf(s, a); s[..i] + [b] + s[i + 1..]
  }

  /** Replacing the first a of a text whose head has none replaces the a
      right after the head. */
  lemma ReplaceFirstAfter(head: string, a: char, b: char, rest: string)
    requires a !in head
    ensures ReplaceFirst(head + [a] + rest, a, b) == head + [b] + rest
  {
    var s := head + [a] + rest;
    IndexOfAfter(head, a, rest);
    assert s[..|head|] == head && s[|head| + 1..] == rest;
  }

  function Count(s: string, c: char): nat {
    if s == [] then 0 else (if s[0] == c then 1 else 0) + Count(s[1..], c)
  }

  lemma {:induction false} CountAppend(s: string, t: string, c: char)
    ensures Count(s + t, c) == Count(s, c) + Count(t, c)
  {
    if s == [] {
      assert s + t == t;
    } else {
      assert (s + t)[0] == s[0];
      assert (s + t)[1..] == s[1..] + t;
      CountAppend(s[1..], t, c);
    }
  }

  lemma {:induction false} CountAbsent(s: string, c: char)
    requires c !in s
    ensures Count(s, c) == 0
  {
    if s != [] {
      CountAbsent(s[1..], c);
    }
  }

  /** ReplaceFirst removes exactly one occurrence, when there is one. */
  lemma ReplaceFirstCount(s: string, a: char, b: char)
    requires a != b && a in s
    ensures Count(ReplaceFirst(s, a, b), a) == Count(s, a) - 1
  {
    var i := IndexOf(s, a);
    assert s == s[..i] + [a] + s[i + 1..];
    CountAppend(s[..i] + [a], s[i + 1..], a);
    CountAppend(s[..i], [a], a);
    CountAppend(s[..i] + [b], s[i + 1..], a);
    CountAppend(s[..i], [b], a);
    assert Count([a], a) == 1 && Count([b], a) == 0;
  }

  /* ---------------------------------------------------------------------- */
  /* Case folding                                                            */

  function LowerChar(c: char): char {
    if 'A' <= c <= 'Z' then (c as int - 'A' as int + 'a' as int) as char else c
  }

  predicate IsUpper(c: char) { 'A' <= c <= 'Z' }

  /** ASCII lower-casing: no capital letter is left, each capital becomes
      its small letter, and every other character stays. */
  function Lower(s: string): (r: string)
    ensures |r| == |s|
    ensures forall i :: 0 <= i < |r| ==> !IsUpper(r[i])
    ensures forall i :: 0 <= i < |s| && !IsUpper(s[i]) ==> r[i] == s[i]
    ensures forall i :: 0 <= i < |s| && IsUpper(s[i]) ==> r[i] as int == s[i] as int + 32
  {
    seq(|s|, i requires 0 <= i < |s| => LowerChar(s[i]))
  }

  /** Lower-casing twice is lower-casing once. */
  lemma LowerIdempotent(s: string)
    ensures Lower(Lower(s)) == Lower(s)
  {
    var l := Lower(s);
    assert forall i :: 0 <= i < |l| ==> Lower(l)[i] == l[i];
  }

  /** Two texts that differ only in the case of ASCII letters. */
  predicate CaseVariant(a: string, b: string) {
    |a| == |b| && forall i :: 0 <= i < |a| ==> a[i] == b[i] || LowerChar(a[i]) == LowerChar(b[i])
  }

  /** Texts that differ only in letter case lower-case to the same text. */
  lemma CaseVariantLower(a: string, b: string)
    requires CaseVariant(a, b)
    ensures Lower(a) == Lower(b)
  {
    assert forall i :: 0 <= i < |a| ==> Lower(a)[i] == LowerChar(a[i]) && Lower(b)[i] == LowerChar(b[i]);
  }

  /* ---------------------------------------------------------------------- */
  /* JavaScript trim                                                         */

  /** The characters JavaScript's `trim` removes: WhiteSpace and LineTerminator. */
  predicate IsJsSpace(c: char) {
    c == ' ' || c == '\t' || c == '\n' || c == '\r' || c == '\U{000B}' || c == '\U{000C}' ||
    c == '\U{00A0}' || c == '\U{FEFF}' || c == '\U{1680}' || ('\U{2000}' <= c <= '\U{200A}') ||
    c == '\U{2028}' || c == '\U{2029}' || c == '\U{202F}' || c == '\U{205F}' || c == '\U{3000}'
  }

  /** Text made of white space only. */
  predicate Blank(s: string) {
    forall i :: 0 <= i < |s| ==> IsJsSpace(s[i])
  }

  /** The number of white-space characters s starts with. */
  function LeadingSpaces(s: string): (n: nat)
    ensures n <= |s|
    ensures forall i :: 0 <= i < n ==> IsJsSpace(s[i])
    ensures n == |s| || !IsJsSpace(s[n])
  {
    if s != [] && IsJsSpace(s[0]) then 1 + LeadingSpaces(s[1..]) else 0
  }

  /** The number of white-space characters s ends with. */
  function TrailingSpaces(s: string): (n: nat)
    ensures n <= |s|
    ensures forall i :: |s| - n <= i < |s| ==> IsJsSpace(s[i])
    ensures n == |s| || !IsJsSpace(s[|s| - n - 1])
  {
    if s != [] && IsJsSpace(s[|s| - 1]) then 1 + TrailingSpaces(s[..|s| - 1]) else 0
  }

  /** JavaScript `s.trimStart()`. */
  function TrimStart(s: string): (r: string)
    ensures r == [] || !IsJsSpace(r[0])
  {
    s[LeadingSpaces(s)..]
  }

  /** JavaScript `s.trimEnd()`. */
  function TrimEnd(s: string): (r: string)
    ensures r == [] || !IsJsSpace(r[|r| - 1])
  {
    s[..|s| - TrailingSpaces(s)]
  }

  /** JavaScript `s.trim()`: the infix of s that starts at its first
      visible character and after which s holds only white space; it
      starts and ends with a visible character. */
  function Trim(s: string): (r: string)
    ensures r == [] || (!IsJsSpace(r[0]) && !IsJsSpace(r[|r| - 1]))
    ensures LeadingSpaces(s) + |r| <= |s|
    ensures r == s[LeadingSpaces(s)..LeadingSpaces(s) + |r|]
    ensures Blank(s[LeadingSpaces(s) + |r|..])
  {
    TrimIsInfix(s);
    BlankAfter(s);
    TrimEnd(TrimStart(s))
  }

  /** Cutting both ends leaves the infix of s after its leading white space. */
  lemma TrimIsInfix(s: string)
    ensures LeadingSpaces(s) + |TrimEnd(TrimStart(s))| <= |s|
    ensures TrimEnd(TrimStart(s)) == s[LeadingSpaces(s)..LeadingSpaces(s) + |TrimEnd(TrimStart(s))|]
  {
    var k := LeadingSpaces(s);
    var t := s[k..];
    var n := |t| - TrailingSpaces(t);
    assert TrimEnd(TrimStart(s)) == t[..n];
    SliceOfSuffix(s, k, n);
  }

  /** A prefix of a suffix of s is an infix of s. */
  lemma SliceOfSuffix(s: string, k: nat, n: nat)
    requires k + n <= |s|
    ensures s[k..][..n] == s[k..k + n]
  {
  }

  /** The characters cut from the end are white space. */
  lemma BlankAfter(s: string)
    ensures LeadingSpaces(s) + |TrimEnd(TrimStart(s))| <= |s|
    ensures Blank(s[LeadingSpaces(s) + |TrimEnd(TrimStart(s))|..])
  {
    var k := LeadingSpaces(s);
    var t := s[k..];
    var m := TrailingSpaces(t);
    assert |TrimEnd(TrimStart(s))| == |t| - m;
    assert s[k + |TrimEnd(TrimStart(s))|..] == t[|t| - m..];
  }

  /** `text.trim().split('\n')`: the lines of the trimmed text; there is
      always at least one. */
  function TrimmedLines(text: string): (lines: seq<string>)
    ensures |lines| >= 1
    ensures forall k :: 0 <= k < |lines| ==> '\n' !in lines[k]
  {
    Split(Trim(text), '\n')
  }

  /** The lines join back into the trimmed text. */
  lemma TrimmedLinesRejoin(text: string)
    ensures Join(TrimmedLines(text), "\n") == Trim(text)
  {
    var lines := Split(Trim(text), '\n');
    assert Join(lines, ['\n']) == Trim(text);
    assert ['\n'] == "\n";
  }

  /** Text ending in a visible character followed by white space ends
      with exactly that white space. */
  lemma {:induction false} TrailingSpacesAfter(s: string, tail: string)
    requires s != [] && !IsJsSpace(s[|s| - 1])
    requires Blank(tail)
    ensures TrailingSpaces(s + tail) == |tail|
    decreases |tail|
  {
    if tail == [] {
      assert s + tail == s;
    } else {
      assert (s + tail)[..|s + tail| - 1] == s + tail[..|tail| - 1];
      TrailingSpacesAfter(s, tail[..|tail| - 1]);
    }
  }

  /** Trimming text that already starts and ends with visible characters,
      followed by trailing whitespace, gives the text back. */
  lemma TrimDropsTrailingSpace(s: string, tail: string)
    requires s != [] && !IsJsSpace(s[0]) && !IsJsSpace(s[|s| - 1])
    requires forall i :: 0 <= i < |tail| ==> IsJsSpace(tail[i])
    ensures Trim(s + tail) == s
  {
    assert LeadingSpaces(s + tail) == 0;
    assert TrimStart(s + tail) == s + tail;
    TrailingSpacesAfter(s, tail);
    assert (s + tail)[..|s|] == s;
  }

  /* ---------------------------------------------------------------------- */
  /* POSIX paths                                                             */

  /** `os.path.join(a, b)` on POSIX: an absolute b replaces a; otherwise one
      '/' is inserted unless a is empty or already ends with one. */
  function PathJoin(a: string, b: string): (r: string)
    ensures EndsWith(r, b)
    ensures StartsWith(b, "/") ==> r == b
    ensures !StartsWith(b, "/") ==> StartsWith(r, a) && |a| + |b| <= |r| <= |a| + 1 + |b|
    ensures !StartsWith(b, "/") && |r| > |a| + |b| ==> r[|a|] == '/'
    ensures !StartsWith(b, "/") ==> (|r| > |a| + |b| <==> a != "" && !EndsWith(a, "/"))
  {
    if StartsWith(b, "/") then b
    else if a == "" || EndsWith(a, "/") then
      a + b
    else a + "/" + b
  }

  /** Joining names that do not start with '/' onto one directory puts
      them after the same prefix, so different names give different paths. */
  lemma PathJoinDistinct(a: string, b: string, c: string)
    requires !StartsWith(b, "/") && !StartsWith(c, "/") && b != c
    ensures PathJoin(a, b) != PathJoin(a, c)
  {
    var lead := if a == "" || EndsWith(a, "/") then a else a + "/";
    assert PathJoin(a, b) == lead + b && PathJoin(a, c) == lead + c;
    assert (lead + b)[|lead|..] == b && (lead + c)[|lead|..] == c;
  }

  /** How Python formats an optional catalogue cell: an empty (NaN) cell
      prints as "nan". */
  function CategoryText(c: Option<string>): (t: string)
    ensures c.Some? ==> t == c.value
    ensures c.None? ==> t == "nan"
  {
    if c.Some? then c.value else "nan"
  }

  /** `os.path.basename(p)`: everything after the last '/'. */
  function Basename(p: string): (r: string)
    ensures '/' !in r
    ensures EndsWith(p, r)
    ensures |r| == |p| || p[|p| - |r| - 1] == '/'
  {
    if p == [] || p[|p| - 1] == '/' then []
    else
      var init := p[..|p| - 1];
      BasenameStep(p, init, Basename(init));
      Basename(init) + [p[|p| - 1]]
  }

  /** The base name grows by the last character when that is not a '/'. */
  lemma BasenameStep(p: string, init: string, b: string)
    requires p != [] && p[|p| - 1] != '/' && init == p[..|p| - 1]
    requires '/' !in b && EndsWith(init, b) && (|b| == |init| || init[|init| - |b| - 1] == '/')
    ensures var r := b + [p[|p| - 1]];
      '/' !in r && EndsWith(p, r) && (|r| == |p| || p[|p| - |r| - 1] == '/')
  {
    var r := b + [p[|p| - 1]];
    assert p == init + [p[|p| - 1]];
    assert p[|p| - |r|..] == init[|init| - |b|..] + [p[|p| - 1]];
  }

  lemma {:induction false} BasenameAfterSlash(dir: string, name: string)
    requires dir == "" || dir[|dir| - 1] == '/'
    requires '/' !in name
    ensures Basename(dir + name) == name
    decreases |name|
  {
    if name == [] {
      assert dir + name == dir;
    } else {
      var p := dir + name;
      var init, last := name[..|name| - 1], name[|name| - 1];
      assert name == init + [last] by { assert name[..|name| - 1] + [name[|name| - 1]] == name; }
      assert p == (dir + init) + [last];
      assert last != '/' by { assert last in name; }
      assert '/' !in init by { assert forall x :: x in init ==> x in name; }
      BasenameAfterSlash(dir, init);
      assert p[..|p| - 1] == dir + init;
    }
  }

  /** The base name of a joined path is the file name that was joined on. */
  lemma BasenameOfJoin(dir: string, name: string)
    requires '/' !in name
    ensures Basename(PathJoin(dir, name)) == name
  {
    if dir == "" || EndsWith(dir, "/") {
      if dir != "" { assert dir[|dir| - 1] == dir[|dir| - 1..][0]; }
      BasenameAfterSlash(dir, name);
    } else {
      assert dir + "/" + name == (dir + "/") + name;
      BasenameAfterSlash(dir + "/", name);
    }
  }
}
