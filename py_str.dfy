/** The Python `str` operations the catalog code relies on, with Python's own
    semantics: `find` answers -1 when nothing is found, slice bounds may be
    negative or out of range, `split` and `replace` scan left to right. */
module PyStr {

  /** `c.isspace()`; `\s` in a `re` pattern over `str` matches the same characters. */
  predicate IsSpace(c: char) {
    || c == ' ' || c == '\t' || c == '\n' || c == '\r' || c == '\U{000B}' || c == '\U{000C}'
    || ('\U{001C}' <= c <= '\U{001F}') || c == '\U{0085}' || c == '\U{00A0}' || c == '\U{1680}'
    || ('\U{2000}' <= c <= '\U{200A}') || c == '\U{2028}' || c == '\U{2029}' || c == '\U{202F}'
    || c == '\U{205F}' || c == '\U{3000}'
  }

  predicate AllSpace(s: string) {
    forall i :: 0 <= i < |s| ==> IsSpace(s[i])
  }

  /** Neither the first nor the last character is whitespace. */
  predicate NoEdgeSpace(s: string) {
    s == [] || (!IsSpace(s[0]) && !IsSpace(s[|s| - 1]))
  }

  /** `s.lstrip()`: the suffix left after the leading whitespace. */
  function LStrip(s: string): (r: string)
    ensures |r| <= |s| && r == s[|s| - |r|..]
    ensures AllSpace(s[..|s| - |r|])
    ensures r == [] || !IsSpace(r[0])
  {
    if |s| > 0 && IsSpace(s[0]) then
      var r := LStrip(s[1..]);
      LStripStep(s, r);
      r
    else s
  }

  /** One leading whitespace character more keeps `r` a suffix after a whitespace run. */
  lemma LStripStep(s: string, r: string)
    requires |s| > 0 && IsSpace(s[0])
    requires |r| <= |s| - 1 && r == s[1..][|s| - 1 - |r|..]
    requires AllSpace(s[1..][..|s| - 1 - |r|])
    ensures r == s[|s| - |r|..] && AllSpace(s[..|s| - |r|])
  {
    var n := |s| - |r|;
    assert s[1..][n - 1..] == s[n..];
    forall i | 0 < i < n ensures IsSpace(s[i]) {
      assert s[i] == s[1..][..n - 1][i - 1];
    }
  }

  /** `s.rstrip()`: the prefix left before the trailing whitespace. */
  function RStrip(s: string): (r: string)
    ensures |r| <= |s| && r == s[..|r|]
    ensures AllSpace(s[|r|..])
    ensures r == [] || !IsSpace(r[|r| - 1])
  {
    if |s| > 0 && IsSpace(s[|s| - 1]) then
      var r := RStrip(s[..|s| - 1]);
      RStripStep(s, r);
      r
    else s
  }

  /** One trailing whitespace character more keeps `r` a prefix before a whitespace run. */
  lemma RStripStep(s: string, r: string)
    requires |s| > 0 && IsSpace(s[|s| - 1])
    requires |r| <= |s| - 1 && r == s[..|s| - 1][..|r|]
    requires AllSpace(s[..|s| - 1][|r|..])
    ensures r == s[..|r|] && AllSpace(s[|r|..])
  {
    var t := s[..|s| - 1];
    assert t[..|r|] == s[..|r|];
    forall i | |r| <= i < |s| - 1 ensures IsSpace(s[i]) {
      assert s[i] == t[|r|..][i - |r|];
    }
    assert forall i :: |r| <= i < |s| ==> s[|r|..][i - |r|] == s[i];
  }

  /** `s.strip()`: `s` without its leading and trailing whitespace. */
  function Strip(s: string): (r: string)
    ensures |r| <= |s|
    ensures NoEdgeSpace(r)
  {
    RStrip(LStrip(s))
  }

  /** `lstrip` drops exactly a whitespace prefix that is followed by a non-whitespace character. */
  lemma {:induction false} LStripSpacePrefix(pre: string, t: string)
    requires AllSpace(pre) && (t == [] || !IsSpace(t[0]))
    ensures LStrip(pre + t) == t
  {
    if pre != [] {
      assert (pre + t)[1..] == pre[1..] + t;
      LStripSpacePrefix(pre[1..], t);
    }
  }

  /** `rstrip` drops exactly a whitespace suffix that follows a non-whitespace character. */
  lemma {:induction false} RStripSpaceSuffix(t: string, post: string)
    requires AllSpace(post) && (t == [] || !IsSpace(t[|t| - 1]))
    ensures RStrip(t + post) == t
  {
    if post != [] {
      assert (t + post)[..|t + post| - 1] == t + post[..|post| - 1];
      RStripSpaceSuffix(t, post[..|post| - 1]);
    }
  }

  /** Stripping text that carries only whitespace around a core without edge whitespace
      gives the core; every string has exactly one such decomposition, so this pins `strip` down. */
  lemma StripPadded(pre: string, core: string, post: string)
    requires AllSpace(pre) && AllSpace(post) && NoEdgeSpace(core)
    ensures Strip(pre + core + post) == core
  {
    if core == [] {
      assert pre + core + post == (pre + post) + [];
      LStripSpacePrefix(pre + post, []);
    } else {
      assert pre + core + post == pre + (core + post);
      LStripSpacePrefix(pre, core + post);
      RStripSpaceSuffix(core, post);
    }
  }

  /** Text that already has no edge whitespace is left as it is by `strip`. */
  lemma StripNoEdgeSpace(s: string)
    requires NoEdgeSpace(s)
    ensures Strip(s) == s
  {
    StripPadded([], s, []);
    assert [] + s + [] == s;
  }

  /** `strip` is idempotent. */
  lemma StripIdempotent(s: string)
    ensures Strip(Strip(s)) == Strip(s)
  {
    StripNoEdgeSpace(Strip(s));
  }

  predicate StartsWith(s: string, p: string) {
    |p| <= |s| && s[..|p|] == p
  }

  predicate EndsWith(s: string, p: string) {
    |p| <= |s| && s[|s| - |p|..] == p
  }

  /** `p` occurs in `s` starting at index `i`. */
  predicate OccursAt(s: string, p: string, i: int) {
    0 <= i && i + |p| <= |s| && s[i..i + |p|] == p
  }

  /** A one-character pattern occurs exactly where that character stands. */
  lemma OccursAtChar(s: string, c: char, i: int)
    ensures OccursAt(s, [c], i) <==> 0 <= i < |s| && s[i] == c
  {
    if 0 <= i < |s| { assert s[i..i + 1] == [s[i]]; }
  }

  /** `s.find(p, start)` for a non-negative `start`: the first occurrence at or after `start`, or -1. */
  function FindFrom(s: string, p: string, start: nat): (r: int)
    ensures r == -1 || (start <= r && OccursAt(s, p, r))
    ensures forall j :: start <= j && (r == -1 || j < r) ==> !OccursAt(s, p, j)
    decreases |s| - start
  {
    if start + |p| > |s| then -1
    else if s[start..start + |p|] == p then start
    else FindFrom(s, p, start + 1)
  }

  /** `s.find(p)`. */
  function Find(s: string, p: string): (r: int)
    ensures r == -1 || OccursAt(s, p, r)
    ensures forall j :: 0 <= j && (r == -1 || j < r) ==> !OccursAt(s, p, j)
  {
    FindFrom(s, p, 0)
  }

  /** `p in s`. */
  predicate Contains(s: string, p: string)
    ensures Contains(s, p) <==> exists i :: OccursAt(s, p, i)
  {
    Find(s, p) >= 0
  }

  /** A character test in terms of `Contains`. */
  lemma ContainsChar(s: string, c: char)
    ensures Contains(s, [c]) <==> c in s
  {
    if c in s {
      var i :| 0 <= i < |s| && s[i] == c;
      OccursAtChar(s, c, i);
    }
    if Contains(s, [c]) {
      var i :| OccursAt(s, [c], i);
      OccursAtChar(s, c, i);
    }
  }

  /** Any index at which an occurrence is known bounds what `find` reports. */
  lemma FindCharacterized(s: string, p: string, i: int)
    requires OccursAt(s, p, i)
    requires forall j :: 0 <= j < i ==> !OccursAt(s, p, j)
    ensures Find(s, p) == i
  {
  }

  /** Searching past a prefix that holds no character equal to the pattern's first one
      finds what searching the rest finds, shifted. */
  lemma FindAfterPrefix(a: string, b: string, p: string)
    requires |p| > 0 && p[0] !in a
    ensures Find(a + b, p) == if Find(b, p) < 0 then -1 else |a| + Find(b, p)
  {
    var s := a + b;
    forall j | 0 <= j < |a| ensures !OccursAt(s, p, j) {
      assert s[j] == a[j];
      if j + |p| <= |s| { assert s[j..j + |p|][0] == s[j]; }
    }
    forall j | 0 <= j < |b| ensures OccursAt(s, p, |a| + j) <==> OccursAt(b, p, j) {
      if |a| + j + |p| <= |s| { assert s[|a| + j..|a| + j + |p|] == b[j..j + |p|]; }
    }
    var k := Find(b, p);
    if k >= 0 {
      forall j | 0 <= j < |a| + k ensures !OccursAt(s, p, j) {
        if j >= |a| { assert !OccursAt(b, p, j - |a|); }
      }
      FindCharacterized(s, p, |a| + k);
    } else {
      forall j | 0 <= j ensures !OccursAt(s, p, j) {
        if j >= |a| && j - |a| < |b| { assert !OccursAt(b, p, j - |a|); }
      }
    }
  }

  /** The first occurrence of a one-character pattern right after a prefix free of it. */
  lemma FindCharAfter(a: string, c: char, b: string)
    requires c !in a
    ensures Find(a + [c] + b, [c]) == |a|
  {
    var s := a + [c] + b;
    OccursAtChar(s, c, |a|);
    forall j | 0 <= j < |a| ensures !OccursAt(s, [c], j) {
      OccursAtChar(s, c, j);
    }
    FindCharacterized(s, [c], |a|);
  }

  /** Lowest index `<= i` at which `p` occurs, searching downwards. */
  function RFindAt(s: string, p: string, i: int): (r: int)
    requires i + |p| <= |s|
    ensures r == -1 || (0 <= r <= i && OccursAt(s, p, r))
    ensures forall j :: r < j <= i ==> !OccursAt(s, p, j)
    decreases i + 1
  {
    if i < 0 then -1
    else if s[i..i + |p|] == p then i
    else RFindAt(s, p, i - 1)
  }

  /** `s.rfind(p)`: the last occurrence, or -1. */
  function RFind(s: string, p: string): (r: int)
    ensures r == -1 || OccursAt(s, p, r)
    ensures forall j :: r < j ==> !OccursAt(s, p, j)
  {
    if |p| > |s| then -1 else RFindAt(s, p, |s| - |p|)
  }

  /** An occurrence with none after it is what `rfind` reports. */
  lemma RFindCharacterized(s: string, p: string, i: int)
    requires OccursAt(s, p, i)
    requires forall j :: i < j ==> !OccursAt(s, p, j)
    ensures RFind(s, p) == i
  {
  }

  /** Python's normalisation of one slice bound against the length `n`. */
  function SliceBound(i: int, n: nat): (b: nat)
    ensures b <= n
    ensures 0 <= i <= n ==> b == i
    ensures -(n as int) <= i < 0 ==> b == n + i
  {
    if i < 0 then (if i + n < 0 then 0 else i + n) else if i > n then n else i
  }

  /** `s[i:j]`, for any integers `i` and `j`. */
  function Slice(s: string, i: int, j: int): (r: string)
    ensures 0 <= i <= j <= |s| ==> r == s[i..j]
    ensures 0 <= i <= |s| && j == -1 ==> r == if i < |s| then s[i..|s| - 1] else []
  {
    var a, b := SliceBound(i, |s|), SliceBound(j, |s|);
    if a < b then s[a..b] else []
  }

  /** `s[i:]`. */
  function SliceFrom(s: string, i: int): (r: string)
    ensures 0 <= i <= |s| ==> r == s[i..]
  {
    Slice(s, i, |s|)
  }

  /** `s[:j]`. */
  function SliceTo(s: string, j: int): (r: string)
    ensures 0 <= j <= |s| ==> r == s[..j]
  {
    Slice(s, 0, j)
  }

  /** An occurrence inside a slice is an occurrence in the whole string. */
  lemma OccursInSlice(s: string, p: string, i: nat, j: nat, k: int)
    requires i <= j <= |s| && OccursAt(s[i..j], p, k)
    ensures OccursAt(s, p, i + k)
  {
    var t := s[i..j];
    assert t[k..k + |p|] == p;
    forall m | 0 <= m < |p| ensures s[i + k + m] == p[m] {
      assert t[k..k + |p|][m] == t[k + m];
    }
    assert s[i + k..i + k + |p|] == p;
  }

  /** A pattern absent from a string is absent from every slice of it. */
  lemma InfixAbsent(s: string, p: string, i: nat, j: nat)
    requires i <= j <= |s| && !Contains(s, p)
    ensures !Contains(s[i..j], p)
  {
    forall k | OccursAt(s[i..j], p, k) ensures OccursAt(s, p, i + k) {
      OccursInSlice(s, p, i, j, k);
    }
  }

  /** Each character covered by an occurrence is the matching character of the pattern. */
  lemma OccursAtIndex(s: string, p: string, i: nat, k: int)
    requires i <= k < i + |p|
    ensures OccursAt(s, p, i) ==> s[k] == p[k - i]
  {
    if OccursAt(s, p, i) {
      assert s[i..i + |p|][k - i] == s[k];
    }
  }

  /** An occurrence in a concatenation that lies wholly in one part is an occurrence in that part. */
  lemma OccursInParts(a: string, b: string, p: string, j: int)
    ensures j + |p| <= |a| && OccursAt(a + b, p, j) ==> OccursAt(a, p, j)
    ensures j >= |a| && OccursAt(a + b, p, j) ==> OccursAt(b, p, j - |a|)
  {
    var s := a + b;
    if 0 <= j && j + |p| <= |s| {
      if j + |p| <= |a| {
        assert s[j..j + |p|] == a[j..j + |p|];
      }
      if j >= |a| {
        assert s[j..j + |p|] == b[j - |a|..j - |a| + |p|];
      }
    }
  }

  /** The text before the first occurrence of a pattern does not contain it. */
  lemma BeforeFindAbsent(s: string, p: string)
    requires |p| > 0 && Contains(s, p)
    ensures !Contains(s[..Find(s, p)], p)
  {
    var f := Find(s, p);
    forall k | OccursAt(s[..f], p, k) ensures false {
      assert s[..f] == s[0..f];
      OccursInSlice(s, p, 0, f, k);
    }
  }

  /** `strip` cannot create an occurrence of a pattern. */
  lemma StripKeepsAbsent(s: string, p: string)
    requires !Contains(s, p)
    ensures !Contains(Strip(s), p)
  {
    var l := LStrip(s);
    var r := RStrip(l);
    assert s[|s| - |l|..|s|] == l;
    InfixAbsent(s, p, |s| - |l|, |s|);
    assert l[0..|r|] == r;
    InfixAbsent(l, p, 0, |r|);
    assert Strip(s) == r;
  }

  /** `find` from `start` reports the first occurrence at or after `start`. */
  lemma FindFromCharacterized(s: string, p: string, start: nat, i: int)
    requires start <= i && OccursAt(s, p, i)
    requires forall j :: start <= j < i ==> !OccursAt(s, p, j)
    ensures FindFrom(s, p, start) == i
  {
  }

  /** Searching for a character from `start` stops at its first occurrence after `start`. */
  lemma FindFromCharAfter(a: string, c: char, start: nat)
    requires start <= |a|
    requires forall j :: start <= j < |a| ==> a[j] != c
    ensures FindFrom(a + [c], [c], start) == |a|
  {
    var s := a + [c];
    OccursAtChar(s, c, |a|);
    forall j | start <= j < |a| ensures !OccursAt(s, [c], j) {
      OccursAtChar(s, c, j);
    }
    FindFromCharacterized(s, [c], start, |a|);
  }

  /** Concatenation regrouped. */
  lemma ConcatAssoc(a: string, b: string, c: string)
    ensures a + b + c == a + (b + c)
  {
  }

  /** `parts` joined with `sep` between neighbours (`sep.join(parts)`). */
  function Join(parts: seq<string>, sep: string): string
    requires |parts| >= 1
  {
    if |parts| == 1 then parts[0] else parts[0] + sep + Join(parts[1..], sep)
  }

  /** The last part of a join stands after the last separator. */
  lemma {:induction false} JoinLast(parts: seq<string>, sep: string)
    requires |parts| >= 2
    ensures Join(parts, sep) == Join(parts[..|parts| - 1], sep) + sep + parts[|parts| - 1]
  {
    if |parts| > 2 {
      JoinLast(parts[1..], sep);
      assert parts[1..][..|parts| - 2] == parts[..|parts| - 1][1..];
    }
  }

  /** `s.split(sep, maxsplit)` for a non-empty separator: at most `maxsplit` cuts,
      each at the first separator of what is left. */
  function SplitN(s: string, sep: string, maxsplit: nat): (r: seq<string>)
    requires |sep| > 0
    ensures 1 <= |r| <= maxsplit + 1
    ensures Join(r, sep) == s
    ensures forall k :: 0 <= k < |r| - 1 ==> !Contains(r[k], sep)
    ensures |r| < maxsplit + 1 ==> !Contains(r[|r| - 1], sep)
    decreases maxsplit
  {
    var i := Find(s, sep);
    if maxsplit == 0 || i < 0 then [s]
    else
      var rest := SplitN(s[i + |sep|..], sep, maxsplit - 1);
      BeforeFindAbsent(s, sep);
      assert ([s[..i]] + rest)[1..] == rest;
      [s[..i]] + rest
  }

  /** No part holds the character `c`. */
  predicate Free(parts: seq<string>, c: char) {
    forall k :: 0 <= k < |parts| ==> c !in parts[k]
  }

  lemma FreeConcat(a: seq<string>, b: seq<string>, c: char)
    requires Free(a, c) && Free(b, c)
    ensures Free(a + b, c)
  {
    forall k | 0 <= k < |a + b| ensures c !in (a + b)[k] {
      if k < |a| { assert (a + b)[k] == a[k]; } else { assert (a + b)[k] == b[k - |a|]; }
    }
  }

  /** `s.split(c)` for a one-character separator. */
  function Split(s: string, c: char): (r: seq<string>)
    ensures |r| >= 1
    ensures Free(r, c)
    ensures Join(r, [c]) == s
    decreases |s|
  {
    var i := Find(s, [c]);
    if i < 0 then
      assert c !in s by {
        forall j | 0 <= j < |s| ensures s[j] != c { OccursAtChar(s, c, j); }
      }
      [s]
    else
      OccursAtChar(s, c, i);
      assert c !in s[..i] by {
        forall j | 0 <= j < i ensures s[j] != c { OccursAtChar(s, c, j); }
      }
      var rest := Split(s[i + 1..], c);
      assert ([s[..i]] + rest)[1..] == rest;
      [s[..i]] + rest
  }

  /** Splitting a join of separator-free parts gives the parts back. */
  lemma {:induction false} SplitJoin(parts: seq<string>, c: char)
    requires |parts| >= 1
    requires Free(parts, c)
    ensures Split(Join(parts, [c]), c) == parts
  {
    var s := Join(parts, [c]);
    if |parts| == 1 {
      ContainsChar(s, c);
    } else {
      FindCharAfter(parts[0], c, Join(parts[1..], [c]));
      assert s[..|parts[0]|] == parts[0];
      assert s[|parts[0]| + 1..] == Join(parts[1..], [c]);
      SplitJoin(parts[1..], c);
      assert parts == [parts[0]] + parts[1..];
    }
  }

  /** `s.replace(pat, rep)` for a non-empty pattern: every non-overlapping occurrence, left to right. */
  function Replace(s: string, pat: string, rep: string): (r: string)
    requires |pat| > 0
    ensures !Contains(s, pat) ==> r == s
    decreases |s|
  {
    if |s| < |pat| then s
    else if s[..|pat|] == pat then rep + Replace(s[|pat|..], pat, rep)
    else
      assert !Contains(s, pat) ==> !Contains(s[1..], pat) by {
        forall j | OccursAt(s[1..], pat, j) ensures OccursAt(s, pat, j + 1) {
          assert s[1..][j..j + |pat|] == s[j + 1..j + 1 + |pat|];
        }
      }
      [s[0]] + Replace(s[1..], pat, rep)
  }

  /** Removing a pattern from text that starts with it and holds it nowhere else leaves the rest. */
  lemma ReplaceLeadingOnly(pat: string, rest: string)
    requires |pat| > 0 && !Contains(rest, pat)
    ensures Replace(pat + rest, pat, "") == rest
  {
    assert (pat + rest)[..|pat|] == pat;
    assert (pat + rest)[|pat|..] == rest;
  }

  function Zeros(n: nat): (z: string)
    ensures |z| == n && forall i :: 0 <= i < n ==> z[i] == '0'
  {
    seq(n, _ => '0')
  }

  /** `s.zfill(width)`: pads with '0' on the left up to `width`, keeping a leading sign in front. */
  function ZFill(s: string, width: nat): (r: string)
    ensures |r| == if |s| >= width then |s| else width
  {
    if |s| >= width then s
    else if |s| > 0 && (s[0] == '+' || s[0] == '-') then [s[0]] + Zeros(width - |s|) + s[1..]
    else Zeros(width - |s|) + s
  }

  /** Padding an already padded string changes nothing. */
  lemma ZFillIdempotent(s: string, width: nat)
    ensures ZFill(ZFill(s, width), width) == ZFill(s, width)
  {
  }

  predicate IsDigit(c: char) {
    '0' <= c <= '9'
  }

  predicate IsDigits(s: string) {
    forall i :: 0 <= i < |s| ==> IsDigit(s[i])
  }

  /** The number a string of decimal digits spells (0 for the empty string). */
  function DigitsValue(s: string): nat
    requires IsDigits(s)
  {
    if s == [] then 0 else 10 * DigitsValue(s[..|s| - 1]) + (s[|s| - 1] as int - '0' as int)
  }

  function DigitChar(d: nat): (c: char)
    requires d < 10
    ensures IsDigit(c) && c as int - '0' as int == d
  {
    (d + '0' as int) as char
  }

  /** `str(n)` for a non-negative integer: decimal, without leading zeros. */
  function NatToString(n: nat): (r: string)
    ensures |r| >= 1 && IsDigits(r)
    ensures r[0] == '0' ==> n == 0
  {
    if n < 10 then [DigitChar(n)] else NatToString(n / 10) + [DigitChar(n % 10)]
  }

  /** Reading back the decimal text of `n` gives `n`. */
  lemma {:induction false} NatToStringValue(n: nat)
    ensures DigitsValue(NatToString(n)) == n
  {
    var r := NatToString(n);
    if n >= 10 {
      NatToStringValue(n / 10);
      assert r[..|r| - 1] == NatToString(n / 10);
    } else {
      assert r[..|r| - 1] == [];
    }
  }

  /** Distinct numbers have distinct decimal texts. */
  lemma NatToStringInjective(m: nat, n: nat)
    requires NatToString(m) == NatToString(n)
    ensures m == n
  {
    NatToStringValue(m);
    NatToStringValue(n);
  }

  /** Leading zeros do not change the value of a digit string. */
  lemma {:induction false} LeadingZerosValue(k: nat, s: string)
    requires IsDigits(s)
    ensures IsDigits(Zeros(k) + s) && DigitsValue(Zeros(k) + s) == DigitsValue(s)
  {
    if s == [] {
      if k > 0 {
        assert (Zeros(k) + s)[..k - 1] == Zeros(k - 1) + s;
        LeadingZerosValue(k - 1, s);
      }
    } else {
      var t := Zeros(k) + s;
      assert t[..|t| - 1] == Zeros(k) + s[..|s| - 1];
      LeadingZerosValue(k, s[..|s| - 1]);
    }
  }

  /** Zero-padding a digit string keeps it a digit string of the same value. */
  lemma ZFillDigitsValue(s: string, width: nat)
    requires IsDigits(s)
    ensures IsDigits(ZFill(s, width)) && DigitsValue(ZFill(s, width)) == DigitsValue(s)
  {
    if |s| < width {
      LeadingZerosValue(width - |s|, s);
    }
  }
}
