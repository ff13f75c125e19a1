/** The season-name cleaning of `to_strm`: `re.sub(r'\s*\([^)]*\)\s*', ' ', name)`, then
    `re.sub(r'\s+', ' ', ...)`, then `strip()`, written out as string functions. `\s` is taken
    to be the characters of `PyStr.IsSpace`. */
module CleanName {
  import opened PyStr
  import opened Wrappers

  /** The length of the whitespace run at the start of `s` (what a greedy `\s*` takes). */
  function LeadingSpaces(s: string): (n: nat)
    ensures n <= |s|
    ensures forall i :: 0 <= i < n ==> IsSpace(s[i])
    ensures n == |s| || !IsSpace(s[n])
  {
    if s != [] && IsSpace(s[0]) then 1 + LeadingSpaces(s[1..]) else 0
  }

  /** The first position at or after `from` holding `c`. */
  function NextChar(s: string, c: char, from: nat): (r: Option<nat>)
    ensures r.Some? ==> from <= r.value < |s| && s[r.value] == c
    ensures forall j :: from <= j < |s| && (r.None? || j < r.value) ==> s[j] != c
    decreases |s| - from
  {
    if from >= |s| then None
    else if s[from] == c then Some(from)
    else NextChar(s, c, from + 1)
  }

  /** The length of the match of `\s*\([^)]*\)\s*` at the start of `s`, if there is one:
      the whitespace run, a `(`, everything up to the first `)` after it, and the whitespace
      run after that. Without a `)` after the `(` nothing matches, since `[^)]*` cannot pass one. */
  function GroupMatch(s: string): (r: Option<nat>)
    ensures r.Some? ==> 0 < r.value <= |s|
    ensures r.None? && s != [] && s[0] == '(' ==> forall j :: 1 <= j < |s| ==> s[j] != ')'
  {
    var a := LeadingSpaces(s);
    if a < |s| && s[a] == '(' then
      match NextChar(s, ')', a + 1)
      case None => None
      case Some(q) => Some(q + 1 + LeadingSpaces(s[q + 1..]))
    else None
  }

  /** `re.sub(r'\s*\([^)]*\)\s*', ' ', s)`: scanning from the left, each match becomes one space
      and the scan goes on after it; any other character is kept. */
  function SubGroups(s: string): (r: string)
    ensures forall i :: 0 <= i < |r| ==> r[i] == ' ' || r[i] in s
    decreases |s|
  {
    if s == [] then []
    else match GroupMatch(s)
      case Some(n) => " " + SubGroups(s[n..])
      case None => [s[0]] + SubGroups(s[1..])
  }

  /** `re.sub(r'\s+', ' ', s)`: every maximal whitespace run becomes one space. */
  function CollapseSpaces(s: string): (r: string)
    ensures forall i :: 0 <= i < |r| ==> r[i] == ' ' || (r[i] in s && !IsSpace(r[i]))
    ensures s == [] <==> r == []
    ensures s != [] ==> r[0] == if IsSpace(s[0]) then ' ' else s[0]
    decreases |s|
  {
    if s == [] then []
    else if IsSpace(s[0]) then
      var n := LeadingSpaces(s);
      " " + CollapseSpaces(s[n..])
    else [s[0]] + CollapseSpaces(s[1..])
  }

  /** The unified season name made from a season name. */
  function Clean(name: string): string {
    Strip(CollapseSpaces(SubGroups(name)))
  }

  /** No `(` is followed, anywhere later, by a `)`: no `(...)` group is left. */
  predicate NoGroup(s: string) {
    forall i, j :: 0 <= i < j < |s| && s[i] == '(' ==> s[j] != ')'
  }

  /** Every whitespace character is a plain space and no two of them are adjacent. */
  predicate SingleSpaced(s: string) {
    && (forall i :: 0 <= i < |s| && IsSpace(s[i]) ==> s[i] == ' ')
    && (forall i :: 0 <= i < |s| - 1 ==> !(IsSpace(s[i]) && IsSpace(s[i + 1])))
  }

  /** One character in front of a text without a group adds none, unless it opens one that a
      later `)` closes. */
  lemma NoGroupCons(c: char, rest: string)
    requires NoGroup(rest)
    requires c == '(' ==> ')' !in rest
    ensures NoGroup([c] + rest)
  {
    var r := [c] + rest;
    forall i, j | 0 <= i < j < |r| && r[i] == '(' ensures r[j] != ')' {
      assert r[j] == rest[j - 1];
      if i > 0 {
        assert r[i] == rest[i - 1];
      }
    }
  }

  lemma {:induction false} SubGroupsNoGroup(s: string)
    ensures NoGroup(SubGroups(s))
    decreases |s|
  {
    if s != [] {
      match GroupMatch(s)
      case Some(n) =>
        SubGroupsNoGroup(s[n..]);
        NoGroupCons(' ', SubGroups(s[n..]));
      case None =>
        SubGroupsNoGroup(s[1..]);
        var rest := SubGroups(s[1..]);
        if s[0] == '(' {
          assert ')' !in s[1..];
          assert ')' !in rest;
        }
        NoGroupCons(s[0], rest);
    }
  }

  lemma NoGroupSuffix(s: string, k: nat)
    requires NoGroup(s) && k <= |s|
    ensures NoGroup(s[k..])
  {
    forall i, j | 0 <= i < j < |s[k..]| && s[k..][i] == '(' ensures s[k..][j] != ')' {
      assert s[k..][i] == s[k + i] && s[k..][j] == s[k + j];
    }
  }

  lemma {:induction false} CollapseSpacesNoGroup(s: string)
    requires NoGroup(s)
    ensures NoGroup(CollapseSpaces(s))
    decreases |s|
  {
    if s != [] {
      var r := CollapseSpaces(s);
      var n := if IsSpace(s[0]) then LeadingSpaces(s) else 1;
      NoGroupSuffix(s, n);
      CollapseSpacesNoGroup(s[n..]);
      var rest := CollapseSpaces(s[n..]);
      if s[0] == '(' {
        forall j | 0 <= j < |rest| ensures rest[j] != ')' {
          if rest[j] != ' ' {
            var k :| 0 <= k < |s[1..]| && s[1..][k] == rest[j];
            assert s[k + 1] == rest[j];
          }
        }
      }
      assert r == [r[0]] + rest;
      NoGroupCons(r[0], rest);
    }
  }

  lemma {:induction false} CollapseSpacesSingle(s: string)
    ensures SingleSpaced(CollapseSpaces(s))
    decreases |s|
  {
    if s != [] {
      var r := CollapseSpaces(s);
      var n := if IsSpace(s[0]) then LeadingSpaces(s) else 1;
      CollapseSpacesSingle(s[n..]);
      var rest := CollapseSpaces(s[n..]);
      assert r == [r[0]] + rest;
      forall i | 0 <= i < |r| - 1 ensures !(IsSpace(r[i]) && IsSpace(r[i + 1])) {
        if i == 0 {
          if IsSpace(s[0]) {
            assert n == |s| || !IsSpace(s[n]);
            assert rest != [] ==> rest[0] == s[n..][0];
          } else {
            assert !IsSpace(r[0]);
          }
        } else {
          assert r[i] == rest[i - 1] && r[i + 1] == rest[i];
        }
      }
      forall i | 0 <= i < |r| && IsSpace(r[i]) ensures r[i] == ' ' {
        if i > 0 { assert r[i] == rest[i - 1]; }
      }
    }
  }

  /** `strip` keeps a contiguous part of its argument. */
  lemma StripIsSlice(s: string)
    ensures exists a, b :: 0 <= a <= b <= |s| && Strip(s) == s[a..b]
  {
    var l := LStrip(s);
    var a := |s| - |l|;
    var r := RStrip(l);
    assert Strip(s) == s[a..a + |r|];
  }

  lemma NoGroupSlice(s: string, a: nat, b: nat)
    requires NoGroup(s) && a <= b <= |s|
    ensures NoGroup(s[a..b])
  {
    forall i, j | 0 <= i < j < b - a && s[a..b][i] == '(' ensures s[a..b][j] != ')' {
      assert s[a..b][i] == s[a + i] && s[a..b][j] == s[a + j];
    }
  }

  lemma SingleSpacedSlice(s: string, a: nat, b: nat)
    requires SingleSpaced(s) && a <= b <= |s|
    ensures SingleSpaced(s[a..b])
  {
    var t := s[a..b];
    forall i | 0 <= i < |t| - 1 ensures !(IsSpace(t[i]) && IsSpace(t[i + 1])) {
      assert t[i] == s[a + i] && t[i + 1] == s[a + i + 1];
    }
    forall i | 0 <= i < |t| && IsSpace(t[i]) ensures t[i] == ' ' {
      assert t[i] == s[a + i];
    }
  }

  /** A cleaned name holds no `(...)` group, has no whitespace at either end, and its only
      whitespace is single spaces. */
  lemma CleanShape(name: string)
    ensures NoGroup(Clean(name)) && NoEdgeSpace(Clean(name)) && SingleSpaced(Clean(name))
  {
    var t := CollapseSpaces(SubGroups(name));
    SubGroupsNoGroup(name);
    CollapseSpacesNoGroup(SubGroups(name));
    CollapseSpacesSingle(SubGroups(name));
    StripIsSlice(t);
    var a, b :| 0 <= a <= b <= |t| && Strip(t) == t[a..b];
    NoGroupSlice(t, a, b);
    SingleSpacedSlice(t, a, b);
  }

  /** Without a `(...)` group there is no match at the start. */
  lemma GroupMatchNone(s: string)
    requires NoGroup(s)
    ensures GroupMatch(s).None?
  {
    var a := LeadingSpaces(s);
    if a < |s| && s[a] == '(' {
      var q := NextChar(s, ')', a + 1);
      assert q.None?;
    }
  }

  /** Without a `(...)` group the first substitution finds no match. */
  lemma {:induction false} SubGroupsNoMatch(s: string)
    requires NoGroup(s)
    ensures SubGroups(s) == s
    decreases |s|
  {
    if s != [] {
      GroupMatchNone(s);
      NoGroupSuffix(s, 1);
      SubGroupsNoMatch(s[1..]);
      assert s == [s[0]] + s[1..];
    }
  }

  /** Text already single-spaced is left alone by the whitespace substitution. */
  lemma {:induction false} CollapseSpacesSingleNoop(s: string)
    requires SingleSpaced(s)
    ensures CollapseSpaces(s) == s
    decreases |s|
  {
    if s != [] {
      SingleSpacedSlice(s, 1, |s|);
      CollapseSpacesSingleNoop(s[1..]);
      if IsSpace(s[0]) {
        assert |s| == 1 || !IsSpace(s[1]);
        assert LeadingSpaces(s) == 1;
      }
      assert s == [s[0]] + s[1..];
    }
  }

  /** Text with no `(` and no whitespace at its end is copied unchanged: no match can start
      inside it, since the whitespace run at any of its positions stops at a character that is
      not `(`. */
  lemma {:induction false} SubGroupsKeepsPlain(x: string, rest: string)
    requires '(' !in x
    requires x == [] || !IsSpace(x[|x| - 1])
    ensures SubGroups(x + rest) == x + SubGroups(rest)
  {
    var s := x + rest;
    assert s[..|x|] == x && s[|x|..] == rest;
    SubGroupsKeepsPrefix(s, |x|);
  }

  /** The index form of `SubGroupsKeepsPlain`, by induction on the length of the prefix. */
  lemma {:induction false} SubGroupsKeepsPrefix(s: string, k: nat)
    requires k <= |s|
    requires forall i :: 0 <= i < k ==> s[i] != '('
    requires k == 0 || !IsSpace(s[k - 1])
    ensures SubGroups(s) == s[..k] + SubGroups(s[k..])
    decreases k
  {
    if k > 0 {
      PlainNoMatch(s, k);
      SubGroupsStep(s);
      var t := s[1..];
      assert forall i :: 0 <= i < k - 1 ==> t[i] == s[i + 1];
      SubGroupsKeepsPrefix(t, k - 1);
      assert t[k - 1..] == s[k..];
      assert [s[0]] + t[..k - 1] == s[..k];
      ConcatAssoc([s[0]], t[..k - 1], SubGroups(s[k..]));
    }
  }

  /** No match starts at the front when the first `k` characters hold no `(` and the last of
      them is not whitespace. */
  lemma PlainNoMatch(s: string, k: nat)
    requires 0 < k <= |s|
    requires forall i :: 0 <= i < k ==> s[i] != '('
    requires !IsSpace(s[k - 1])
    ensures GroupMatch(s).None?
  {
    var a := LeadingSpaces(s);
    assert a < k;
  }

  /** Without a match at the front the first character is kept. */
  lemma SubGroupsStep(s: string)
    requires s != [] && GroupMatch(s).None?
    ensures SubGroups(s) == [s[0]] + SubGroups(s[1..])
  {
  }

  /** A group with one space on each side, followed by text that does not start with
      whitespace, is one match and becomes one space. */
  lemma GroupAtFront(y: string, z: string)
    requires ')' !in y
    requires z == [] || !IsSpace(z[0])
    ensures SubGroups(" (" + y + ") " + z) == " " + SubGroups(z)
  {
    var s := " (" + y + ") " + z;
    var q := 2 + |y|;
    assert s[0] == ' ' && s[1] == '(' && s[q] == ')';
    assert LeadingSpaces(s[1..]) == 0;
    assert LeadingSpaces(s) == 1;
    forall j | 2 <= j < q ensures s[j] != ')' {
      assert s[j] == y[j - 2];
    }
    assert NextChar(s, ')', 2) == Some(q);
    assert s[q + 1..] == " " + z;
    assert (" " + z)[1..] == z;
    assert LeadingSpaces(" " + z) == 1;
    assert s[q + 2..] == z;
  }

  /** The first substitution on a name of the shape `x (y) z`: the group and the single
      spaces around it become one space, and the text before it is kept. */
  lemma SubGroupsDropsGroup(x: string, y: string, z: string)
    requires '(' !in x && (x == [] || !IsSpace(x[|x| - 1]))
    requires ')' !in y
    requires z == [] || !IsSpace(z[0])
    ensures SubGroups(x + " (" + y + ") " + z) == x + " " + SubGroups(z)
  {
    var t := " (" + y + ") " + z;
    ConcatAssoc(x, " (", y);
    ConcatAssoc(x, " (" + y, ") ");
    ConcatAssoc(x, " (" + y + ") ", z);
    SubGroupsKeepsPlain(x, t);
    GroupAtFront(y, z);
    ConcatAssoc(x, " ", SubGroups(z));
  }

  /** The non-whitespace characters of `s`, in order. */
  function NonSpaces(s: string): string
    decreases |s|
  {
    if s == [] then []
    else (if IsSpace(s[0]) then [] else [s[0]]) + NonSpaces(s[1..])
  }

  /** A whitespace run at the front holds no non-whitespace character. */
  lemma {:induction false} NonSpacesSkipRun(s: string, n: nat)
    requires n <= |s|
    requires forall i :: 0 <= i < n ==> IsSpace(s[i])
    ensures NonSpaces(s) == NonSpaces(s[n..])
    decreases n
  {
    if n > 0 {
      NonSpacesSkipRun(s[1..], n - 1);
      assert s[1..][n - 1..] == s[n..];
    }
  }

  /** The second substitution keeps every non-whitespace character, in order: it only
      rewrites whitespace runs. */
  lemma {:induction false} CollapseSpacesKeepsText(s: string)
    ensures NonSpaces(CollapseSpaces(s)) == NonSpaces(s)
    decreases |s|
  {
    if s != [] {
      var r := CollapseSpaces(s);
      if IsSpace(s[0]) {
        var n := LeadingSpaces(s);
        CollapseSpacesKeepsText(s[n..]);
        NonSpacesSkipRun(s, n);
        assert r[1..] == CollapseSpaces(s[n..]);
      } else {
        CollapseSpacesKeepsText(s[1..]);
        assert r[1..] == CollapseSpaces(s[1..]);
      }
    }
  }

  /** Cleaning a cleaned name changes nothing. */
  lemma CleanIdempotent(name: string)
    ensures Clean(Clean(name)) == Clean(name)
  {
    var c := Clean(name);
    CleanShape(name);
    SubGroupsNoMatch(c);
    CollapseSpacesSingleNoop(c);
    StripNoEdgeSpace(c);
  }

  /** The group with the space before and after it is one match. */
  lemma GroupMatchExample()
    ensures GroupMatch(" (1-2) B") == Some(7)
  {
    var t := " (1-2) B";
    assert LeadingSpaces(t) == 1 && t[1] == '(';
    assert NextChar(t, ')', 2) == Some(5);
    assert t[6..] == " B" && LeadingSpaces(t[6..]) == 1;
  }

  /** The match is replaced by one space. */
  lemma SubGroupsExample()
    ensures SubGroups(" (1-2) B") == " B"
  {
    GroupMatchExample();
    assert " (1-2) B"[7..] == "B";
    assert GroupMatch("B").None?;
  }

  /** The text before a group is kept, the group and its spaces become one space. */
  lemma SubGroupsNameExample()
    ensures SubGroups("A (1-2) B") == "A B"
  {
    var s := "A (1-2) B";
    assert GroupMatch(s).None?;
    assert s[1..] == " (1-2) B";
    SubGroupsExample();
  }

  lemma CollapseSpacesExample()
    ensures CollapseSpaces("A B") == "A B"
  {
    assert SingleSpaced("A B");
    CollapseSpacesSingleNoop("A B");
  }

  /** A name with a numbered range in parentheses loses it. */
  lemma CleanExample()
    ensures Clean("A (1-2) B") == "A B"
  {
    SubGroupsNameExample();
    CollapseSpacesExample();
    StripNoEdgeSpace("A B");
  }
}
