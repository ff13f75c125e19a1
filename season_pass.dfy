/** The first pass of `get_videos`: reading the season listing the downloader prints for a
    series into `seasons_map`, an insertion-ordered dict from season id to its number and name. */
module SeasonPass {
  import opened PyStr
  import opened Wrappers
  import PyDict
  import Lists

  /** The value stored per season id: `{'number': ..., 'name': ...}`. */
  datatype SeasonInfo = SeasonInfo(number: string, name: string)

  const SeasonOpen: string := "[S:"
  const SeasonTag: string := "(Season:"

  /** A (stripped) line that the season pass reads. */
  predicate IsSeasonLine(line: string) {
    StartsWith(line, SeasonOpen) && Contains(line, "]")
  }

  /** On a season line `[S:` is found at 0 and the first `]` lies after it. */
  lemma SeasonLineBounds(line: string)
    requires IsSeasonLine(line)
    ensures Find(line, SeasonOpen) == 0
    ensures 3 <= Find(line, "]") < |line| && line[Find(line, "]")] == ']'
    ensures ']' !in line[3..Find(line, "]")]
  {
    FindCharacterized(line, SeasonOpen, 0);
    var close := Find(line, "]");
    OccursAtChar(line, ']', close);
    assert line[..3] == SeasonOpen;
    forall j | 0 <= j < close ensures line[j] != ']' {
      OccursAtChar(line, ']', j);
    }
    assert line[0] == '[' && line[1] == 'S' && line[2] == ':';
  }

  /** The id: the text between `[S:` and the first `]`. */
  function SeasonIdOf(line: string): (id: string)
    ensures IsSeasonLine(line) ==> StartsWith(line, SeasonOpen + id + "]") && ']' !in id
  {
    if IsSeasonLine(line) then
      SeasonLineBounds(line);
      var close := Find(line, "]");
      assert line[..close + 1] == line[..3] + line[3..close] + [line[close]];
      Slice(line, Find(line, SeasonOpen) + 3, close)
    else Slice(line, Find(line, SeasonOpen) + 3, Find(line, "]"))
  }

  /** The name: the stripped text after the first `]`, cut before `(Season:` when present. */
  function SeasonNameOf(line: string): (name: string)
    ensures NoEdgeSpace(name) && !Contains(name, SeasonTag)
  {
    var title := Strip(SliceFrom(line, Find(line, "]") + 1));
    if Contains(title, SeasonTag) then
      BeforeFindAbsent(title, SeasonTag);
      StripKeepsAbsent(title[..Find(title, SeasonTag)], SeasonTag);
      Strip(SliceTo(title, Find(title, SeasonTag)))
    else title
  }

  /** The number: the stripped text between the first `(Season:` and the next `)`, else "1".
      When no `)` follows, `find` gives -1 and the slice runs to the last character but one. */
  function SeasonNumberOf(line: string): (number: string)
    ensures NoEdgeSpace(number)
    ensures !Contains(line, SeasonTag) ==> number == "1"
  {
    if Contains(line, SeasonTag) then
      var p := Find(line, SeasonTag);
      Strip(Slice(line, p + 8, FindFrom(line, ")", p)))
    else "1"
  }

  /** One line of the season pass: a season line yields its id and info, any other line nothing. */
  function ParseSeasonLine(line: string): (r: Option<(string, SeasonInfo)>)
    ensures r.Some? <==> IsSeasonLine(line)
    ensures r.Some? ==>
      var (id, info) := r.value;
      && StartsWith(line, SeasonOpen + id + "]") && ']' !in id
      && NoEdgeSpace(info.number) && NoEdgeSpace(info.name) && !Contains(info.name, SeasonTag)
      && (!Contains(line, SeasonTag) ==> info.number == "1")
  {
    if IsSeasonLine(line) then Some((SeasonIdOf(line), SeasonInfo(SeasonNumberOf(line), SeasonNameOf(line))))
    else None
  }

  /** `(` opens the tag and stands nowhere else in it. */
  lemma TagShape()
    ensures |SeasonTag| == 8 && SeasonTag[0] == '('
    ensures forall k :: 1 <= k < 8 ==> SeasonTag[k] != '('
  {
  }

  /** Two texts without `(Season:` hold none once joined, when no occurrence can cross the
      seam: the first part has no `(`, or ends with a character the tag lacks, or the second
      part starts with a character that cannot follow `(` in the tag. */
  lemma TagAbsentConcat(x: string, y: string)
    requires !Contains(x, SeasonTag) && !Contains(y, SeasonTag)
    requires '(' !in x || (x != [] && x[|x| - 1] !in SeasonTag) || (y != [] && y[0] !in SeasonTag[1..])
    ensures !Contains(x + y, SeasonTag)
  {
    var s := x + y;
    TagShape();
    forall j ensures !OccursAt(s, SeasonTag, j) {
      OccursInParts(x, y, SeasonTag, j);
      if 0 <= j < |x| < j + 8 <= |s| {
        OccursAtIndex(s, SeasonTag, j, j);
        OccursAtIndex(s, SeasonTag, j, |x| - 1);
        OccursAtIndex(s, SeasonTag, j, |x|);
        assert s[j] == x[j] && s[|x| - 1] == x[|x| - 1] && s[|x|] == y[0];
        assert SeasonTag[1..][|x| - j - 1] == SeasonTag[|x| - j];
      }
    }
  }

  /** A text without `(` does not contain the tag. */
  lemma NoOpenNoTag(t: string)
    requires '(' !in t
    ensures !Contains(t, SeasonTag)
  {
    TagShape();
    forall j | 0 <= j && j + 8 <= |t| ensures !OccursAt(t, SeasonTag, j) {
      OccursAtIndex(t, SeasonTag, j, j);
    }
  }

  /** `(Season:` is found right after a prefix that does not contain it. */
  lemma TagAfter(a: string, rest: string)
    requires !Contains(a, SeasonTag)
    ensures Find(a + SeasonTag + rest, SeasonTag) == |a|
  {
    var s := a + SeasonTag + rest;
    TagShape();
    assert s == a + (SeasonTag + rest);
    assert s[|a|..|a| + 8] == SeasonTag;
    forall j | 0 <= j < |a| ensures !OccursAt(s, SeasonTag, j) {
      OccursInParts(a, SeasonTag + rest, SeasonTag, j);
      if |a| < j + 8 <= |s| {
        OccursAtIndex(s, SeasonTag, j, |a|);
      }
    }
    FindCharacterized(s, SeasonTag, |a|);
  }

  /** No `)` stands in the text from `(Season:` to the end of the number. */
  lemma NoCloseBeforeEnd(lead: string, number: string)
    requires ')' !in number
    ensures var inner := lead + SeasonTag + " " + number;
      forall j :: |lead| <= j < |inner| ==> inner[j] != ')'
  {
    var inner := lead + SeasonTag + " " + number;
    var p := |lead|;
    assert |SeasonTag| == 8 && ')' !in SeasonTag;
    forall j | p <= j < |inner| ensures inner[j] != ')' {
      if j < p + 8 {
        assert inner[j] == SeasonTag[j - p];
      } else if j > p + 8 {
        assert inner[j] == number[j - p - 9];
      }
    }
  }

  /** Where `(Season:` and the `)` after it stand in a line that ends with the number. */
  lemma NumberBounds(lead: string, number: string)
    requires !Contains(lead, SeasonTag) && ')' !in number
    ensures var line := lead + SeasonTag + " " + number + ")";
      && Contains(line, SeasonTag) && Find(line, SeasonTag) == |lead|
      && FindFrom(line, ")", |lead|) == |lead| + 9 + |number|
  {
    var x := lead + SeasonTag;
    NoCloseBeforeEnd(lead, number);
    FindFromCharAfter(x + " " + number, ')', |lead|);
    ConcatAssoc(x, " ", number);
    ConcatAssoc(x, " " + number, ")");
    TagAfter(lead, " " + number + ")");
  }

  /** The number between `(Season:` and `)` is read back exactly. */
  lemma NumberAfterTag(lead: string, number: string)
    requires !Contains(lead, SeasonTag) && NoEdgeSpace(number) && ')' !in number
    ensures SeasonNumberOf(lead + SeasonTag + " " + number + ")") == number
  {
    NumberBounds(lead, number);
    var inner := lead + SeasonTag + " " + number;
    assert (inner + ")")[|lead| + 8..|inner|] == " " + number + "";
    StripPadded(" ", number, "");
  }

  /** The title before ` (Season:` is read back exactly. */
  lemma TitleBeforeTag(title: string, rest: string)
    requires !Contains(title, SeasonTag) && NoEdgeSpace(title)
    ensures var t := title + " " + SeasonTag + rest;
      Contains(t, SeasonTag) && Strip(SliceTo(t, Find(t, SeasonTag))) == title
  {
    var t := title + " " + SeasonTag + rest;
    TagAbsentConcat(title, " ");
    TagAfter(title + " ", rest);
    assert t[..|title| + 1] == "" + title + " ";
    StripPadded("", title, " ");
  }

  /** The id before the first `]` is read back exactly, and the name is what follows it. */
  lemma IdBeforeClose(id: string, after: string)
    requires ']' !in id && after != [] && NoEdgeSpace(after)
    ensures var line := SeasonOpen + id + "] " + after;
      && IsSeasonLine(line) && SeasonIdOf(line) == id
      && Strip(SliceFrom(line, Find(line, "]") + 1)) == after
  {
    SeasonCloseAt(id, after);
    var line := SeasonOpen + id + "] " + after;
    assert IsSeasonLine(line);
    FindCharacterized(line, SeasonOpen, 0);
    assert SeasonIdOf(line) == line[3..|id| + 3];
    StripPadded(" ", after, "");
  }

  /** The first `]` of `[S:<id>] <after>` is the one after the id. */
  lemma SeasonCloseAt(id: string, after: string)
    requires ']' !in id
    ensures var line := SeasonOpen + id + "] " + after;
      && Find(line, "]") == |id| + 3 && Contains(line, "]")
      && line[..3] == SeasonOpen && line[3..|id| + 3] == id
      && line[|id| + 4..] == " " + after + ""
  {
    SeasonOpenShape(id, after);
    FindCharAfter(SeasonOpen + id, ']', " " + after);
  }

  /** Where the pieces of `[S:<id>] <after>` stand. */
  lemma SeasonOpenShape(id: string, after: string)
    ensures var line := SeasonOpen + id + "] " + after;
      && line == SeasonOpen + id + [']'] + (" " + after)
      && line[..3] == SeasonOpen && line[3..|id| + 3] == id
      && line[|id| + 4..] == " " + after + ""
  {
  }

  /** The two ways of cutting a season line into pieces are the same text. */
  lemma SeasonLineShape(id: string, title: string, number: string)
    ensures var rest := " " + number + ")";
      && SeasonOpen + id + "] " + title + " (Season: " + number + ")"
         == SeasonOpen + id + "] " + (title + " " + SeasonTag + rest)
      && SeasonOpen + id + "] " + title + " (Season: " + number + ")"
         == (SeasonOpen + id + "] " + title + " ") + SeasonTag + " " + number + ")"
  {
  }

  /** The line the downloader prints for a season. */
  function SeasonLine(id: string, title: string, number: string): string {
    SeasonOpen + id + "] " + title + " (Season: " + number + ")"
  }

  /** The id and the name of a printed season line are read back. */
  lemma SeasonLineIdName(id: string, title: string, number: string)
    requires ']' !in id
    requires title != [] && NoEdgeSpace(title) && !Contains(title, SeasonTag)
    ensures IsSeasonLine(SeasonLine(id, title, number))
    ensures SeasonIdOf(SeasonLine(id, title, number)) == id
    ensures SeasonNameOf(SeasonLine(id, title, number)) == title
  {
    var rest := " " + number + ")";
    var after := title + " " + SeasonTag + rest;
    SeasonLineShape(id, title, number);
    assert after[|after| - 1] == ')';
    IdBeforeClose(id, after);
    TitleBeforeTag(title, rest);
  }

  /** The number of a printed season line is read back. */
  lemma SeasonLineNumber(id: string, title: string, number: string)
    requires !Contains(id, SeasonTag) && !Contains(title, SeasonTag)
    requires NoEdgeSpace(number) && ')' !in number
    ensures SeasonNumberOf(SeasonLine(id, title, number)) == number
  {
    var lead := SeasonOpen + id + "] " + title + " ";
    SeasonLineShape(id, title, number);
    TagShape();
    TagAbsentConcat(SeasonOpen, id);
    TagAbsentConcat(SeasonOpen + id, "] ");
    TagAbsentConcat(SeasonOpen + id + "] ", title);
    TagAbsentConcat(SeasonOpen + id + "] " + title, " ");
    NumberAfterTag(lead, number);
  }

  /** A season line reads back the id, name and number it was printed with. */
  lemma SeasonLineFields(id: string, title: string, number: string)
    requires ']' !in id && !Contains(id, SeasonTag)
    requires title != [] && NoEdgeSpace(title) && !Contains(title, SeasonTag)
    requires NoEdgeSpace(number) && ')' !in number
    ensures ParseSeasonLine(SeasonLine(id, title, number)) == Some((id, SeasonInfo(number, title)))
  {
    SeasonLineIdName(id, title, number);
    SeasonLineNumber(id, title, number);
  }

  /** The listing's example line. */
  lemma SeasonLineExample()
    ensures ParseSeasonLine("[S:ABC123] Some Title (Season: 3)") == Some(("ABC123", SeasonInfo("3", "Some Title")))
  {
    SeasonExampleText();
    SeasonExampleEdges();
    NoOpenNoTag("ABC123");
    NoOpenNoTag("Some Title");
    SeasonLineFields("ABC123", "Some Title", "3");
  }

  lemma SeasonExampleText()
    ensures SeasonLine("ABC123", "Some Title", "3") == "[S:ABC123] Some Title (Season: 3)"
  {
  }

  lemma SeasonExampleEdges()
    ensures NoEdgeSpace("Some Title") && NoEdgeSpace("3")
  {
    assert "Some Title"[0] == 'S' && "Some Title"[9] == 'e';
  }

  /** One raw line of the listing: stripped, then parsed. */
  function SeasonEntry(line: string): Option<(string, SeasonInfo)> {
    ParseSeasonLine(Strip(line))
  }

  /** The (id, info) pairs of the season lines among `lines`, in order. */
  function ParsedSeasons(lines: seq<string>): seq<(string, SeasonInfo)> {
    Lists.FilterMap(SeasonEntry, lines)
  }

  /** `seasons_map` after the pass over the listing `output`. */
  function SeasonsOf(output: string): PyDict.Dict<string, SeasonInfo> {
    PyDict.InsertAll(ParsedSeasons(Split(output, '\n')))
  }

  /** Lines 155-177: the pass, one line at a time, filling the dict in place. */
  method CollectSeasons(output: string) returns (seasons: PyDict.Dict<string, SeasonInfo>)
    ensures seasons == SeasonsOf(output)
    ensures seasons.Valid()
  {
    var lines := Split(output, '\n');
    seasons := PyDict.Empty();
    var i := 0;
    assert lines[..0] == [];
    while i < |lines|
      invariant 0 <= i <= |lines|
      invariant seasons == PyDict.InsertAll(ParsedSeasons(lines[..i]))
    {
      var line := Strip(lines[i]);
      CollectStep(lines, i);
      if IsSeasonLine(line) {
        var id := SeasonIdOf(line);
        var title := SeasonNameOf(line);
        var number := SeasonNumberOf(line);
        seasons := seasons.Set(id, SeasonInfo(number, title));
      }
      i := i + 1;
    }
    assert lines[..|lines|] == lines;
    PyDict.InsertAllKeys(ParsedSeasons(lines));
  }

  /** One iteration of the pass: a season line sets its id, any other line changes nothing. */
  lemma CollectStep(lines: seq<string>, i: nat)
    requires i < |lines|
    ensures var line := Strip(lines[i]);
      var d := PyDict.InsertAll(ParsedSeasons(lines[..i]));
      PyDict.InsertAll(ParsedSeasons(lines[..i + 1]))
        == if IsSeasonLine(line) then d.Set(SeasonIdOf(line), SeasonInfo(SeasonNumberOf(line), SeasonNameOf(line))) else d
  {
    var before := ParsedSeasons(lines[..i]);
    var line := Strip(lines[i]);
    assert lines[..i + 1] == lines[..i] + [lines[i]];
    Lists.FilterMapSnoc(SeasonEntry, lines[..i], lines[i]);
    var r := SeasonEntry(lines[i]);
    assert r == ParseSeasonLine(line);
    if IsSeasonLine(line) {
      var after := before + [r.value];
      assert after[..|before|] == before && after[|after| - 1] == r.value;
    } else {
      assert before + [] == before;
    }
  }

  /** The ids in `seasons_map` are exactly the ids of the season lines of the listing. */
  lemma SeasonIds(output: string, id: string)
    ensures var lines := Split(output, '\n');
      id in SeasonsOf(output).values <==>
        exists i :: 0 <= i < |lines| && IsSeasonLine(Strip(lines[i])) && SeasonIdOf(Strip(lines[i])) == id
  {
    PyDict.FilterMapKeys(SeasonEntry, Split(output, '\n'), id);
  }

  /** A repeated id keeps the number and name of its last line. */
  lemma SeasonLastWins(before: seq<string>, line: string, after: seq<string>)
    requires IsSeasonLine(Strip(line))
    requires forall l :: l in after ==> !IsSeasonLine(Strip(l)) || SeasonIdOf(Strip(l)) != SeasonIdOf(Strip(line))
    ensures var d := PyDict.InsertAll(ParsedSeasons(before + [line] + after));
      && SeasonIdOf(Strip(line)) in d.values
      && d.values[SeasonIdOf(Strip(line))] == SeasonInfo(SeasonNumberOf(Strip(line)), SeasonNameOf(Strip(line)))
  {
    PyDict.FilterMapLastWins(SeasonEntry, before, line, after);
  }

  /** Iteration order: ids are visited in the order of their first season line. */
  lemma SeasonOrder(output: string)
    ensures PyDict.FirstSeenOrder(SeasonsOf(output).keys, PyDict.KeysOf(ParsedSeasons(Split(output, '\n'))))
  {
    PyDict.InsertAllOrder(ParsedSeasons(Split(output, '\n')));
  }

  /** The season dict is well formed: each id listed once, exactly the mapped ids. */
  lemma SeasonsValid(output: string)
    ensures SeasonsOf(output).Valid()
  {
    PyDict.InsertAllKeys(ParsedSeasons(Split(output, '\n')));
  }
}
