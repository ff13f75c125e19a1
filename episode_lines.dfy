/** The per-line part of the second pass of `get_videos`: which lines of a season's listing
    are episodes or specials, and the number and title read from each. */
module EpisodeLines {
  import opened PyStr
  import opened Wrappers

  /** What one listed line contributes before numbering: its kind, raw number and title. */
  datatype Listed = Listed(special: bool, number: string, title: string)

  const SeasonMarker: string := " - Season"
  const Dash: string := " - "

  /** `[S1]`-style lines; `[S:` starts a season line instead. */
  predicate IsSpecialLine(line: string) {
    StartsWith(line, "[S") && !StartsWith(line, "[S:")
  }

  predicate IsEpisodeLine(line: string) {
    StartsWith(line, "[E")
  }

  /** The lines the pass parses: an episode or a special with a closing bracket. */
  predicate IsListedLine(line: string) {
    (IsEpisodeLine(line) || IsSpecialLine(line)) && Contains(line, "]")
  }

  /** On a listed line the two-character prefix is found at 0 and the first `]` after it. */
  lemma ListedLineBounds(line: string, prefix: string)
    requires |prefix| == 2 && prefix[0] == '[' && prefix[1] != ']'
    requires StartsWith(line, prefix) && Contains(line, "]")
    ensures Find(line, prefix) == 0
    ensures 2 <= Find(line, "]") < |line| && line[Find(line, "]")] == ']'
    ensures ']' !in line[2..Find(line, "]")]
  {
    FindCharacterized(line, prefix, 0);
    var close := Find(line, "]");
    OccursAtChar(line, ']', close);
    assert line[..2] == prefix;
    forall j | 0 <= j < close ensures line[j] != ']' {
      OccursAtChar(line, ']', j);
    }
    assert line[0] == '[' && line[1] == prefix[1];
  }

  /** The number: the text between the prefix and the first `]`. */
  function NumberOf(line: string, prefix: string): (number: string)
    requires |prefix| == 2 && prefix[0] == '[' && prefix[1] != ']'
    ensures StartsWith(line, prefix) && Contains(line, "]") ==>
      StartsWith(line, prefix + number + "]") && ']' !in number
  {
    if StartsWith(line, prefix) && Contains(line, "]") then
      ListedLineBounds(line, prefix);
      var close := Find(line, "]");
      assert line[..close + 1] == line[..2] + line[2..close] + [line[close]];
      Slice(line, Find(line, prefix) + 2, close)
    else Slice(line, Find(line, prefix) + 2, Find(line, "]"))
  }

  /** The text the title is taken from: everything after the first `]`, and, if another `]`
      follows anywhere, the stripped text after that one. */
  function RestOf(line: string): string {
    var rest := SliceFrom(line, Find(line, "]") + 1);
    if Contains(rest, "]") then Strip(SliceFrom(rest, Find(rest, "]") + 1)) else rest
  }

  /** The title: after the last ` - Season`, the text after the next ` - `; when nothing
      follows the season, the text before it; without a season marker, the whole text. */
  function EpisodeTitle(rest: string): (title: string)
    ensures NoEdgeSpace(title)
    ensures !Contains(rest, SeasonMarker) ==> title == Strip(rest)
  {
    if Contains(rest, SeasonMarker) then
      var start := RFind(rest, SeasonMarker);
      var parts := SplitN(SliceFrom(rest, start), Dash, 2);
      if |parts| >= 3 then Strip(parts[2])
      else if |parts| == 2 then Strip(SliceTo(rest, start))
      else Strip(rest)
    else Strip(rest)
  }

  /** One stripped line of a season's listing. */
  function ParseEpisodeLine(line: string): (r: Option<Listed>)
    ensures r.Some? <==> IsListedLine(line)
    ensures StartsWith(line, "[S:") ==> r.None?
    ensures r.Some? ==>
      && r.value.special == IsSpecialLine(line)
      && StartsWith(line, (if r.value.special then "[S" else "[E") + r.value.number + "]")
      && ']' !in r.value.number
      && NoEdgeSpace(r.value.title)
  {
    SeasonPrefixNotListed(line);
    var isSpecial := IsSpecialLine(line);
    var isEpisode := IsEpisodeLine(line);
    if (isEpisode || isSpecial) && Contains(line, "]") then
      var prefix := if isSpecial then "[S" else "[E";
      var number := NumberOf(line, prefix);
      assert StartsWith(line, prefix + number + "]");
      Some(Listed(isSpecial, number, EpisodeTitle(RestOf(line))))
    else None
  }

  /** A line starting with `[S:` is a season line: neither an episode nor a special. */
  lemma SeasonPrefixNotListed(line: string)
    ensures StartsWith(line, "[S:") ==> !IsEpisodeLine(line) && !IsSpecialLine(line)
  {
    if StartsWith(line, "[S:") {
      assert line[1] == "[S:"[1] == 'S';
      assert !StartsWith(line, "[E") by {
        if |line| >= 2 { assert line[..2][1] == line[1]; }
      }
    }
  }

  /** Both markers start with " -": neither occurs where no dash follows. */
  lemma NoMarkerBeforeNonDash(t: string, p: string, k: int)
    requires p == SeasonMarker || p == Dash
    requires k < 0 || k + 1 >= |t| || t[k + 1] != '-'
    ensures !OccursAt(t, p, k)
  {
    if 0 <= k && k + |p| <= |t| {
      assert t[k..k + |p|][1] == t[k + 1];
      assert p[1] == '-';
    }
  }

  /** A text without dashes contains neither marker. */
  lemma NoDashNoMarker(t: string, p: string)
    requires p == SeasonMarker || p == Dash
    requires '-' !in t
    ensures !Contains(t, p)
  {
    forall k ensures !OccursAt(t, p, k) {
      NoMarkerBeforeNonDash(t, p, k);
    }
  }

  /** The marker in `pre + " - Season" + tail` is the last one when the tail has no dash. */
  lemma MarkerIsLast(pre: string, tail: string)
    requires '-' !in tail
    ensures RFind(pre + SeasonMarker + tail, SeasonMarker) == |pre|
  {
    var s := pre + SeasonMarker + tail;
    assert s[|pre|..|pre| + 9] == SeasonMarker;
    forall i | |pre| + 1 < i < |s| ensures s[i] != '-' {
      if i < |pre| + 9 {
        assert s[i] == SeasonMarker[i - |pre|];
      } else {
        assert s[i] == tail[i - |pre| - 9];
      }
    }
    forall j | |pre| < j ensures !OccursAt(s, SeasonMarker, j) {
      NoMarkerBeforeNonDash(s, SeasonMarker, j);
    }
    RFindCharacterized(s, SeasonMarker, |pre|);
  }

  /** The text after the marker splits into the empty text, `Season...` and the title. */
  lemma SplitAfterMarker(mid: string, title: string)
    requires '-' !in mid
    ensures SplitN(SeasonMarker + mid + Dash + title, Dash, 2) == ["", "Season" + mid, title]
  {
    var s := SeasonMarker + mid + Dash + title;
    var u := "Season" + mid;
    assert s == Dash + u + Dash + title;
    assert s[..3] == Dash;
    FindCharacterized(s, Dash, 0);
    var s1 := s[3..];
    assert s1 == u + Dash + title;
    assert '-' !in u;
    forall k | 0 <= k < |u| ensures !OccursAt(s1, Dash, k) {
      if k + 1 < |u| {
        assert s1[k + 1] == u[k + 1];
      } else {
        assert s1[k + 1] == ' ';
      }
      NoMarkerBeforeNonDash(s1, Dash, k);
    }
    assert s1[|u|..|u| + 3] == Dash;
    FindCharacterized(s1, Dash, |u|);
    assert s1[..|u|] == u;
    assert s1[|u| + 3..] == title;
  }

  /** `Show - Season 3 - Real Title`: the title is what follows the season. The title, with the
      ` - ` before it, must hold no marker of its own (`Season finale` or `x - Season 2` would be
      taken for the last marker); it may hold other dashes, since only two splits are made. */
  lemma TitleAfterSeason(pre: string, mid: string, title: string)
    requires '-' !in mid && !Contains(Dash + title, SeasonMarker)
    ensures EpisodeTitle(pre + SeasonMarker + mid + Dash + title) == Strip(title)
  {
    var rest := pre + SeasonMarker + mid + Dash + title;
    MarkerIsLastWithDash(pre, mid, title);
    assert rest[|pre|..] == SeasonMarker + mid + Dash + title;
    SplitAfterMarker(mid, title);
  }

  /** `Show - Season 3`: with nothing after the season, the title is the text before it. */
  lemma TitleBeforeSeason(pre: string, mid: string)
    requires '-' !in mid
    ensures EpisodeTitle(pre + SeasonMarker + mid) == Strip(pre)
  {
    var rest := pre + SeasonMarker + mid;
    MarkerIsLast(pre, mid);
    assert rest[|pre|..] == SeasonMarker + mid;
    SplitMarkerOnly(mid);
    assert rest[..|pre|] == pre;
  }

  /** The marker and a season part without dashes split into the empty text and `Season...`. */
  lemma SplitMarkerOnly(mid: string)
    requires '-' !in mid
    ensures SplitN(SeasonMarker + mid, Dash, 2) == ["", "Season" + mid]
  {
    var after := SeasonMarker + mid;
    assert after == Dash + ("Season" + mid);
    assert after[..3] == Dash;
    FindCharacterized(after, Dash, 0);
    assert '-' !in "Season" + mid;
    NoDashNoMarker("Season" + mid, Dash);
    assert after[3..] == "Season" + mid;
  }

  /** As `MarkerIsLast`, for a tail holding the ` - ` separator and a title. */
  lemma MarkerIsLastWithDash(pre: string, mid: string, title: string)
    requires '-' !in mid && !Contains(Dash + title, SeasonMarker)
    ensures RFind(pre + SeasonMarker + mid + Dash + title, SeasonMarker) == |pre|
  {
    var s := pre + SeasonMarker + mid + Dash + title;
    var b := |pre| + 9 + |mid|;
    assert s[|pre|..|pre| + 9] == SeasonMarker;
    assert s == (pre + SeasonMarker + mid) + (Dash + title);
    forall j | |pre| < j ensures !OccursAt(s, SeasonMarker, j) {
      if j < b {
        var i := j + 1;
        if i < |pre| + 9 {
          assert s[i] == SeasonMarker[i - |pre|];
        } else if i < b {
          assert s[i] == mid[i - |pre| - 9];
        }
        NoMarkerBeforeNonDash(s, SeasonMarker, j);
      } else {
        OccursInParts(pre + SeasonMarker + mid, Dash + title, SeasonMarker, j);
      }
    }
    RFindCharacterized(s, SeasonMarker, |pre|);
  }

  /** A title without dashes that does not start with `Season` holds no marker, even with the
      separator in front of it. */
  lemma PlainTitleNoMarker(title: string)
    requires '-' !in title && !StartsWith(title, "Season")
    ensures !Contains(Dash + title, SeasonMarker)
  {
    var t := Dash + title;
    forall k ensures !OccursAt(t, SeasonMarker, k) {
      if k == 0 {
        if 9 <= |t| {
          assert t[3..9] == title[..6];
          assert t[..9][3..] == t[3..9];
          assert SeasonMarker[3..] == "Season";
        }
      } else {
        if 0 < k && k + 1 < |t| {
          assert t[k + 1] == if k == 1 then ' ' else title[k - 2];
        }
        NoMarkerBeforeNonDash(t, SeasonMarker, k);
      }
    }
  }

  /** The title text skips a second bracket group wherever it ends, not only a date right
      after the number. */
  lemma RestAfterSecondBracket(head: string, x: string, y: string)
    requires ']' !in head && ']' !in x
    ensures RestOf(head + "]" + x + "]" + y) == Strip(y)
  {
    var line := head + "]" + x + "]" + y;
    assert line == head + [']'] + (x + "]" + y);
    FindCharAfter(head, ']', x + "]" + y);
    var rest := line[|head| + 1..];
    assert rest == x + [']'] + y;
    FindCharAfter(x, ']', y);
    OccursAtChar(rest, ']', |x|);
    assert rest[|x| + 1..] == y;
  }

  /** With a single bracket group the title text is everything after it, unstripped. */
  lemma RestAfterOnlyBracket(head: string, x: string)
    requires ']' !in head && ']' !in x
    ensures RestOf(head + "]" + x) == x
  {
    var line := head + "]" + x;
    assert line == head + [']'] + x;
    FindCharAfter(head, ']', x);
    assert line[|head| + 1..] == x;
    ContainsChar(x, ']');
  }

  /** An episode (`[E`) or special (`[S` not followed by `:`) line yields its kind, the number
      before the first `]`, and the title read from the rest. */
  lemma ListedLineFields(special: bool, number: string, after: string)
    requires ']' !in number
    requires special ==> number == [] || number[0] != ':'
    ensures var line := (if special then "[S" else "[E") + number + "]" + after;
      ParseEpisodeLine(line) == Some(Listed(special, number, EpisodeTitle(RestOf(line))))
  {
    var prefix := if special then "[S" else "[E";
    var line := prefix + number + "]" + after;
    assert line[..2] == prefix;
    assert line == prefix + number + [']'] + after;
    FindCharAfter(prefix + number, ']', after);
    OccursAtChar(line, ']', |number| + 2);
    assert StartsWith(line, prefix);
    if special {
      assert !StartsWith(line, "[S:") by {
        if |line| >= 3 {
          assert line[2] == (if number == [] then ']' else number[0]);
          assert line[..3][2] == line[2];
        }
      }
    }
    assert line[2..|number| + 2] == number;
    FindCharacterized(line, prefix, 0);
  }

  /** After `<head>] [<date>] ` the title text is the rest of the line. */
  lemma DatedRest(head: string, date: string, text: string)
    requires ']' !in head && ']' !in date
    requires NoEdgeSpace(text)
    ensures RestOf(head + "] [" + date + "] " + text) == text
  {
    DatedShape(head, date, text);
    RestAfterSecondBracket(head, " [" + date, " " + text);
    StripPadded(" ", text, "");
    assert " " + text + "" == " " + text;
  }

  /** The two ways a dated line is cut into pieces are the same text. */
  lemma DatedShape(head: string, date: string, text: string)
    ensures head + "] [" + date + "] " + text == head + "]" + (" [" + date) + "]" + (" " + text)
    ensures head + "] [" + date + "] " + text == head + "]" + (" [" + date + "] " + text)
  {
  }

  /** `[E<n>] [<date>] <text>` or `[S<n>] [<date>] <text>`: the title is read from `<text>`. */
  lemma DatedLine(special: bool, number: string, date: string, text: string)
    requires ']' !in number && ']' !in date
    requires special ==> number == [] || number[0] != ':'
    requires NoEdgeSpace(text)
    ensures ParseEpisodeLine((if special then "[S" else "[E") + number + "] [" + date + "] " + text)
      == Some(Listed(special, number, EpisodeTitle(text)))
  {
    var head := (if special then "[S" else "[E") + number;
    var line := head + "] [" + date + "] " + text;
    DatedShape(head, date, text);
    ListedLineFields(special, number, " [" + date + "] " + text);
    assert ']' !in head;
    DatedRest(head, date, text);
  }

  /** `[E<n>] [<date>] <show> - Season <k> - <title>` reads as episode `<n>` titled `<title>`. */
  lemma EpisodeWithSeason(number: string, date: string, pre: string, mid: string, title: string)
    requires ']' !in number && ']' !in date
    requires pre != [] && NoEdgeSpace(pre) && '-' !in mid
    requires title != [] && NoEdgeSpace(title) && !Contains(Dash + title, SeasonMarker)
    ensures ParseEpisodeLine("[E" + number + "] [" + date + "] " + pre + SeasonMarker + mid + Dash + title)
      == Some(Listed(false, number, title))
  {
    var text := pre + SeasonMarker + mid + Dash + title;
    assert "[E" + number + "] [" + date + "] " + pre + SeasonMarker + mid + Dash + title
      == "[E" + number + "] [" + date + "] " + text;
    assert text[0] == pre[0] && text[|text| - 1] == title[|title| - 1];
    DatedLine(false, number, date, text);
    TitleAfterSeason(pre, mid, title);
    StripNoEdgeSpace(title);
  }

  /** `[S<n>] [<date>] <title>` reads as special `<n>` titled `<title>`. */
  lemma SpecialWithDate(number: string, date: string, title: string)
    requires ']' !in number && ']' !in date && (number == [] || number[0] != ':')
    requires title != [] && NoEdgeSpace(title) && !Contains(title, SeasonMarker)
    ensures ParseEpisodeLine("[S" + number + "] [" + date + "] " + title) == Some(Listed(true, number, title))
  {
    DatedLine(true, number, date, title);
    StripNoEdgeSpace(title);
  }

  /** The listing's example episode line. */
  lemma EpisodeLineExample()
    ensures ParseEpisodeLine("[E5] [2020-01-01] Show - Season 3 - Real Title") == Some(Listed(false, "5", "Real Title"))
  {
    EpisodeExampleText();
    assert "Real Title"[..6][0] == 'R';
    PlainTitleNoMarker("Real Title");
    EpisodeWithSeason("5", "2020-01-01", "Show", " 3", "Real Title");
  }

  lemma EpisodeExampleText()
    ensures "[E" + "5" + "] [" + "2020-01-01" + "] " + "Show" + SeasonMarker + " 3" + Dash + "Real Title"
      == "[E5] [2020-01-01] Show - Season 3 - Real Title"
  {
    assert "[E" + "5" + "] [" + "2020-01-01" + "] " + "Show" == "[E5] [2020-01-01] Show";
    assert "[E5] [2020-01-01] Show" + SeasonMarker + " 3" == "[E5] [2020-01-01] Show - Season 3";
    assert "[E5] [2020-01-01] Show - Season 3" + Dash + "Real Title" == "[E5] [2020-01-01] Show - Season 3 - Real Title";
  }

  /** The listing's example special line. */
  lemma SpecialLineExample()
    ensures ParseEpisodeLine("[S2] [2020-01-01] X") == Some(Listed(true, "2", "X"))
  {
    SpecialExampleText();
    NoDashNoMarker("X", SeasonMarker);
    SpecialWithDate("2", "2020-01-01", "X");
  }

  lemma SpecialExampleText()
    ensures "[S" + "2" + "] [" + "2020-01-01" + "] " + "X" == "[S2] [2020-01-01] X"
  {
  }
}
