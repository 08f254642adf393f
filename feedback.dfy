// The iOS feedback detail screen (FeedbackDetailView.swift): splitting
// the feedback text into titled sections, attaching the playable moments
// the server sends, and the small derived values the screen shows.
// Playable moments are carried as values of a type parameter `M`; the
// screen never looks inside them.

module FeedbackDetail {
  import opened Wrappers
  import opened Text
  import opened Statuses
  import opened ApiClient

  /** `FeedbackSectionData` without its random `id`. */
  datatype Section<M> = Section(title: string, content: string, playableMoments: seq<M>)

  /** The title of text that comes before any header, and of the fallback section. */
  const DefaultTitle := "AI Feedback"

  /** Lowercase words whose presence at the start of a line marks it as a header. */
  const KnownHeaders: seq<string> :=
    ["overall", "summary", "strengths", "opportunities", "recommendations", "action items", "playable moments"]

  // ------------------------------------------------------------ headers

  /** `isLikelySectionHeader`, for a line already trimmed of blanks. */
  predicate IsLikelySectionHeader(line: string)
  {
    && line != []
    && (|| EndsWith(line, ":")
        || (|line| < 40 && line == Upper(line))
        || exists k :: 0 <= k < |KnownHeaders| && StartsWith(Lower(line), KnownHeaders[k]))
  }

  /** A line ending in a colon is a header. */
  lemma ColonLineIsHeader(line: string)
    requires line != [] && line[|line| - 1] == ':'
    ensures IsLikelySectionHeader(line)
  {
    assert line[|line| - 1..] == ":";
  }

  /**
   * A short line without lowercase ASCII letters is a header: "KEY POINTS",
   * but also a numbered item such as "1." or a line of digits.
   */
  lemma ShortUncasedLineIsHeader(line: string)
    requires line != [] && |line| < 40 && forall i :: 0 <= i < |line| ==> !IsLowerAscii(line[i])
    ensures IsLikelySectionHeader(line)
  {
    assert Upper(line) == line;
  }

  /** A line that opens with a known header word, in any letter case, is a header whatever follows. */
  lemma KnownWordLineIsHeader(word: string, rest: string, k: nat)
    requires k < |KnownHeaders| && Lower(word) == KnownHeaders[k]
    ensures IsLikelySectionHeader(word + rest)
  {
    LowerAppend(word, rest);
    assert Lower(word + rest)[..|word|] == KnownHeaders[k];
  }

  /** An ordinary sentence in mixed case is body text. */
  lemma SentenceIsNotHeader()
    ensures !IsLikelySectionHeader("Good.")
  {
    var line := "Good.";
    assert !EndsWith(line, ":") by {
      assert line[4] == '.';
    }
    assert Upper(line) != line by {
      assert Upper(line)[1] == 'O';
    }
    assert Lower(line)[0] == 'g';
    forall k | 0 <= k < |KnownHeaders|
      ensures !StartsWith(Lower(line), KnownHeaders[k])
    {
      assert KnownHeaders[k][0] != 'g';
    }
  }

  /** Removes ':' characters from the front. */
  function DropLeadingColons(s: string): (r: string)
    ensures |r| <= |s| && r == s[|s| - |r|..]
    ensures r != [] ==> r[0] != ':'
    ensures forall i :: 0 <= i < |s| - |r| ==> s[i] == ':'
  {
    if s != [] && s[0] == ':' then DropLeadingColons(s[1..]) else s
  }

  /** Removes ':' characters from the back. */
  function DropTrailingColons(s: string): (r: string)
    ensures |r| <= |s| && r == s[..|r|]
    ensures r != [] ==> r[|r| - 1] != ':'
    ensures forall i :: |r| <= i < |s| ==> s[i] == ':'
  {
    if s != [] && s[|s| - 1] == ':' then DropTrailingColons(s[..|s| - 1]) else s
  }

  /** `trimmingCharacters(in: CharacterSet(charactersIn: ":"))`. */
  function TrimColons(s: string): (r: string)
    ensures |r| <= |s|
    ensures r != [] ==> r[0] != ':' && r[|r| - 1] != ':'
  {
    DropTrailingColons(DropLeadingColons(s))
  }

  /** The colon-trimmed text is the slice of `s` between a run of leading and a run of trailing colons. */
  lemma TrimColonsSlice(s: string) returns (i: nat, j: nat)
    ensures i <= j <= |s| && TrimColons(s) == s[i..j]
    ensures forall k :: 0 <= k < i ==> s[k] == ':'
    ensures forall k :: j <= k < |s| ==> s[k] == ':'
  {
    var l := DropLeadingColons(s);
    var r := DropTrailingColons(l);
    i := |s| - |l|;
    j := i + |r|;
    assert l == s[i..];
    assert r == l[..|r|];
  }

  // ------------------------------------------------------------ parsing

  /** The parser's running state: finished sections, the open section's title and its lines so far. */
  datatype ParseState<M> = ParseState(sections: seq<Section<M>>, title: string, lines: seq<string>)

  /** `flushSection`: the open lines, joined and trimmed, close a section unless they are blank. */
  function Flush<M>(sections: seq<Section<M>>, title: string, lines: seq<string>): seq<Section<M>>
  {
    var body := Trim(Join(lines, "\n"));
    if body == [] then sections else sections + [Section(title, body, [])]
  }

  /** One iteration of the loop over the raw lines. */
  function Step<M>(st: ParseState<M>, rawLine: string): ParseState<M>
  {
    var line := TrimBlanks(rawLine);
    if line == [] then st.(lines := st.lines + [""])
    else if IsLikelySectionHeader(line) then ParseState(Flush(st.sections, st.title, st.lines), TrimColons(line), [])
    else st.(lines := st.lines + [line])
  }

  /** The state after the loop has seen the given lines. */
  function Run<M>(lines: seq<string>): ParseState<M>
  {
    if lines == [] then ParseState([], DefaultTitle, [])
    else Step(Run(lines[..|lines| - 1]), lines[|lines| - 1])
  }

  /** The raw lines: the content split at every newline character. */
  function RawLines(content: string): seq<string>
  {
    Components(content, IsNewline)
  }

  /** What `parseFeedbackSections` returns: the sections after a final flush, or one fallback section. */
  function ParsedSections<M>(content: string): seq<Section<M>>
  {
    var sections := FlushedSections<M>(content);
    if sections == [] then [Section(DefaultTitle, Trim(content), [])] else sections
  }

  /** The sections after the loop and the final flush, before the fallback. */
  function FlushedSections<M>(content: string): seq<Section<M>>
  {
    var st := Run<M>(RawLines(content));
    Flush(st.sections, st.title, st.lines)
  }

  /** `parseFeedbackSections(from:)`. */
  method ParseFeedbackSections<M>(content: string) returns (sections: seq<Section<M>>)
    ensures sections == ParsedSections<M>(content)
  {
    var lines := RawLines(content);
    sections := [];
    var currentTitle := DefaultTitle;
    var currentLines: seq<string> := [];
    var i := 0;
    while i < |lines|
      invariant 0 <= i <= |lines|
      invariant Run<M>(lines[..i]) == ParseState(sections, currentTitle, currentLines)
    {
      ghost var next := Step(ParseState(sections, currentTitle, currentLines), lines[i]);
      assert Run<M>(lines[..i + 1]) == next by {
        assert lines[..i + 1][..i] == lines[..i];
      }
      var line := TrimBlanks(lines[i]);
      if line == [] {
        currentLines := currentLines + [""];
      } else if IsLikelySectionHeader(line) {
        var body := Trim(Join(currentLines, "\n"));
        if body != [] {
          sections := sections + [Section(currentTitle, body, [])];
        }
        currentLines := [];
        currentTitle := TrimColons(line);
      } else {
        currentLines := currentLines + [line];
      }
      assert ParseState(sections, currentTitle, currentLines) == next;
      i := i + 1;
    }
    assert lines[..|lines|] == lines;
    var body := Trim(Join(currentLines, "\n"));
    if body != [] {
      sections := sections + [Section(currentTitle, body, [])];
    }
    if sections == [] {
      sections := [Section(DefaultTitle, Trim(content), [])];
    }
  }

  /** The title a raw line gives when, trimmed of blanks, it is a header line. */
  function HeaderTitleOf(rawLine: string): Option<string>
  {
    var line := TrimBlanks(rawLine);
    if IsLikelySectionHeader(line) then Some(TrimColons(line)) else None
  }

  /** The titles the header lines give, trimmed of blanks and colons, in line order. */
  function HeaderTitles(lines: seq<string>): seq<string>
  {
    if lines == [] then []
    else
      var title := HeaderTitleOf(lines[|lines| - 1]);
      HeaderTitles(lines[..|lines| - 1]) + (if title.Some? then [title.value] else [])
  }

  /** Every header title comes from a header line of the text. */
  lemma {:induction false} HeaderTitleSource(lines: seq<string>, t: string) returns (k: nat)
    requires t in HeaderTitles(lines)
    ensures k < |lines| && HeaderTitleOf(lines[k]) == Some(t)
  {
    var n := |lines| - 1;
    var init := lines[..n];
    var title := HeaderTitleOf(lines[n]);
    var extra := if title.Some? then [title.value] else [];
    assert HeaderTitles(lines) == HeaderTitles(init) + extra;
    if t in HeaderTitles(init) {
      k := HeaderTitleSource(init, t);
      assert init[k] == lines[k];
    } else {
      k := n;
    }
  }

  /** A title is the default one or one of the header titles. */
  predicate TitleFromHeader(t: string, titles: seq<string>)
  {
    t == DefaultTitle || t in titles
  }

  /** A parsed section: a non-empty body with no white space at either end, a title from `titles` or the default, and no moments. */
  predicate WellFormed<M>(s: Section<M>, titles: seq<string>)
  {
    && s.content != [] && !IsWhite(s.content[0]) && !IsWhite(s.content[|s.content| - 1])
    && s.playableMoments == [] && TitleFromHeader(s.title, titles)
  }

  /** Flushing keeps the finished sections and adds at most one after them. */
  lemma FlushGrowsByOne<M>(sections: seq<Section<M>>, title: string, open: seq<string>)
    ensures var r := Flush(sections, title, open);
      |sections| <= |r| <= |sections| + 1 && r[..|sections|] == sections
  {
    var r := Flush(sections, title, open);
    if |r| > |sections| {
      assert r[..|sections|] == sections;
    }
  }

  /** Flushing well-formed sections under a title from the text leaves only well-formed sections. */
  lemma FlushAddsWellFormed<M>(sections: seq<Section<M>>, title: string, open: seq<string>, titles: seq<string>)
    requires forall j :: 0 <= j < |sections| ==> WellFormed(sections[j], titles)
    requires TitleFromHeader(title, titles)
    ensures var r := Flush(sections, title, open);
      forall j :: 0 <= j < |r| ==> WellFormed(r[j], titles)
  {
    var body := Trim(Join(open, "\n"));
    if body != [] {
      var added: Section<M> := Section(title, body, []);
      assert WellFormed(added, titles);
      AppendWellFormed(sections, added, titles);
    }
  }

  /** Appending a well-formed section to well-formed sections keeps them all well formed. */
  lemma AppendWellFormed<M>(sections: seq<Section<M>>, added: Section<M>, titles: seq<string>)
    requires forall j :: 0 <= j < |sections| ==> WellFormed(sections[j], titles)
    requires WellFormed(added, titles)
    ensures forall j :: 0 <= j < |sections + [added]| ==> WellFormed((sections + [added])[j], titles)
  {
    var r := sections + [added];
    forall j | 0 <= j < |r|
      ensures WellFormed(r[j], titles)
    {
      if j < |sections| {
        assert r[j] == sections[j];
      }
    }
  }

  /** Sections well formed for some titles stay so once more titles are allowed. */
  lemma WellFormedForMoreTitles<M>(sections: seq<Section<M>>, titles: seq<string>, extra: seq<string>)
    requires forall j :: 0 <= j < |sections| ==> WellFormed(sections[j], titles)
    ensures forall j :: 0 <= j < |sections| ==> WellFormed(sections[j], titles + extra)
  {
    forall j | 0 <= j < |sections|
      ensures WellFormed(sections[j], titles + extra)
    {
      assert WellFormed(sections[j], titles);
      assert sections[j].title in titles ==> sections[j].title in titles + extra;
    }
  }

  /**
   * What the loop keeps: every finished section is well formed, there are
   * no more of them than header lines seen, and until a header is seen the
   * open title is the default.
   */
  lemma {:induction false} RunInvariant<M>(lines: seq<string>)
    ensures var st := Run<M>(lines);
      && (forall j :: 0 <= j < |st.sections| ==> WellFormed(st.sections[j], HeaderTitles(lines)))
      && TitleFromHeader(st.title, HeaderTitles(lines))
      && |st.sections| <= |HeaderTitles(lines)|
      && (HeaderTitles(lines) == [] ==> st.sections == [] && st.title == DefaultTitle)
  {
    if lines != [] {
      var init := lines[..|lines| - 1];
      var last := lines[|lines| - 1];
      RunInvariant<M>(init);
      var st := Run<M>(init);
      var line := TrimBlanks(last);
      var title := HeaderTitleOf(last);
      var extra := if title.Some? then [title.value] else [];
      var titles := HeaderTitles(lines);
      assert titles == HeaderTitles(init) + extra;
      WellFormedForMoreTitles(st.sections, HeaderTitles(init), extra);
      assert st.title in HeaderTitles(init) ==> st.title in titles;
      if line != [] && IsLikelySectionHeader(line) {
        FlushGrowsByOne(st.sections, st.title, st.lines);
        FlushAddsWellFormed(st.sections, st.title, st.lines, titles);
      }
    }
  }

  /** The flushed sections are well formed, at most one more than there are header lines. */
  lemma FlushedSectionsWellFormed<M>(content: string)
    ensures var f := FlushedSections<M>(content);
      && |f| <= |HeaderTitles(RawLines(content))| + 1
      && forall j :: 0 <= j < |f| ==> WellFormed(f[j], HeaderTitles(RawLines(content)))
  {
    var lines := RawLines(content);
    var st := Run<M>(lines);
    RunInvariant<M>(lines);
    FlushGrowsByOne(st.sections, st.title, st.lines);
    FlushAddsWellFormed(st.sections, st.title, st.lines, HeaderTitles(lines));
  }

  /**
   * The parse never comes back empty and has at most one section more
   * than there are header lines; either every section is well formed,
   * or the result is the single fallback section holding the whole
   * trimmed text.
   */
  lemma ParsedSectionsShape<M>(content: string)
    ensures var r := ParsedSections<M>(content);
      && 1 <= |r| <= |HeaderTitles(RawLines(content))| + 1
      && (|| (forall j :: 0 <= j < |r| ==> WellFormed(r[j], HeaderTitles(RawLines(content))))
          || r == [Section(DefaultTitle, Trim(content), [])])
  {
    FlushedSectionsWellFormed<M>(content);
  }

  /** Every parsed section carries no moments and takes its title from a header line, or is titled "AI Feedback". */
  lemma ParsedSectionsTitles<M>(content: string)
    ensures var r := ParsedSections<M>(content);
      forall j :: 0 <= j < |r| ==> r[j].playableMoments == [] && TitleFromHeader(r[j].title, HeaderTitles(RawLines(content)))
  {
    var f := FlushedSections<M>(content);
    var r := ParsedSections<M>(content);
    var titles := HeaderTitles(RawLines(content));
    if f == [] {
      assert r == [Section(DefaultTitle, Trim(content), [])];
      forall j | 0 <= j < |r|
        ensures r[j].playableMoments == [] && TitleFromHeader(r[j].title, titles)
      {
        assert j == 0;
      }
    } else {
      assert r == f;
      FlushedSectionsWellFormed<M>(content);
    }
  }

  /** Without any header line the whole text is one section titled "AI Feedback". */
  lemma NoHeadersOneSection<M>(content: string)
    requires HeaderTitles(RawLines(content)) == []
    ensures var r := ParsedSections<M>(content);
      |r| == 1 && r[0].title == DefaultTitle && r[0].playableMoments == []
  {
    ParsedSectionsShape<M>(content);
    ParsedSectionsTitles<M>(content);
    RunInvariant<M>(RawLines(content));
  }

  /** Blank text parses to the fallback section with an empty body. */
  lemma BlankContentFallback<M>(content: string)
    requires IsBlankString(content)
    ensures ParsedSections<M>(content) == [Section(DefaultTitle, [], [])]
  {
    TrimEmptyIffBlank(content);
    BlankLinesGiveBlankBodies<M>(content);
  }

  /** Every character of a blank text is white, so no body survives flushing. */
  lemma BlankLinesGiveBlankBodies<M>(content: string)
    requires IsBlankString(content)
    ensures FlushedSections<M>(content) == []
  {
    var lines := RawLines(content);
    ComponentsOfBlank(content, IsNewline);
    forall k | 0 <= k < |lines|
      ensures forall i :: 0 <= i < |lines[k]| ==> IsBlank(lines[k][i])
    {
      assert IsBlankString(lines[k]);
    }
    BlankRun<M>(lines);
    var st := Run<M>(lines);
    BlankJoin(st.lines);
    TrimEmptyIffBlank(Join(st.lines, "\n"));
  }

  /** Lines made only of blanks trim to nothing, so the loop only ever opens empty lines. */
  lemma {:induction false} BlankRun<M>(lines: seq<string>)
    requires forall k :: 0 <= k < |lines| ==> forall i :: 0 <= i < |lines[k]| ==> IsBlank(lines[k][i])
    ensures Run<M>(lines).sections == [] && forall k :: 0 <= k < |Run<M>(lines).lines| ==> Run<M>(lines).lines[k] == []
  {
    if lines != [] {
      var init := lines[..|lines| - 1];
      var last := lines[|lines| - 1];
      BlankRun<M>(init);
      BlankTrimsEmpty(last);
      var st := Run<M>(init);
      assert Run<M>(lines) == Step(st, last);
      assert Step(st, last) == st.(lines := st.lines + [""]);
    }
  }

  /** A line of blanks trims to nothing. */
  lemma BlankTrimsEmpty(s: string)
    requires forall i :: 0 <= i < |s| ==> IsBlank(s[i])
    ensures TrimBlanks(s) == []
  {
    DropLeadingSuffix(s, Blanks);
  }

  lemma {:induction false} BlankJoin(parts: seq<string>)
    requires forall k :: 0 <= k < |parts| ==> parts[k] == []
    ensures IsBlankString(Join(parts, "\n"))
  {
    if |parts| > 1 {
      BlankJoin(parts[..|parts| - 1]);
    }
  }

  // ------------------------------------------------------------ moments

  /** The title names playable moments when its lowercase form contains "playable". */
  predicate NamesPlayable(title: string)
  {
    Contains(Lower(title), "playable")
  }

  /** `firstIndex(where:)` over the titles. */
  function FirstPlayable<M>(ss: seq<Section<M>>): (r: Option<nat>)
    ensures r.Some? ==>
      r.value < |ss| && NamesPlayable(ss[r.value].title) && forall j :: 0 <= j < r.value ==> !NamesPlayable(ss[j].title)
    ensures r.None? ==> forall j :: 0 <= j < |ss| ==> !NamesPlayable(ss[j].title)
  {
    if ss == [] then None
    else if NamesPlayable(ss[0].title) then Some(0)
    else match FirstPlayable(ss[1..]) {
      case None => None
      case Some(i) => Some(i + 1)
    }
  }

  /** The sections before moments are attached: the server's own, or those parsed from the text. */
  function BaseSections<M>(response: FeedbackContentResponse<M>): seq<Section<M>>
  {
    if response.sections.Some? && response.sections.value != [] then
      var rs := response.sections.value;
      seq(|rs|, i requires 0 <= i < |rs| => Section(rs[i].title, rs[i].content, []))
    else ParsedSections(ResolvedFeedbackText(response))
  }

  /** `buildSections(from:)`. */
  function BuildSections<M>(response: FeedbackContentResponse<M>): seq<Section<M>>
  {
    var base := BaseSections(response);
    if response.playableMoments.Some? && response.playableMoments.value != [] then
      var moments := response.playableMoments.value;
      match FirstPlayable(base)
      case Some(i) => base[i := Section(base[i].title, base[i].content, moments)]
      case None => [Section("Playable Moments", "", moments)] + base
    else base
  }

  /** Neither source of base sections carries moments. */
  lemma BaseSectionsHaveNoMoments<M>(response: FeedbackContentResponse<M>)
    ensures forall j :: 0 <= j < |BaseSections(response)| ==> BaseSections(response)[j].playableMoments == []
  {
    if !(response.sections.Some? && response.sections.value != []) {
      ParsedSectionsTitles<M>(ResolvedFeedbackText(response));
    }
  }

  /** Without moments from the server the sections are returned as they are. */
  lemma NoMomentsKeepsSections<M>(response: FeedbackContentResponse<M>)
    requires response.playableMoments.None? || response.playableMoments.value == []
    ensures BuildSections(response) == BaseSections(response)
  {
  }

  /**
   * Non-empty moments land on exactly one section: the first whose title
   * names playable moments, keeping its title and body, or else a new
   * "Playable Moments" section put first. Every other section is unchanged.
   */
  lemma MomentsLandOnce<M>(response: FeedbackContentResponse<M>)
    requires response.playableMoments.Some? && response.playableMoments.value != []
    ensures var base := BaseSections(response); var r := BuildSections(response);
      var moments := response.playableMoments.value;
      exists i :: 0 <= i < |r| && r[i].playableMoments == moments
        && (forall j :: 0 <= j < |r| && j != i ==> r[j].playableMoments == [])
        && (if FirstPlayable(base).Some? then
              i == FirstPlayable(base).value && |r| == |base|
              && r[i].title == base[i].title && r[i].content == base[i].content
              && forall j :: 0 <= j < |r| && j != i ==> r[j] == base[j]
            else
              i == 0 && r[0] == Section("Playable Moments", "", moments) && r[1..] == base)
  {
    BaseSectionsHaveNoMoments(response);
    var base := BaseSections(response);
    var r := BuildSections(response);
    if FirstPlayable(base).None? {
      assert r[1..] == base;
      assert forall j :: 1 <= j < |r| ==> r[j] == base[j - 1];
    }
  }

  // ------------------------------------------------------------ derived values

  datatype DisplayMode = Highlights | Document

  /** `availableDisplayModes`: the document view is offered only when there is a feedback URL. */
  function AvailableDisplayModes(feedbackUrl: Option<string>): (modes: seq<DisplayMode>)
  {
    if feedbackUrl.None? then [Highlights] else [Highlights, Document]
  }

  /** Highlights always come first; the document mode is present exactly when a URL is. */
  lemma DisplayModesOffered(feedbackUrl: Option<string>)
    ensures var modes := AvailableDisplayModes(feedbackUrl);
      modes != [] && modes[0] == Highlights
      && (Document in modes <==> feedbackUrl.Some?)
      && |modes| == (if feedbackUrl.Some? then 2 else 1)
  {
  }

  /** The body of the placeholder section shown before any feedback text has arrived. */
  const PendingFeedbackBody := "Feedback will appear here once processing is complete."

  /** `displaySections`: the built sections, else the placeholder when there is no text, else the text parsed. */
  function DisplaySections<M>(sections: seq<Section<M>>, feedbackContent: string): seq<Section<M>>
  {
    if sections != [] then sections
    else if feedbackContent == [] then [Section("Feedback", PendingFeedbackBody, [])]
    else ParsedSections(feedbackContent)
  }

  /**
   * The view always has a section to show: the built sections when there
   * are any, and otherwise sections without moments, the placeholder
   * exactly when there is no text at all.
   */
  lemma DisplaySectionsNeverEmpty<M>(sections: seq<Section<M>>, feedbackContent: string)
    ensures var r := DisplaySections(sections, feedbackContent);
      && |r| >= 1
      && (sections != [] ==> r == sections)
      && (sections == [] ==> forall j :: 0 <= j < |r| ==> r[j].playableMoments == [])
      && (sections == [] && feedbackContent == [] ==> r[0].content == PendingFeedbackBody)
  {
    if sections == [] && feedbackContent != [] {
      ParsedSectionsShape<M>(feedbackContent);
      ParsedSectionsTitles<M>(feedbackContent);
    }
  }

  /** `transcriptText`: the stored transcript trimmed, and nil when nothing is left. */
  function TranscriptText(stored: Option<string>): Option<string>
  {
    var trimmed := if stored.Some? then Trim(stored.value) else "";
    if trimmed == [] then None else Some(trimmed)
  }

  /** The transcript is nil exactly when none is stored or it is blank; otherwise it is already trimmed. */
  lemma TranscriptTextNilIffBlank(stored: Option<string>)
    ensures TranscriptText(stored).None? <==> stored.None? || IsBlankString(stored.value)
    ensures TranscriptText(stored).Some? ==>
      var t := TranscriptText(stored).value; t != [] && Trim(t) == t
  {
    if stored.Some? {
      TrimEmptyIffBlank(stored.value);
      var t := Trim(stored.value);
      if t != [] {
        TrimOfTrimmed(t);
      }
    }
  }

  /** `transcriptStatusLabel`. */
  function TranscriptStatusLabel(status: ProcessingStatus): Option<string>
  {
    match status
    case Complete => Some("Ready")
    case Processing => Some("Transcribing...")
    case Failed => Some("Failed")
    case Pending => None
  }

  /** Only a pending transcription has no label, and different statuses never share one. */
  lemma TranscriptStatusLabelDistinct(a: ProcessingStatus, b: ProcessingStatus)
    ensures TranscriptStatusLabel(a).None? <==> a == ProcessingStatus.Pending
    ensures TranscriptStatusLabel(a) == TranscriptStatusLabel(b) ==> a == b
  {
  }
}
