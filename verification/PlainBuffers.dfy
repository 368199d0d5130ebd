/**
 * Edited buffers that were not printed by the program: without frontmatter, with a fence left open, with a heading, or
 * with Windows line breaks. What title, tags and body come out, in terms of the text alone.
 */
module PlainBuffers {
  import opened Text
  import opened Bytes
  import opened Trimming
  import opened EditBuffer

  // ---------------------------------------------------------------- lines

  lemma {:induction false} LineEndIs(x: string, y: string)
    requires '\n' !in x
    ensures LineEnd(x) == |x| && LineEnd(x + ("\n" + y)) == |x|
  {
    var s := x + ("\n" + y);
    if x == "" {
      assert s == "\n" + y;
    } else {
      assert x[0] in x && s[0] == x[0] && s[1..] == x[1..] + ("\n" + y);
      LineEndIs(x[1..], y);
    }
  }

  lemma FirstLineIs(x: string, y: string)
    requires '\n' !in x
    ensures Lines(x + ("\n" + y)) == [WithoutCr(x)] + Lines(y)
    ensures x != "" ==> Lines(x) == [x]
  {
    LineEndIs(x, y);
    var s := x + ("\n" + y);
    assert s[..|x|] == x && s[|x| + 1..] == y;
  }

  lemma {:induction false} NoBreakStays(x: string)
    requires '\n' !in x
    ensures ReplaceCrLf(x) == x
  {
    if x != "" {
      assert !("\r\n" <= x) by {
        assert |x| > 1 ==> x[1] in x;
      }
      NoBreakStays(x[1..]);
      assert x == [x[0]] + x[1..];
    }
  }

  lemma ReplaceStep(s: string)
    requires s != "" && !(|s| > 1 && s[0] == '\r' && s[1] == '\n')
    ensures ReplaceCrLf(s) == [s[0]] + ReplaceCrLf(s[1..])
  {}

  lemma KeptStep(u: string, t: string)
    requires u != "" && '\n' !in u && t != "" && (u[|u| - 1] == '\r' ==> t[0] != '\n')
    ensures ReplaceCrLf(u + t) == [u[0]] + ReplaceCrLf(u[1..] + t)
  {
    assert (u + t)[1..] == u[1..] + t && (u + t)[0] == u[0];
    assert (u + t)[1] == if |u| > 1 then u[1] else t[0];
    assert |u| > 1 ==> u[1] in u;
    ReplaceStep(u + t);
  }

  lemma PutBack(u: string, r: string)
    requires u != ""
    ensures [u[0]] + (u[1..] + r) == u + r
  {}

  /** What comes before a break is kept, if it does not end in the carriage return of that break. */
  lemma {:induction false} KeptInFront(u: string, t: string, r: string)
    requires '\n' !in u && t != "" && (u != "" && u[|u| - 1] == '\r' ==> t[0] != '\n') && ReplaceCrLf(t) == r
    ensures ReplaceCrLf(u + t) == u + r
  {
    if u == "" {
      assert u + t == t;
    } else {
      KeptStep(u, t);
      assert forall c :: c in u[1..] ==> c in u;
      KeptInFront(u[1..], t, r);
      PutBack(u, r);
    }
  }

  lemma BreakReplaced(y: string)
    ensures ReplaceCrLf("\n" + y) == "\n" + ReplaceCrLf(y) == ReplaceCrLf("\r\n" + y)
  {
    assert ("\n" + y)[1..] == y && ("\r\n" + y)[2..] == y && ("\r\n" + y)[..2] == "\r\n";
  }

  lemma LineReplaced(x: string, y: string)
    requires '\n' !in x
    ensures ReplaceCrLf(x + ("\n" + y)) == WithoutCr(x) + ("\n" + ReplaceCrLf(y))
  {
    BreakReplaced(y);
    if x != "" && x[|x| - 1] == '\r' {
      var u := x[..|x| - 1];
      assert x + ("\n" + y) == u + ("\r\n" + y);
      assert forall c :: c in u ==> c in x;
      KeptInFront(u, "\r\n" + y, "\n" + ReplaceCrLf(y));
    } else {
      KeptInFront(x, "\n" + y, "\n" + ReplaceCrLf(y));
    }
  }

  lemma {:induction false} FirstBreak(s: string)
    ensures '\n' !in s[..LineEnd(s)]
    ensures LineEnd(s) < |s| ==> s == s[..LineEnd(s)] + ("\n" + s[LineEnd(s) + 1..])
  {
    if s != "" && s[0] != '\n' {
      FirstBreak(s[1..]);
      var n := LineEnd(s[1..]);
      assert s[..n + 1] == [s[0]] + s[1..][..n];
    }
  }

  /** Joined, up to a break at the end. */
  predicate Rejoins(s: string, lines: seq<string>) {
    s == Join(lines, "\n") || s == Join(lines, "\n") + "\n"
  }

  lemma OneMoreLine(first: string, s: string, lines: seq<string>)
    requires Rejoins(s, lines) && (lines == [] ==> s == "")
    ensures Rejoins(first + ("\n" + s), [first] + lines)
  {
    if lines == [] {
      assert first + ("\n" + "") == first + "\n";
    } else {
      JoinOfCons(first, lines, "\n");
      var j := Join(lines, "\n");
      assert first + ("\n" + (j + "\n")) == (first + "\n" + j) + "\n";
      assert first + ("\n" + j) == first + "\n" + j;
    }
  }

  /** The lines joined are the text with plain breaks, up to a break at the end. */
  lemma {:induction false} LinesRejoin(s: string)
    ensures Rejoins(ReplaceCrLf(s), Lines(s))
    decreases |s|
  {
    if s != "" {
      var n := LineEnd(s);
      FirstBreak(s);
      if n == |s| {
        assert s[..n] == s;
        NoBreakStays(s);
      } else {
        var x, y := s[..n], s[n + 1..];
        FirstLineIs(x, y);
        LineReplaced(x, y);
        LinesRejoin(y);
        OneMoreLine(WithoutCr(x), ReplaceCrLf(y), Lines(y));
      }
    }
  }

  lemma TrimOfLines(s: string)
    ensures Trim(Join(Lines(s), "\n")) == Trim(ReplaceCrLf(s))
  {
    LinesRejoin(s);
    TrimIgnoresTail(Join(Lines(s), "\n"), "\n", Whitespace);
  }

  lemma {:induction false} PlainBreaksStay(s: string)
    requires '\r' !in s
    ensures ReplaceCrLf(s) == s
  {
    if s != "" {
      assert s[0] in s && s == [s[0]] + s[1..] && forall c :: c in s[1..] ==> c in s;
      PlainBreaksStay(s[1..]);
    }
  }

  // ---------------------------------------------------------------- headings

  predicate Blank(s: string) {
    OnlyOf(s, Whitespace) && '\n' !in s
  }

  /** A heading line: blanks, the mark, blanks, the title, blanks. */
  function Heading(before: string, between: string, title: string, behind: string): string {
    before + ("# " + (between + title)) + behind
  }

  lemma HeadingIsTrimmed(before: string, between: string, title: string, behind: string)
    requires Blank(before) && Blank(between) && Blank(behind) && Bare(title, Whitespace)
    ensures Trim(Heading(before, between, title, behind)) == "# " + (between + title)
    ensures Trim(Trim(Heading(before, between, title, behind))[2..]) == title
  {
    var core := "# " + (between + title);
    assert core[0] == '#' && core[|core| - 1] == title[|title| - 1];
    TrimIgnoresTail(before + core, behind, Whitespace);
    TrimIgnoresHead(before, core, Whitespace);
    BareIsTrimmed(core, Whitespace);
    assert core[2..] == between + title;
    TrimIgnoresHead(between, title, Whitespace);
    BareIsTrimmed(title, Whitespace);
  }

  lemma HeadingOpensNothing(before: string, between: string, title: string, behind: string, rest: string)
    requires Blank(before)
    ensures !("---" <= TrimStart(Heading(before, between, title, behind) + rest, Whitespace))
  {
    var tail := ("# " + (between + title)) + behind + rest;
    assert Heading(before, between, title, behind) + rest == before + tail;
    StartOfConcat(before, tail, Whitespace);
    assert tail[0] == '#' && TrimStart(tail, Whitespace) == tail;
  }

  lemma NothingOpened(content: string, defaults: Meta, lower: string -> string)
    requires !("---" <= TrimStart(content, Whitespace))
    ensures Parse(content, defaults, lower) == Fallback(content, defaults)
  {}

  lemma BlankLineBehind(line: string)
    ensures Trim(WithoutCr(line)) == Trim(line)
  {
    if line != "" && line[|line| - 1] == '\r' {
      TrimIgnoresTail(line[..|line| - 1], "\r", Whitespace);
      assert line == line[..|line| - 1] + "\r";
    }
  }

  /** A buffer that begins with a heading: it is the title, the tags stay, and the rest is the body. */
  lemma HeadingIsRead(before: string, between: string, title: string, behind: string, rest: string, defaults: Meta,
                      lower: string -> string)
    requires Blank(before) && Blank(between) && Blank(behind) && Bare(title, Whitespace) && '\n' !in title
    ensures Parse(Heading(before, between, title, behind) + ("\n" + rest), defaults, lower)
         == Note(title, defaults.tags, Trim(ReplaceCrLf(rest)))
  {
    var line := Heading(before, between, title, behind);
    HeadingOpensNothing(before, between, title, behind, "\n" + rest);
    FirstLineIs(line, rest);
    HeadingIsTrimmed(before, between, title, behind);
    BlankLineBehind(line);
    TrimOfLines(rest);
    FirstLineDecides(line + ("\n" + rest), WithoutCr(line), Lines(rest), defaults);
  }

  lemma FirstLineDecides(content: string, first: string, more: seq<string>, defaults: Meta)
    requires Lines(content) == [first] + more && "# " <= Trim(first)
    ensures Fallback(content, defaults) == Note(Trim(Trim(first)[2..]), defaults.tags, Trim(Join(more, "\n")))
  {
    assert ([first] + more)[1..] == more;
  }

  /** In plain words: the heading `# t` over a body without carriage returns. */
  lemma PlainHeadingIsRead(t: string, b: string, defaults: Meta, lower: string -> string)
    requires Bare(t, Whitespace) && '\n' !in t && '\r' !in b
    ensures Parse("# " + t + ("\n" + b), defaults, lower) == Note(t, defaults.tags, Trim(b))
  {
    HeadingIsRead("", "", t, "", b, defaults, lower);
    PlainBreaksStay(b);
    assert Heading("", "", t, "") == "# " + t;
  }

  /** A heading alone has no body. */
  lemma LoneHeadingIsRead(t: string, defaults: Meta, lower: string -> string)
    requires Bare(t, Whitespace) && '\n' !in t
    ensures Parse("# " + t, defaults, lower) == Note(t, defaults.tags, "")
  {
    var line := Heading("", "", t, "");
    assert line == "# " + t && line + "" == line;
    HeadingOpensNothing("", "", t, "", "");
    HeadingIsTrimmed("", "", t, "");
    FirstLineIs(line, "");
    OneLineBuffer(line, defaults, lower);
  }

  lemma OneLineBuffer(line: string, defaults: Meta, lower: string -> string)
    requires Lines(line) == [line] && "# " <= Trim(line) && !("---" <= TrimStart(line, Whitespace))
    ensures Parse(line, defaults, lower) == Note(Trim(Trim(line)[2..]), defaults.tags, "")
  {
    assert [line] == [line] + [];
    FirstLineDecides(line, line, [], defaults);
    NothingOpened(line, defaults, lower);
  }

  // ---------------------------------------------------------------- everything else

  /** The first line is a heading. */
  predicate StartsWithHeading(content: string) {
    "# " <= Trim(content[..LineEnd(content)])
  }

  lemma FirstLineOf(content: string)
    requires content != ""
    ensures Lines(content) != [] && Trim(Lines(content)[0]) == Trim(content[..LineEnd(content)])
  {
    assert LineEnd(content) == |content| ==> content[..LineEnd(content)] == content;
    BlankLineBehind(content[..LineEnd(content)]);
  }

  lemma OtherwiseDefaults(content: string, defaults: Meta)
    requires !StartsWithHeading(content)
    ensures Fallback(content, defaults) == Note(defaults.title, defaults.tags, Trim(content))
  {
    if content != "" {
      FirstLineOf(content);
    }
  }

  /** Neither a fence nor a heading: the defaults stay, and all of it is the body. */
  lemma PlainBufferIsBody(content: string, defaults: Meta, lower: string -> string)
    requires !("---" <= TrimStart(content, Whitespace)) && !StartsWithHeading(content)
    ensures Parse(content, defaults, lower) == Note(defaults.title, defaults.tags, Trim(content))
  {
    OtherwiseDefaults(content, defaults);
  }

  /** A text that opens with a fence, whatever blanks come first, starts with no heading. */
  lemma FenceIsNoHeading(content: string)
    requires "---" <= TrimStart(content, Whitespace)
    ensures !StartsWithHeading(content)
  {
    var t, n := TrimStart(content, Whitespace), LineEnd(content);
    StartIsBare(content, Whitespace);
    var k := |content| - |t|;
    var line, rest := content[..n], content[n..];
    assert content == line + rest;
    StartOfConcat(line, rest, Whitespace);
    StartOfNothing(line, Whitespace);
    if !OnlyOf(line, Whitespace) {
      StartIsBare(line, Whitespace);
      var l := TrimStart(line, Whitespace);
      EndIsBare(l, Whitespace);
      assert t == l + rest && l[0] == t[0] == '-';
      assert Trim(line) != "" ==> Trim(line)[0] == l[0];
    }
  }

  /** A fence that is never closed, nothing but ASCII after it: the defaults stay, and all of it is the body. */
  lemma UnclosedFenceIsBody(content: string, defaults: Meta, lower: string -> string)
    requires "---" <= TrimStart(content, Whitespace)
    requires var after := AfterOpening(TrimStart(content, Whitespace)[3..]);
             IsAscii(after) && NoFence(after, 0, |after|)
    ensures Parse(content, defaults, lower) == Note(defaults.title, defaults.tags, Trim(content))
  {
    var after := AfterOpening(TrimStart(content, Whitespace)[3..]);
    SearchSkips(after, 0, |after|);
    assert after[0..|after|] == after;
    FenceIsNoHeading(content);
    OtherwiseDefaults(content, defaults);
  }

  // ---------------------------------------------------------------- frontmatter, with either line break

  predicate IsBreak(nl: string) {
    nl == "\n" || nl == "\r\n"
  }

  /** No line of the frontmatter but the first starts with a dash, and it does not end in a carriage return. */
  predicate NoDashedLine(front: string) {
    && (forall k :: 0 <= k < |front| && front[k] == '\n' ==> k + 1 == |front| || front[k + 1] != '-')
    && (front != "" ==> front[|front| - 1] != '\r')
  }

  function Fenced(front: string, body: string, nl: string): string {
    "---" + (nl + AfterFence(front, body, nl))
  }

  /** What follows the opening fence line. */
  function AfterFence(front: string, body: string, nl: string): string {
    front + (nl + ("---" + (nl + body)))
  }

  lemma PlainFenceStarts(s: string, k: nat)
    requires k <= |s| && "\n---" <= s[k..]
    ensures k + 1 < |s| && s[k] == '\n' && s[k + 1] == '-'
  {
    assert s[k..][0] == '\n' && s[k..][1] == '-';
  }

  lemma WindowsFenceStarts(s: string, k: nat)
    requires k <= |s| && "\r\n---" <= s[k..]
    ensures k + 2 < |s| && s[k] == '\r' && s[k + 1] == '\n' && s[k + 2] == '-'
  {
    assert s[k..][0] == '\r' && s[k..][1] == '\n' && s[k..][2] == '-';
  }

  lemma NoEarlierFence(front: string, body: string, nl: string, k: nat)
    requires IsBreak(nl) && NoDashedLine(front) && k < |front|
    ensures FenceAt(AfterFence(front, body, nl), k).None?
  {
    var s := AfterFence(front, body, nl);
    assert s[|front|] == nl[0] && forall i :: 0 <= i < |front| ==> s[i] == front[i];
    if "\n---" <= s[k..] {
      PlainFenceStarts(s, k);
    } else if "\r\n---" <= s[k..] {
      WindowsFenceStarts(s, k);
    }
  }

  lemma ClosingFenceAt(front: string, body: string, nl: string)
    requires IsBreak(nl)
    ensures FenceAt(AfterFence(front, body, nl), |front|) == Some(|front| + |nl|)
  {
    var s := AfterFence(front, body, nl);
    assert s[|front|..] == nl + ("---" + (nl + body));
    assert s[|front| + |nl| + 3..] == nl + body;
    if nl == "\n" {
      assert s[|front|..][..4] == "\n---";
    } else {
      assert s[|front|..][..5] == "\r\n---" && s[|front|..][0] == '\r';
    }
  }

  lemma FenceIsFound(front: string, body: string, nl: string)
    requires IsBreak(nl) && NoDashedLine(front) && IsAscii(front)
    ensures Closing(AfterFence(front, body, nl), 0) == FoundAt(|front| + |nl|)
  {
    var s := AfterFence(front, body, nl);
    forall k | 0 <= k < |front| ensures FenceAt(s, k).None? {
      NoEarlierFence(front, body, nl, k);
    }
    SearchSkips(s, 0, |front|);
    assert s[0..|front|] == front;
    ClosingFenceAt(front, body, nl);
  }

  lemma OpeningIsCutOff(front: string, body: string, nl: string)
    requires IsBreak(nl)
    ensures var content := Fenced(front, body, nl);
            && TrimStart(content, Whitespace) == content && "---" <= content
            && AfterOpening(content[3..]) == AfterFence(front, body, nl)
  {
    var content := Fenced(front, body, nl);
    assert content[0] == '-' && content[..3] == "---";
    assert content[3..] == nl + AfterFence(front, body, nl);
    if nl == "\n" {
      assert content[3..][0] == '\n';
    } else {
      assert content[3..][..2] == "\r\n";
    }
  }

  /**
   * Frontmatter between fences, with plain or Windows line breaks: its lines are read, and what follows the closing
   * fence is the body.
   */
  lemma FencedIsRead(front: string, body: string, nl: string, defaults: Meta, lower: string -> string)
    requires IsBreak(nl) && NoDashedLine(front) && IsAscii(front)
    ensures var meta := ReadLines(defaults, Lines(front + nl), lower);
            Parse(Fenced(front, body, nl), defaults, lower) == Note(meta.title, meta.tags, Trim(body))
  {
    OpeningIsCutOff(front, body, nl);
    FenceIsFound(front, body, nl);
    FenceParts(front, body, nl);
    FoundFenceIsRead(Fenced(front, body, nl), AfterFence(front, body, nl), |front| + |nl|, defaults, lower);
  }

  lemma FenceParts(front: string, body: string, nl: string)
    requires IsBreak(nl)
    ensures var s, pos := AfterFence(front, body, nl), |front| + |nl|;
            pos + 3 <= |s| && s[..pos] == front + nl && Trim(s[pos + 3..]) == Trim(body)
  {
    var s, pos := AfterFence(front, body, nl), |front| + |nl|;
    assert s[pos + 3..] == nl + body;
    TrimIgnoresHead(nl, body, Whitespace);
  }

  lemma FoundFenceIsRead(content: string, after: string, pos: nat, defaults: Meta, lower: string -> string)
    requires TrimStart(content, Whitespace) == content && "---" <= content && AfterOpening(content[3..]) == after
    requires Closing(after, 0) == FoundAt(pos) && pos + 3 <= |after|
    ensures var meta := ReadLines(defaults, Lines(after[..pos]), lower);
            Parse(content, defaults, lower) == Note(meta.title, meta.tags, Trim(after[pos + 3..]))
  {}

  /** Lines that are neither title nor tags change nothing, and an empty title leaves the one there was. */
  lemma OtherLinesChangeNothing(meta: Meta, line: string, lower: string -> string)
    requires !("title:" <= Trim(line)) && !("tags:" <= Trim(line))
    ensures ReadLine(meta, line, lower) == meta
  {}

  /** A title line of a Windows buffer: the carriage return is no part of the title. */
  lemma WindowsTitleIsRead(title: string, body: string, defaults: Meta, lower: string -> string)
    requires Bare(title, Whitespace) && Bare(title, QUOTE) && Bare(title, APOSTROPHE) && IsAscii(title)
    requires '\n' !in title && '\r' !in title
    ensures Parse("---\r\ntitle: " + title + "\r\n---\r\n" + body, defaults, lower)
         == Note(title, defaults.tags, Trim(body))
  {
    var front := "title: " + title;
    WindowsBuffer(title, body);
    TitleFront(title);
    FencedIsRead(front, body, "\r\n", defaults, lower);
    OneWindowsLine(front);
    TitleLineIsRead(defaults, title, lower);
    OneLineRead(defaults, front, lower);
  }

  lemma WindowsBuffer(title: string, body: string)
    ensures "---\r\ntitle: " + title + "\r\n---\r\n" + body == Fenced("title: " + title, body, "\r\n")
  {
    var front := "title: " + title;
    assert "---\r\ntitle: " + title == "---" + ("\r\n" + front);
    assert "\r\n---\r\n" + body == "\r\n" + ("---" + ("\r\n" + body));
  }

  lemma TitleFront(title: string)
    requires title != "" && IsAscii(title) && '\n' !in title && '\r' !in title
    ensures NoDashedLine("title: " + title) && IsAscii("title: " + title) && '\n' !in "title: " + title
  {
    var front := "title: " + title;
    assert front[|front| - 1] == title[|title| - 1] && title[|title| - 1] in title;
    forall i | 0 <= i < |front| ensures front[i] as int < 0x80 && front[i] != '\n' {
      assert i >= 7 ==> front[i] == title[i - 7] && title[i - 7] in title;
    }
  }

  lemma OneWindowsLine(line: string)
    requires '\n' !in line
    ensures Lines(line + "\r\n") == [line]
  {
    assert line + "\r\n" == (line + "\r") + ("\n" + "");
    FirstLineIs(line + "\r", "");
    assert (line + "\r")[..|line|] == line && [line] + [] == [line];
  }

  lemma OneLineRead(meta: Meta, line: string, lower: string -> string)
    ensures ReadLines(meta, [line], lower) == ReadLine(meta, line, lower)
  {
    assert [line][1..] == [];
  }

  lemma TitleLineIsRead(meta: Meta, title: string, lower: string -> string)
    requires Bare(title, Whitespace) && Bare(title, QUOTE) && Bare(title, APOSTROPHE)
    ensures ReadLine(meta, "title: " + title, lower) == meta.(title := title)
  {
    var l := "title: " + title;
    assert l[|l| - 1] == title[|title| - 1];
    BareIsTrimmed(l, Whitespace);
    assert l[..6] == "title:" && l[6..] == " " + title;
    TrimIgnoresHead(" ", title, Whitespace);
    BareIsTrimmed(title, Whitespace);
    BareIsTrimmed(title, QUOTE);
    BareIsTrimmed(title, APOSTROPHE);
  }

  // ---------------------------------------------------------------- tags as people write them

  lemma {:induction false} TagsOfConcat(ps: seq<string>, qs: seq<string>, lower: string -> string)
    ensures CleanTags(ps + qs, lower) == CleanTags(ps, lower) + CleanTags(qs, lower)
  {
    if ps == [] {
      assert ps + qs == qs;
    } else {
      assert (ps + qs)[1..] == ps[1..] + qs;
      TagsOfConcat(ps[1..], qs, lower);
    }
  }

  predicate IsQuote(q: string) {
    q == "" || q == "\"" || q == "'"
  }

  /** A tag between quotes of either kind, or none, and blanks. */
  function Written(before: string, q: string, tag: string, behind: string): string {
    before + (q + (tag + q)) + behind
  }

  lemma QuotesComeOff(q: string, tag: string)
    requires IsQuote(q) && Bare(tag, Whitespace) && Bare(tag, QUOTE) && Bare(tag, APOSTROPHE)
    ensures TrimBoth(TrimBoth(q + (tag + q), QUOTE), APOSTROPHE) == tag
  {
    BareIsTrimmed(tag, QUOTE);
    BareIsTrimmed(tag, APOSTROPHE);
    if q == "\"" {
      TrimIgnoresHead(q, tag + q, QUOTE);
      TrimIgnoresTail(tag, q, QUOTE);
    } else if q == "'" {
      BareIsTrimmed(q + (tag + q), QUOTE);
      TrimIgnoresHead(q, tag + q, APOSTROPHE);
      TrimIgnoresTail(tag, q, APOSTROPHE);
    } else {
      assert q + (tag + q) == tag;
    }
  }

  /** Each tag is read without blanks and quotes and in lower case; one that is empty then is dropped. */
  lemma WrittenTagIsRead(before: string, q: string, tag: string, behind: string, lower: string -> string)
    requires OnlyOf(before, Whitespace) && OnlyOf(behind, Whitespace) && IsQuote(q)
    requires Bare(tag, Whitespace) && Bare(tag, QUOTE) && Bare(tag, APOSTROPHE)
    ensures CleanTags([Written(before, q, tag, behind)], lower) == if lower(tag) == "" then [] else [lower(tag)]
  {
    var core := q + (tag + q);
    TrimIgnoresTail(before + core, behind, Whitespace);
    TrimIgnoresHead(before, core, Whitespace);
    BareIsTrimmed(core, Whitespace);
    QuotesComeOff(q, tag);
    assert [Written(before, q, tag, behind)][1..] == [];
  }

  /** Nothing but blanks between two commas is no tag. */
  lemma BlankTagIsDropped(blanks: string, lower: string -> string)
    requires OnlyOf(blanks, Whitespace) && lower("") == ""
    ensures CleanTags([blanks], lower) == []
  {
    StartOfNothing(blanks, Whitespace);
    assert [blanks][1..] == [];
  }
}
