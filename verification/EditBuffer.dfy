/**
 * The `$EDITOR` buffer: a note printed as Markdown with frontmatter, and the parser that reads it back.
 *
 * Text is a sequence of Unicode characters. The parser's fence search steps through the UTF-8 bytes one at a time
 * and slices at each, which aborts inside a character that is not ASCII; `Panic` is that outcome.
 */
module EditBuffer {
  import opened Text
  import opened Bytes
  import opened Trimming

  datatype Parsed = Note(title: string, tags: seq<string>, body: string) | Panic

  // ---------------------------------------------------------------- the closing fence

  /** After the three dashes the line ends. */
  predicate EndsLine(after: string) {
    after == "" || "\n" <= after || "\r\n" <= after
  }

  /** The fence position if a closing fence starts at `i`: just behind its line break. */
  function FenceAt(s: string, i: nat): Option<nat>
    requires i <= |s|
  {
    if "\n---" <= s[i..] then if EndsLine(s[i + 4..]) then Some(i + 1) else None
    else if "\r\n---" <= s[i..] then if EndsLine(s[i + 5..]) then Some(i + 2) else None
    else None
  }

  datatype Search = FoundAt(pos: nat) | Missing | Abort

  /** The first fence from `i` on, unless a character outside ASCII comes first. */
  function Closing(s: string, i: nat): Search
    requires i <= |s|
    decreases |s| - i
  {
    if i == |s| then Missing
    else if FenceAt(s, i).Some? then FoundAt(FenceAt(s, i).value)
    else if s[i] as int >= 0x80 then Abort
    else Closing(s, i + 1)
  }

  function ByteLen(s: string): nat {
    if s == "" then 0 else Utf8Width(s[0]) + ByteLen(s[1..])
  }

  /** `&s[pos..]`: `None` if `pos` is inside a character or past the end, where the slice aborts. */
  function SliceFrom(s: string, pos: nat): Option<string> {
    if pos == 0 then Some(s)
    else if s == "" || pos < Utf8Width(s[0]) then None
    else SliceFrom(s[1..], pos - Utf8Width(s[0]))
  }

  lemma {:induction false} BytesOfAsciiPrefix(s: string, i: nat)
    requires i <= |s| && IsAscii(s[..i])
    ensures SliceFrom(s, i) == Some(s[i..])
    ensures ByteLen(s) == i + ByteLen(s[i..])
  {
    if i == 0 {
      assert s[0..] == s;
    } else {
      assert s[..i][0] == s[0];
      assert s[1..][..i - 1] == s[..i][1..];
      assert s[1..][i - 1..] == s[i..];
      BytesOfAsciiPrefix(s[1..], i - 1);
    }
  }

  /** One byte into a wide character there is no slice, and the text has not ended. */
  lemma {:induction false} WideCharacterAborts(s: string, i: nat)
    requires i < |s| && IsAscii(s[..i]) && s[i] as int >= 0x80
    ensures SliceFrom(s, i + 1).None? && i + 1 < ByteLen(s)
  {
    if i > 0 {
      assert s[..i][0] == s[0];
      assert s[1..][..i - 1] == s[..i][1..];
      WideCharacterAborts(s[1..], i - 1);
    }
  }

  /** The position `pos` in the loop: behind ASCII only, or one byte into a wide character. */
  ghost predicate Searching(s: string, pos: nat) {
    || (pos <= |s| && IsAscii(s[..pos]) && Closing(s, 0) == Closing(s, pos))
    || (pos < ByteLen(s) && SliceFrom(s, pos).None? && Closing(s, 0) == Abort)
  }

  lemma ClosingStep(s: string, pos: nat)
    requires pos < |s| && FenceAt(s, pos).None?
    ensures Closing(s, pos) == if s[pos] as int >= 0x80 then Abort else Closing(s, pos + 1)
  {}

  lemma ByteStep(s: string, pos: nat)
    requires pos < |s| && IsAscii(s[..pos])
    ensures pos + 1 <= ByteLen(s)
    ensures if s[pos] as int >= 0x80 then pos + 1 < ByteLen(s) && SliceFrom(s, pos + 1).None? else IsAscii(s[..pos + 1])
  {
    if s[pos] as int >= 0x80 {
      WideCharacterAborts(s, pos);
    } else {
      assert s[..pos + 1] == s[..pos] + [s[pos]];
      BytesOfAsciiPrefix(s, pos + 1);
    }
  }

  /** Steps byte by byte; the slice taken at each step aborts inside a wide character. */
  method FindClosingFence(s: string) returns (r: Search)
    ensures r == Closing(s, 0)
  {
    var pos: nat := 0;
    while pos < ByteLen(s)
      invariant pos <= ByteLen(s) && Searching(s, pos)
    {
      var slice := SliceFrom(s, pos);
      if slice.None? {
        SliceIsThere(s, pos);
        return Abort;
      }
      BytesOfSearch(s, pos);
      var rest := slice.value;
      if "\n---" <= rest {
        if EndsLine(rest[4..]) {
          return FoundAt(pos + 1);
        }
      } else if "\r\n---" <= rest {
        if EndsLine(rest[5..]) {
          return FoundAt(pos + 2);
        }
      }
      ClosingStep(s, pos);
      ByteStep(s, pos);
      pos := pos + 1;
    }
    AtTheEnd(s, pos);
    return Missing;
  }

  lemma SliceIsThere(s: string, pos: nat)
    requires Searching(s, pos) && SliceFrom(s, pos).None?
    ensures Closing(s, 0) == Abort
  {
    if pos <= |s| && IsAscii(s[..pos]) {
      BytesOfAsciiPrefix(s, pos);
    }
  }

  lemma BytesOfSearch(s: string, pos: nat)
    requires Searching(s, pos) && SliceFrom(s, pos).Some? && pos < ByteLen(s)
    ensures pos < |s| && IsAscii(s[..pos]) && Closing(s, 0) == Closing(s, pos)
    ensures SliceFrom(s, pos).value == s[pos..]
    ensures |s[pos..]| >= 4 ==> s[pos..][4..] == s[pos + 4..]
    ensures |s[pos..]| >= 5 ==> s[pos..][5..] == s[pos + 5..]
  {
    BytesOfAsciiPrefix(s, pos);
  }

  lemma AtTheEnd(s: string, pos: nat)
    requires Searching(s, pos) && pos == ByteLen(s)
    ensures Closing(s, 0) == Missing
  {
    BytesOfAsciiPrefix(s, pos);
    assert s[pos..] == "";
  }

  // ---------------------------------------------------------------- what the search finds

  ghost predicate NoFence(s: string, i: nat, j: nat)
    requires i <= j <= |s|
  {
    forall k :: i <= k < j ==> FenceAt(s, k).None?
  }

  lemma {:induction false} SearchSkips(s: string, i: nat, j: nat)
    requires i <= j <= |s| && NoFence(s, i, j)
    ensures Closing(s, i) == if IsAscii(s[i..j]) then Closing(s, j) else Abort
    decreases j - i
  {
    if i < j {
      assert s[i..j] == [s[i]] + s[i + 1..j];
      assert FenceAt(s, i).None?;
      SearchSkips(s, i + 1, j);
    }
  }

  /** A character outside ASCII with no fence before it. */
  ghost predicate WideBeforeFence(s: string, i: nat, j: nat) {
    i <= j < |s| && s[j] as int >= 0x80 && NoFence(s, i, j)
  }

  lemma {:induction false} AbortHasReason(s: string, i: nat) returns (j: nat)
    requires i <= |s| && Closing(s, i) == Abort
    ensures WideBeforeFence(s, i, j)
    decreases |s| - i
  {
    if s[i] as int >= 0x80 {
      j := i;
    } else {
      j := AbortHasReason(s, i + 1);
    }
  }

  lemma ReasonAborts(s: string, j: nat)
    requires WideBeforeFence(s, 0, j)
    ensures Closing(s, 0) == Abort
  {
    SearchSkips(s, 0, j);
  }

  // ---------------------------------------------------------------- printing

  function TagList(tags: seq<string>): string {
    "[" + Join(tags, ", ") + "]"
  }

  function Print(title: string, tags: seq<string>, body: string): string {
    "---\n" + (Front(title, tags) + ("---\n\n" + body + "\n"))
  }

  /** The two lines between the fences. */
  function Front(title: string, tags: seq<string>): string {
    "title: " + title + "\n" + ("tags: " + TagList(tags) + "\n")
  }

  // ---------------------------------------------------------------- parsing

  function LineEnd(s: string): (n: nat)
    ensures n <= |s|
  {
    if s == "" || s[0] == '\n' then 0 else 1 + LineEnd(s[1..])
  }

  function WithoutCr(line: string): string {
    if line != "" && line[|line| - 1] == '\r' then line[..|line| - 1] else line
  }

  /** `str::lines`: a final line break starts no line, and `\r\n` breaks lines like `\n`. */
  function Lines(s: string): seq<string> {
    if s == "" then []
    else
      var n := LineEnd(s);
      if n == |s| then [s] else [WithoutCr(s[..n])] + Lines(s[n + 1..])
  }

  function Unquoted(s: string): string {
    TrimBoth(TrimBoth(Trim(s), Just('"')), Just('\''))
  }

  /** Pieces cleaned and lower-cased; empty ones dropped. */
  function CleanTags(pieces: seq<string>, lower: string -> string): seq<string> {
    if pieces == [] then []
    else
      var tag, rest := lower(Unquoted(pieces[0])), CleanTags(pieces[1..], lower);
      if tag == "" then rest else [tag] + rest
  }

  function TagsOf(val: string, lower: string -> string): seq<string> {
    CleanTags(Split(TrimBoth(TrimBoth(Trim(val), Just('[')), Just(']')), ','), lower)
  }

  datatype Meta = Meta(title: string, tags: seq<string>)

  function ReadLine(meta: Meta, line: string, lower: string -> string): Meta {
    var l := Trim(line);
    if "title:" <= l then
      var cleaned := Unquoted(l[6..]);
      if cleaned == "" then meta else meta.(title := cleaned)
    else if "tags:" <= l then meta.(tags := TagsOf(l[5..], lower))
    else meta
  }

  function ReadLines(meta: Meta, lines: seq<string>, lower: string -> string): Meta
    decreases |lines|
  {
    if lines == [] then meta else ReadLines(ReadLine(meta, lines[0], lower), lines[1..], lower)
  }

  /** Without frontmatter: a leading heading is the title, else the defaults stay. */
  function Fallback(content: string, defaults: Meta): Parsed {
    var lines := Lines(content);
    if lines != [] && "# " <= Trim(lines[0]) then
      Note(Trim(Trim(lines[0])[2..]), defaults.tags, Trim(Join(lines[1..], "\n")))
    else Note(defaults.title, defaults.tags, Trim(content))
  }

  function AfterOpening(rest: string): string {
    if "\r\n" <= rest then rest[2..] else if "\n" <= rest then rest[1..] else rest
  }

  function WithFence(after: string, pos: nat, defaults: Meta, lower: string -> string): Parsed
    requires pos + 3 <= |after|
  {
    var meta := ReadLines(defaults, Lines(after[..pos]), lower);
    Note(meta.title, meta.tags, Trim(after[pos + 3..]))
  }

  lemma {:induction false} FenceFits(s: string, i: nat)
    requires i <= |s|
    ensures Closing(s, i).FoundAt? ==> Closing(s, i).pos + 3 <= |s|
    decreases |s| - i
  {
    if i < |s| {
      FenceFits(s, i + 1);
    }
  }

  function Parse(content: string, defaults: Meta, lower: string -> string): Parsed {
    var trimmed := TrimStart(content, Whitespace);
    if "---" <= trimmed then
      var after := AfterOpening(trimmed[3..]);
      FenceFits(after, 0);
      match Closing(after, 0)
      case FoundAt(pos) => WithFence(after, pos, defaults, lower)
      case Missing => Fallback(content, defaults)
      case Abort => Panic
    else Fallback(content, defaults)
  }

  /** The line loop overwrites title and tags as it goes. */
  method ReadFrontmatter(lines: seq<string>, defaults: Meta, lower: string -> string)
    returns (title: string, tags: seq<string>)
    ensures Meta(title, tags) == ReadLines(defaults, lines, lower)
  {
    title, tags := defaults.title, defaults.tags;
    for i := 0 to |lines|
      invariant ReadLines(Meta(title, tags), lines[i..], lower) == ReadLines(defaults, lines, lower)
    {
      assert lines[i..][0] == lines[i] && lines[i..][1..] == lines[i + 1..];
      var line := Trim(lines[i]);
      if "title:" <= line {
        var cleaned := Unquoted(line[6..]);
        if cleaned != "" {
          title := cleaned;
        }
      } else if "tags:" <= line {
        tags := TagsOf(line[5..], lower);
      }
    }
  }

  method ParseEditBuffer(content: string, defaults: Meta, lower: string -> string) returns (r: Parsed)
    ensures r == Parse(content, defaults, lower)
  {
    var trimmed := TrimStart(content, Whitespace);
    if "---" <= trimmed {
      var after := AfterOpening(trimmed[3..]);
      var fence := FindClosingFence(after);
      FenceFits(after, 0);
      match fence {
        case Abort =>
          return Panic;
        case FoundAt(pos) =>
          var title, tags := ReadFrontmatter(Lines(after[..pos]), defaults, lower);
          return Note(title, tags, Trim(after[pos + 3..]));
        case Missing =>
      }
    }
    return Fallback(content, defaults);
  }

  // ---------------------------------------------------------------- the fence of a printed note

  /** One line break before `q`, not followed by a dash: no fence starts before `q`. */
  lemma OneBreakNoFence(s: string, a: nat, q: nat)
    requires a + 1 < q < |s| && s[a + 1] != '-' && s[q - 1] != '\r'
    requires forall k :: 0 <= k < q && s[k] == '\n' ==> k == a
    ensures NoFence(s, 0, q)
  {
    forall k | 0 <= k < q ensures FenceAt(s, k).None? {
      BreakStartsNoFence(s, a, q, k);
    }
  }

  lemma BreakStartsNoFence(s: string, a: nat, q: nat, k: nat)
    requires a + 1 < q < |s| && s[a + 1] != '-' && s[q - 1] != '\r' && k < q
    requires s[k] == '\n' ==> k == a
    requires k + 1 < q && s[k + 1] == '\n' ==> k + 1 == a
    ensures FenceAt(s, k).None?
  {}

  /** What follows the opening fence line of a printed note. */
  function PrintedAfter(title: string, tags: seq<string>, body: string): string {
    Front(title, tags) + ("---\n\n" + body + "\n")
  }

  predicate SingleLine(title: string, tags: seq<string>) {
    '\n' !in title && '\n' !in Join(tags, ", ")
  }

  predicate AsciiFront(title: string, tags: seq<string>) {
    IsAscii(title) && IsAscii(Join(tags, ", "))
  }

  lemma FrontShape(title: string, tags: seq<string>)
    requires SingleLine(title, tags)
    ensures var f, a := Front(title, tags), 7 + |title|;
            && |f| == a + |Join(tags, ", ")| + 10
            && f[a] == '\n' && f[a + 1] == 't' && f[|f| - 2] == ']' && f[|f| - 1] == '\n'
            && (forall k :: 0 <= k < |f| - 1 && f[k] == '\n' ==> k == a)
  {
    var x, y := "title: " + title, "tags: " + TagList(tags);
    assert '\n' !in x && '\n' !in y && y[|y| - 1] == ']';
    TwoLines(x, y);
  }

  lemma TwoLines(x: string, y: string)
    requires '\n' !in x && '\n' !in y
    ensures var f := x + "\n" + (y + "\n");
            && (forall k :: 0 <= k < |y| ==> f[|x| + 1 + k] == y[k])
            && f[|x|] == '\n' && f[|f| - 1] == '\n'
            && (forall k :: 0 <= k < |f| - 1 && f[k] == '\n' ==> k == |x|)
            && (IsAscii(f[..|f| - 1]) <==> IsAscii(x) && IsAscii(y))
  {
    var f := x + "\n" + (y + "\n");
    forall k | 0 <= k < |f| - 1
      ensures f[k] == if k < |x| then x[k] else if k == |x| then '\n' else y[k - |x| - 1]
    {}
    AsciiPieces(x, y, f[..|f| - 1]);
  }

  lemma AsciiPieces(x: string, y: string, g: string)
    requires g == x + "\n" + y
    ensures IsAscii(g) <==> IsAscii(x) && IsAscii(y)
  {
    assert forall k :: 0 <= k < |x| ==> x[k] == g[k];
    assert forall k :: 0 <= k < |y| ==> y[k] == g[|x| + 1 + k];
  }

  lemma FrontAscii(title: string, tags: seq<string>)
    requires SingleLine(title, tags)
    ensures var f := Front(title, tags); IsAscii(f[..|f| - 1]) <==> AsciiFront(title, tags)
  {
    var j := Join(tags, ", ");
    var x, y := "title: " + title, "tags: " + TagList(tags);
    assert '\n' !in x && '\n' !in y;
    TwoLines(x, y);
    AsciiInside("title: ", title, "");
    assert "title: " + title + "" == x;
    AsciiInside("tags: [", j, "]");
    assert "tags: [" + j + "]" == y;
  }

  lemma AsciiInside(a: string, x: string, b: string)
    requires IsAscii(a) && IsAscii(b)
    ensures IsAscii(a + x + b) <==> IsAscii(x)
  {
    assert forall k :: 0 <= k < |x| ==> x[k] == (a + x + b)[|a| + k];
  }

  lemma PrintedHasNoEarlyFence(title: string, tags: seq<string>, rest: string)
    requires SingleLine(title, tags)
    ensures var f := Front(title, tags); NoFence(f + rest, 0, |f| - 1)
  {
    var f := Front(title, tags);
    var s, q := f + rest, |f| - 1;
    FrontShape(title, tags);
    assert forall k :: 0 <= k <= q ==> s[k] == f[k];
    OneBreakNoFence(s, 7 + |title|, q);
  }

  lemma PrintedClosing(title: string, tags: seq<string>, body: string)
    requires SingleLine(title, tags)
    ensures var after, n := PrintedAfter(title, tags, body), |Front(title, tags)|;
            Closing(after, 0) == if AsciiFront(title, tags) then FoundAt(n) else Abort
  {
    var f, rest := Front(title, tags), "---\n\n" + body + "\n";
    var after, q := f + rest, |f| - 1;
    FrontAscii(title, tags);
    PrintedHasNoEarlyFence(title, tags, rest);
    assert after[0..q] == f[..q];
    SearchSkips(after, 0, q);
    FrontShape(title, tags);
    FenceFound(f, "\n" + body + "\n");
    assert rest == "---\n" + ("\n" + body + "\n");
  }

  lemma FenceFound(f: string, rest: string)
    requires f != "" && f[|f| - 1] == '\n'
    ensures FenceAt(f + ("---\n" + rest), |f| - 1) == Some(|f|)
  {
    var s := f + ("---\n" + rest);
    assert s[|f| - 1..] == "\n---" + ("\n" + rest);
    assert s[|f| - 1 + 4..] == "\n" + rest;
  }

  lemma PrintedOpens(title: string, tags: seq<string>, body: string)
    ensures var s := Print(title, tags, body);
            && TrimStart(s, Whitespace) == s && "---" <= s
            && AfterOpening(s[3..]) == PrintedAfter(title, tags, body)
  {
    var s, after := Print(title, tags, body), PrintedAfter(title, tags, body);
    assert s == "---\n" + after;
    assert s[3..] == "\n" + after;
    assert s[3..][0] == '\n' && s[3..][1..] == after;
    assert s[..3] == "---";
    assert s[0] == '-';
  }

  lemma PrintedParse(title: string, tags: seq<string>, body: string, defaults: Meta, lower: string -> string)
    requires SingleLine(title, tags)
    ensures var after, n := PrintedAfter(title, tags, body), |Front(title, tags)|;
            && n + 3 <= |after|
            && Parse(Print(title, tags, body), defaults, lower)
                 == if AsciiFront(title, tags) then WithFence(after, n, defaults, lower) else Panic
  {
    PrintedOpens(title, tags, body);
    PrintedClosing(title, tags, body);
  }

  /** A printed note comes back from the parser unless its title or a tag has a character outside ASCII. */
  lemma PrintedPanicsExactly(title: string, tags: seq<string>, body: string, defaults: Meta, lower: string -> string)
    requires SingleLine(title, tags)
    ensures Parse(Print(title, tags, body), defaults, lower) == Panic <==> !AsciiFront(title, tags)
  {
    PrintedParse(title, tags, body, defaults, lower);
  }

  /** For any buffer: parsing aborts exactly if it opens with a fence and a wide character precedes the closing one. */
  lemma ParsePanicsExactly(content: string, defaults: Meta, lower: string -> string)
    ensures Parse(content, defaults, lower) == Panic <==>
              var trimmed := TrimStart(content, Whitespace);
              "---" <= trimmed && exists j :: WideBeforeFence(AfterOpening(trimmed[3..]), 0, j)
  {
    var trimmed := TrimStart(content, Whitespace);
    if "---" <= trimmed {
      var after := AfterOpening(trimmed[3..]);
      FenceFits(after, 0);
      if Closing(after, 0) == Abort {
        var j := AbortHasReason(after, 0);
      }
      forall j: nat | WideBeforeFence(after, 0, j) ensures Closing(after, 0) == Abort {
        ReasonAborts(after, j);
      }
    }
  }

  /** An accented title is enough. */
  lemma AccentedTitlePanics(defaults: Meta, lower: string -> string)
    ensures Parse(Print("Caf\U{00E9}", [], ""), defaults, lower) == Panic
  {
    assert "Caf\U{00E9}"[3] as int >= 0x80;
    PrintedPanicsExactly("Caf\U{00E9}", [], "", defaults, lower);
  }

  // ---------------------------------------------------------------- the lines of a printed note

  lemma {:induction false} LineEndAt(x: string, rest: string)
    requires '\n' !in x
    ensures LineEnd(x + ("\n" + rest)) == |x|
  {
    var s := x + ("\n" + rest);
    if x != "" {
      assert x[0] in x && s[0] == x[0];
      assert s[1..] == x[1..] + ("\n" + rest);
      LineEndAt(x[1..], rest);
    }
  }

  lemma LinesOf(x: string, rest: string)
    requires '\n' !in x
    ensures Lines(x + ("\n" + rest)) == [WithoutCr(x)] + Lines(rest)
  {
    var s := x + ("\n" + rest);
    LineEndAt(x, rest);
    assert s[..|x|] == x && s[|x| + 1..] == rest;
  }

  lemma PrintedLines(title: string, tags: seq<string>)
    requires SingleLine(title, tags)
    ensures Lines(Front(title, tags)) == [WithoutCr("title: " + title), "tags: " + TagList(tags)]
  {
    var x, y := "title: " + title, "tags: " + TagList(tags);
    assert '\n' !in x && '\n' !in y;
    assert Front(title, tags) == x + ("\n" + (y + ("\n" + "")));
    LinesOf(x, y + ("\n" + ""));
    LinesOf(y, "");
    assert y[|y| - 1] == ']';
  }

  lemma PrintedBody(title: string, tags: seq<string>, body: string)
    ensures var after, n := PrintedAfter(title, tags, body), |Front(title, tags)|;
            n + 3 <= |after| && after[..n] == Front(title, tags) && Trim(after[n + 3..]) == Trim(body)
  {
    BodyBehind(Front(title, tags), body);
  }

  lemma BodyBehind(front: string, body: string)
    ensures var s, n := front + ("---\n\n" + body + "\n"), |front|;
            n + 3 <= |s| && s[..n] == front && Trim(s[n + 3..]) == Trim(body)
  {
    var s := front + ("---\n\n" + body + "\n");
    assert s[|front| + 3..] == "\n\n" + (body + "\n");
    TrimIgnoresHead("\n\n", body + "\n", Whitespace);
    TrimIgnoresTail(body, "\n", Whitespace);
  }

  lemma ReadTwoLines(meta: Meta, x: string, y: string, lower: string -> string)
    ensures ReadLines(meta, [x, y], lower) == ReadLine(ReadLine(meta, x, lower), y, lower)
  {
    assert [x, y][1..] == [y] && [y][1..] == [];
    assert ReadLines(ReadLine(meta, x, lower), [y], lower)
        == ReadLines(ReadLine(ReadLine(meta, x, lower), y, lower), [], lower);
  }

  lemma PrintedWithFence(title: string, tags: seq<string>, body: string, defaults: Meta, lower: string -> string)
    requires SingleLine(title, tags)
    ensures var after, n := PrintedAfter(title, tags, body), |Front(title, tags)|;
            var meta := ReadLine(ReadLine(defaults, WithoutCr("title: " + title), lower), "tags: " + TagList(tags),
                                 lower);
            && n + 3 <= |after| && WithFence(after, n, defaults, lower) == Note(meta.title, meta.tags, Trim(body))
  {
    PrintedBody(title, tags, body);
    PrintedLines(title, tags);
    ReadTwoLines(defaults, WithoutCr("title: " + title), "tags: " + TagList(tags), lower);
  }

  // ---------------------------------------------------------------- the title line

  lemma TrimWithoutCr(line: string)
    ensures Trim(WithoutCr(line)) == Trim(line)
  {
    if line != "" && line[|line| - 1] == '\r' {
      assert line == line[..|line| - 1] + "\r";
      TrimIgnoresTail(line[..|line| - 1], "\r", Whitespace);
    }
  }

  /** A field line after its name: trimmed, the name still leads, and the value is what was written. */
  lemma FieldValue(name: string, value: string)
    requires Bare(name, Whitespace)
    ensures var l := Trim(name + (" " + value)); name <= l && Trim(l[|name|..]) == Trim(value)
  {
    var v := " " + value;
    StartOfConcat(name, v, Whitespace);
    EndOfConcat(name, v, Whitespace);
    EndOfNothing(v, Whitespace);
    assert TrimStart(name + v, Whitespace) == name + v;
    assert Trim(name + v) == name + TrimEnd(v, Whitespace);
    TrimAfterEnd(v, Whitespace);
    TrimIgnoresHead(" ", value, Whitespace);
    assert (name + TrimEnd(v, Whitespace))[|name|..] == TrimEnd(v, Whitespace);
  }

  lemma TitleIsRead(meta: Meta, title: string, lower: string -> string)
    ensures ReadLine(meta, WithoutCr("title: " + title), lower)
         == if Unquoted(title) == "" then meta else meta.(title := Unquoted(title))
  {
    TrimWithoutCr("title: " + title);
    assert "title: " + title == "title:" + (" " + title);
    FieldValue("title:", title);
  }

  // ---------------------------------------------------------------- the tags line

  const QUOTE: Class := Just('"')
  const APOSTROPHE: Class := Just('\'')

  predicate Plain(s: string) {
    Bare(s, Whitespace) && Bare(s, QUOTE) && Bare(s, APOSTROPHE)
  }

  /** A tag that is left alone: plain, canonical, no comma, no line break, no bracket at its ends. */
  predicate PlainTag(tag: string, lower: string -> string) {
    && Plain(tag) && Bare(tag, Just('[')) && Bare(tag, Just(']'))
    && ',' !in tag && '\n' !in tag && lower(tag) == tag
  }

  lemma PlainIsUnquoted(s: string)
    requires Plain(s)
    ensures Unquoted(s) == s && Unquoted(" " + s) == s
  {
    BareIsTrimmed(s, Whitespace);
    BareIsTrimmed(s, QUOTE);
    BareIsTrimmed(s, APOSTROPHE);
    TrimIgnoresHead(" ", s, Whitespace);
  }

  predicate PlainTags(tags: seq<string>, lower: string -> string) {
    forall i :: 0 <= i < |tags| ==> PlainTag(tags[i], lower)
  }

  lemma {:induction false} JoinedTags(tags: seq<string>, lower: string -> string)
    requires tags != [] && PlainTags(tags, lower)
    ensures var j := Join(tags, ", ");
            j != "" && '\n' !in j && j[0] == tags[0][0] && j[|j| - 1] == tags[|tags| - 1][|tags[|tags| - 1]| - 1]
  {
    assert PlainTag(tags[0], lower);
    if |tags| > 1 {
      assert PlainTags(tags[1..], lower);
      JoinedTags(tags[1..], lower);
    }
  }

  lemma FirstTagIsRead(tag: string, blank: string, rest: seq<string>, lower: string -> string)
    requires PlainTag(tag, lower) && (blank == "" || blank == " ")
    ensures CleanTags([blank + tag] + rest, lower) == [tag] + CleanTags(rest, lower)
  {
    PlainIsUnquoted(tag);
    assert "" + tag == tag;
    assert ([blank + tag] + rest)[1..] == rest;
  }

  lemma FirstComma(tags: seq<string>, blank: string)
    requires |tags| > 1 && ',' !in tags[0] && (blank == "" || blank == " ")
    ensures Split(blank + Join(tags, ", "), ',') == [blank + tags[0]] + Split(" " + Join(tags[1..], ", "), ',')
  {
    var rest := Join(tags[1..], ", ");
    assert blank + (tags[0] + ", " + rest) == (blank + tags[0]) + [','] + (" " + rest);
    SplitAtFirst(blank + tags[0], ',', " " + rest);
  }

  lemma {:induction false} SplitJoined(tags: seq<string>, blank: string, lower: string -> string)
    requires tags != [] && PlainTags(tags, lower) && (blank == "" || blank == " ")
    ensures CleanTags(Split(blank + Join(tags, ", "), ','), lower) == tags
  {
    assert PlainTag(tags[0], lower);
    if |tags| == 1 {
      SplitWithout(blank + tags[0], ',');
      FirstTagIsRead(tags[0], blank, [], lower);
      assert [blank + tags[0]] + [] == [blank + tags[0]] && tags == [tags[0]] + [];
    } else {
      FirstComma(tags, blank);
      SplitJoined(tags[1..], " ", lower);
      FirstTagIsRead(tags[0], blank, Split(" " + Join(tags[1..], ", "), ','), lower);
      assert tags == [tags[0]] + tags[1..];
    }
  }

  lemma OpeningComesOff(inner: string)
    requires inner == "" || Bare(inner, Just('['))
    ensures TrimBoth("[" + inner + "]", Just('[')) == inner + "]"
  {
    assert "[" + inner + "]" == "[" + (inner + "]");
    TrimIgnoresHead("[", inner + "]", Just('['));
    BareIsTrimmed(inner + "]", Just('['));
  }

  lemma ClosingComesOff(inner: string)
    requires inner == "" || Bare(inner, Just(']'))
    ensures TrimBoth(inner + "]", Just(']')) == inner
  {
    TrimIgnoresTail(inner, "]", Just(']'));
    TrimmedIsBare(inner, Just(']'));
  }

  lemma BracketsComeOff(inner: string)
    requires inner == "" || (Bare(inner, Just('[')) && Bare(inner, Just(']')))
    ensures Trim("[" + inner + "]") == "[" + inner + "]"
    ensures TrimBoth(TrimBoth("[" + inner + "]", Just('[')), Just(']')) == inner
  {
    BareIsTrimmed("[" + inner + "]", Whitespace);
    OpeningComesOff(inner);
    ClosingComesOff(inner);
  }

  /** The list as written, without its name and blanks, gives the tags. */
  lemma TagListIsRead(tags: seq<string>, lower: string -> string)
    requires PlainTags(tags, lower) && lower("") == ""
    ensures CleanTags(Split(TrimBoth(TrimBoth(TagList(tags), Just('[')), Just(']')), ','), lower) == tags
    ensures Trim(TagList(tags)) == TagList(tags)
  {
    var inner := Join(tags, ", ");
    if tags == [] {
      BracketsComeOff("");
      assert CleanTags([""], lower) == [];
    } else {
      JoinedTags(tags, lower);
      assert PlainTag(tags[0], lower) && PlainTag(tags[|tags| - 1], lower);
      BracketsComeOff(inner);
      SplitJoined(tags, "", lower);
      assert "" + inner == inner;
    }
  }

  lemma TagsAreRead(meta: Meta, tags: seq<string>, lower: string -> string)
    requires PlainTags(tags, lower) && lower("") == ""
    ensures ReadLine(meta, "tags: " + TagList(tags), lower) == meta.(tags := tags)
  {
    var list := TagList(tags);
    assert "tags: " + list == "tags:" + (" " + list);
    FieldValue("tags:", list);
    TagListIsRead(tags, lower);
    var l := Trim("tags: " + list);
    assert l[1] == "tags:"[1] == 'a';
  }

  // ---------------------------------------------------------------- the round trip

  /** Single-line ASCII title and plain ASCII tags: the title comes back stripped of blanks and quotes. */
  lemma PrintedNoteIsRead(title: string, tags: seq<string>, body: string, defaults: Meta, lower: string -> string)
    requires '\n' !in title && PlainTags(tags, lower) && lower("") == "" && AsciiFront(title, tags)
    ensures Parse(Print(title, tags, body), defaults, lower)
         == Note(if Unquoted(title) == "" then defaults.title else Unquoted(title), tags, Trim(body))
  {
    if tags != [] {
      JoinedTags(tags, lower);
    }
    PrintedParse(title, tags, body, defaults, lower);
    PrintedWithFence(title, tags, body, defaults, lower);
    TitleIsRead(defaults, title, lower);
    TagsAreRead(ReadLine(defaults, WithoutCr("title: " + title), lower), tags, lower);
  }

  /** The round trip, whatever fences the body holds and whatever the defaults are. */
  lemma EditRoundTrip(title: string, tags: seq<string>, body: string, defaults: Meta, lower: string -> string)
    requires Plain(title) && '\n' !in title && PlainTags(tags, lower) && lower("") == "" && AsciiFront(title, tags)
    ensures Parse(Print(title, tags, body), defaults, lower) == Note(title, tags, Trim(body))
  {
    PrintedNoteIsRead(title, tags, body, defaults, lower);
    PlainIsUnquoted(title);
  }

  lemma UnquotedIsPlain(s: string)
    ensures Unquoted(s) == s && s != "" <==> Plain(s)
  {
    var t := Trim(s);
    var u := TrimBoth(t, QUOTE);
    TrimShortens(s, Whitespace);
    TrimShortens(t, QUOTE);
    TrimShortens(u, APOSTROPHE);
    TrimmedIsBare(s, Whitespace);
    TrimmedIsBare(s, QUOTE);
    TrimmedIsBare(s, APOSTROPHE);
  }

  ghost predicate TitleSurvives(title: string, tags: seq<string>, body: string, lower: string -> string) {
    forall defaults :: var r := Parse(Print(title, tags, body), defaults, lower); r.Note? && r.title == title
  }

  /**
   * A single-line ASCII title survives every edit that changes nothing exactly when its ends are no blanks or
   * quotes.
   */
  lemma TitleSurvivesExactly(title: string, tags: seq<string>, body: string, lower: string -> string)
    requires '\n' !in title && PlainTags(tags, lower) && lower("") == "" && AsciiFront(title, tags)
    ensures TitleSurvives(title, tags, body, lower) <==> Plain(title)
  {
    UnquotedIsPlain(title);
    PrintedNoteIsRead(title, tags, body, Meta(title + "?", []), lower);
    assert title + "?" != title;
    if Plain(title) {
      forall defaults ensures Parse(Print(title, tags, body), defaults, lower) == Note(title, tags, Trim(body)) {
        EditRoundTrip(title, tags, body, defaults, lower);
      }
    }
  }
}
