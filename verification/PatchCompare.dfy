/**
 * What the comparators of the line search accept, said of the characters of the two lines, and from that exactly when
 * an update cannot be applied.
 */
module PatchCompare {
  import opened Wrappers
  import opened Text
  import opened PatchParser
  import opened PatchApply

  // ---------------------------------------------------------------- lines and what is left of them

  /** White space as the language standard lists it (ECMA-262, sections 12.2 and 12.3). */
  const WHITE: string :=
    "\t\n\U{0B}\U{0C}\r \U{A0}\U{1680}\U{2000}\U{2001}\U{2002}\U{2003}\U{2004}\U{2005}\U{2006}\U{2007}\U{2008}\U{2009}"
    + "\U{200A}\U{2028}\U{2029}\U{202F}\U{205F}\U{3000}\U{FEFF}"

  predicate Blank(s: string) {
    forall i :: 0 <= i < |s| ==> s[i] in WHITE
  }

  /** The line is the stem, followed by white space only. */
  predicate HasStem(line: string, stem: string) {
    stem <= line && Blank(line[|stem|..])
  }

  /** The line is the core with white space only on both sides. */
  ghost predicate HasCore(line: string, core: string) {
    exists front, back :: line == front + core + back && Blank(front) && Blank(back)
  }

  const SINGLE_QUOTES: string := "\U{2018}\U{2019}\U{201A}\U{201B}"
  const DOUBLE_QUOTES: string := "\U{201C}\U{201D}\U{201E}\U{201F}"
  const DASHES: string := "\U{2010}\U{2011}\U{2012}\U{2013}\U{2014}\U{2015}"
  const ELLIPSIS: char := '\U{2026}'
  const HARD_SPACE: char := '\U{A0}'

  /** A typographic character, which stands for an ASCII spelling. */
  predicate Typographic(c: char) {
    c in SINGLE_QUOTES || c in DOUBLE_QUOTES || c in DASHES || c == ELLIPSIS || c == HARD_SPACE
  }

  predicate Spells(c: char, ascii: string) {
    || (c in SINGLE_QUOTES && ascii == "'")
    || (c in DOUBLE_QUOTES && ascii == "\"")
    || (c in DASHES && ascii == "-")
    || (c == ELLIPSIS && ascii == "...")
    || (c == HARD_SPACE && ascii == " ")
    || (!Typographic(c) && ascii == [c])
  }

  /** `ascii` is the text with each of its characters spelled out. */
  ghost predicate Reads(s: string, ascii: string) {
    if s == "" then ascii == ""
    else exists first :: Spells(s[0], first) && first <= ascii && Reads(s[1..], ascii[|first|..])
  }

  ghost predicate SameStem(left: string, right: string) {
    exists stem :: HasStem(left, stem) && HasStem(right, stem)
  }

  ghost predicate SameCore(left: string, right: string) {
    exists core :: HasCore(left, core) && HasCore(right, core)
  }

  /** The lines have cores that read the same. */
  ghost predicate Alike(left: string, right: string) {
    exists a, b, ascii :: HasCore(left, a) && HasCore(right, b) && Reads(a, ascii) && Reads(b, ascii)
  }

  // ---------------------------------------------------------------- trimming

  lemma SpaceExactly(c: char)
    ensures IsSpace(c) <==> c in WHITE
  {
    if c in WHITE { var i :| 0 <= i < |WHITE| && WHITE[i] == c; }
  }

  lemma BlankMeans(s: string)
    ensures Blank(s) <==> forall i :: 0 <= i < |s| ==> IsSpace(s[i])
  {
    forall i | 0 <= i < |s| ensures IsSpace(s[i]) <==> s[i] in WHITE { SpaceExactly(s[i]); }
  }

  lemma {:induction false} EndOfStem(stem: string, blank: string)
    requires Blank(blank)
    ensures TrimEnd(stem + blank) == TrimEnd(stem)
  {
    BlankMeans(blank);
    hide IsSpace, WHITE;
    if blank == "" {
      assert stem + blank == stem;
    } else {
      assert (stem + blank)[..|stem + blank| - 1] == stem + blank[..|blank| - 1];
      EndOfStem(stem, blank[..|blank| - 1]);
    }
  }

  lemma {:induction false} StartOfCore(blank: string, s: string)
    requires Blank(blank)
    ensures TrimStart(blank + s) == TrimStart(s)
  {
    BlankMeans(blank);
    hide IsSpace, WHITE;
    if blank == "" {
      assert blank + s == s;
    } else {
      assert (blank + s)[1..] == blank[1..] + s;
      StartOfCore(blank[1..], s);
    }
  }

  /** Blanks before a string that is not blank do not matter to trimming its end. */
  lemma {:induction false} EndBehind(blank: string, s: string)
    requires Blank(blank)
    ensures TrimEnd(blank + s) == if TrimEnd(s) == "" then "" else blank + TrimEnd(s)
  {
    hide IsSpace, WHITE;
    if s == "" {
      assert blank + s == "" + blank;
      EndOfStem("", blank);
    } else {
      assert (blank + s)[..|blank + s| - 1] == blank + s[..|s| - 1];
      EndBehind(blank, s[..|s| - 1]);
      assert (blank + s)[|blank + s| - 1] == s[|s| - 1];
    }
  }

  lemma CoreTrims(line: string, core: string)
    requires HasCore(line, core)
    ensures Trim(line) == Trim(core)
  {
    var front, back :| line == front + core + back && Blank(front) && Blank(back);
    EndOfStem(front + core, back);
    EndBehind(front, core);
    hide TrimStart, TrimEnd, Blank;
    if TrimEnd(core) != "" { StartOfCore(front, TrimEnd(core)); }
  }

  lemma TrimIsCore(line: string)
    ensures HasStem(line, TrimEnd(line)) && HasCore(line, Trim(line))
  {
    var end := TrimEnd(line);
    TrimEndFacts(line);
    TrimStartFacts(end);
    TrimmedEnd(line);
    TrimmedStart(end);
    hide TrimStart, TrimEnd, IsSpace, Blank;
    var front, back := end[..|end| - |Trim(line)|], line[|end|..];
    assert end == front + Trim(line);
    assert line == end + back;
  }

  lemma {:induction false} TrimmedEnd(line: string)
    ensures |TrimEnd(line)| <= |line| && Blank(line[|TrimEnd(line)|..])
  {
    hide IsSpace, WHITE;
    if line != "" && IsSpace(line[|line| - 1]) {
      var most, last := line[..|line| - 1], line[|line| - 1];
      TrimmedEnd(most);
      SpaceExactly(last);
      assert TrimEnd(line) == TrimEnd(most);
      BlankMore(most[|TrimEnd(most)|..], last);
      assert line[|TrimEnd(most)|..] == most[|TrimEnd(most)|..] + [last];
    }
  }

  lemma BlankMore(s: string, c: char)
    requires Blank(s) && c in WHITE
    ensures Blank(s + [c]) && Blank([c] + s)
  {
    hide WHITE;
  }

  lemma {:induction false} TrimmedStart(s: string)
    ensures |TrimStart(s)| <= |s| && Blank(s[..|s| - |TrimStart(s)|])
  {
    hide IsSpace, WHITE;
    if s != "" && IsSpace(s[0]) {
      TrimmedStart(s[1..]);
      SpaceExactly(s[0]);
      var n := |s| - |TrimStart(s)|;
      BlankMore(s[1..][..n - 1], s[0]);
      assert s[..n] == [s[0]] + s[1..][..n - 1];
    }
  }

  // ---------------------------------------------------------------- reading typographic characters

  lemma SpellsExactly(c: char, ascii: string)
    ensures Spells(c, ascii) <==> ascii == NormalChar(c)
  {
    CharIn(c);
  }

  lemma CharIn(c: char)
    ensures c in SINGLE_QUOTES <==> 0x2018 <= c as int <= 0x201B
    ensures c in DOUBLE_QUOTES <==> 0x201C <= c as int <= 0x201F
    ensures c in DASHES <==> 0x2010 <= c as int <= 0x2015
    ensures c == ELLIPSIS <==> c as int == 0x2026
    ensures c == HARD_SPACE <==> c as int == 0xA0
  {
  }

  lemma {:induction false} ReadsExactly(s: string, ascii: string)
    ensures Reads(s, ascii) <==> ascii == Normalize(s)
  {
    hide Spells, NormalChar;
    if s != "" {
      var first := NormalChar(s[0]);
      forall w ensures Spells(s[0], w) <==> w == first { SpellsExactly(s[0], w); }
      if first <= ascii {
        ReadsExactly(s[1..], ascii[|first|..]);
        assert ascii == first + ascii[|first|..];
      }
    }
  }

  lemma {:induction false} NormalizeConcat(a: string, b: string)
    ensures Normalize(a + b) == Normalize(a) + Normalize(b)
  {
    hide NormalChar;
    if a == "" {
      assert a + b == b;
    } else {
      assert (a + b)[1..] == a[1..] + b;
      NormalizeConcat(a[1..], b);
    }
  }

  lemma {:induction false} NormalizeBlank(s: string)
    requires Blank(s)
    ensures Blank(Normalize(s))
  {
    if s != "" {
      assert s[0] in WHITE;
      SpaceExactly(s[0]);
      assert NormalChar(s[0]) == [s[0]] || NormalChar(s[0]) == " ";
      assert Blank(NormalChar(s[0]));
      hide WHITE, NormalChar, IsSpace;
      NormalizeBlank(s[1..]);
    }
  }

  lemma {:induction false} NormalizeTrimmed(s: string)
    requires Trimmed(s)
    ensures Trimmed(Normalize(s))
  {
    if s != "" {
      var last := s[|s| - 1];
      assert s == s[..|s| - 1] + [last];
      NormalizeConcat(s[..|s| - 1], [last]);
      assert Normalize([last]) == NormalChar(last) + Normalize("");
      NormalSolid(s[0]);
      NormalSolid(last);
      hide IsSpace, NormalChar;
    }
  }

  lemma NormalSolid(c: char)
    requires !IsSpace(c)
    ensures var w := NormalChar(c); w != "" && !IsSpace(w[0]) && !IsSpace(w[|w| - 1])
  {
  }

  lemma NormalizeTrim(s: string)
    ensures Normalize(Trim(s)) == Trim(Normalize(s))
  {
    TrimIsCore(s);
    TrimFacts(s);
    hide Trim, Trimmed, IsSpace, WHITE, Blank, NormalChar, Normalize;
    var core := Trim(s);
    var front, back :| s == front + core + back && Blank(front) && Blank(back);
    NormalizeConcat(front + core, back);
    NormalizeConcat(front, core);
    NormalizeBlank(front);
    NormalizeBlank(back);
    var n := Normalize(s);
    assert n == Normalize(front) + Normalize(core) + Normalize(back);
    assert HasCore(n, Normalize(core));
    CoreTrims(n, Normalize(core));
    NormalizeTrimmed(core);
    TrimFacts(Normalize(core));
  }

  // ---------------------------------------------------------------- what the comparators accept

  /**
   * The four comparators: the same line; one stem with white space behind it; one core with white space around it;
   * cores that read the same once typographic characters are spelled out.
   */
  lemma LevelsMean(left: string, right: string)
    ensures Same(Exact, left, right) <==> left == right
    ensures Same(RightTrimmed, left, right) <==> SameStem(left, right)
    ensures Same(BothTrimmed, left, right) <==> SameCore(left, right)
    ensures Same(Normalized, left, right) <==> Alike(left, right)
  {
    hide Trim, TrimEnd, TrimStart, Normalize, Reads, HasStem, HasCore;
    TrimIsCore(left);
    TrimIsCore(right);
    if stem :| HasStem(left, stem) && HasStem(right, stem) {
      StemTrims(left, stem);
      StemTrims(right, stem);
    }
    if core :| HasCore(left, core) && HasCore(right, core) {
      CoreTrims(left, core);
      CoreTrims(right, core);
    }
    NormalizedMeans(left, right);
  }

  lemma StemTrims(line: string, stem: string)
    requires HasStem(line, stem)
    ensures TrimEnd(line) == TrimEnd(stem)
  {
    assert line == stem + line[|stem|..];
    EndOfStem(stem, line[|stem|..]);
  }

  lemma NormalizedMeans(left: string, right: string)
    ensures Normalize(Trim(left)) == Normalize(Trim(right)) <==> Alike(left, right)
  {
    hide Trim, Normalize, Reads, HasCore;
    TrimIsCore(left);
    TrimIsCore(right);
    var ascii := Normalize(Trim(left));
    ReadsExactly(Trim(left), ascii);
    ReadsExactly(Trim(right), ascii);
    if a, b, spelled :| HasCore(left, a) && HasCore(right, b) && Reads(a, spelled) && Reads(b, spelled) {
      CoreTrims(left, a);
      CoreTrims(right, b);
      NormalizeTrim(a);
      NormalizeTrim(b);
      ReadsExactly(a, spelled);
      ReadsExactly(b, spelled);
    }
  }

  predicate Ascii(line: string) {
    forall i :: 0 <= i < |line| ==> !Typographic(line[i])
  }

  /** On lines without typographic characters the loosest comparator is the one before it. */
  lemma PlainLines(left: string, right: string)
    requires Ascii(left) && Ascii(right)
    ensures Alike(left, right) <==> SameCore(left, right)
  {
    LevelsMean(left, right);
    AsciiCore(left);
    AsciiCore(right);
    NormalizeAscii(Trim(left));
    NormalizeAscii(Trim(right));
  }

  lemma AsciiCore(line: string)
    requires Ascii(line)
    ensures Ascii(Trim(line))
  {
    TrimIsCore(line);
    hide Typographic, Trim;
    var core := Trim(line);
    var front, back :| line == front + core + back && Blank(front) && Blank(back);
    forall k | 0 <= k < |core| ensures !Typographic(core[k]) { assert core[k] == line[|front| + k]; }
  }

  lemma {:induction false} NormalizeAscii(s: string)
    requires Ascii(s)
    ensures Normalize(s) == s
  {
    if s != "" {
      SpellsExactly(s[0], [s[0]]);
      hide Typographic, NormalChar;
      NormalizeAscii(s[1..]);
      assert s == [s[0]] + s[1..];
    }
  }

  /** A character and what it spells can be exchanged anywhere in a line. */
  lemma Exchangeable(before: string, c: char, ascii: string, after: string, other: string)
    requires Spells(c, ascii)
    ensures Alike(before + [c] + after, other) <==> Alike(before + ascii + after, other)
  {
    var left, right := before + [c] + after, before + ascii + after;
    NormalizedMeans(left, other);
    NormalizedMeans(right, other);
    NormalizeTrim(left);
    NormalizeTrim(right);
    SpellsExactly(c, ascii);
    SpelledStays(c);
    hide Normalize, Alike, Trim, NormalChar, Spells;
    NormalizeConcat(before + [c], after);
    NormalizeConcat(before, [c]);
    NormalizeConcat(before + ascii, after);
    NormalizeConcat(before, ascii);
  }

  lemma SpelledStays(c: char)
    ensures Normalize([c]) == NormalChar(c) && Normalize(NormalChar(c)) == NormalChar(c)
  {
    assert Normalize([c]) == NormalChar(c) + Normalize([c][1..]);
    forall i | 0 <= i < |NormalChar(c)| ensures !Typographic(NormalChar(c)[i]) { CharIn(NormalChar(c)[i]); CharIn(c); }
    NormalizeAscii(NormalChar(c));
  }

  // ---------------------------------------------------------------- when an update cannot be applied

  /** Some place from a line on where every line of the pattern is alike. */
  ghost predicate Somewhere(lines: seq<string>, pattern: seq<string>, from: nat) {
    exists k :: LooksLike(lines, pattern, from, k)
  }

  ghost predicate LooksLike(lines: seq<string>, pattern: seq<string>, from: nat, k: nat) {
    from <= k && k + |pattern| <= |lines| && forall i :: 0 <= i < |pattern| ==> Alike(lines[k + i], pattern[i])
  }

  lemma LooseMatches(lines: seq<string>, pattern: seq<string>, from: nat, k: nat)
    ensures LooksLike(lines, pattern, from, k) <==> from <= k && Matches(lines, pattern, k, Normalized)
  {
    hide Same, Alike;
    if k + |pattern| <= |lines| {
      forall i | 0 <= i < |pattern|
        ensures Same(Normalized, lines[k + i], pattern[i]) <==> Alike(lines[k + i], pattern[i])
      {
        LevelsMean(lines[k + i], pattern[i]);
      }
    }
  }

  /** A pattern is found exactly if it has a place. */
  lemma SeekFinds(lines: seq<string>, pattern: seq<string>, from: nat, eof: bool)
    requires pattern != []
    ensures Seek(lines, pattern, from, eof) != -1 <==> Somewhere(lines, pattern, from)
    ensures NowhereFrom(lines, pattern, from) <==> !Somewhere(lines, pattern, from)
  {
    SeekIsStrictest(lines, pattern, from, eof);
    hide Seek, StrictestMatch, Matches, LooksLike;
    if k: nat :| LooksLike(lines, pattern, from, k) {
      LooseMatches(lines, pattern, from, k);
      assert Normalized in Levels() && Found(lines, pattern, from, Normalized);
    }
    if !NowhereFrom(lines, pattern, from) {
      var level :| level in Levels() && Found(lines, pattern, from, level);
      var i :| 0 <= i < 4 && Levels()[i] == level;
      var k :| from <= k && Matches(lines, pattern, k, level);
      LevelsLoosen(lines, pattern, k, i, 3);
      LooseMatches(lines, pattern, from, k);
    }
  }

  /** The first line behind a chunk's context that looks like nothing, or its old lines that do. */
  ghost predicate NoPlace(lines: seq<string>, chunk: Chunk, index: nat) {
    && chunk.oldLines != [] && !Somewhere(lines, chunk.oldLines, index)
    && (EndsBlank(chunk.oldLines) ==> |chunk.oldLines| == 1 || !Somewhere(lines, DropLast(chunk.oldLines), index))
  }

  ghost predicate NoContext(lines: seq<string>, chunk: Chunk, from: nat) {
    chunk.context.Some? && chunk.context.value != "" && !Somewhere(lines, [chunk.context.value], from)
  }

  /**
   * Going through the chunks from a running line on, each at its strictest match, one comes whose context has no place
   * behind that line, or whose old lines have none behind its context, with or without a blank last one.
   */
  ghost predicate Fails(lines: seq<string>, chunks: seq<Chunk>, from: nat, error: ApplyError) {
    chunks != [] && (
      || (NoContext(lines, chunks[0], from) && error == ContextNotFound(chunks[0].context.value))
      || exists index: nat :: ContextAt(lines, chunks[0], from, index) && (
           || (NoPlace(lines, chunks[0], index) && error == LinesNotFound(chunks[0].oldLines))
           || exists r :: FoundAt(lines, chunks[0], index, r) && Fails(lines, chunks[1..], NextLine(r, index), error)))
  }

  lemma StrictestIsOne(lines: seq<string>, pattern: seq<string>, from: nat, eof: bool, r: int, r': int)
    requires StrictestMatch(lines, pattern, from, eof, Levels(), r)
    requires StrictestMatch(lines, pattern, from, eof, Levels(), r')
    ensures r == r'
  {
    hide Matches;
    var levels := Levels();
    var i :| 0 <= i < |levels| && from <= r && Matches(lines, pattern, r, levels[i])
      && (forall k :: 0 <= k < i ==> !Found(lines, pattern, from, levels[k]))
      && (if AtEnd(lines, pattern, from, eof, levels[i]) then r == |lines| - |pattern|
          else forall k :: from <= k < r ==> !Matches(lines, pattern, k, levels[i]));
    var i' :| 0 <= i' < |levels| && from <= r' && Matches(lines, pattern, r', levels[i'])
      && (forall k :: 0 <= k < i' ==> !Found(lines, pattern, from, levels[k]))
      && (if AtEnd(lines, pattern, from, eof, levels[i']) then r' == |lines| - |pattern|
          else forall k :: from <= k < r' ==> !Matches(lines, pattern, k, levels[i']));
    assert Found(lines, pattern, from, levels[i]) && Found(lines, pattern, from, levels[i']);
    assert i == i';
  }

  lemma PlacesAreOne(lines: seq<string>, chunk: Chunk, from: nat)
    ensures forall a: nat, b: nat :: ContextAt(lines, chunk, from, a) && ContextAt(lines, chunk, from, b) ==> a == b
    ensures forall a, b :: FoundAt(lines, chunk, from, a) && FoundAt(lines, chunk, from, b) ==> a == b
  {
    hide StrictestMatch, NowhereFrom;
    forall a: nat, b: nat | ContextAt(lines, chunk, from, a) && ContextAt(lines, chunk, from, b) ensures a == b {
      if HasContext(chunk) { StrictestIsOne(lines, [chunk.context.value], from, false, a - 1, b - 1); }
    }
    forall a, b | FoundAt(lines, chunk, from, a) && FoundAt(lines, chunk, from, b) ensures a == b {
      if chunk.oldLines != [] {
        var pattern := if NowhereFrom(lines, chunk.oldLines, from) then DropLast(chunk.oldLines) else chunk.oldLines;
        StrictestIsOne(lines, pattern, from, chunk.endOfFile, a.start, b.start);
      }
    }
  }

  lemma ContextFails(lines: seq<string>, chunk: Chunk, from: nat)
    ensures var found := AfterContext(lines, chunk, from);
            if NoContext(lines, chunk, from) then found == Err(ContextNotFound(chunk.context.value))
            else found.Ok? && ContextAt(lines, chunk, from, found.value)
    ensures NoContext(lines, chunk, from) ==> forall index: nat :: !ContextAt(lines, chunk, from, index)
  {
    hide Seek, Somewhere, StrictestMatch, NowhereFrom;
    if HasContext(chunk) {
      SeekFinds(lines, [chunk.context.value], from, false);
      SeekIsStrictest(lines, [chunk.context.value], from, false);
      if NoContext(lines, chunk, from) {
        forall index: nat ensures !ContextAt(lines, chunk, from, index) {
          if ContextAt(lines, chunk, from, index) {
            StrictestIsFound(lines, [chunk.context.value], from, false, index - 1);
          }
        }
      }
    }
  }

  lemma StrictestIsFound(lines: seq<string>, pattern: seq<string>, from: nat, eof: bool, r: int)
    requires StrictestMatch(lines, pattern, from, eof, Levels(), r)
    requires pattern != []
    ensures !NowhereFrom(lines, pattern, from)
  {
    hide Matches;
    var levels := Levels();
    var i :| 0 <= i < |levels| && from <= r && Matches(lines, pattern, r, levels[i]);
    assert levels[i] in levels && Found(lines, pattern, from, levels[i]);
  }

  lemma PlaceFails(lines: seq<string>, chunk: Chunk, index: nat)
    ensures var located := LocateChunk(lines, chunk, index);
            if NoPlace(lines, chunk, index) then located == Err(LinesNotFound(chunk.oldLines))
            else located.Ok? && FoundAt(lines, chunk, index, if located.value.Some? then located.value.value
                                                             else Replacement(|lines|, 0, chunk.newLines))
    ensures NoPlace(lines, chunk, index) ==> forall r :: !FoundAt(lines, chunk, index, r)
  {
    hide Seek, Somewhere, StrictestMatch, NowhereFrom;
    if chunk.oldLines != [] {
      SeekFinds(lines, chunk.oldLines, index, chunk.endOfFile);
      var fewer := DropLast(chunk.oldLines);
      if fewer != [] {
        SeekFinds(lines, fewer, index, chunk.endOfFile);
      } else {
        NothingIsFound(lines, index, chunk.endOfFile);
      }
      if NoPlace(lines, chunk, index) {
        forall r ensures !FoundAt(lines, chunk, index, r) {
          if FoundAt(lines, chunk, index, r) { StrictestIsFound(lines, fewer, index, chunk.endOfFile, r.start); }
        }
      } else {
        ChunkIsStrictest(lines, chunk, index);
      }
    }
  }

  lemma NothingIsFound(lines: seq<string>, index: nat, eof: bool)
    ensures Seek(lines, [], index, eof) == -1
  {
  }

  lemma FailsAtContext(lines: seq<string>, chunks: seq<Chunk>, from: nat, error: ApplyError)
    requires chunks != [] && NoContext(lines, chunks[0], from)
    ensures Fails(lines, chunks, from, error) <==> error == ContextNotFound(chunks[0].context.value)
  {
    hide ContextAt, FoundAt, NoPlace;
    ContextFails(lines, chunks[0], from);
  }

  lemma FailsAtLines(lines: seq<string>, chunks: seq<Chunk>, from: nat, index: nat, error: ApplyError)
    requires chunks != [] && !NoContext(lines, chunks[0], from) && ContextAt(lines, chunks[0], from, index)
    requires NoPlace(lines, chunks[0], index)
    ensures Fails(lines, chunks, from, error) <==> error == LinesNotFound(chunks[0].oldLines)
  {
    hide ContextAt, FoundAt, NoPlace, NoContext;
    PlacesAreOne(lines, chunks[0], from);
    PlaceFails(lines, chunks[0], index);
  }

  lemma FailsLater(lines: seq<string>, chunks: seq<Chunk>, from: nat, index: nat, r: Replacement, error: ApplyError)
    requires chunks != [] && !NoContext(lines, chunks[0], from) && ContextAt(lines, chunks[0], from, index)
    requires !NoPlace(lines, chunks[0], index) && FoundAt(lines, chunks[0], index, r)
    ensures Fails(lines, chunks, from, error) <==> Fails(lines, chunks[1..], NextLine(r, index), error)
  {
    hide ContextAt, FoundAt, NoPlace, NoContext, NextLine;
    PlacesAreOne(lines, chunks[0], from);
    PlacesAreOne(lines, chunks[0], index);
  }

  lemma LocateStep(lines: seq<string>, chunks: seq<Chunk>, from: nat)
    requires chunks != []
    ensures var after := AfterContext(lines, chunks[0], from);
      if after.Err? then Locate(lines, chunks, from) == Err(after.error)
      else
        var located := LocateChunk(lines, chunks[0], after.value);
        if located.Err? then Locate(lines, chunks, from) == Err(located.error)
        else
          var head := if located.value.Some? then located.value.value else Replacement(|lines|, 0, chunks[0].newLines);
          var later := Locate(lines, chunks[1..], NextLine(head, after.value));
          if later.Err? then Locate(lines, chunks, from) == Err(later.error) else Locate(lines, chunks, from).Ok?
  {
    hide AfterContext, LocateChunk;
    var after := AfterContext(lines, chunks[0], from);
    if after.Ok? {
      var located := LocateChunk(lines, chunks[0], after.value);
      if located.Ok? && located.value.Some? { RunningLine(lines, chunks[0], after.value); }
    }
  }

  /** The chunks cannot be located exactly if going through them fails, and then with that error. */
  lemma {:induction false} LocateFails(lines: seq<string>, chunks: seq<Chunk>, from: nat, error: ApplyError)
    ensures Locate(lines, chunks, from) == Err(error) <==> Fails(lines, chunks, from, error)
    decreases |chunks|
  {
    if chunks != [] {
      LocateStep(lines, chunks, from);
      hide AfterContext, LocateChunk, ContextAt, FoundAt, NoPlace, NoContext, Fails, Locate, NextLine;
      ContextFails(lines, chunks[0], from);
      var after := AfterContext(lines, chunks[0], from);
      if after.Err? {
        FailsAtContext(lines, chunks, from, error);
      } else {
        PlaceFails(lines, chunks[0], after.value);
        var located := LocateChunk(lines, chunks[0], after.value);
        if located.Err? {
          FailsAtLines(lines, chunks, from, after.value, error);
        } else {
          var head := if located.value.Some? then located.value.value else Replacement(|lines|, 0, chunks[0].newLines);
          FailsLater(lines, chunks, from, after.value, head, error);
          LocateFails(lines, chunks[1..], NextLine(head, after.value), error);
        }
      }
    }
  }

  lemma RunningLine(lines: seq<string>, chunk: Chunk, index: nat)
    requires LocateChunk(lines, chunk, index).Ok? && LocateChunk(lines, chunk, index).value.Some?
    ensures LocateChunk(lines, chunk, index).value.value.remove > 0
  {
    hide Seek;
    assert |chunk.oldLines| > 0;
  }

  /**
   * An update of a file fails exactly when some chunk has no place, and reports that chunk. Otherwise it succeeds,
   * whatever the chunks say.
   */
  lemma UpdateFailsExactly(original: string, chunks: seq<Chunk>, error: ApplyError)
    ensures Edited(FileLines(original), chunks) == Err(error) <==> Fails(FileLines(original), chunks, 0, error)
  {
    hide Locate, Fails, SortByStart;
    LocateFails(FileLines(original), chunks, 0, error);
  }
}
