/**
 * Applying update chunks to a file (packages/core/src/patch.ts): the fuzzy line search, the replacements it
 * locates, and the right-to-left splicing that carries them out.
 */
module PatchApply {
  import opened Wrappers
  import opened Text
  import opened PatchParser
  import PatchRoundTrip

  const BOM: char := '\U{FEFF}'

  // ---------------------------------------------------------------- comparators

  /** The four comparators, strictest first. */
  datatype Level = Exact | RightTrimmed | BothTrimmed | Normalized

  function Levels(): seq<Level> {
    [Exact, RightTrimmed, BothTrimmed, Normalized]
  }

  function NormalChar(c: char): string {
    var n := c as int;
    if 0x2018 <= n <= 0x201B then "'"
    else if 0x201C <= n <= 0x201F then "\""
    else if 0x2010 <= n <= 0x2015 then "-"
    else if n == 0x2026 then "..."
    else if n == 0xA0 then " "
    else [c]
  }

  function Normalize(s: string): string {
    if s == "" then "" else NormalChar(s[0]) + Normalize(s[1..])
  }

  predicate Same(level: Level, left: string, right: string) {
    match level
    case Exact => left == right
    case RightTrimmed => TrimEnd(left) == TrimEnd(right)
    case BothTrimmed => Trim(left) == Trim(right)
    case Normalized => Normalize(Trim(left)) == Normalize(Trim(right))
  }

  predicate Matches(lines: seq<string>, pattern: seq<string>, offset: int, level: Level) {
    && 0 <= offset && offset + |pattern| <= |lines|
    && forall i :: 0 <= i < |pattern| ==> Same(level, lines[offset + i], pattern[i])
  }

  /** Each level accepts whatever a stricter one accepts. */
  lemma LevelsLoosen(lines: seq<string>, pattern: seq<string>, offset: int, i: nat, k: nat)
    requires i <= k < 4 && Matches(lines, pattern, offset, Levels()[i])
    ensures Matches(lines, pattern, offset, Levels()[k])
  {
  }

  // ---------------------------------------------------------------- seek

  /** The first offset from `from` on at which the pattern matches, or -1. */
  function FirstMatch(lines: seq<string>, pattern: seq<string>, from: nat, level: Level): (r: int)
    ensures r == -1 || (from <= r && Matches(lines, pattern, r, level))
    ensures forall k :: from <= k && (r == -1 || k < r) ==> !Matches(lines, pattern, k, level)
    decreases |lines| - from
  {
    if from + |pattern| > |lines| then -1
    else if Matches(lines, pattern, from, level) then from
    else if from == |lines| then -1
    else FirstMatch(lines, pattern, from + 1, level)
  }

  function AtEnd(lines: seq<string>, pattern: seq<string>, start: nat, eof: bool, level: Level): bool {
    var offset := |lines| - |pattern|;
    eof && offset >= start && Matches(lines, pattern, offset, level)
  }

  function SeekLevel(lines: seq<string>, pattern: seq<string>, start: nat, eof: bool, level: Level): (r: int)
    ensures r == -1 || (start <= r && r + |pattern| <= |lines|)
  {
    if AtEnd(lines, pattern, start, eof, level) then |lines| - |pattern| else FirstMatch(lines, pattern, start, level)
  }

  function SeekLevels(lines: seq<string>, pattern: seq<string>, start: nat, eof: bool, levels: seq<Level>): (r: int)
    ensures r == -1 || (start <= r && r + |pattern| <= |lines|)
  {
    if levels == [] then -1
    else
      var found := SeekLevel(lines, pattern, start, eof, levels[0]);
      if found != -1 then found else SeekLevels(lines, pattern, start, eof, levels[1..])
  }

  function Seek(lines: seq<string>, pattern: seq<string>, start: nat, eof: bool): (r: int)
    ensures r == -1 || (pattern != [] && start <= r && r + |pattern| <= |lines|)
  {
    if pattern == [] then -1 else SeekLevels(lines, pattern, start, eof, Levels())
  }

  ghost predicate Found(lines: seq<string>, pattern: seq<string>, start: nat, level: Level) {
    exists k :: start <= k && Matches(lines, pattern, k, level)
  }

  /**
   * `r` is a match at the strictest level that has any match from `start` on; at that level the end of the file
   * is preferred if it was asked for and matches, otherwise the match is the first one.
   */
  ghost predicate StrictestMatch(lines: seq<string>, pattern: seq<string>, start: nat, eof: bool, levels: seq<Level>,
                                 r: int) {
    exists i :: 0 <= i < |levels| && start <= r && Matches(lines, pattern, r, levels[i])
      && (forall k :: 0 <= k < i ==> !Found(lines, pattern, start, levels[k]))
      && (if AtEnd(lines, pattern, start, eof, levels[i]) then r == |lines| - |pattern|
          else forall k :: start <= k < r ==> !Matches(lines, pattern, k, levels[i]))
  }

  lemma {:induction false} SeekLevelsIsStrictest(lines: seq<string>, pattern: seq<string>, start: nat, eof: bool,
                                                 levels: seq<Level>)
    ensures var r := SeekLevels(lines, pattern, start, eof, levels);
      if r == -1 then forall i :: 0 <= i < |levels| ==> !Found(lines, pattern, start, levels[i])
      else StrictestMatch(lines, pattern, start, eof, levels, r)
  {
    hide Matches;
    if levels == [] {
    } else {
      SeekLevelsIsStrictest(lines, pattern, start, eof, levels[1..]);
      var r := SeekLevels(lines, pattern, start, eof, levels);
      if SeekLevel(lines, pattern, start, eof, levels[0]) == -1 {
        assert !Found(lines, pattern, start, levels[0]);
        if r != -1 {
          var i :| 0 <= i < |levels[1..]| && start <= r && Matches(lines, pattern, r, levels[1..][i])
            && (forall k :: 0 <= k < i ==> !Found(lines, pattern, start, levels[1..][k]))
            && (if AtEnd(lines, pattern, start, eof, levels[1..][i]) then r == |lines| - |pattern|
                else forall k :: start <= k < r ==> !Matches(lines, pattern, k, levels[1..][i]));
          assert levels[1..][i] == levels[i + 1];
          assert forall k :: 0 < k < i + 1 ==> levels[k] == levels[1..][k - 1];
          assert StrictestMatch(lines, pattern, start, eof, levels, r);
        } else {
          assert forall k :: 0 < k < |levels| ==> levels[k] == levels[1..][k - 1];
        }
      } else {
        assert Matches(lines, pattern, r, levels[0]);
      }
    }
  }

  /** `seek` finds a match whenever there is one, and then the strictest. */
  lemma SeekIsStrictest(lines: seq<string>, pattern: seq<string>, start: nat, eof: bool)
    ensures var r := Seek(lines, pattern, start, eof);
      && (r == -1 <==> pattern == [] || forall level :: level in Levels() ==> !Found(lines, pattern, start, level))
      && (r != -1 ==> StrictestMatch(lines, pattern, start, eof, Levels(), r))
  {
    hide Matches;
    SeekLevelsIsStrictest(lines, pattern, start, eof, Levels());
    var r := Seek(lines, pattern, start, eof);
    if r != -1 {
      assert Levels()[0] in Levels() && Levels()[1] in Levels() && Levels()[2] in Levels() && Levels()[3] in Levels();
    }
  }

  /** The loops of `seek`. */
  method SeekLoop(lines: seq<string>, pattern: seq<string>, start: nat, eof: bool) returns (r: int)
    ensures r == Seek(lines, pattern, start, eof)
  {
    if pattern == [] { return -1; }
    var levels := Levels();
    for i := 0 to |levels|
      invariant Seek(lines, pattern, start, eof) == SeekLevels(lines, pattern, start, eof, levels[i..])
    {
      assert levels[i..][0] == levels[i] && levels[i..][1..] == levels[i + 1..];
      if eof {
        var offset := |lines| - |pattern|;
        if offset >= start && Matches(lines, pattern, offset, levels[i]) { return offset; }
      }
      var offset := start;
      while offset <= |lines| - |pattern|
        invariant start <= offset
        invariant FirstMatch(lines, pattern, start, levels[i])
               == if offset <= |lines| - |pattern| then FirstMatch(lines, pattern, offset, levels[i]) else -1
      {
        if Matches(lines, pattern, offset, levels[i]) { return offset; }
        offset := offset + 1;
      }
    }
    return -1;
  }

  // ---------------------------------------------------------------- locating the chunks

  datatype Replacement = Replacement(start: nat, remove: nat, insert: seq<string>)

  datatype ApplyError = ContextNotFound(context: string) | LinesNotFound(lines: seq<string>)

  function DropLast(s: seq<string>): seq<string> {
    if s == [] then [] else s[..|s| - 1]
  }

  predicate EndsBlank(s: seq<string>) {
    s != [] && s[|s| - 1] == ""
  }

  /** Where one chunk's old lines are, with the second try that ignores a trailing blank line; None is an insertion. */
  function LocateChunk(lines: seq<string>, chunk: Chunk, from: nat): Result<Option<Replacement>, ApplyError> {
    if chunk.oldLines == [] then Ok(None)
    else
      var found := Seek(lines, chunk.oldLines, from, chunk.endOfFile);
      if found != -1 then Ok(Some(Replacement(found, |chunk.oldLines|, chunk.newLines)))
      else if !EndsBlank(chunk.oldLines) then Err(LinesNotFound(chunk.oldLines))
      else
        var oldLines := DropLast(chunk.oldLines);
        var newLines := if EndsBlank(chunk.newLines) then DropLast(chunk.newLines) else chunk.newLines;
        var again := Seek(lines, oldLines, from, chunk.endOfFile);
        if again != -1 then Ok(Some(Replacement(again, |oldLines|, newLines))) else Err(LinesNotFound(chunk.oldLines))
  }

  /** An empty context counts as none. */
  predicate HasContext(chunk: Chunk) {
    chunk.context.Some? && chunk.context.value != ""
  }

  /** The running line index after a chunk's context line, if it has one. */
  function AfterContext(lines: seq<string>, chunk: Chunk, from: nat): Result<nat, ApplyError> {
    if !HasContext(chunk) then Ok(from)
    else
      var found := Seek(lines, [chunk.context.value], from, false);
      if found == -1 then Err(ContextNotFound(chunk.context.value)) else Ok(found + 1)
  }

  /** All replacements in chunk order. */
  function Locate(lines: seq<string>, chunks: seq<Chunk>, from: nat): Result<seq<Replacement>, ApplyError> {
    if chunks == [] then Ok([])
    else
      match AfterContext(lines, chunks[0], from)
      case Err(e) => Err(e)
      case Ok(index) =>
        match LocateChunk(lines, chunks[0], index)
        case Err(e) => Err(e)
        case Ok(located) =>
          var next := if located.Some? then located.value.start + located.value.remove else index;
          var here := if located.Some? then located.value else Replacement(|lines|, 0, chunks[0].newLines);
          match Locate(lines, chunks[1..], next)
          case Err(e) => Err(e)
          case Ok(more) => Ok([here] + more)
  }

  /** The stable sort by start. */
  function SortByStart(rs: seq<Replacement>): seq<Replacement> {
    if rs == [] then [] else InsertByStart(rs[0], SortByStart(rs[1..]))
  }

  function InsertByStart(r: Replacement, rs: seq<Replacement>): seq<Replacement> {
    if rs == [] || r.start <= rs[0].start then [r] + rs else [rs[0]] + InsertByStart(r, rs[1..])
  }

  function Replacements(lines: seq<string>, chunks: seq<Chunk>): Result<seq<Replacement>, ApplyError> {
    match Locate(lines, chunks, 0)
    case Err(e) => Err(e)
    case Ok(rs) => Ok(SortByStart(rs))
  }

  /** `computeReplacements`. */
  method ComputeReplacements(lines: seq<string>, chunks: seq<Chunk>) returns (r: Result<seq<Replacement>, ApplyError>)
    ensures r == Replacements(lines, chunks)
  {
    hide Seek, EndsBlank, DropLast;
    var replacements: seq<Replacement> := [];
    var lineIndex: nat := 0;
    for n := 0 to |chunks|
      invariant Locate(lines, chunks, 0) == Located(replacements, Locate(lines, chunks[n..], lineIndex))
    {
      var chunk := chunks[n];
      assert chunks[n..][0] == chunk && chunks[n..][1..] == chunks[n + 1..];
      ghost var from := lineIndex;
      if HasContext(chunk) {
        var context := SeekLoop(lines, [chunk.context.value], lineIndex, false);
        if context == -1 { return Err(ContextNotFound(chunk.context.value)); }
        lineIndex := context + 1;
      }
      assert AfterContext(lines, chunk, from) == Ok(lineIndex);
      if chunk.oldLines == [] {
        LocatedStep(replacements, Replacement(|lines|, 0, chunk.newLines), Locate(lines, chunks[n + 1..], lineIndex));
        replacements := replacements + [Replacement(|lines|, 0, chunk.newLines)];
        continue;
      }
      var oldLines, newLines := chunk.oldLines, chunk.newLines;
      var found := SeekLoop(lines, oldLines, lineIndex, chunk.endOfFile);
      if found == -1 && EndsBlank(oldLines) {
        oldLines := DropLast(oldLines);
        if EndsBlank(newLines) { newLines := DropLast(newLines); }
        found := SeekLoop(lines, oldLines, lineIndex, chunk.endOfFile);
      }
      if found == -1 { return Err(LinesNotFound(chunk.oldLines)); }
      assert LocateChunk(lines, chunk, lineIndex) == Ok(Some(Replacement(found, |oldLines|, newLines)));
      lineIndex := found + |oldLines|;
      LocatedStep(replacements, Replacement(found, |oldLines|, newLines), Locate(lines, chunks[n + 1..], lineIndex));
      replacements := replacements + [Replacement(found, |oldLines|, newLines)];
    }
    return Ok(SortByStart(replacements));
  }

  function Located(done: seq<Replacement>, more: Result<seq<Replacement>, ApplyError>):
      (r: Result<seq<Replacement>, ApplyError>)
    ensures done == [] ==> r == more
    ensures more == Ok([]) ==> r == Ok(done)
  {
    match more
    case Err(e) => Err(e)
    case Ok(rs) =>
      assert [] + rs == rs && (rs == [] ==> done + rs == done);
      Ok(done + rs)
  }

  lemma LocatedStep(done: seq<Replacement>, item: Replacement, more: Result<seq<Replacement>, ApplyError>)
    ensures Located(done + [item], more) == Located(done, Located([item], more))
  {
    if more.Ok? { assert done + [item] + more.value == done + ([item] + more.value); }
  }

  // ---------------------------------------------------------------- the shape of the replacements

  function LocatedOnes(rs: seq<Replacement>): seq<Replacement> {
    if rs == [] then [] else (if rs[0].remove > 0 then [rs[0]] else []) + LocatedOnes(rs[1..])
  }

  function Insertions(rs: seq<Replacement>): seq<Replacement> {
    if rs == [] then [] else (if rs[0].remove == 0 then [rs[0]] else []) + Insertions(rs[1..])
  }

  /** In bounds, in order and pairwise disjoint, from a given line on. */
  predicate Disjoint(rs: seq<Replacement>, from: nat, length: nat) {
    if rs == [] then from <= length
    else from <= rs[0].start && Disjoint(rs[1..], rs[0].start + rs[0].remove, length)
  }

  /** Pairwise, as a reader would say it. */
  lemma {:induction false} DisjointPairs(rs: seq<Replacement>, from: nat, length: nat)
    requires Disjoint(rs, from, length)
    ensures from <= length
    ensures forall i :: 0 <= i < |rs| ==> from <= rs[i].start && rs[i].start + rs[i].remove <= length
    ensures forall i, k :: 0 <= i < k < |rs| ==> rs[i].start + rs[i].remove <= rs[k].start
  {
    if rs != [] { DisjointPairs(rs[1..], rs[0].start + rs[0].remove, length); }
  }

  lemma LocateBounds(lines: seq<string>, chunk: Chunk, from: nat)
    requires from <= |lines|
    ensures var index := AfterContext(lines, chunk, from);
      index.Ok? ==> from <= index.value <= |lines|
    ensures var located := LocateChunk(lines, chunk, from);
      && (located.Ok? && located.value.Some? ==>
            var r := located.value.value; from <= r.start && r.remove > 0 && r.start + r.remove <= |lines|)
      && (located == Ok(None) ==> chunk.oldLines == [])
  {
    hide SeekLevels, EndsBlank;
  }

  /**
   * A pure insertion goes to the end of the file and inserts its chunk's new lines; anything else is before the end.
   */
  predicate Placed(r: Replacement, chunk: Chunk, length: nat) {
    if r.remove == 0 then r == Replacement(length, 0, chunk.newLines) else r.start < length
  }

  /** One unfolding of the search for the chunks. */
  lemma LocateHead(lines: seq<string>, chunks: seq<Chunk>, from: nat) returns (index: nat, head: Replacement,
                   more: seq<Replacement>)
    requires from <= |lines| && chunks != [] && Locate(lines, chunks, from).Ok?
    ensures Locate(lines, chunks, from).value == [head] + more
    ensures from <= index <= |lines| && Placed(head, chunks[0], |lines|)
    ensures head.remove > 0 ==> index <= head.start && head.start + head.remove <= |lines|
    ensures Locate(lines, chunks[1..], if head.remove > 0 then head.start + head.remove else index) == Ok(more)
  {
    hide AfterContext, LocateChunk;
    LocateBounds(lines, chunks[0], from);
    index := AfterContext(lines, chunks[0], from).value;
    LocateBounds(lines, chunks[0], index);
    PlacedHead(lines, chunks[0], index);
    head := Locate(lines, chunks, from).value[0];
    more := Locate(lines, chunks, from).value[1..];
  }

  lemma {:induction false} LocateShape(lines: seq<string>, chunks: seq<Chunk>, from: nat)
    requires from <= |lines| && Locate(lines, chunks, from).Ok?
    ensures var rs := Locate(lines, chunks, from).value;
      && |rs| == |chunks|
      && Disjoint(LocatedOnes(rs), from, |lines|)
      && forall i :: 0 <= i < |rs| ==> Placed(rs[i], chunks[i], |lines|)
  {
    if chunks == [] {
    } else {
      var index, head, more := LocateHead(lines, chunks, from);
      hide Locate, Disjoint, Placed;
      LocateShape(lines, chunks[1..], if head.remove > 0 then head.start + head.remove else index);
      assert ([head] + more)[1..] == more;
      if head.remove > 0 {
        DisjointCons(head, LocatedOnes(more), from, |lines|);
      } else {
        assert LocatedOnes([head] + more) == LocatedOnes(more);
        DisjointFrom(LocatedOnes(more), from, index, |lines|);
      }
    }
  }

  lemma PlacedHead(lines: seq<string>, chunk: Chunk, from: nat)
    requires from <= |lines| && LocateChunk(lines, chunk, from).Ok?
    ensures var located := LocateChunk(lines, chunk, from).value;
      Placed(if located.Some? then located.value else Replacement(|lines|, 0, chunk.newLines), chunk, |lines|)
  {
    hide LocateChunk;
    LocateBounds(lines, chunk, from);
  }

  // ---------------------------------------------------------------- where each chunk is found

  /** The search for a chunk starts behind its context line, itself found at its strictest from the running line on. */
  ghost predicate ContextAt(lines: seq<string>, chunk: Chunk, from: nat, index: nat) {
    if !HasContext(chunk) then index == from
    else index > 0 && StrictestMatch(lines, [chunk.context.value], from, false, Levels(), index - 1)
  }

  ghost predicate NowhereFrom(lines: seq<string>, pattern: seq<string>, from: nat) {
    pattern == [] || forall level :: level in Levels() ==> !Found(lines, pattern, from, level)
  }

  /**
   * A chunk's replacement: its old lines at their strictest match, or, if they have none and end blank, the same
   * without the blank line; a chunk without old lines goes to the end.
   */
  ghost predicate FoundAt(lines: seq<string>, chunk: Chunk, index: nat, r: Replacement) {
    if chunk.oldLines == [] then r == Replacement(|lines|, 0, chunk.newLines)
    else if !NowhereFrom(lines, chunk.oldLines, index) then
      && r == Replacement(r.start, |chunk.oldLines|, chunk.newLines)
      && StrictestMatch(lines, chunk.oldLines, index, chunk.endOfFile, Levels(), r.start)
    else
      && EndsBlank(chunk.oldLines) && |chunk.oldLines| > 1
      && r == Replacement(r.start, |chunk.oldLines| - 1,
                          if EndsBlank(chunk.newLines) then DropLast(chunk.newLines) else chunk.newLines)
      && StrictestMatch(lines, DropLast(chunk.oldLines), index, chunk.endOfFile, Levels(), r.start)
  }

  lemma ContextIsStrictest(lines: seq<string>, chunk: Chunk, from: nat)
    requires AfterContext(lines, chunk, from).Ok?
    ensures ContextAt(lines, chunk, from, AfterContext(lines, chunk, from).value)
  {
    hide Seek, StrictestMatch, Found;
    if HasContext(chunk) { SeekIsStrictest(lines, [chunk.context.value], from, false); }
  }

  lemma ChunkIsStrictest(lines: seq<string>, chunk: Chunk, index: nat)
    requires LocateChunk(lines, chunk, index).Ok?
    ensures var located := LocateChunk(lines, chunk, index).value;
            FoundAt(lines, chunk, index, if located.Some? then located.value
                else Replacement(|lines|, 0, chunk.newLines))
  {
    hide Seek, StrictestMatch, Found;
    if chunk.oldLines != [] {
      SeekIsStrictest(lines, chunk.oldLines, index, chunk.endOfFile);
      SeekIsStrictest(lines, DropLast(chunk.oldLines), index, chunk.endOfFile);
    }
  }

  /** The running line after a chunk. */
  function NextLine(r: Replacement, index: nat): nat {
    if r.remove > 0 then r.start + r.remove else index
  }

  /**
   * Every chunk is found at its strictest match from its running line on, which starts at `from`, moves behind the
   * chunk's context line, and from there behind the lines that the chunk replaces.
   */
  lemma {:induction false} ChunksAreStrictest(lines: seq<string>, chunks: seq<Chunk>, from: nat)
    returns (starts: seq<nat>, indices: seq<nat>)
    requires from <= |lines| && Locate(lines, chunks, from).Ok?
    ensures var rs := Locate(lines, chunks, from).value;
      && |rs| == |chunks| == |indices| && |starts| == |chunks| + 1 && starts[0] == from
      && (forall k :: 0 <= k < |chunks| ==> ContextAt(lines, chunks[k], starts[k], indices[k]))
      && (forall k :: 0 <= k < |chunks| ==> FoundAt(lines, chunks[k], indices[k], rs[k]))
      && (forall k :: 0 <= k < |chunks| ==> starts[k + 1] == NextLine(rs[k], indices[k]))
  {
    hide ContextAt, FoundAt, AfterContext, LocateChunk;
    if chunks == [] {
      starts, indices := [from], [];
    } else {
      ContextIsStrictest(lines, chunks[0], from);
      var index := AfterContext(lines, chunks[0], from).value;
      LocateBounds(lines, chunks[0], from);
      LocateBounds(lines, chunks[0], index);
      ChunkIsStrictest(lines, chunks[0], index);
      var head := Locate(lines, chunks, from).value[0];
      assert Locate(lines, chunks[1..], NextLine(head, index)).Ok?;
      var laterStarts, laterIndices := ChunksAreStrictest(lines, chunks[1..], NextLine(head, index));
      assert Locate(lines, chunks, from).value == [head] + Locate(lines, chunks[1..], NextLine(head, index)).value;
      starts, indices := [from] + laterStarts, [index] + laterIndices;
      assert forall k :: 0 < k < |chunks| ==> chunks[k] == chunks[1..][k - 1];
    }
  }

  lemma DisjointCons(r: Replacement, rs: seq<Replacement>, from: nat, length: nat)
    requires from <= r.start && Disjoint(rs, r.start + r.remove, length)
    ensures Disjoint([r] + rs, from, length)
  {
    assert ([r] + rs)[1..] == rs;
  }

  lemma DisjointFrom(rs: seq<Replacement>, from: nat, index: nat, length: nat)
    requires from <= index && Disjoint(rs, index, length)
    ensures Disjoint(rs, from, length)
  {
    DisjointPairs(rs, index, length);
  }

  /** Inserting into sorted replacements whose insertions come last. */
  lemma {:induction false} InsertAmong(r: Replacement, located: seq<Replacement>, insertions: seq<Replacement>,
                                       length: nat)
    requires forall i :: 0 <= i < |located| ==> r.start <= located[i].start || r.remove == 0
    requires forall i :: 0 <= i < |located| ==> located[i].start < length
    requires forall i :: 0 <= i < |insertions| ==> insertions[i].start == length
    requires if r.remove == 0 then r.start == length else r.start < length
    ensures InsertByStart(r, located + insertions)
         == if r.remove == 0 then located + ([r] + insertions) else [r] + located + insertions
  {
    var rs := located + insertions;
    if r.remove == 0 && located != [] {
      assert rs[1..] == located[1..] + insertions;
      InsertAmong(r, located[1..], insertions, length);
      assert [located[0]] + (located[1..] + ([r] + insertions)) == located + ([r] + insertions);
    } else if located == [] {
      assert rs == insertions;
      assert [r] + [] + insertions == [r] + insertions && [] + ([r] + insertions) == [r] + insertions;
    } else {
      assert [r] + rs == [r] + located + insertions;
    }
  }

  lemma {:induction false} SortShape(rs: seq<Replacement>, from: nat, length: nat)
    requires Disjoint(LocatedOnes(rs), from, length)
    requires forall i :: 0 <= i < |rs| ==> if rs[i].remove == 0 then rs[i].start == length else rs[i].start < length
    ensures SortByStart(rs) == LocatedOnes(rs) + Insertions(rs)
  {
    if rs == [] {
    } else {
      hide Disjoint, InsertByStart, LocatedOnes, Insertions;
      var located, insertions := LocatedOnes(rs[1..]), Insertions(rs[1..]);
      ShapeStep(rs, length);
      var end := if rs[0].remove > 0 then rs[0].start + rs[0].remove else from;
      assert Disjoint(located, end, length) &&
          (rs[0].remove > 0 ==> forall i :: 0 <= i < |located| ==> rs[0].start <= located[i].start) by {
        if rs[0].remove > 0 { DisjointTail(rs[0], located, from, length); }
      }
      assert forall i :: 0 <= i < |rs[1..]| ==> rs[1..][i] == rs[i + 1];
      SortShape(rs[1..], end, length);
      InsertAmong(rs[0], located, insertions, length);
      assert SortByStart(rs) == InsertByStart(rs[0], located + insertions);
      hide SortByStart;
    }
  }

  lemma ShapeStep(rs: seq<Replacement>, length: nat)
    requires rs != []
    requires forall i :: 0 <= i < |rs| ==> if rs[i].remove == 0 then rs[i].start == length else rs[i].start < length
    ensures LocatedOnes(rs) == if rs[0].remove > 0 then [rs[0]] + LocatedOnes(rs[1..]) else LocatedOnes(rs[1..])
    ensures Insertions(rs) == if rs[0].remove > 0 then Insertions(rs[1..]) else [rs[0]] + Insertions(rs[1..])
    ensures forall i :: 0 <= i < |LocatedOnes(rs[1..])| ==> LocatedOnes(rs[1..])[i].start < length
    ensures forall i :: 0 <= i < |Insertions(rs[1..])| ==> Insertions(rs[1..])[i].start == length
  {
    LocatedMembers(rs[1..]);
    assert [] + LocatedOnes(rs[1..]) == LocatedOnes(rs[1..]) && [] + Insertions(rs[1..]) == Insertions(rs[1..]);
    MemberStarts(rs[1..], LocatedOnes(rs[1..]), rs, length);
    MemberStarts(rs[1..], Insertions(rs[1..]), rs, length);
  }

  lemma MemberStarts(tail: seq<Replacement>, some: seq<Replacement>, rs: seq<Replacement>, length: nat)
    requires rs != [] && tail == rs[1..] && forall r :: r in some ==> r in tail
    requires forall i :: 0 <= i < |rs| ==> if rs[i].remove == 0 then rs[i].start == length else rs[i].start < length
    ensures forall i ::
              0 <= i < |some| ==> if some[i].remove == 0 then some[i].start == length else some[i].start < length
  {
    forall i | 0 <= i < |some| ensures if some[i].remove == 0 then some[i].start == length else some[i].start < length {
      assert some[i] in tail;
      var k :| 0 <= k < |tail| && tail[k] == some[i];
      assert rs[k + 1] == some[i];
    }
  }

  lemma DisjointTail(r: Replacement, rs: seq<Replacement>, from: nat, length: nat)
    requires Disjoint([r] + rs, from, length)
    ensures Disjoint(rs, r.start + r.remove, length)
    ensures forall i :: 0 <= i < |rs| ==> r.start <= rs[i].start
  {
    assert ([r] + rs)[1..] == rs;
    DisjointPairs(rs, r.start + r.remove, length);
  }

  lemma {:induction false} LocatedMembers(rs: seq<Replacement>)
    ensures forall r :: r in LocatedOnes(rs) ==> r in rs && r.remove > 0
    ensures forall r :: r in Insertions(rs) ==> r in rs && r.remove == 0
  {
    if rs != [] { LocatedMembers(rs[1..]); }
  }

  /**
   * The replacements of any chunks that can be located: one per chunk, in bounds and pairwise disjoint; those
   * with old lines keep the chunk order and the pure insertions follow them, in chunk order, at the end.
   */
  lemma ReplacementsShape(lines: seq<string>, chunks: seq<Chunk>)
    requires Replacements(lines, chunks).Ok?
    ensures var raw := Locate(lines, chunks, 0).value;
      var rs := Replacements(lines, chunks).value;
      && |raw| == |chunks| && rs == LocatedOnes(raw) + Insertions(raw)
      && Disjoint(rs, 0, |lines|)
      && forall r :: r in Insertions(raw) ==> r.start == |lines| && r.remove == 0
  {
    hide Locate, SortByStart;
    LocateShape(lines, chunks, 0);
    var raw := Locate(lines, chunks, 0).value;
    SortShape(raw, 0, |lines|);
    LocatedMembers(raw);
    forall i | 0 <= i < |Insertions(raw)| ensures Insertions(raw)[i].start == |lines| &&
        Insertions(raw)[i].remove == 0 {
      assert Insertions(raw)[i] in Insertions(raw);
    }
    DisjointConcat(LocatedOnes(raw), Insertions(raw), 0, |lines|);
  }

  lemma {:induction false} DisjointConcat(left: seq<Replacement>, right: seq<Replacement>, from: nat, length: nat)
    requires Disjoint(left, from, length)
    requires forall i :: 0 <= i < |right| ==> right[i].start == length && right[i].remove == 0
    ensures Disjoint(left + right, from, length)
  {
    if left != [] {
      DisjointConcat(left[1..], right, left[0].start + left[0].remove, length);
      assert (left + right)[1..] == left[1..] + right;
    } else if right != [] {
      DisjointConcat([], right[1..], length, length);
      assert (left + right)[1..] == [] + right[1..];
    }
  }

  // ---------------------------------------------------------------- splicing

  /** `updated.splice(start, remove, ...insert)`. */
  function Splice(lines: seq<string>, r: Replacement): seq<string>
    requires r.start + r.remove <= |lines|
  {
    lines[..r.start] + r.insert + lines[r.start + r.remove..]
  }

  /** One simultaneous edit: the untouched segments between the replacements, interleaved with the new lines. */
  function Interleave(lines: seq<string>, rs: seq<Replacement>, from: nat): seq<string>
    requires Disjoint(rs, from, |lines|)
  {
    DisjointPairs(rs, from, |lines|);
    if rs == [] then lines[from..]
    else lines[from..rs[0].start] + rs[0].insert + Interleave(lines, rs[1..], rs[0].start + rs[0].remove)
  }

  /** Splicing the first replacement into lines whose later ones are done already. */
  lemma SpliceFirst(lines: seq<string>, rs: seq<Replacement>, from: nat)
    requires rs != [] && Disjoint(rs, from, |lines|)
    ensures var end := rs[0].start + rs[0].remove;
      && end <= |lines|
      && Splice(lines[..end] + Interleave(lines, rs[1..], end), rs[0]) == lines[..from] + Interleave(lines, rs, from)
  {
    DisjointPairs(rs, from, |lines|);
    var r := rs[0];
    var end := r.start + r.remove;
    var done := lines[..end] + Interleave(lines, rs[1..], end);
    var tail := Interleave(lines, rs[1..], end);
    assert done[..r.start] == lines[..r.start];
    assert done[end..] == tail;
    assert lines[..from] + lines[from..r.start] == lines[..r.start];
    assert Interleave(lines, rs, from) == lines[from..r.start] + r.insert + tail;
    assert lines[..from] + (lines[from..r.start] + r.insert + tail)
           == lines[..from] + lines[from..r.start] + r.insert + tail;
  }

  /** The loop of `derive`: splicing from right to left carries out the simultaneous edit. */
  method ApplyReplacements(lines: seq<string>, rs: seq<Replacement>) returns (updated: seq<string>)
    requires Disjoint(rs, 0, |lines|)
    ensures updated == Interleave(lines, rs, 0)
  {
    updated := lines;
    var n := |rs|;
    ghost var from := EndOf(rs, n, 0);
    DisjointDrop(rs, n, 0, |lines|);
    assert lines[..from] + Interleave(lines, rs[n..], from) == lines;
    hide Disjoint, Interleave, Splice, EndOf;
    while n > 0
      invariant 0 <= n <= |rs| && from == EndOf(rs, n, 0)
      invariant Disjoint(rs[n..], from, |lines|) && from <= |lines|
      invariant updated == lines[..from] + Interleave(lines, rs[n..], from)
    {
      n := n - 1;
      DisjointDrop(rs, n, 0, |lines|);
      assert rs[n..][0] == rs[n] && rs[n..][1..] == rs[n + 1..];
      SpliceFirst(lines, rs[n..], EndOf(rs, n, 0));
      updated := Splice(updated, rs[n]);
      from := EndOf(rs, n, 0);
    }
    assert rs[0..] == rs;
  }

  /** Where the first `n` replacements end. */
  function EndOf(rs: seq<Replacement>, n: nat, from: nat): nat
    requires n <= |rs|
  {
    if n == 0 then from else rs[n - 1].start + rs[n - 1].remove
  }

  lemma {:induction false} DisjointDrop(rs: seq<Replacement>, n: nat, from: nat, length: nat)
    requires n <= |rs| && Disjoint(rs, from, length)
    ensures Disjoint(rs[n..], EndOf(rs, n, from), length) && EndOf(rs, n, from) <= length
  {
    DisjointPairs(rs, from, length);
    if n == 0 {
      assert rs[0..] == rs;
    } else {
      DisjointDrop(rs[1..], n - 1, rs[0].start + rs[0].remove, length);
      assert rs[1..][n - 1..] == rs[n..];
    }
  }

  // ---------------------------------------------------------------- derive

  datatype FileUpdate = FileUpdate(content: string, bom: bool)

  predicate HasBom(text: string) {
    text != "" && text[0] == BOM
  }

  function WithoutBom(text: string): string {
    if HasBom(text) then text[1..] else text
  }

  /** `joinBom`: the text that is written for an update. */
  function JoinBom(text: string, bom: bool): string {
    (if bom then [BOM] else "") + WithoutBom(text)
  }

  /** The lines of a text, not counting the empty one after a final line break. */
  function TextLines(text: string): seq<string> {
    var lines := Split(text);
    if EndsBlank(lines) then DropLast(lines) else lines
  }

  /** The lines of a file as `derive` reads them. */
  function FileLines(file: string): seq<string> {
    TextLines(WithoutBom(file))
  }

  /** The text of edited lines: a final line break is added unless the last line is blank already. */
  function EditedText(edited: seq<string>): string {
    Join(if EndsBlank(edited) then edited else edited + [""])
  }

  /** The lines after all chunks have been applied at once. */
  function Edited(lines: seq<string>, chunks: seq<Chunk>): Result<seq<string>, ApplyError> {
    match Replacements(lines, chunks)
    case Err(e) => Err(e)
    case Ok(rs) =>
      ReplacementsShape(lines, chunks);
      Ok(Interleave(lines, rs, 0))
  }

  /** `derive`. */
  method Derive(chunks: seq<Chunk>, original: string) returns (r: Result<FileUpdate, ApplyError>)
    ensures match Edited(FileLines(original), chunks)
      case Err(e) => r == Err(e)
      case Ok(edited) => r == Ok(Written(original, edited))
    ensures r.Ok? && NewLinesAreLines(chunks) ==>
      var edited := Edited(FileLines(original), chunks).value; ReadBack(r.value) == edited <==> Rereadable(edited)
  {
    var lines := Split(WithoutBom(original));
    if EndsBlank(lines) { lines := DropLast(lines); }
    var replacements := ComputeReplacements(lines, chunks);
    if replacements.Err? { return Err(replacements.error); }
    ReplacementsShape(lines, chunks);
    var updated := ApplyReplacements(lines, replacements.value);
    if !EndsBlank(updated) { updated := updated + [""]; }
    var next := Join(updated);
    if NewLinesAreLines(chunks) { DeriveReadsBack(original, chunks); }
    return Ok(FileUpdate(WithoutBom(next), HasBom(original) || HasBom(next)));
  }

  predicate OneLiners(lines: seq<string>) {
    forall i :: 0 <= i < |lines| ==> OneLine(lines[i])
  }

  /** The text of edited lines reads back as those lines, short of a last one that is blank. */
  lemma TextReadsBack(edited: seq<string>)
    requires OneLiners(edited)
    ensures TextLines(EditedText(edited)) == if EndsBlank(edited) then DropLast(edited) else edited
  {
    var written := if EndsBlank(edited) then edited else edited + [""];
    SplitJoin(written);
  }

  /** What the written file of an update reads back as. */
  function ReadBack(update: FileUpdate): seq<string> {
    FileLines(JoinBom(update.content, update.bom))
  }

  lemma BomReadsBack(text: string, bom: bool)
    requires !HasBom(text)
    ensures WithoutBom(JoinBom(WithoutBom(text), bom || HasBom(text))) == text
  {
    if bom { assert ([BOM] + text)[1..] == text; } else { assert "" + text == text; }
  }

  /** A text with its byte order mark taken off reads back with another first line. */
  lemma BomIsLost(edited: seq<string>, bom: bool)
    requires OneLiners(edited) && edited != [] && HasBom(edited[0])
    ensures ReadBack(FileUpdate(WithoutBom(EditedText(edited)), true)) != edited
  {
    var text := EditedText(edited);
    var written := if EndsBlank(edited) then edited else edited + [""];
    SplitJoin(written);
    assert text[0] == BOM && |written| > 1;
    var once := text[1..];
    assert Split(once)[0] == Split(text)[0][1..];
    var file := JoinBom(once, true);
    assert file[1..] == WithoutBom(once);
    assert WithoutBom(file) == WithoutBom(once);
    if HasBom(once) {
      assert Split(once[1..])[0] == Split(once)[0][1..];
    }
    assert |Split(WithoutBom(once))[0]| < |edited[0]|;
    assert |Split(WithoutBom(once))| == |written|;
  }

  /**
   * The file an update writes has exactly the edited lines if and only if the last of them is not blank and the
   * first does not start with a byte order mark of its own (or there are none at all).
   */
  lemma UpdateReadsBack(original: string, edited: seq<string>)
    requires OneLiners(edited)
    ensures var text := EditedText(edited);
      ReadBack(FileUpdate(WithoutBom(text), HasBom(original) || HasBom(text))) == edited <==> Rereadable(edited)
  {
    var text := EditedText(edited);
    if edited != [] && HasBom(edited[0]) {
      BomIsLost(edited, HasBom(original));
      assert HasBom(text);
    } else {
      assert !HasBom(text);
      BomReadsBack(text, HasBom(original));
      TextReadsBack(edited);
    }
  }

  predicate Rereadable(edited: seq<string>) {
    edited == [] || (edited[|edited| - 1] != "" && !HasBom(edited[0]))
  }

  // ---------------------------------------------------------------- the lines that derive computes

  predicate NewLinesAreLines(chunks: seq<Chunk>) {
    forall k :: 0 <= k < |chunks| ==> OneLiners(chunks[k].newLines)
  }

  predicate InsertsAreLines(rs: seq<Replacement>) {
    forall i :: 0 <= i < |rs| ==> OneLiners(rs[i].insert)
  }

  lemma {:induction false} InterleaveIsLines(lines: seq<string>, rs: seq<Replacement>, from: nat)
    requires Disjoint(rs, from, |lines|) && from <= |lines| && OneLiners(lines) && InsertsAreLines(rs)
    ensures OneLiners(Interleave(lines, rs, from))
  {
    if rs != [] {
      assert InsertsAreLines(rs[1..]);
      DisjointPairs(rs, from, |lines|);
      InterleaveIsLines(lines, rs[1..], rs[0].start + rs[0].remove);
    }
  }

  lemma FoundInserts(lines: seq<string>, chunk: Chunk, index: nat, r: Replacement)
    requires FoundAt(lines, chunk, index, r) && OneLiners(chunk.newLines)
    ensures OneLiners(r.insert)
  {
    hide StrictestMatch, Found;
  }

  lemma ReplacementsInsertLines(lines: seq<string>, chunks: seq<Chunk>)
    requires Replacements(lines, chunks).Ok? && NewLinesAreLines(chunks)
    ensures InsertsAreLines(Replacements(lines, chunks).value)
  {
    var raw, rs := Locate(lines, chunks, 0).value, Replacements(lines, chunks).value;
    hide FoundAt, ContextAt, SortByStart, OneLiners;
    var starts, indices := ChunksAreStrictest(lines, chunks, 0);
    hide Locate;
    forall k | 0 <= k < |raw| ensures OneLiners(raw[k].insert) {
      assert FoundAt(lines, chunks[k], indices[k], raw[k]);
      FoundInserts(lines, chunks[k], indices[k], raw[k]);
    }
    ReplacementsShape(lines, chunks);
    LocatedMembers(raw);
    forall i | 0 <= i < |rs| ensures OneLiners(rs[i].insert) {
      assert rs[i] in LocatedOnes(raw) || rs[i] in Insertions(raw);
      var k :| 0 <= k < |raw| && raw[k] == rs[i];
    }
  }

  /** The edited lines of a file are single lines, when the new lines of the chunks are. */
  lemma EditedIsLines(original: string, chunks: seq<Chunk>)
    requires NewLinesAreLines(chunks) && Edited(FileLines(original), chunks).Ok?
    ensures OneLiners(Edited(FileLines(original), chunks).value)
  {
    var lines := FileLines(original);
    ReplacementsInsertLines(lines, chunks);
    ReplacementsShape(lines, chunks);
    InterleaveIsLines(lines, Replacements(lines, chunks).value, 0);
  }

  /** What `derive` returns for a file and the lines it edits it to. */
  function Written(original: string, edited: seq<string>): FileUpdate {
    var text := EditedText(edited);
    FileUpdate(WithoutBom(text), HasBom(original) || HasBom(text))
  }

  /** The file that `derive` has written reads back as the lines it computed exactly if they can be read back at all. */
  lemma DeriveReadsBack(original: string, chunks: seq<Chunk>)
    requires NewLinesAreLines(chunks) && Edited(FileLines(original), chunks).Ok?
    ensures var edited := Edited(FileLines(original), chunks).value;
            ReadBack(Written(original, edited)) == edited <==> Rereadable(edited)
  {
    EditedIsLines(original, chunks);
    UpdateReadsBack(original, Edited(FileLines(original), chunks).value);
  }

  /** In particular for every update of a patch that parses. */
  lemma ParsedUpdateReadsBack(text: string, i: nat, original: string)
    requires Patch(text).Ok? && i < |Patch(text).value| && Patch(text).value[i].Update?
    requires Edited(FileLines(original), Patch(text).value[i].chunks).Ok?
    ensures var edited := Edited(FileLines(original), Patch(text).value[i].chunks).value;
            ReadBack(Written(original, edited)) == edited <==> Rereadable(edited)
  {
    hide Patch, Edited, FileLines, ReadBack;
    PatchRoundTrip.Reprint(text);
    var hunk := Patch(text).value[i];
    assert PatchRoundTrip.HunkValue(hunk);
    forall k | 0 <= k < |hunk.chunks| ensures OneLiners(hunk.chunks[k].newLines) {
      assert PatchRoundTrip.ChunkValue(hunk.chunks[k]) && PatchRoundTrip.Lines(hunk.chunks[k].newLines);
    }
    DeriveReadsBack(original, hunk.chunks);
  }
}
