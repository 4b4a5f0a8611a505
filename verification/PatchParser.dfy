/**
 * Reading the patch format of packages/core/src/patch.ts: a grammar on lists of lines, and the loops of `parse`,
 * `parseAdd` and `parseUpdate`, which are proved to read by it.
 */
module PatchParser {
  import opened Wrappers
  import opened Text

  datatype Chunk = Chunk(oldLines: seq<string>, newLines: seq<string>, context: Option<string>, endOfFile: bool)

  datatype Hunk =
    | Add(path: string, contents: string)
    | Delete(path: string)
    | Update(path: string, movePath: Option<string>, chunks: seq<Chunk>)

  datatype ParseError =
    | MissingMarkers | InvalidAddPath | InvalidDeletePath | InvalidUpdatePath | InvalidMovePath
    | InvalidAddLine(line: string) | InvalidUpdateLine(line: string) | InvalidChunkLine(line: string)
    | NoChunks(path: string) | InvalidPatchLine(line: string)

  const BEGIN := "*** Begin Patch"
  const END := "*** End Patch"
  const ADD := "*** Add File:"
  const DELETE := "*** Delete File:"
  const UPDATE := "*** Update File:"
  const MOVE := "*** Move to:"
  const EOF := "*** End of File"
  const STARS := "***"
  const AT := "@@"

  // ---------------------------------------------------------------- the grammar, on the remaining lines

  datatype Parsed<T> = Parsed(value: T, rest: seq<string>)

  predicate Stops(rest: seq<string>) {
    rest == [] || STARS <= rest[0]
  }

  function AddLines(rest: seq<string>): (r: Result<Parsed<seq<string>>, ParseError>)
    ensures r.Ok? ==> |r.value.rest| <= |rest|
  {
    if Stops(rest) then Ok(Parsed([], rest))
    else if !("+" <= rest[0]) then Err(InvalidAddLine(rest[0]))
    else
      match AddLines(rest[1..])
      case Err(e) => Err(e)
      case Ok(more) => Ok(Parsed([rest[0][1..]] + more.value, more.rest))
  }

  /** The lines of one chunk after its `@@` line; the value carries no context yet. */
  function ChunkLines(rest: seq<string>): (r: Result<Parsed<Chunk>, ParseError>)
    ensures r.Ok? ==> |r.value.rest| <= |rest|
  {
    if rest == [] || AT <= rest[0] then Ok(Parsed(Chunk([], [], None, false), rest))
    else if rest[0] == EOF then Ok(Parsed(Chunk([], [], None, true), rest[1..]))
    else if STARS <= rest[0] then Ok(Parsed(Chunk([], [], None, false), rest))
    else
      var keeps, cuts, puts := " " <= rest[0], "-" <= rest[0], "+" <= rest[0];
      if !keeps && !cuts && !puts then Err(InvalidChunkLine(rest[0]))
      else
        match ChunkLines(rest[1..])
        case Err(e) => Err(e)
        case Ok(more) =>
          var text := rest[0][1..];
          var chunk := more.value.(
            oldLines := (if keeps || cuts then [text] else []) + more.value.oldLines,
            newLines := (if keeps || puts then [text] else []) + more.value.newLines);
          Ok(Parsed(chunk, more.rest))
  }

  function ContextOf(line: string): Option<string>
    requires AT <= line
  {
    var context := Trim(line[2..]);
    if context == "" then None else Some(context)
  }

  function Chunks(rest: seq<string>): (r: Result<Parsed<seq<Chunk>>, ParseError>)
    ensures r.Ok? ==> |r.value.rest| <= |rest|
    decreases |rest|
  {
    if Stops(rest) then Ok(Parsed([], rest))
    else if !(AT <= rest[0]) then Err(InvalidUpdateLine(rest[0]))
    else
      match ChunkLines(rest[1..])
      case Err(e) => Err(e)
      case Ok(first) =>
        match Chunks(first.rest)
        case Err(e) => Err(e)
        case Ok(more) => Ok(Parsed([first.value.(context := ContextOf(rest[0]))] + more.value, more.rest))
  }

  /** One hunk: its header line, and the lines that belong to it. */
  function HunkAt(rest: seq<string>): (r: Result<Parsed<Hunk>, ParseError>)
    requires rest != []
    ensures r.Ok? ==> |r.value.rest| < |rest|
  {
    var line := rest[0];
    if ADD <= line then
      var path := Trim(line[|ADD|..]);
      if path == "" then Err(InvalidAddPath)
      else
        match AddLines(rest[1..])
        case Err(e) => Err(e)
        case Ok(added) => Ok(Parsed(Add(path, Join(added.value)), added.rest))
    else if DELETE <= line then
      var path := Trim(line[|DELETE|..]);
      if path == "" then Err(InvalidDeletePath) else Ok(Parsed(Delete(path), rest[1..]))
    else if UPDATE <= line then
      var path := Trim(line[|UPDATE|..]);
      if path == "" then Err(InvalidUpdatePath)
      else
        var moves := |rest| > 1 && MOVE <= rest[1];
        var movePath := if moves then Trim(rest[1][|MOVE|..]) else "";
        if moves && movePath == "" then Err(InvalidMovePath)
        else
          match Chunks(if moves then rest[2..] else rest[1..])
          case Err(e) => Err(e)
          case Ok(chunks) =>
            if chunks.value == [] then Err(NoChunks(path))
            else Ok(Parsed(Update(path, if moves then Some(movePath) else None, chunks.value), chunks.rest))
    else Err(InvalidPatchLine(line))
  }

  /** Hunks as long as they start before the end marker, which is `room` lines away. */
  function Hunks(rest: seq<string>, room: int): Result<seq<Hunk>, ParseError>
    requires room <= |rest|
    decreases |rest|
  {
    if room <= 0 then Ok([])
    else
      match HunkAt(rest)
      case Err(e) => Err(e)
      case Ok(first) =>
        match Hunks(first.rest, room - (|rest| - |first.rest|))
        case Err(e) => Err(e)
        case Ok(more) => Ok([first.value] + more)
  }

  /** `lines.findIndex((line) => line.trim() === marker)`, with the length for "not found". */
  function FirstTrimmed(lines: seq<string>, marker: string): (i: nat)
    ensures i <= |lines| && (i < |lines| ==> Trim(lines[i]) == marker)
    ensures forall k :: 0 <= k < i ==> Trim(lines[k]) != marker
  {
    if lines == [] || Trim(lines[0]) == marker then 0 else 1 + FirstTrimmed(lines[1..], marker)
  }

  function PatchLines(lines: seq<string>): Result<seq<Hunk>, ParseError> {
    var begin := FirstTrimmed(lines, BEGIN);
    var end := FirstTrimmed(lines, END);
    if begin == |lines| || end == |lines| || begin >= end then Err(MissingMarkers)
    else Hunks(lines[begin + 1..], end - begin - 1)
  }

  function Patch(text: string): Result<seq<Hunk>, ParseError> {
    PatchLines(Split(StripHeredoc(Trim(text))))
  }

  // ---------------------------------------------------------------- the heredoc wrapper

  predicate IsWord(c: char) {
    'a' <= c <= 'z' || 'A' <= c <= 'Z' || '0' <= c <= '9' || c == '_'
  }

  function SpaceCount(s: string): (n: nat)
    ensures n <= |s|
  {
    if s != "" && IsSpace(s[0]) then 1 + SpaceCount(s[1..]) else 0
  }

  function WordCount(s: string): (n: nat)
    ensures n <= |s|
  {
    if s != "" && IsWord(s[0]) then 1 + WordCount(s[1..]) else 0
  }

  function QuoteCount(s: string): (n: nat)
    ensures n <= |s|
  {
    if s != "" && (s[0] == '\'' || s[0] == '"') then 1 else 0
  }

  function LastNewline(s: string): (r: Option<nat>)
    ensures r.Some? ==> r.value < |s|
  {
    if s == "" then None else if s[|s| - 1] == '\n' then Some(|s| - 1) else LastNewline(s[..|s| - 1])
  }

  /** What follows `<<` at the front, or after `cat` and white space. */
  function Redirected(s: string): Option<string> {
    var spaces := if "cat" <= s then SpaceCount(s[3..]) else 0;
    var command := if spaces > 0 then s[3 + spaces..] else s;
    if "<<" <= command then Some(command[2..]) else None
  }

  function AfterQuote(s: string): string {
    s[QuoteCount(s)..]
  }

  /** What follows the opening tag, up to a closing one that ends the input: the body starts after a line break. */
  function Unwrap(s: string, tag: string): Option<string> {
    var close := |TrimEnd(s)| - |tag| - 1;
    if close < 0 || close > |s| || !(("\n" + tag) <= s[close..]) then None
    else
      match LastNewline(s[..Min(SpaceCount(s), close)])
      case None => None
      case Some(n) => Some(s[n + 1..close])
  }

  /** `stripHeredoc`: the text between `<<TAG` and a closing `TAG`, or the input when it is not so wrapped. */
  function StripHeredoc(s: string): string {
    match Redirected(s)
    case None => s
    case Some(opening) =>
      var word := AfterQuote(opening);
      var n := WordCount(word);
      if n == 0 then s
      else
        match Unwrap(AfterQuote(word[n..]), word[..n])
        case None => s
        case Some(text) => text
  }

  // ---------------------------------------------------------------- the parser's loops

  /** A list of results so far in front of those still to come. */
  function After<T>(done: seq<T>, more: Result<Parsed<seq<T>>, ParseError>): (r: Result<Parsed<seq<T>>, ParseError>)
    ensures done == [] ==> r == more
    ensures more.Ok? && more.value.value == [] ==> r == Ok(Parsed(done, more.value.rest))
  {
    match more
    case Err(e) => Err(e)
    case Ok(p) =>
      assert [] + p.value == p.value && (p.value == [] ==> done + p.value == done);
      Ok(p.(value := done + p.value))
  }

  lemma AfterStep<T>(done: seq<T>, item: T, more: Result<Parsed<seq<T>>, ParseError>)
    ensures After(done + [item], more) == After(done, After([item], more))
  {
    if more.Ok? { assert done + [item] + more.value.value == done + ([item] + more.value.value); }
  }

  /** `parseAdd`. */
  method ParseAdd(lines: seq<string>, start: nat) returns (r: Result<seq<string>, ParseError>, next: nat)
    requires start <= |lines|
    ensures match AddLines(lines[start..])
      case Err(e) => r == Err(e)
      case Ok(added) => r == Ok(added.value) && start <= next <= |lines| && lines[next..] == added.rest
  {
    var content: seq<string> := [];
    next := start;
    while next < |lines| && !(STARS <= lines[next])
      invariant start <= next <= |lines|
      invariant AddLines(lines[start..]) == After(content, AddLines(lines[next..]))
    {
      if !("+" <= lines[next]) { return Err(InvalidAddLine(lines[next])), next; }
      assert lines[next..][1..] == lines[next + 1..];
      AfterStep(content, lines[next][1..], AddLines(lines[next + 1..]));
      content := content + [lines[next][1..]];
      next := next + 1;
    }
    return Ok(content), next;
  }

  /** A chunk with the lines read so far in front of those still to come. */
  function Prefixed(oldLines: seq<string>, newLines: seq<string>, more: Result<Parsed<Chunk>, ParseError>):
      (r: Result<Parsed<Chunk>, ParseError>)
    ensures oldLines == [] && newLines == [] ==> r == more
    ensures more.Ok? && more.value.value.oldLines == [] && more.value.value.newLines == [] ==>
      r == Ok(more.value.(value := more.value.value.(oldLines := oldLines, newLines := newLines)))
  {
    match more
    case Err(e) => Err(e)
    case Ok(p) =>
      assert [] + p.value.oldLines == p.value.oldLines && [] + p.value.newLines == p.value.newLines;
      assert oldLines + [] == oldLines && newLines + [] == newLines;
      Ok(p.(value := p.value.(oldLines := oldLines + p.value.oldLines, newLines := newLines + p.value.newLines)))
  }

  /** One more line of a chunk. */
  lemma PrefixedStep(oldLines: seq<string>, newLines: seq<string>, rest: seq<string>)
    requires rest != [] && !(AT <= rest[0]) && rest[0] != EOF && !(STARS <= rest[0])
    ensures var line, more := rest[0], ChunkLines(rest[1..]);
      Prefixed(oldLines, newLines, ChunkLines(rest)) ==
        if " " <= line then Prefixed(oldLines + [line[1..]], newLines + [line[1..]], more)
        else if "-" <= line then Prefixed(oldLines + [line[1..]], newLines, more)
        else if "+" <= line then Prefixed(oldLines, newLines + [line[1..]], more)
        else Err(InvalidChunkLine(line))
  {
    var more := ChunkLines(rest[1..]);
    if more.Ok? && rest[0] != "" {
      var text, chunk := rest[0][1..], more.value.value;
      assert oldLines + ([text] + chunk.oldLines) == oldLines + [text] + chunk.oldLines;
      assert newLines + ([text] + chunk.newLines) == newLines + [text] + chunk.newLines;
      assert [] + chunk.oldLines == chunk.oldLines && [] + chunk.newLines == chunk.newLines;
    }
  }

  /** The inner loop of `parseUpdate`: the lines of one chunk. */
  method ParseChunk(lines: seq<string>, start: nat) returns (r: Result<Chunk, ParseError>, next: nat)
    requires start <= |lines|
    ensures match ChunkLines(lines[start..])
      case Err(e) => r == Err(e)
      case Ok(chunk) => r == Ok(chunk.value) && start <= next <= |lines| && lines[next..] == chunk.rest
  {
    var oldLines: seq<string>, newLines: seq<string> := [], [];
    var endOfFile := false;
    next := start;
    while next < |lines| && !(AT <= lines[next])
      invariant start <= next <= |lines|
      invariant ChunkLines(lines[start..]) == Prefixed(oldLines, newLines, ChunkLines(lines[next..]))
      decreases |lines| - next
    {
      var line := lines[next];
      assert lines[next..][0] == line && lines[next..][1..] == lines[next + 1..];
      if line == EOF {
        return Ok(Chunk(oldLines, newLines, None, true)), next + 1;
      }
      if STARS <= line { break; }
      PrefixedStep(oldLines, newLines, lines[next..]);
      if " " <= line {
        oldLines, newLines := oldLines + [line[1..]], newLines + [line[1..]];
      } else if "-" <= line {
        oldLines := oldLines + [line[1..]];
      } else if "+" <= line {
        newLines := newLines + [line[1..]];
      } else {
        return Err(InvalidChunkLine(line)), next;
      }
      next := next + 1;
    }
    return Ok(Chunk(oldLines, newLines, None, endOfFile)), next;
  }

  /** `parseUpdate`. */
  method ParseUpdate(lines: seq<string>, start: nat) returns (r: Result<seq<Chunk>, ParseError>, next: nat)
    requires start <= |lines|
    ensures match Chunks(lines[start..])
      case Err(e) => r == Err(e)
      case Ok(chunks) => r == Ok(chunks.value) && start <= next <= |lines| && lines[next..] == chunks.rest
  {
    var chunks: seq<Chunk> := [];
    next := start;
    while next < |lines| && !(STARS <= lines[next])
      invariant start <= next <= |lines|
      invariant Chunks(lines[start..]) == After(chunks, Chunks(lines[next..]))
      decreases |lines| - next
    {
      if !(AT <= lines[next]) { return Err(InvalidUpdateLine(lines[next])), next; }
      var context := ContextOf(lines[next]);
      assert lines[next..][1..] == lines[next + 1..];
      var chunk, after := ParseChunk(lines, next + 1);
      if chunk.Err? { return Err(chunk.error), next; }
      AfterStep(chunks, chunk.value.(context := context), Chunks(lines[after..]));
      chunks := chunks + [chunk.value.(context := context)];
      next := after;
    }
    return Ok(chunks), next;
  }

  /** One turn of the loop of `parse`. */
  method ParseHunk(lines: seq<string>, start: nat) returns (r: Result<Hunk, ParseError>, next: nat)
    requires start < |lines|
    ensures match HunkAt(lines[start..])
      case Err(e) => r == Err(e)
      case Ok(hunk) => r == Ok(hunk.value) && start < next <= |lines| && lines[next..] == hunk.rest
  {
    var line := lines[start];
    next := start + 1;
    assert lines[start..][1..] == lines[next..];
    if ADD <= line {
      var path := Trim(line[|ADD|..]);
      if path == "" { return Err(InvalidAddPath), next; }
      var content;
      content, next := ParseAdd(lines, next);
      if content.Err? { return Err(content.error), next; }
      return Ok(Add(path, Join(content.value))), next;
    }
    if DELETE <= line {
      var path := Trim(line[|DELETE|..]);
      if path == "" { return Err(InvalidDeletePath), next; }
      return Ok(Delete(path)), next;
    }
    if UPDATE <= line {
      var path := Trim(line[|UPDATE|..]);
      if path == "" { return Err(InvalidUpdatePath), next; }
      var movePath := None;
      if next < |lines| && MOVE <= lines[next] {
        assert lines[start..][1] == lines[next] && lines[start..][2..] == lines[next + 1..];
        movePath := Some(Trim(lines[next][|MOVE|..]));
        if movePath == Some("") { return Err(InvalidMovePath), next; }
        next := next + 1;
      }
      var chunks;
      chunks, next := ParseUpdate(lines, next);
      if chunks.Err? { return Err(chunks.error), next; }
      if chunks.value == [] { return Err(NoChunks(path)), next; }
      return Ok(Update(path, movePath, chunks.value)), next;
    }
    return Err(InvalidPatchLine(line)), next;
  }

  function Joined(done: seq<Hunk>, more: Result<seq<Hunk>, ParseError>): (r: Result<seq<Hunk>, ParseError>)
    ensures done == [] ==> r == more
    ensures more == Ok([]) ==> r == Ok(done)
  {
    match more
    case Err(e) => Err(e)
    case Ok(hunks) =>
      assert [] + hunks == hunks && (hunks == [] ==> done + hunks == done);
      Ok(done + hunks)
  }

  lemma JoinedStep(done: seq<Hunk>, item: Hunk, more: Result<seq<Hunk>, ParseError>)
    ensures Joined(done + [item], more) == Joined(done, Joined([item], more))
  {
    if more.Ok? { assert done + [item] + more.value == done + ([item] + more.value); }
  }

  /** The main loop of `parse`, over the lines of the patch. */
  method ParseLines(lines: seq<string>) returns (r: Result<seq<Hunk>, ParseError>)
    ensures r == PatchLines(lines)
  {
    hide HunkAt, Trim, FirstTrimmed;
    var begin, end := FirstTrimmed(lines, BEGIN), FirstTrimmed(lines, END);
    if begin == |lines| || end == |lines| || begin >= end { return Err(MissingMarkers); }
    var hunks: seq<Hunk> := [];
    var index := begin + 1;
    while index < end
      invariant begin < index <= |lines|
      invariant PatchLines(lines) == Joined(hunks, Hunks(lines[index..], end - index))
      decreases |lines| - index
    {
      var hunk, next := ParseHunk(lines, index);
      if hunk.Err? { return Err(hunk.error); }
      JoinedStep(hunks, hunk.value, Hunks(lines[next..], end - next));
      hunks := hunks + [hunk.value];
      index := next;
    }
    return Ok(hunks);
  }

  /** `parse`. */
  method Parse(patchText: string) returns (r: Result<seq<Hunk>, ParseError>)
    ensures r == Patch(patchText)
  {
    r := ParseLines(Split(StripHeredoc(Trim(patchText))));
  }
}
