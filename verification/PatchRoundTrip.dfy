/** A printer for the patch format, and what parsing its output gives back. */
module PatchRoundTrip {
  import opened Wrappers
  import opened Text
  import opened PatchParser

  // ---------------------------------------------------------------- patch documents

  /** One line of an update, as it is written: kept, removed or inserted. */
  datatype DiffLine = Keep(text: string) | Cut(text: string) | Put(text: string)

  datatype ChunkText = ChunkText(context: Option<string>, body: seq<DiffLine>, endOfFile: bool)

  datatype HunkText =
    | AddText(path: string, lines: seq<string>)
    | DeleteText(path: string)
    | UpdateText(path: string, movePath: Option<string>, chunks: seq<ChunkText>)

  function OldLines(body: seq<DiffLine>): seq<string> {
    if body == [] then [] else (if body[0].Put? then [] else [body[0].text]) + OldLines(body[1..])
  }

  function NewLines(body: seq<DiffLine>): seq<string> {
    if body == [] then [] else (if body[0].Cut? then [] else [body[0].text]) + NewLines(body[1..])
  }

  function ChunkMeaning(c: ChunkText): Chunk {
    Chunk(OldLines(c.body), NewLines(c.body), c.context, c.endOfFile)
  }

  function ChunkMeanings(cs: seq<ChunkText>): (r: seq<Chunk>)
    ensures |r| == |cs|
  {
    if cs == [] then [] else [ChunkMeaning(cs[0])] + ChunkMeanings(cs[1..])
  }

  function HunkMeaning(h: HunkText): Hunk {
    match h
    case AddText(path, lines) => Add(path, Join(lines))
    case DeleteText(path) => Delete(path)
    case UpdateText(path, movePath, chunks) => Update(path, movePath, ChunkMeanings(chunks))
  }

  function Meaning(doc: seq<HunkText>): (r: seq<Hunk>)
    ensures |r| == |doc|
  {
    if doc == [] then [] else [HunkMeaning(doc[0])] + Meaning(doc[1..])
  }

  // ---------------------------------------------------------------- printing

  function PrintLine(d: DiffLine): string {
    match d
    case Keep(text) => " " + text
    case Cut(text) => "-" + text
    case Put(text) => "+" + text
  }

  function PrintBody(body: seq<DiffLine>): seq<string> {
    if body == [] then [] else [PrintLine(body[0])] + PrintBody(body[1..])
  }

  function PrintContext(context: Option<string>): string {
    if context.None? then AT else AT + " " + context.value
  }

  function PrintChunk(c: ChunkText): seq<string> {
    [PrintContext(c.context)] + PrintBody(c.body) + if c.endOfFile then [EOF] else []
  }

  function PrintChunks(cs: seq<ChunkText>): seq<string> {
    if cs == [] then [] else PrintChunk(cs[0]) + PrintChunks(cs[1..])
  }

  function PrintAdded(lines: seq<string>): seq<string> {
    if lines == [] then [] else ["+" + lines[0]] + PrintAdded(lines[1..])
  }

  function PrintHunk(h: HunkText): seq<string> {
    match h
    case AddText(path, lines) => [ADD + " " + path] + PrintAdded(lines)
    case DeleteText(path) => [DELETE + " " + path]
    case UpdateText(path, movePath, chunks) =>
      [UPDATE + " " + path] + (if movePath.Some? then [MOVE + " " + movePath.value] else []) + PrintChunks(chunks)
  }

  function PrintHunks(doc: seq<HunkText>): seq<string> {
    if doc == [] then [] else PrintHunk(doc[0]) + PrintHunks(doc[1..])
  }

  function PrintLines(doc: seq<HunkText>): seq<string> {
    [BEGIN] + PrintHunks(doc) + [END]
  }

  function Print(doc: seq<HunkText>): string {
    Join(PrintLines(doc))
  }

  // ---------------------------------------------------------------- well-formed documents

  predicate Name(s: string) {
    s != "" && Trimmed(s) && OneLine(s)
  }

  predicate GoodChunk(c: ChunkText) {
    (c.context.Some? ==> Name(c.context.value)) && forall i :: 0 <= i < |c.body| ==> OneLine(c.body[i].text)
  }

  predicate GoodHunk(h: HunkText) {
    && Name(h.path)
    && (h.AddText? ==> forall i :: 0 <= i < |h.lines| ==> OneLine(h.lines[i]))
    && (h.UpdateText? ==> h.chunks != [] && (h.movePath.Some? ==> Name(h.movePath.value)) &&
                          forall i :: 0 <= i < |h.chunks| ==> GoodChunk(h.chunks[i]))
  }

  predicate GoodDoc(doc: seq<HunkText>) {
    forall i :: 0 <= i < |doc| ==> GoodHunk(doc[i])
  }

  /** A kept line that reads as the end marker once it is trimmed. */
  predicate Trap(d: DiffLine) {
    d.Keep? && Trim(d.text) == END
  }

  predicate BodyTraps(body: seq<DiffLine>) {
    exists i :: 0 <= i < |body| && Trap(body[i])
  }

  predicate HunkTraps(h: HunkText) {
    h.UpdateText? && exists i :: 0 <= i < |h.chunks| && BodyTraps(h.chunks[i].body)
  }

  /** What the parser gets to see of a document: everything up to and including the first hunk with a trap. */
  function Visible(doc: seq<HunkText>): (r: seq<HunkText>)
    ensures r <= doc
    ensures r == doc <==> forall i :: 0 <= i < |doc| - 1 ==> !HunkTraps(doc[i])
  {
    if doc == [] then [] else if HunkTraps(doc[0]) then [doc[0]] else [doc[0]] + Visible(doc[1..])
  }

  // ---------------------------------------------------------------- parsing what was printed

  predicate ChunkEnds(tail: seq<string>) {
    tail == [] || AT <= tail[0] || (STARS <= tail[0] && tail[0] != EOF)
  }

  lemma LineKind(d: DiffLine)
    ensures var line := PrintLine(d);
      && !(AT <= line) && !(STARS <= line) && line != EOF && line[1..] == d.text
      && (" " <= line <==> d.Keep?) && ("-" <= line <==> d.Cut?) && ("+" <= line <==> d.Put?)
  {
    var line := PrintLine(d);
    assert line[0] == (match d case Keep(_) => ' ' case Cut(_) => '-' case Put(_) => '+');
    assert AT[0] == '@' && STARS[0] == '*' && EOF[0] == '*';
  }

  lemma {:induction false} BodyParses(body: seq<DiffLine>, endOfFile: bool, tail: seq<string>)
    requires endOfFile || ChunkEnds(tail)
    ensures ChunkLines(PrintBody(body) + (if endOfFile then [EOF] else []) + tail)
         == Ok(Parsed(Chunk(OldLines(body), NewLines(body), None, endOfFile), tail))
  {
    var end := if endOfFile then [EOF] else [];
    var rest := PrintBody(body) + end + tail;
    if body == [] {
      if endOfFile {
        assert rest[0] == EOF && rest[1..] == tail;
        assert EOF[0] != AT[0];
      } else {
        assert rest == tail;
      }
    } else {
      hide PrintLine;
      BodyParses(body[1..], endOfFile, tail);
      LineKind(body[0]);
      assert rest[0] == PrintLine(body[0]);
      assert rest[1..] == PrintBody(body[1..]) + end + tail;
    }
  }

  lemma ContextParses(context: Option<string>)
    requires context.Some? ==> Name(context.value)
    ensures AT <= PrintContext(context) && ContextOf(PrintContext(context)) == context
  {
    if context.Some? {
      assert PrintContext(context)[2..] == " " + context.value;
      TrimPadded(context.value);
      TrimFacts(context.value);
    } else {
      assert PrintContext(context)[2..] == "";
    }
  }

  lemma ChunkParses(c: ChunkText, tail: seq<string>)
    requires GoodChunk(c) && ChunkEnds(tail)
    ensures var rest := PrintChunk(c) + tail;
      && !Stops(rest) && AT <= rest[0] && ContextOf(rest[0]) == c.context
      && ChunkLines(rest[1..]) == Ok(Parsed(ChunkMeaning(c).(context := None), tail))
  {
    var end := if c.endOfFile then [EOF] else [];
    var rest := PrintChunk(c) + tail;
    assert rest[0] == PrintContext(c.context) && rest[1..] == PrintBody(c.body) + end + tail;
    ContextParses(c.context);
    BodyParses(c.body, c.endOfFile, tail);
    assert rest[0][0] == '@' && STARS[0] == '*';
  }

  lemma {:induction false} ChunksParse(cs: seq<ChunkText>, tail: seq<string>)
    requires forall i :: 0 <= i < |cs| ==> GoodChunk(cs[i])
    requires tail != [] && STARS <= tail[0] && tail[0] != EOF
    ensures Chunks(PrintChunks(cs) + tail) == Ok(Parsed(ChunkMeanings(cs), tail))
    ensures ChunkEnds(PrintChunks(cs) + tail)
  {
    if cs == [] {
      assert PrintChunks(cs) + tail == tail;
    } else {
      hide PrintChunk, ChunkLines, ContextOf, GoodChunk;
      ChunksParse(cs[1..], tail);
      var after := PrintChunks(cs[1..]) + tail;
      assert PrintChunks(cs) + tail == PrintChunk(cs[0]) + after;
      ChunkParses(cs[0], after);
    }
  }

  lemma {:induction false} AddedParses(lines: seq<string>, tail: seq<string>)
    requires Stops(tail)
    ensures AddLines(PrintAdded(lines) + tail) == Ok(Parsed(lines, tail))
  {
    var rest := PrintAdded(lines) + tail;
    if lines == [] {
      assert rest == tail;
    } else {
      AddedParses(lines[1..], tail);
      assert rest[0] == "+" + lines[0] && rest[0][1..] == lines[0] && STARS[0] != '+';
      assert [lines[0]] + lines[1..] == lines;
      assert rest[1..] == PrintAdded(lines[1..]) + tail;
    }
  }

  /** The name after a header keyword. */
  lemma HeaderParses(keyword: string, name: string)
    requires Name(name)
    ensures keyword <= keyword + " " + name && Trim((keyword + " " + name)[|keyword|..]) == name
  {
    assert (keyword + " " + name)[|keyword|..] == " " + name;
    TrimPadded(name);
    TrimFacts(name);
  }

  lemma HeadersDiffer(name: string)
    ensures !(ADD <= DELETE + " " + name) && !(ADD <= UPDATE + " " + name) && !(DELETE <= UPDATE + " " + name)
  {
    assert (DELETE + " " + name)[4] == 'D' && (UPDATE + " " + name)[4] == 'U' && ADD[4] == 'A' && DELETE[4] == 'D';
  }

  /** The parse of an update, from its header and the parse of its chunks. */
  lemma UpdateAt(rest: seq<string>, path: string, movePath: Option<string>, chunks: Parsed<seq<Chunk>>)
    requires rest != [] && UPDATE <= rest[0] && !(ADD <= rest[0]) && !(DELETE <= rest[0]) &&
               Trim(rest[0][|UPDATE|..]) == path
    requires path != "" && chunks.value != [] && |chunks.rest| < |rest|
    requires |rest| > 1 && (movePath.Some? <==> MOVE <= rest[1])
    requires movePath.Some? ==> Trim(rest[1][|MOVE|..]) == movePath.value && movePath.value != ""
    requires Chunks(if movePath.Some? then rest[2..] else rest[1..]) == Ok(chunks)
    ensures HunkAt(rest) == Ok(Parsed(Update(path, movePath, chunks.value), chunks.rest))
  {
    hide Chunks, Trim;
  }

  /** The headers and the rest of a printed update. */
  lemma UpdatePrinted(h: HunkText, tail: seq<string>)
    requires h.UpdateText?
    ensures var rest, chunks := PrintHunk(h) + tail, PrintChunks(h.chunks) + tail;
            && |rest| >= 1 && rest[0] == UPDATE + " " + h.path
            && (h.movePath.Some? ==> |rest| >= 2 && rest[1] == MOVE + " " + h.movePath.value && rest[2..] == chunks)
            && (h.movePath.None? ==> rest[1..] == chunks)
  {
    hide PrintChunks;
    var header := UPDATE + " " + h.path;
    if h.movePath.Some? {
      var move := MOVE + " " + h.movePath.value;
      assert PrintHunk(h) + tail == [header, move] + (PrintChunks(h.chunks) + tail);
    } else {
      assert PrintHunk(h) + tail == [header] + (PrintChunks(h.chunks) + tail);
    }
  }

  lemma UpdateParses(h: HunkText, tail: seq<string>)
    requires h.UpdateText? && GoodHunk(h)
    requires tail != [] && STARS <= tail[0] && tail[0] != EOF
    ensures HunkAt(PrintHunk(h) + tail) == Ok(Parsed(HunkMeaning(h), tail))
  {
    hide HunkAt, Trim, Trimmed, OneLine, Chunks, ChunkMeanings, GoodChunk, PrintChunks, ChunkEnds, Stops;
    UpdatePrinted(h, tail);
    hide PrintHunk;
    var rest := PrintHunk(h) + tail;
    HeaderParses(UPDATE, h.path);
    HeadersDiffer(h.path);
    ChunksParse(h.chunks, tail);
    var chunks := PrintChunks(h.chunks) + tail;
    var header := UPDATE + " " + h.path;
    assert ChunkMeanings(h.chunks) != [] by { assert |ChunkMeanings(h.chunks)| == |h.chunks|; }
    if h.movePath.Some? {
      HeaderParses(MOVE, h.movePath.value);
    } else {
      FirstChunkIsNoMove(h.chunks, tail);
    }
    UpdateAt(rest, h.path, h.movePath, Parsed(ChunkMeanings(h.chunks), tail));
  }

  lemma FirstChunkIsNoMove(cs: seq<ChunkText>, tail: seq<string>)
    requires cs != []
    ensures !(MOVE <= (PrintChunks(cs) + tail)[0])
  {
    assert (PrintChunks(cs) + tail)[0] == PrintContext(cs[0].context);
    assert PrintContext(cs[0].context)[0] == '@' && MOVE[0] == '*';
  }

  /** Any printed hunk, followed by the header of another or by the end marker, parses to its meaning. */
  lemma HunkParses(h: HunkText, tail: seq<string>)
    requires GoodHunk(h)
    requires tail != [] && STARS <= tail[0] && tail[0] != EOF
    ensures HunkAt(PrintHunk(h) + tail) == Ok(Parsed(HunkMeaning(h), tail))
  {
    hide Trim, Trimmed, OneLine, Chunks, ChunkMeanings, GoodChunk, PrintChunks, PrintAdded, AddLines, Stops;
    var rest := PrintHunk(h) + tail;
    match h
    case AddText(path, lines) =>
      HeaderParses(ADD, path);
      AddedParses(lines, tail);
      assert rest[0] == ADD + " " + path && rest[1..] == PrintAdded(lines) + tail;
    case DeleteText(path) =>
      HeaderParses(DELETE, path);
      HeadersDiffer(path);
      assert rest[0] == DELETE + " " + path && rest[1..] == tail;
    case UpdateText(_, _, _) => UpdateParses(h, tail);
  }

  // ---------------------------------------------------------------- where the end marker is found

  lemma {:induction false} FirstTrimmedConcat(left: seq<string>, right: seq<string>, marker: string)
    ensures FirstTrimmed(left + right, marker)
         == var n := FirstTrimmed(left, marker); if n < |left| then n else |left| + FirstTrimmed(right, marker)
  {
    if left == [] {
      assert left + right == right;
    } else if Trim(left[0]) != marker {
      FirstTrimmedConcat(left[1..], right, marker);
      assert (left + right)[1..] == left[1..] + right;
    }
  }

  predicate NoMarker(line: string) {
    Trim(line) != END
  }

  /** A line whose first characters rule the end marker out. */
  lemma HeadRulesOut(line: string, i: nat)
    requires line != "" && !IsSpace(line[0]) && i < |line| && i < |END| && line[i] != END[i]
    ensures NoMarker(line)
  {
    TrimKeepsHead(line);
  }

  lemma KeptLineMarks(d: DiffLine)
    ensures NoMarker(PrintLine(d)) <==> !Trap(d)
  {
    match d
    case Keep(text) => TrimPadded(text);
    case Cut(_) => HeadRulesOut(PrintLine(d), 0);
    case Put(_) => HeadRulesOut(PrintLine(d), 0);
  }

  lemma {:induction false} PrintBodyAt(body: seq<DiffLine>)
    ensures |PrintBody(body)| == |body| && forall i :: 0 <= i < |body| ==> PrintBody(body)[i] == PrintLine(body[i])
  {
    if body != [] { PrintBodyAt(body[1..]); }
  }

  lemma BodyMarks(body: seq<DiffLine>)
    ensures (exists i :: 0 <= i < |PrintBody(body)| && !NoMarker(PrintBody(body)[i])) <==> BodyTraps(body)
    ensures |PrintBody(body)| == |body|
  {
    hide PrintBody, PrintLine, NoMarker, Trap;
    var lines := PrintBody(body);
    PrintBodyAt(body);
    forall i | 0 <= i < |body| ensures NoMarker(lines[i]) <==> !Trap(body[i]) { KeptLineMarks(body[i]); }
    if BodyTraps(body) {
      var i :| 0 <= i < |body| && Trap(body[i]);
      assert !NoMarker(lines[i]);
    }
  }

  ghost predicate Clean(lines: seq<string>) {
    forall i :: 0 <= i < |lines| ==> NoMarker(lines[i])
  }

  lemma CleanConcat(left: seq<string>, right: seq<string>)
    ensures Clean(left + right) <==> Clean(left) && Clean(right)
  {
    if Clean(left + right) {
      forall i | 0 <= i < |left| ensures NoMarker(left[i]) { assert (left + right)[i] == left[i]; }
      forall i | 0 <= i < |right| ensures NoMarker(right[i]) { assert (left + right)[|left| + i] == right[i]; }
    }
  }

  lemma ChunkMarks(c: ChunkText)
    ensures Clean(PrintChunk(c)) <==> !BodyTraps(c.body)
  {
    BodyMarks(c.body);
    var end := if c.endOfFile then [EOF] else [];
    HeadRulesOut(PrintContext(c.context), 0);
    HeadRulesOut(EOF, 8);
    assert Clean([PrintContext(c.context)]) && Clean(end);
    CleanConcat([PrintContext(c.context)], PrintBody(c.body));
    CleanConcat([PrintContext(c.context)] + PrintBody(c.body), end);
  }

  lemma {:induction false} ChunksMark(cs: seq<ChunkText>)
    ensures Clean(PrintChunks(cs)) <==> forall i :: 0 <= i < |cs| ==> !BodyTraps(cs[i].body)
  {
    if cs == [] {
    } else {
      ChunkMarks(cs[0]);
      ChunksMark(cs[1..]);
      CleanConcat(PrintChunk(cs[0]), PrintChunks(cs[1..]));
      assert forall i :: 1 <= i < |cs| ==> cs[1..][i - 1] == cs[i];
    }
  }

  lemma {:induction false} AddedIsClean(lines: seq<string>)
    ensures Clean(PrintAdded(lines))
  {
    if lines == [] {
    } else {
      AddedIsClean(lines[1..]);
      HeadRulesOut("+" + lines[0], 0);
      CleanConcat(["+" + lines[0]], PrintAdded(lines[1..]));
    }
  }

  /** The end marker shows up inside a printed hunk exactly when the hunk has a trap. */
  lemma HunkMarks(h: HunkText)
    ensures Clean(PrintHunk(h)) <==> !HunkTraps(h)
  {
    match h
    case AddText(path, lines) =>
      HeadRulesOut(ADD + " " + path, 4);
      AddedIsClean(lines);
      CleanConcat([ADD + " " + path], PrintAdded(lines));
    case DeleteText(path) => HeadRulesOut(DELETE + " " + path, 4);
    case UpdateText(path, movePath, chunks) =>
      HeadRulesOut(UPDATE + " " + path, 4);
      var move := if movePath.Some? then [MOVE + " " + movePath.value] else [];
      if movePath.Some? { HeadRulesOut(MOVE + " " + movePath.value, 4); }
      assert Clean([UPDATE + " " + path]) && Clean(move);
      CleanConcat([UPDATE + " " + path], move);
      ChunksMark(chunks);
      CleanConcat([UPDATE + " " + path] + move, PrintChunks(chunks));
  }

  // ---------------------------------------------------------------- the round trip

  lemma HeaderShape(h: HunkText)
    ensures PrintHunk(h) != [] && STARS <= PrintHunk(h)[0] && PrintHunk(h)[0] != EOF && NoMarker(PrintHunk(h)[0])
  {
    assert PrintHunk(h)[0][4] != EOF[4];
    HeadRulesOut(PrintHunk(h)[0], 4);
  }

  lemma AfterHunk(doc: seq<HunkText>)
    ensures var tail := PrintHunks(doc) + [END]; STARS <= tail[0] && tail[0] != EOF
  {
    if doc == [] {
      assert END[8] != EOF[8];
    } else {
      HeaderShape(doc[0]);
    }
  }

  lemma HunksStep(rest: seq<string>, room: int, h: Hunk, tail: seq<string>, more: seq<Hunk>)
    requires 0 < room <= |rest| && HunkAt(rest) == Ok(Parsed(h, tail))
    requires Hunks(tail, room - (|rest| - |tail|)) == Ok(more)
    ensures Hunks(rest, room) == Ok([h] + more)
  {
    hide HunkAt;
  }

  lemma {:induction false} HunksParse(doc: seq<HunkText>)
    requires GoodDoc(doc)
    ensures var lines := PrintHunks(doc) + [END];
      Hunks(lines, FirstTrimmed(lines, END)) == Ok(Meaning(Visible(doc)))
    ensures FirstTrimmed(PrintHunks(doc) + [END], END) < |PrintHunks(doc) + [END]|
  {
    hide HunkAt, PrintHunk, HunkTraps, HunkMeaning, GoodHunk, Trim;
    var lines := PrintHunks(doc) + [END];
    TrimFacts(END);
    if doc == [] {
      assert lines == [END];
    } else {
      var h, after := doc[0], PrintHunks(doc[1..]) + [END];
      assert lines == PrintHunk(h) + after;
      HunksParse(doc[1..]);
      AfterHunk(doc[1..]);
      HeaderShape(h);
      HunkParses(h, after);
      HunkMarks(h);
      FirstTrimmedConcat(PrintHunk(h), after, END);
      var room := FirstTrimmed(lines, END);
      assert room < |PrintHunk(h)| <==> HunkTraps(h);
      var more := if HunkTraps(h) then [] else Meaning(Visible(doc[1..]));
      assert Hunks(after, room - |PrintHunk(h)|) == Ok(more);
      assert room > 0 by { assert lines[0] == PrintHunk(h)[0]; }
      hide Hunks, FirstTrimmed;
      HunksStep(lines, room, HunkMeaning(h), after, more);
      assert ([h] + Visible(doc[1..]))[1..] == Visible(doc[1..]);
      assert [h][1..] == [] && [HunkMeaning(h)] + [] == [HunkMeaning(h)] == Meaning([h]);
    }
  }

  lemma {:induction false} JoinEnds(lines: seq<string>)
    requires lines != [] && lines[0] != "" && lines[|lines| - 1] != ""
    ensures var text := Join(lines);
      var last := lines[|lines| - 1];
      text != "" && text[0] == lines[0][0] && text[|text| - 1] == last[|last| - 1]
  {
    JoinStart(lines);
    JoinLast(lines);
  }

  lemma JoinStart(lines: seq<string>)
    requires lines != [] && lines[0] != ""
    ensures lines[0] <= Join(lines)
  {
  }

  lemma {:induction false} JoinLast(lines: seq<string>)
    requires lines != [] && lines[|lines| - 1] != ""
    ensures var text := Join(lines);
      var last := lines[|lines| - 1];
      text != "" && text[|text| - 1] == last[|last| - 1]
  {
    if |lines| > 1 { JoinLast(lines[1..]); }
  }

  lemma {:induction false} BodyIsLines(body: seq<DiffLine>)
    requires forall i :: 0 <= i < |body| ==> OneLine(body[i].text)
    ensures forall i :: 0 <= i < |PrintBody(body)| ==> OneLine(PrintBody(body)[i])
  {
    if body != [] { BodyIsLines(body[1..]); }
  }

  lemma {:induction false} ChunksAreLines(cs: seq<ChunkText>)
    requires forall i :: 0 <= i < |cs| ==> GoodChunk(cs[i])
    ensures forall i :: 0 <= i < |PrintChunks(cs)| ==> OneLine(PrintChunks(cs)[i])
  {
    if cs != [] {
      BodyIsLines(cs[0].body);
      ChunksAreLines(cs[1..]);
    }
  }

  lemma {:induction false} AddedAreLines(lines: seq<string>)
    requires forall i :: 0 <= i < |lines| ==> OneLine(lines[i])
    ensures forall i :: 0 <= i < |PrintAdded(lines)| ==> OneLine(PrintAdded(lines)[i])
  {
    if lines != [] { AddedAreLines(lines[1..]); }
  }

  lemma HunkIsLines(h: HunkText)
    requires GoodHunk(h)
    ensures forall i :: 0 <= i < |PrintHunk(h)| ==> OneLine(PrintHunk(h)[i])
  {
    match h
    case AddText(_, lines) => AddedAreLines(lines);
    case DeleteText(_) =>
    case UpdateText(_, _, chunks) => ChunksAreLines(chunks);
  }

  lemma {:induction false} HunksAreLines(doc: seq<HunkText>)
    requires GoodDoc(doc)
    ensures forall i :: 0 <= i < |PrintHunks(doc)| ==> OneLine(PrintHunks(doc)[i])
  {
    if doc != [] {
      hide PrintHunk, GoodHunk;
      HunkIsLines(doc[0]);
      HunksAreLines(doc[1..]);
    }
  }

  /** A printed patch splits into its lines, and neither trimming nor heredoc stripping touches it. */
  lemma PrintedText(doc: seq<HunkText>)
    requires GoodDoc(doc)
    ensures Split(Print(doc)) == PrintLines(doc) && Trim(Print(doc)) == Print(doc) &&
              StripHeredoc(Print(doc)) == Print(doc)
    ensures Print(doc) != "" && !IsSpace(Print(doc)[0])
  {
    hide PrintHunks, GoodHunk, Trim;
    var lines := PrintLines(doc);
    HunksAreLines(doc);
    SplitJoin(lines);
    JoinEnds(lines);
    assert Print(doc)[0] == '*' && lines[|lines| - 1] == END;
    assert Print(doc)[|Print(doc)| - 1] == 'h' by { assert END[|END| - 1] == 'h'; }
    TrimFacts(Print(doc));
    assert !("cat" <= Print(doc)) by { assert "cat"[0] == 'c'; }
    assert !("<<" <= Print(doc)[0..]) by { assert "<<"[0] == '<'; }
  }

  lemma PrintedLinesParse(doc: seq<HunkText>)
    requires GoodDoc(doc)
    ensures PatchLines(PrintLines(doc)) == Ok(Meaning(Visible(doc)))
  {
    hide PrintHunks, GoodHunk, Hunks, Trim, Visible, Meaning;
    var lines := PrintLines(doc);
    var body := PrintHunks(doc) + [END];
    HunksParse(doc);
    assert lines == [BEGIN] + body;
    TrimFacts(BEGIN);
    assert BEGIN[4] != END[4];
    assert lines[1..] == body;
  }

  /** Parsing a printed patch gives the meaning of the part of it that the parser can see. */
  lemma ParsePrint(doc: seq<HunkText>)
    requires GoodDoc(doc)
    ensures Patch(Print(doc)) == Ok(Meaning(Visible(doc)))
  {
    PrintedText(doc);
    PrintedLinesParse(doc);
  }

  /**
   * The round trip over patch documents. It holds exactly when no hunk but the last keeps a line that trims to
   * the end marker: the marker is searched for over all lines, and a hunk that has been started is still read
   * to its end.
   */
  lemma RoundTrip(doc: seq<HunkText>)
    requires GoodDoc(doc)
    ensures Patch(Print(doc)) == Ok(Meaning(doc)) <==> forall i :: 0 <= i < |doc| - 1 ==> !HunkTraps(doc[i])
  {
    ParsePrint(doc);
    if |Visible(doc)| == |doc| { assert Visible(doc) == doc; }
  }

  // ---------------------------------------------------------------- the heredoc wrapper

  predicate Quote(q: string) {
    q == "" || q == "'" || q == "\""
  }

  predicate Spaces(s: string) {
    s != "" && forall i :: 0 <= i < |s| ==> IsSpace(s[i])
  }

  predicate Word(s: string) {
    s != "" && forall i :: 0 <= i < |s| ==> IsWord(s[i])
  }

  lemma {:induction false} SpaceRun(spaces: string, rest: string)
    requires forall i :: 0 <= i < |spaces| ==> IsSpace(spaces[i])
    requires rest != "" && !IsSpace(rest[0])
    ensures SpaceCount(spaces + rest) == |spaces|
  {
    if spaces == "" {
      assert spaces + rest == rest;
    } else {
      SpaceRun(spaces[1..], rest);
      assert (spaces + rest)[1..] == spaces[1..] + rest;
    }
  }

  lemma {:induction false} WordRun(word: string, rest: string)
    requires forall i :: 0 <= i < |word| ==> IsWord(word[i])
    requires rest != "" && !IsWord(rest[0])
    ensures WordCount(word + rest) == |word|
  {
    if word == "" {
      assert word + rest == rest;
    } else {
      WordRun(word[1..], rest);
      assert (word + rest)[1..] == word[1..] + rest;
    }
  }

  predicate GoodOpening(cat: string, left: string, tag: string, right: string) {
    && (cat == "" || ("cat" <= cat && Spaces(cat[3..])))
    && Quote(left) && Quote(right) && Word(tag)
  }

  /** A patch wrapped as a shell heredoc, with or without `cat` and quotes around the tag. */
  function Heredoc(cat: string, left: string, tag: string, right: string, text: string): string {
    cat + ("<<" + (left + (tag + (right + ("\n" + (text + ("\n" + tag)))))))
  }

  lemma RedirectIsFound(cat: string, rest: string)
    requires cat == "" || ("cat" <= cat && Spaces(cat[3..]))
    ensures Redirected(cat + ("<<" + rest)) == Some(rest)
  {
    var command := "<<" + rest;
    assert command[2..] == rest && command[0] == '<';
    if cat != "" {
      SpaceRun(cat[3..], command);
      assert (cat + command)[3..] == cat[3..] + command;
      assert (cat[3..] + command)[|cat[3..]|..] == command;
      assert (cat + command)[|cat|..] == command;
    } else {
      assert cat + command == command && "cat"[0] == 'c';
    }
  }

  lemma QuoteIsSkipped(q: string, rest: string)
    requires Quote(q) && rest != "" && rest[0] != '\'' && rest[0] != '"'
    ensures AfterQuote(q + rest) == rest
  {
    if q == "" { assert q + rest == rest; } else { assert (q + rest)[1..] == rest; }
  }

  /** How much of a text its leading white space takes with it: everything up to the last line break there. */
  function LeadBreak(text: string): (n: nat)
    ensures n <= |text|
    ensures n == 0 <==> '\n' !in text[..SpaceCount(text)]
  {
    LastNewlineFinds(text[..SpaceCount(text)]);
    match LastNewline(text[..SpaceCount(text)])
    case None => 0
    case Some(k) => k + 1
  }

  lemma {:induction false} LastNewlineFinds(s: string)
    ensures LastNewline(s).None? <==> '\n' !in s
  {
    if s != "" && s[|s| - 1] != '\n' {
      LastNewlineFinds(s[..|s| - 1]);
      assert s == s[..|s| - 1] + [s[|s| - 1]];
    }
  }

  lemma {:induction false} BreakBefore(u: string)
    ensures LastNewline("\n" + u) == match LastNewline(u) case None => Some(0) case Some(k) => Some(k + 1)
  {
    if u == "" {
      assert "\n" + u == "\n" && LastNewline("\n") == Some(0);
    } else if u[|u| - 1] != '\n' {
      BreakBefore(u[..|u| - 1]);
      assert ("\n" + u)[..|u|] == "\n" + u[..|u| - 1];
    }
  }

  /** White space at the front of a text, and whatever comes after the text. */
  lemma {:induction false} LeadingSpaces(text: string, rest: string)
    ensures SpaceCount(text + rest) == if SpaceCount(text) < |text| then SpaceCount(text) else |text| + SpaceCount(rest)
  {
    if text == "" {
      assert text + rest == rest;
    } else if IsSpace(text[0]) {
      LeadingSpaces(text[1..], rest);
      assert (text + rest)[1..] == text[1..] + rest;
    }
  }

  /** How a heredoc's text lies between the line breaks around it. */
  ghost predicate Lies(s: string, tag: string, text: string) {
    && |s| == 2 + |text| + |tag| && s[0] == '\n'
    && s[1..1 + |text|] == text && s[1..] == text + ("\n" + tag) && s[1 + |text|..] == "\n" + tag
  }

  lemma BodyLies(tag: string, text: string)
    ensures Lies("\n" + (text + ("\n" + tag)), tag, text)
  {
  }

  lemma SpacesLie(s: string, tag: string, text: string)
    requires Lies(s, tag, text)
    ensures Min(SpaceCount(s), 1 + |text|) == 1 + SpaceCount(text)
  {
    LeadingSpaces(text, "\n" + tag);
    assert SpaceCount(s) == 1 + SpaceCount(text + ("\n" + tag));
  }

  lemma BreakLies(s: string, tag: string, text: string)
    requires Lies(s, tag, text)
    ensures LastNewline(s[..1 + SpaceCount(text)]) == Some(LeadBreak(text))
  {
    var u := text[..SpaceCount(text)];
    hide SpaceCount, IsSpace;
    assert s[..1 + |u|] == "\n" + u by {
      forall k | 0 <= k < |u| ensures s[1 + k] == u[k] { assert s[1..1 + |text|][k] == text[k]; }
    }
    BreakBefore(u);
  }

  lemma TextIsUnwrapped(tag: string, text: string)
    requires Word(tag)
    ensures Unwrap("\n" + (text + ("\n" + tag)), tag) == Some(text[LeadBreak(text)..])
  {
    var s := "\n" + (text + ("\n" + tag));
    BodyLies(tag, text);
    EndsInWord(s, tag, text);
    SpacesLie(s, tag, text);
    BreakLies(s, tag, text);
    hide Word, SpaceCount, LastNewline, LeadBreak, IsSpace, TrimEnd;
    var n := LeadBreak(text);
    assert s[n + 1..1 + |text|] == s[1..1 + |text|][n..];
  }

  lemma EndsInWord(s: string, tag: string, text: string)
    requires Lies(s, tag, text) && Word(tag)
    ensures TrimEnd(s) == s
  {
    assert s[|s| - 1] == s[1 + |text|..][|tag|] == tag[|tag| - 1];
  }

  /**
   * Stripping undoes wrapping, for any text, exactly if there is no line break in the text's leading white space;
   * otherwise the line breaks there and what stands before them are lost.
   */
  lemma HeredocStrips(cat: string, left: string, tag: string, right: string, text: string)
    requires GoodOpening(cat, left, tag, right)
    ensures StripHeredoc(Heredoc(cat, left, tag, right, text)) == text[LeadBreak(text)..]
    ensures StripHeredoc(Heredoc(cat, left, tag, right, text)) == text <==> '\n' !in text[..SpaceCount(text)]
    ensures Trim(Heredoc(cat, left, tag, right, text)) == Heredoc(cat, left, tag, right, text)
  {
    hide Redirected, AfterQuote, WordCount, Unwrap, Trim, LeadBreak;
    var breaks := "\n" + (text + ("\n" + tag));
    var closed := right + breaks;
    var tagged := tag + closed;
    HeredocEnds(cat, left, tag, right, text);
    RedirectIsFound(cat, left + tagged);
    QuoteIsSkipped(left, tagged);
    WordRun(tag, closed);
    assert tagged[..|tag|] == tag && tagged[|tag|..] == closed;
    QuoteIsSkipped(right, breaks);
    TextIsUnwrapped(tag, text);
    assert text[0..] == text;
  }

  lemma HeredocEnds(cat: string, left: string, tag: string, right: string, text: string)
    requires GoodOpening(cat, left, tag, right)
    ensures var s := Heredoc(cat, left, tag, right, text); Trim(s) == s
  {
    var s := Heredoc(cat, left, tag, right, text);
    var opening := cat + "<<" + left;
    var middle := tag + right + "\n" + text + "\n";
    HeredocLies(cat, left, tag, right, text);
    assert s[0] == opening[0] && !IsSpace(s[0]) by { assert opening[0] == (if cat == "" then '<' else 'c'); }
    assert s[|s| - 1] == tag[|tag| - 1];
    hide IsSpace, Heredoc, GoodOpening;
    assert !IsSpace(tag[|tag| - 1]) by { WordIsNoSpace(tag[|tag| - 1]); }
    TrimFacts(s);
  }

  lemma WordIsNoSpace(c: char)
    requires IsWord(c)
    ensures !IsSpace(c)
  {
  }

  lemma HeredocLies(cat: string, left: string, tag: string, right: string, text: string)
    ensures Heredoc(cat, left, tag, right, text) == (cat + "<<" + left) + (tag + right + "\n" + text + "\n") + tag
  {
    var after := "\n" + (text + ("\n" + tag));
    assert (tag + right + "\n" + text + "\n") + tag == tag + (right + after);
    assert cat + ("<<" + (left + (tag + (right + after)))) == (cat + "<<" + left) + (tag + (right + after));
  }

  /** A wrapped patch parses to what the bare one parses to. */
  lemma HeredocRoundTrip(doc: seq<HunkText>, cat: string, left: string, tag: string, right: string)
    requires GoodDoc(doc) && GoodOpening(cat, left, tag, right)
    ensures Patch(Heredoc(cat, left, tag, right, Print(doc))) == Patch(Print(doc))
  {
    PrintedText(doc);
    HeredocStrips(cat, left, tag, right, Print(doc));
  }

  // ---------------------------------------------------------------- printing hunks

  predicate Lines(lines: seq<string>) {
    forall i :: 0 <= i < |lines| ==> OneLine(lines[i])
  }

  predicate ChunkValue(c: Chunk) {
    Lines(c.oldLines) && Lines(c.newLines) && (c.context.Some? ==> Name(c.context.value))
  }

  /** A hunk that a patch can express. */
  predicate HunkValue(h: Hunk) {
    && Name(h.path)
    && (h.Update? ==> h.chunks != [] && (h.movePath.Some? ==> Name(h.movePath.value)) &&
                      forall i :: 0 <= i < |h.chunks| ==> ChunkValue(h.chunks[i]))
  }

  predicate HunkValues(hs: seq<Hunk>) {
    forall i :: 0 <= i < |hs| ==> HunkValue(hs[i])
  }

  function Cuts(lines: seq<string>): (r: seq<DiffLine>)
    ensures |r| == |lines| && forall i :: 0 <= i < |r| ==> r[i] == Cut(lines[i])
  {
    seq(|lines|, i requires 0 <= i < |lines| => Cut(lines[i]))
  }

  function Puts(lines: seq<string>): (r: seq<DiffLine>)
    ensures |r| == |lines| && forall i :: 0 <= i < |r| ==> r[i] == Put(lines[i])
  {
    seq(|lines|, i requires 0 <= i < |lines| => Put(lines[i]))
  }

  /** A chunk written with all its old lines first: the form without kept lines. */
  function PlainChunk(c: Chunk): ChunkText {
    ChunkText(c.context, Cuts(c.oldLines) + Puts(c.newLines), c.endOfFile)
  }

  function PlainChunks(cs: seq<Chunk>): (r: seq<ChunkText>)
    ensures |r| == |cs| && forall i :: 0 <= i < |r| ==> r[i] == PlainChunk(cs[i])
  {
    seq(|cs|, i requires 0 <= i < |cs| => PlainChunk(cs[i]))
  }

  function PlainHunk(h: Hunk): HunkText {
    match h
    case Add(path, contents) => AddText(path, Split(contents))
    case Delete(path) => DeleteText(path)
    case Update(path, movePath, chunks) => UpdateText(path, movePath, PlainChunks(chunks))
  }

  function Plain(hs: seq<Hunk>): (r: seq<HunkText>)
    ensures |r| == |hs| && forall i :: 0 <= i < |r| ==> r[i] == PlainHunk(hs[i])
  {
    seq(|hs|, i requires 0 <= i < |hs| => PlainHunk(hs[i]))
  }

  lemma {:induction false} PutsMean(lines: seq<string>)
    ensures OldLines(Puts(lines)) == [] && NewLines(Puts(lines)) == lines
  {
    if lines != [] {
      PutsMean(lines[1..]);
      assert Puts(lines)[1..] == Puts(lines[1..]);
    }
  }

  lemma {:induction false} PlainBodyMeans(cuts: seq<string>, puts: seq<string>)
    ensures OldLines(Cuts(cuts) + Puts(puts)) == cuts && NewLines(Cuts(cuts) + Puts(puts)) == puts
  {
    var body := Cuts(cuts) + Puts(puts);
    if cuts == [] {
      assert body == Puts(puts);
      PutsMean(puts);
    } else {
      PlainBodyMeans(cuts[1..], puts);
      assert body[1..] == Cuts(cuts[1..]) + Puts(puts);
    }
  }

  lemma {:induction false} PlainChunksMean(cs: seq<Chunk>)
    ensures ChunkMeanings(PlainChunks(cs)) == cs
  {
    if cs != [] {
      PlainBodyMeans(cs[0].oldLines, cs[0].newLines);
      PlainChunksMean(cs[1..]);
      assert PlainChunks(cs)[1..] == PlainChunks(cs[1..]);
      assert ChunkMeaning(PlainChunk(cs[0])) == cs[0] && [cs[0]] + cs[1..] == cs;
    }
  }

  lemma {:induction false} PlainMeans(hs: seq<Hunk>)
    ensures Meaning(Plain(hs)) == hs
  {
    if hs != [] {
      match hs[0] {
        case Add(_, contents) => JoinSplit(contents);
        case Delete(_) =>
        case Update(_, _, chunks) => PlainChunksMean(chunks);
      }
      assert HunkMeaning(PlainHunk(hs[0])) == hs[0];
      PlainMeans(hs[1..]);
      assert Plain(hs)[1..] == Plain(hs[1..]);
      assert [hs[0]] + hs[1..] == hs;
    }
  }

  lemma PlainIsGood(h: Hunk)
    requires HunkValue(h)
    ensures GoodHunk(PlainHunk(h)) && !HunkTraps(PlainHunk(h))
  {
  }

  /** Printing any list of hunks that a patch can express and parsing the text returns the same hunks. */
  lemma ParsePrintHunks(hs: seq<Hunk>)
    requires HunkValues(hs)
    ensures Patch(Print(Plain(hs))) == Ok(hs)
  {
    hide GoodHunk, HunkValue, HunkTraps, PlainHunk;
    forall i | 0 <= i < |hs| ensures GoodHunk(Plain(hs)[i]) && !HunkTraps(Plain(hs)[i]) { PlainIsGood(hs[i]); }
    RoundTrip(Plain(hs));
    PlainMeans(hs);
  }

  // ---------------------------------------------------------------- printing what was parsed

  lemma {:induction false} ChunkLinesAreValues(rest: seq<string>)
    requires Lines(rest)
    ensures ChunkLines(rest).Ok? ==>
      var p := ChunkLines(rest).value; Lines(p.rest) && ChunkValue(p.value) && p.value.context.None?
  {
    if rest == [] || AT <= rest[0] || rest[0] == EOF || STARS <= rest[0] {
    } else {
      ChunkLinesAreValues(rest[1..]);
    }
  }

  lemma {:induction false} ChunksAreValues(rest: seq<string>)
    requires Lines(rest)
    ensures Chunks(rest).Ok? ==>
      var p := Chunks(rest).value; Lines(p.rest) && forall i :: 0 <= i < |p.value| ==> ChunkValue(p.value[i])
    decreases |rest|
  {
    if Stops(rest) || !(AT <= rest[0]) {
    } else {
      hide ChunkLines;
      ChunkLinesAreValues(rest[1..]);
      TrimFacts(rest[0][2..]);
      if ChunkLines(rest[1..]).Ok? { ChunksAreValues(ChunkLines(rest[1..]).value.rest); }
    }
  }

  lemma {:induction false} AddLinesAreLines(rest: seq<string>)
    requires Lines(rest)
    ensures AddLines(rest).Ok? ==> Lines(AddLines(rest).value.rest)
  {
    if Stops(rest) || !("+" <= rest[0]) {
    } else {
      AddLinesAreLines(rest[1..]);
    }
  }

  lemma HunkAtIsValue(rest: seq<string>)
    requires rest != [] && Lines(rest)
    ensures HunkAt(rest).Ok? ==> HunkValue(HunkAt(rest).value.value) && Lines(HunkAt(rest).value.rest)
  {
    hide Chunks, AddLines, Trim, Trimmed;
    var line := rest[0];
    AddLinesAreLines(rest[1..]);
    ChunksAreValues(rest[1..]);
    if ADD <= line { TrimFacts(line[|ADD|..]); }
    if DELETE <= line { TrimFacts(line[|DELETE|..]); }
    if UPDATE <= line { TrimFacts(line[|UPDATE|..]); }
    if |rest| > 1 && MOVE <= rest[1] {
      TrimFacts(rest[1][|MOVE|..]);
      ChunksAreValues(rest[2..]);
    }
  }

  lemma {:induction false} HunksAreValues(rest: seq<string>, room: int)
    requires Lines(rest) && room <= |rest|
    ensures Hunks(rest, room).Ok? ==> HunkValues(Hunks(rest, room).value)
    decreases |rest|
  {
    hide HunkAt, HunkValue;
    if room > 0 {
      HunkAtIsValue(rest);
      if HunkAt(rest).Ok? {
        var after := HunkAt(rest).value.rest;
        HunksAreValues(after, room - (|rest| - |after|));
      }
    }
  }

  /** Whatever parses can be printed again, and the print parses to the same hunks: printing normalises patches. */
  lemma Reprint(text: string)
    requires Patch(text).Ok?
    ensures HunkValues(Patch(text).value)
    ensures Patch(Print(Plain(Patch(text).value))) == Patch(text)
  {
    hide Hunks, HunkValue, StripHeredoc, Trim, Split;
    var lines := Split(StripHeredoc(Trim(text)));
    var begin, end := FirstTrimmed(lines, BEGIN), FirstTrimmed(lines, END);
    HunksAreValues(lines[begin + 1..], end - begin - 1);
    ParsePrintHunks(Patch(text).value);
  }
}
