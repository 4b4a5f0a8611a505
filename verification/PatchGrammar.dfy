/**
 * Exactly which texts the parser accepts, and as what: those whose lines are a document's printed lines, up to white
 * space around the names in headers and around the two markers. Everything else is rejected.
 */
module PatchGrammar {
  import opened Wrappers
  import opened Text
  import opened PatchParser
  import opened PatchRoundTrip
  import opened PatchCompare

  // ---------------------------------------------------------------- the lines of a document

  /** A header: its keyword and a name, with any white space around the name. */
  ghost predicate HeaderReads(line: string, keyword: string, name: string) {
    keyword <= line && name != "" && Trimmed(name) && HasCore(line[|keyword|..], name)
  }

  ghost predicate ContextReads(line: string, context: Option<string>) {
    AT <= line && if context.None? then Blank(line[2..]) else HeaderReads(line, AT, context.value)
  }

  /** The lines of a chunk after its first one: kept, removed and inserted lines, and the end-of-file line if any. */
  predicate BodyReads(rest: seq<string>, c: ChunkText, tail: seq<string>) {
    && rest == PrintBody(c.body) + (if c.endOfFile then [EOF] else []) + tail
    && (c.endOfFile || ChunkEnds(tail))
  }

  ghost predicate ChunksRead(rest: seq<string>, cs: seq<ChunkText>, tail: seq<string>)
    decreases |cs|
  {
    if cs == [] then rest == tail && Stops(tail)
    else
      && rest != [] && ContextReads(rest[0], cs[0].context)
      && exists middle :: BodyReads(rest[1..], cs[0], middle) && ChunksRead(middle, cs[1..], tail)
  }

  ghost predicate HunkReads(rest: seq<string>, h: HunkText, tail: seq<string>) {
    && rest != []
    && match h
       case AddText(path, lines) =>
         HeaderReads(rest[0], ADD, path) && rest[1..] == PrintAdded(lines) + tail && Stops(tail)
       case DeleteText(path) => HeaderReads(rest[0], DELETE, path) && rest[1..] == tail
       case UpdateText(path, movePath, chunks) =>
         && HeaderReads(rest[0], UPDATE, path) && chunks != []
         && if movePath.None? then ChunksRead(rest[1..], chunks, tail)
            else |rest| > 1 && HeaderReads(rest[1], MOVE, movePath.value) && ChunksRead(rest[2..], chunks, tail)
  }

  /** Hunk after hunk, as long as one starts before the end marker, which is `room` lines away. */
  ghost predicate DocumentReads(rest: seq<string>, room: int, doc: seq<HunkText>)
    decreases |doc|
  {
    if room <= 0 then doc == []
    else
      && doc != []
      && exists tail :: HunkReads(rest, doc[0], tail)
           && DocumentReads(tail, room - (|rest| - |tail|), doc[1..])
  }

  /** The first line that is a marker with white space around it. */
  ghost predicate FirstMarked(lines: seq<string>, marker: string, i: nat) {
    i < |lines| && HasCore(lines[i], marker) && forall k :: 0 <= k < i ==> !HasCore(lines[k], marker)
  }

  ghost predicate PatchReads(lines: seq<string>, doc: seq<HunkText>) {
    exists begin: nat, end: nat ::
      && FirstMarked(lines, BEGIN, begin) && FirstMarked(lines, END, end) && begin < end < |lines|
      && DocumentReads(lines[begin + 1..], end - begin - 1, doc)
  }

  // ---------------------------------------------------------------- names and contexts

  lemma TrimsTo(s: string, name: string)
    ensures Trim(s) == name <==> Trimmed(name) && HasCore(s, name)
  {
    TrimIsCore(s);
    TrimFacts(s);
    if Trimmed(name) && HasCore(s, name) {
      CoreTrims(s, name);
      TrimFacts(name);
    }
  }

  lemma BlankTrims(s: string)
    ensures Trim(s) == "" <==> Blank(s)
  {
    TrimsTo(s, "");
    hide Trim, WHITE;
    if Blank(s) { assert s == s + "" + "" && Blank("") && HasCore(s, ""); }
    if HasCore(s, "") {
      var front, back :| s == front + "" + back && Blank(front) && Blank(back);
      forall i | 0 <= i < |s| ensures s[i] in WHITE { if i < |front| { assert s[i] == front[i]; } }
    }
  }

  lemma HeaderMeans(line: string, keyword: string, name: string)
    requires keyword <= line && name != ""
    ensures HeaderReads(line, keyword, name) <==> Trim(line[|keyword|..]) == name
  {
    TrimsTo(line[|keyword|..], name);
  }

  lemma ContextMeans(line: string, context: Option<string>)
    requires AT <= line
    ensures ContextReads(line, context) <==> ContextOf(line) == context
  {
    BlankTrims(line[2..]);
    if context.Some? && context.value != "" { HeaderMeans(line, AT, context.value); }
  }

  // ---------------------------------------------------------------- chunks

  lemma {:induction false} BodyAccepted(rest: seq<string>) returns (c: ChunkText)
    requires ChunkLines(rest).Ok?
    ensures var p := ChunkLines(rest).value;
            c.context == None && BodyReads(rest, c, p.rest) && p.value == ChunkMeaning(c)
  {
    var p := ChunkLines(rest).value;
    if rest == [] || AT <= rest[0] {
      c := ChunkText(None, [], false);
      assert rest == [] + [] + rest;
    } else if rest[0] == EOF {
      c := ChunkText(None, [], true);
      assert rest == [] + [EOF] + rest[1..];
    } else if STARS <= rest[0] {
      c := ChunkText(None, [], false);
      assert rest == [] + [] + rest;
    } else {
      var more := BodyAccepted(rest[1..]);
      var text := rest[0][1..];
      var line := if " " <= rest[0] then Keep(text) else if "-" <= rest[0] then Cut(text) else Put(text);
      c := more.(body := [line] + more.body);
      LineKind(line);
      LineReads(rest, line, more, p.rest);
    }
  }

  lemma LineReads(rest: seq<string>, line: DiffLine, more: ChunkText, tail: seq<string>)
    requires rest != [] && rest[0] == PrintLine(line) && BodyReads(rest[1..], more, tail)
    ensures var c := more.(body := [line] + more.body);
      && BodyReads(rest, c, tail)
      && OldLines(c.body) == (if line.Put? then [] else [line.text]) + OldLines(more.body)
      && NewLines(c.body) == (if line.Cut? then [] else [line.text]) + NewLines(more.body)
  {
    hide PrintLine, ChunkEnds;
    var body, end := [line] + more.body, if more.endOfFile then [EOF] else [];
    assert body[1..] == more.body;
    assert rest == [rest[0]] + rest[1..];
    assert PrintBody(body) + end + tail == [rest[0]] + (PrintBody(more.body) + end + tail);
  }

  lemma {:induction false} ChunksAccepted(rest: seq<string>) returns (cs: seq<ChunkText>)
    requires Chunks(rest).Ok?
    ensures var p := Chunks(rest).value; ChunksRead(rest, cs, p.rest) && p.value == ChunkMeanings(cs)
    decreases |rest|
  {
    hide ChunkLines, BodyReads, ContextReads, ContextOf;
    if Stops(rest) {
      cs := [];
    } else {
      var first := BodyAccepted(rest[1..]);
      var middle := ChunkLines(rest[1..]).value.rest;
      var more := ChunksAccepted(middle);
      var context := ContextOf(rest[0]);
      ContextMeans(rest[0], context);
      cs := [first.(context := context)] + more;
      assert cs[1..] == more;
      SameBody(rest[1..], first, context, middle);
      assert ChunkMeaning(cs[0]) == ChunkMeaning(first).(context := context);
    }
  }

  lemma SameBody(rest: seq<string>, c: ChunkText, context: Option<string>, tail: seq<string>)
    ensures BodyReads(rest, c.(context := context), tail) <==> BodyReads(rest, c, tail)
  {
  }

  lemma {:induction false} ChunksOf(rest: seq<string>, cs: seq<ChunkText>, tail: seq<string>)
    requires ChunksRead(rest, cs, tail)
    ensures Chunks(rest) == Ok(Parsed(ChunkMeanings(cs), tail))
    decreases |cs|
  {
    if cs != [] {
      hide ChunkLines, ContextReads, ContextOf, BodyReads;
      var middle :| BodyReads(rest[1..], cs[0], middle) && ChunksRead(middle, cs[1..], tail);
      ContextStarts(rest[0], cs[0].context);
      ContextMeans(rest[0], cs[0].context);
      BodyOf(rest[1..], cs[0], middle);
      ChunksOf(middle, cs[1..], tail);
    }
  }

  lemma ContextStarts(line: string, context: Option<string>)
    requires ContextReads(line, context)
    ensures AT <= line && !(STARS <= line)
  {
    assert line[0] == '@' && STARS[0] == '*';
  }

  lemma BodyOf(rest: seq<string>, c: ChunkText, tail: seq<string>)
    requires BodyReads(rest, c, tail)
    ensures ChunkLines(rest) == Ok(Parsed(ChunkMeaning(c).(context := None), tail))
  {
    BodyParses(c.body, c.endOfFile, tail);
  }

  // ---------------------------------------------------------------- hunks

  lemma {:induction false} AddedAccepted(rest: seq<string>)
    requires AddLines(rest).Ok?
    ensures var p := AddLines(rest).value; rest == PrintAdded(p.value) + p.rest && Stops(p.rest)
  {
    if !Stops(rest) {
      AddedAccepted(rest[1..]);
      var p := AddLines(rest).value;
      assert "+" + rest[0][1..] == rest[0];
      assert p.value[1..] == AddLines(rest[1..]).value.value;
      assert rest == [rest[0]] + rest[1..];
      assert PrintAdded(p.value) + p.rest == [rest[0]] + (PrintAdded(p.value[1..]) + p.rest);
    }
  }

  lemma HunkAccepted(rest: seq<string>) returns (h: HunkText)
    requires rest != [] && HunkAt(rest).Ok?
    ensures var p := HunkAt(rest).value; HunkReads(rest, h, p.rest) && p.value == HunkMeaning(h)
  {
    hide Trim, Trimmed, HasCore, AddLines, Chunks, ChunksRead, HeaderReads, Stops, PrintAdded;
    var line := rest[0];
    if ADD <= line {
      AddedAccepted(rest[1..]);
      HeaderMeans(line, ADD, Trim(line[|ADD|..]));
      h := AddText(Trim(line[|ADD|..]), AddLines(rest[1..]).value.value);
    } else if DELETE <= line {
      HeaderMeans(line, DELETE, Trim(line[|DELETE|..]));
      h := DeleteText(Trim(line[|DELETE|..]));
    } else {
      HeaderMeans(line, UPDATE, Trim(line[|UPDATE|..]));
      var moves := |rest| > 1 && MOVE <= rest[1];
      if moves { HeaderMeans(rest[1], MOVE, Trim(rest[1][|MOVE|..])); }
      var chunks := ChunksAccepted(if moves then rest[2..] else rest[1..]);
      h := UpdateText(Trim(line[|UPDATE|..]), if moves then Some(Trim(rest[1][|MOVE|..])) else None, chunks);
    }
  }

  lemma KeywordsDiffer(line: string)
    ensures ADD <= line ==> !(DELETE <= line) && !(UPDATE <= line)
    ensures DELETE <= line ==> !(UPDATE <= line)
    ensures MOVE <= line ==> STARS <= line
  {
    assert ADD[4] == 'A' && DELETE[4] == 'D' && UPDATE[4] == 'U';
    assert MOVE[..3] == STARS;
  }

  lemma HunkOf(rest: seq<string>, h: HunkText, tail: seq<string>)
    requires HunkReads(rest, h, tail)
    ensures HunkAt(rest) == Ok(Parsed(HunkMeaning(h), tail))
  {
    KeywordsDiffer(rest[0]);
    match h
    case AddText(path, lines) =>
      AddedParses(lines, tail);
      HeaderMeans(rest[0], ADD, path);
    case DeleteText(path) => HeaderMeans(rest[0], DELETE, path);
    case UpdateText(path, movePath, chunks) => UpdateOf(rest, path, movePath, chunks, tail);
  }

  lemma UpdateOf(rest: seq<string>, path: string, movePath: Option<string>, chunks: seq<ChunkText>, tail: seq<string>)
    requires HunkReads(rest, UpdateText(path, movePath, chunks), tail)
    ensures HunkAt(rest) == Ok(Parsed(HunkMeaning(UpdateText(path, movePath, chunks)), tail))
  {
    hide Trim, Trimmed, HasCore, Chunks, ChunksRead, ChunkMeanings;
    var lines := if movePath.Some? then rest[2..] else rest[1..];
    KeywordsDiffer(rest[0]);
    HeaderMeans(rest[0], UPDATE, path);
    if movePath.Some? {
      HeaderMeans(rest[1], MOVE, movePath.value);
    } else {
      FirstChunkStarts(lines, chunks, tail);
      if |rest| > 1 { KeywordsDiffer(rest[1]); }
    }
    ChunksOf(lines, chunks, tail);
    hide HeaderReads;
    UpdateAt(rest, path, movePath, Parsed(ChunkMeanings(chunks), tail));
  }

  lemma FirstChunkStarts(rest: seq<string>, cs: seq<ChunkText>, tail: seq<string>)
    requires ChunksRead(rest, cs, tail) && cs != []
    ensures rest != [] && AT <= rest[0] && !(STARS <= rest[0])
  {
    ContextStarts(rest[0], cs[0].context);
  }

  // ---------------------------------------------------------------- whole patches

  lemma {:induction false} HunksAccepted(rest: seq<string>, room: int) returns (doc: seq<HunkText>)
    requires room <= |rest| && Hunks(rest, room).Ok?
    ensures DocumentReads(rest, room, doc) && Hunks(rest, room).value == Meaning(doc)
    decreases |rest|
  {
    hide HunkAt, HunkReads;
    if room <= 0 {
      doc := [];
    } else {
      var first := HunkAccepted(rest);
      var tail := HunkAt(rest).value.rest;
      var more := HunksAccepted(tail, room - (|rest| - |tail|));
      doc := [first] + more;
      assert doc[1..] == more;
    }
  }

  lemma {:induction false} HunksOf(rest: seq<string>, room: int, doc: seq<HunkText>)
    requires room <= |rest| && DocumentReads(rest, room, doc)
    ensures Hunks(rest, room) == Ok(Meaning(doc))
    decreases |doc|
  {
    hide HunkAt, HunkReads, HunkMeaning, Hunks, DocumentReads;
    if room <= 0 {
      NoRoom(rest, room, doc);
    } else {
      var tail := DocumentTail(rest, room, doc);
      HunkOf(rest, doc[0], tail);
      HunksOf(tail, room - (|rest| - |tail|), doc[1..]);
      HunksStep(rest, room, HunkMeaning(doc[0]), tail, Meaning(doc[1..]));
    }
  }

  lemma NoRoom(rest: seq<string>, room: int, doc: seq<HunkText>)
    requires room <= 0 && DocumentReads(rest, room, doc)
    ensures doc == [] && Hunks(rest, room) == Ok(Meaning(doc))
  {
  }

  lemma DocumentTail(rest: seq<string>, room: int, doc: seq<HunkText>) returns (tail: seq<string>)
    requires room > 0 && DocumentReads(rest, room, doc)
    ensures doc != [] && HunkReads(rest, doc[0], tail) && DocumentReads(tail, room - (|rest| - |tail|), doc[1..])
  {
    hide HunkReads;
    tail :| HunkReads(rest, doc[0], tail) && DocumentReads(tail, room - (|rest| - |tail|), doc[1..]);
  }

  lemma MarkersTrimmed()
    ensures Trimmed(BEGIN) && Trimmed(END)
  {
    assert BEGIN[0] == '*' && BEGIN[|BEGIN| - 1] == 'h' && END[0] == '*' && END[|END| - 1] == 'h';
  }

  lemma MarkerMeans(lines: seq<string>, marker: string)
    requires Trimmed(marker)
    ensures var i := FirstTrimmed(lines, marker); i < |lines| ==> FirstMarked(lines, marker, i)
    ensures forall i :: FirstMarked(lines, marker, i) ==> FirstTrimmed(lines, marker) == i
  {
    forall k | 0 <= k < |lines| ensures Trim(lines[k]) == marker <==> HasCore(lines[k], marker) {
      TrimsTo(lines[k], marker);
    }
  }

  /**
   * The parser accepts exactly the lines of documents between the markers, and gives the document's meaning: what is
   * not a printed line of a hunk, up to white space in headers, is rejected, wherever it stands.
   */
  lemma AcceptsExactly(lines: seq<string>, hunks: seq<Hunk>)
    ensures PatchLines(lines) == Ok(hunks) <==> exists doc :: PatchReads(lines, doc) && Meaning(doc) == hunks
  {
    hide Hunks, DocumentReads, FirstMarked;
    MarkersTrimmed();
    MarkerMeans(lines, BEGIN);
    MarkerMeans(lines, END);
    var begin, end := FirstTrimmed(lines, BEGIN), FirstTrimmed(lines, END);
    if PatchLines(lines) == Ok(hunks) {
      var doc := HunksAccepted(lines[begin + 1..], end - begin - 1);
      assert PatchReads(lines, doc);
    }
    if doc :| PatchReads(lines, doc) && Meaning(doc) == hunks { DocumentParses(lines, doc); }
  }

  lemma DocumentParses(lines: seq<string>, doc: seq<HunkText>)
    requires PatchReads(lines, doc)
    ensures PatchLines(lines) == Ok(Meaning(doc))
  {
    hide Hunks, DocumentReads, FirstMarked, Trim, Trimmed, Meaning;
    var begin: nat, end: nat :|
      && FirstMarked(lines, BEGIN, begin) && FirstMarked(lines, END, end) && begin < end < |lines|
      && DocumentReads(lines[begin + 1..], end - begin - 1, doc);
    MarkersTrimmed();
    MarkerMeans(lines, BEGIN);
    MarkerMeans(lines, END);
    HunksOf(lines[begin + 1..], end - begin - 1, doc);
  }

  /** So a text is accepted exactly if that holds of it once it is trimmed and taken out of a heredoc. */
  lemma TextAccepted(text: string, hunks: seq<Hunk>)
    ensures Patch(text) == Ok(hunks) <==>
            exists doc :: PatchReads(Split(StripHeredoc(Trim(text))), doc) && Meaning(doc) == hunks
  {
    hide StripHeredoc, Split, Trim, PatchLines, PatchReads;
    AcceptsExactly(Split(StripHeredoc(Trim(text))), hunks);
  }

  // ---------------------------------------------------------------- heredocs

  /** `cat` and white space, or nothing. */
  predicate Command(cat: string) {
    cat == "" || (|cat| > 3 && cat[..3] == "cat" && Blank(cat[3..]))
  }

  /**
   * The text is a heredoc: the command, `<<`, a tag that may be quoted, white space up to a line break, the body, and
   * the tag again on a line of its own at the end. The body does not start with blank lines.
   */
  predicate HeredocAt(text: string, cat: string, left: string, tag: string, right: string, gap: string, body: string,
                      end: string)
  {
    && Command(cat) && Quote(left) && Quote(right) && Word(tag) && Blank(gap) && Blank(end)
    && '\n' !in body[..SpaceCount(body)]
    && text == cat + ("<<" + (left + (tag + (right + (gap + ("\n" + (body + ("\n" + (tag + end)))))))))
  }

  lemma {:induction false} BlankRun(s: string)
    ensures Blank(s[..SpaceCount(s)])
  {
    hide WHITE, IsSpace;
    if s != "" && IsSpace(s[0]) {
      BlankRun(s[1..]);
      SpaceExactly(s[0]);
      BlankMore(s[1..][..SpaceCount(s[1..])], s[0]);
      assert s[..SpaceCount(s)] == [s[0]] + s[1..][..SpaceCount(s[1..])];
    }
  }

  lemma {:induction false} NewlineIsLast(s: string)
    ensures var r := LastNewline(s);
            if r.Some? then s[r.value] == '\n' && '\n' !in s[r.value + 1..] else '\n' !in s
  {
    if s != "" && s[|s| - 1] != '\n' {
      var most := s[..|s| - 1];
      NewlineIsLast(most);
      assert s == most + [s[|s| - 1]];
      var r := LastNewline(most);
      if r.Some? { assert s[r.value + 1..] == most[r.value + 1..] + [s[|s| - 1]]; }
    }
  }

  lemma {:induction false} WordRunIsWord(s: string)
    ensures forall i :: 0 <= i < WordCount(s) ==> IsWord(s[i])
  {
    if s != "" && IsWord(s[0]) { WordRunIsWord(s[1..]); }
  }

  lemma {:induction false} SpacesOfTail(s: string, n: nat)
    requires n <= |s| && Blank(s[..n])
    ensures SpaceCount(s) == n + SpaceCount(s[n..])
  {
    if n == 0 {
      assert s[0..] == s;
    } else {
      assert s[0] == s[..n][0];
      SpaceExactly(s[0]);
      hide WHITE, IsSpace;
      assert s[1..][..n - 1] == s[..n][1..];
      SpacesOfTail(s[1..], n - 1);
      assert s[1..][n - 1..] == s[n..];
    }
  }

  lemma {:induction false} SpacesOfPrefix(s: string, t: string)
    ensures SpaceCount(s) <= SpaceCount(s + t)
  {
    if s != "" && IsSpace(s[0]) {
      assert (s + t)[1..] == s[1..] + t;
      SpacesOfPrefix(s[1..], t);
    }
  }

  lemma UnwrapParts(s: string, tag: string)
    requires Unwrap(s, tag).Some?
    ensures var close := |TrimEnd(s)| - |tag| - 1;
            && 0 <= close <= |s| && ("\n" + tag) <= s[close..]
            && var n := LastNewline(s[..Min(SpaceCount(s), close)]);
            n.Some? && Unwrap(s, tag) == Some(s[n.value + 1..close])
  {
    hide TrimEnd, LastNewline, SpaceCount;
  }

  lemma UnwrapFinds(s: string, tag: string) returns (gap: string, end: string)
    requires Unwrap(s, tag).Some?
    ensures var body := Unwrap(s, tag).value;
            && Blank(gap) && Blank(end) && '\n' !in body[..SpaceCount(body)]
            && s == gap + ("\n" + (body + ("\n" + (tag + end))))
  {
    hide Unwrap, WHITE, LastNewline, TrimEnd, SpaceCount, IsSpace, Blank;
    UnwrapParts(s, tag);
    var close := |TrimEnd(s)| - |tag| - 1;
    var run := Min(SpaceCount(s), close);
    var n := LastNewline(s[..run]).value;
    gap, end := s[..n], s[close + 1 + |tag|..];
    NewlineIsLast(s[..run]);
    TrimmedEnd(s);
    BlankRun(s);
    LeadingBreaks(s, n, close, s[n + 1..close], run);
    Pieces(s, n, close, tag);
  }

  lemma Pieces(s: string, n: nat, close: nat, tag: string)
    requires n < close <= |s| && s[n] == '\n' && ("\n" + tag) <= s[close..]
    ensures s == s[..n] + ("\n" + (s[n + 1..close] + ("\n" + tag + s[close + 1 + |tag|..])))
  {
    var last := "\n" + tag;
    var end := s[close + |last|..];
    assert s[close..] == last + end;
    assert last + end == "\n" + (tag + end);
    assert s[n..] == "\n" + s[n + 1..] && s[n + 1..] == s[n + 1..close] + s[close..];
    assert s == s[..n] + s[n..];
  }

  lemma BlankPart(s: string, n: nat)
    requires Blank(s) && n <= |s|
    ensures Blank(s[..n])
  {
    hide WHITE;
  }

  lemma NoneInPart(s: string, n: nat)
    requires '\n' !in s && n <= |s|
    ensures '\n' !in s[..n]
  {
  }

  lemma LeadingBreaks(s: string, n: nat, close: nat, body: string, run: nat)
    requires n < run <= close <= |s| && run == Min(SpaceCount(s), close) && body == s[n + 1..close]
    requires '\n' !in s[..run][n + 1..] && Blank(s[..SpaceCount(s)])
    ensures Blank(s[..n]) && '\n' !in body[..SpaceCount(body)]
  {
    hide WHITE, IsSpace, SpaceCount;
    BlankPart(s[..SpaceCount(s)], n + 1);
    BlankPart(s[..SpaceCount(s)], n);
    assert s[..SpaceCount(s)][..n + 1] == s[..n + 1] && s[..SpaceCount(s)][..n] == s[..n];
    SpacesOfTail(s, n + 1);
    SpacesOfPrefix(body, s[close..]);
    assert s[n + 1..] == body + s[close..];
    var m := SpaceCount(body);
    assert body[..m] == s[..run][n + 1..][..m];
    NoneInPart(s[..run][n + 1..], m);
  }

  /** Nothing but the wrapping of a heredoc is ever taken off: a text is stripped to its body, or left as it is. */
  lemma StripsOnlyHeredocs(s: string)
    returns (cat: string, left: string, tag: string, right: string, gap: string, end: string)
    ensures StripHeredoc(s) == s || HeredocAt(s, cat, left, tag, right, gap, StripHeredoc(s), end)
  {
    hide StripHeredoc, Redirected, WordCount, Unwrap, Word, AfterQuote, Command, Quote, Blank, SpaceCount, HeredocAt;
    cat, left, tag, right, gap, end := "", "", "", "", "", "";
    if StripHeredoc(s) != s {
      StrippedParts(s);
      var opening := Redirected(s).value;
      var word := AfterQuote(opening);
      var n := WordCount(word);
      var after := word[n..];
      tag := word[..n];
      TagIsWord(word);
      cat := CommandOf(s);
      left := QuoteOf(opening);
      right := QuoteOf(after);
      var wrapped := AfterQuote(after);
      gap, end := UnwrapFinds(wrapped, tag);
      assert word == tag + after;
      Assembled(s, cat, opening, left, word, tag, after, right, wrapped, gap, StripHeredoc(s), end);
    }
  }

  lemma Assembled(s: string, cat: string, opening: string, left: string, word: string, tag: string, after: string,
                  right: string, wrapped: string, gap: string, body: string, end: string)
    requires s == cat + ("<<" + opening) && opening == left + word && word == tag + after && after == right + wrapped
    requires wrapped == gap + ("\n" + (body + ("\n" + (tag + end))))
    requires Command(cat) && Quote(left) && Quote(right) && Word(tag) && Blank(gap) && Blank(end)
    requires '\n' !in body[..SpaceCount(body)]
    ensures HeredocAt(s, cat, left, tag, right, gap, body, end)
  {
    hide Command, Quote, Word, Blank, SpaceCount;
  }

  lemma TagIsWord(word: string)
    requires WordCount(word) > 0
    ensures Word(word[..WordCount(word)])
  {
    WordRunIsWord(word);
    hide WordCount, IsWord;
    forall i | 0 <= i < WordCount(word) ensures IsWord(word[..WordCount(word)][i]) { assert IsWord(word[i]); }
  }

  lemma StrippedParts(s: string)
    requires StripHeredoc(s) != s
    ensures Redirected(s).Some?
    ensures var word := AfterQuote(Redirected(s).value);
            var n := WordCount(word);
            n > 0 && Unwrap(AfterQuote(word[n..]), word[..n]) == Some(StripHeredoc(s))
  {
    hide Redirected, AfterQuote, WordCount, Unwrap;
  }

  lemma CommandOf(s: string) returns (cat: string)
    requires Redirected(s).Some?
    ensures Command(cat) && s == cat + ("<<" + Redirected(s).value)
  {
    var spaces := if "cat" <= s then SpaceCount(s[3..]) else 0;
    cat := if spaces > 0 then s[..3 + spaces] else "";
    RedirectedParts(s);
    if spaces > 0 { CatRuns(s); }
    hide SpaceCount, Blank, Redirected;
    var command := s[|cat|..];
    assert s == cat + command && command == "<<" + command[2..];
  }

  lemma RedirectedParts(s: string)
    requires Redirected(s).Some?
    ensures var spaces := if "cat" <= s then SpaceCount(s[3..]) else 0;
            var command := if spaces > 0 then s[3 + spaces..] else s;
            "<<" <= command && Redirected(s).value == command[2..]
  {
    hide SpaceCount;
  }

  lemma CatRuns(s: string)
    requires "cat" <= s && SpaceCount(s[3..]) > 0
    ensures Command(s[..3 + SpaceCount(s[3..])])
  {
    BlankRun(s[3..]);
    hide SpaceCount, Blank;
    var cat := s[..3 + SpaceCount(s[3..])];
    assert cat[3..] == s[3..][..SpaceCount(s[3..])] && cat[..3] == s[..3] == "cat";
  }

  lemma QuoteOf(s: string) returns (q: string)
    ensures Quote(q) && s == q + AfterQuote(s)
  {
    q := s[..QuoteCount(s)];
  }

  lemma {:induction false} LastNewlineAt(a: string, u: string)
    requires '\n' !in u
    ensures LastNewline(a + "\n" + u) == Some(|a|)
  {
    var s := a + "\n" + u;
    if u == "" {
      assert s == a + "\n" && s[|s| - 1] == '\n';
    } else {
      assert s[..|s| - 1] == a + "\n" + u[..|u| - 1] && s[|s| - 1] == u[|u| - 1];
      LastNewlineAt(a, u[..|u| - 1]);
    }
  }

  lemma WrappedEnds(front: string, tag: string, end: string)
    requires Word(tag) && Blank(end)
    ensures TrimEnd(front + tag + end) == front + tag
  {
    EndOfStem(front + tag, end);
    WordIsNoSpace(tag[|tag| - 1]);
    hide IsSpace, IsWord;
    assert (front + tag)[|front + tag| - 1] == tag[|tag| - 1];
  }

  lemma BreakIsSpace(s: string)
    ensures SpaceCount("\n" + s) == 1 + SpaceCount(s)
  {
    assert ("\n" + s)[1..] == s;
  }

  /** The white space at the front of what follows the opening tag: up to the body's first line that is not blank. */
  lemma WrappedSpaces(gap: string, body: string, rest: string)
    requires Blank(gap)
    ensures var s := gap + ("\n" + (body + ("\n" + rest)));
            Min(SpaceCount(s), |gap| + 1 + |body|) == |gap| + 1 + SpaceCount(body)
  {
    var after := body + ("\n" + rest);
    var s := gap + ("\n" + after);
    hide WHITE, IsSpace, Blank, SpaceCount;
    assert s[..|gap|] == gap && s[|gap|..] == "\n" + after;
    SpacesOfTail(s, |gap|);
    BreakIsSpace(after);
    BreakIsSpace(rest);
    LeadingSpaces(body, "\n" + rest);
  }

  /** Where the parts of the wrapped text lie. */
  lemma WrappedShape(gap: string, body: string, tag: string, end: string, n: nat)
    requires n <= |body|
    ensures var s := gap + ("\n" + (body + ("\n" + (tag + end))));
            var close := |gap| + 1 + |body|;
            && |s| == close + 1 + |tag| + |end|
            && s == (gap + ("\n" + (body + "\n"))) + tag + end
            && s[close..] == "\n" + (tag + end) && s[|gap| + 1..close] == body
            && s[..|gap| + 1 + n] == gap + "\n" + body[..n]
  {
    var rest := "\n" + (tag + end);
    var inner := body + rest;
    var s := gap + ("\n" + inner);
    assert inner[|body|..] == rest && inner[..|body|] == body;
    assert s[|gap| + 1..] == inner;
    assert s[|gap| + 1 + |body|..] == inner[|body|..];
    assert s[|gap| + 1..|gap| + 1 + |body|] == inner[..|body|];
    assert inner[..n] == body[..n];
    assert s[..|gap| + 1 + n] == gap + "\n" + inner[..n];
    assert s == gap + ("\n" + (body + "\n")) + (tag + end);
  }

  lemma UnwrapGives(gap: string, body: string, tag: string, end: string)
    requires Word(tag) && Blank(gap) && Blank(end) && '\n' !in body[..SpaceCount(body)]
    ensures Unwrap(gap + ("\n" + (body + ("\n" + (tag + end)))), tag) == Some(body)
  {
    hide Word, Blank, TrimEnd, SpaceCount, LastNewline, Unwrap;
    var s := gap + ("\n" + (body + ("\n" + (tag + end))));
    WrappedShape(gap, body, tag, end, SpaceCount(body));
    WrappedEnds(gap + ("\n" + (body + "\n")), tag, end);
    WrappedSpaces(gap, body, tag + end);
    LastNewlineAt(gap, body[..SpaceCount(body)]);
    assert "\n" + (tag + end) == "\n" + tag + end;
    UnwrapOf(s, tag, |gap| + 1 + |body|, |gap|);
  }

  lemma UnwrapOf(s: string, tag: string, close: nat, n: nat)
    requires |TrimEnd(s)| == close + 1 + |tag| && n < close <= |s| && ("\n" + tag) <= s[close..]
    requires LastNewline(s[..Min(SpaceCount(s), close)]) == Some(n)
    ensures Unwrap(s, tag) == Some(s[n + 1..close])
  {
    hide TrimEnd, SpaceCount, LastNewline;
  }

  lemma SpaceIsOther(c: char)
    requires c in WHITE
    ensures !IsWord(c) && c != '\'' && c != '"'
  {
    SpaceExactly(c);
  }

  lemma WrappedStarts(gap: string, rest: string)
    requires Blank(gap)
    ensures var s := gap + ("\n" + rest); s != "" && s[0] != '\'' && s[0] != '"' && !IsWord(s[0])
  {
    assert '\n' in WHITE;
    var s := gap + ("\n" + rest);
    assert s[0] == if gap == "" then '\n' else gap[0];
    hide WHITE, IsWord;
    SpaceIsOther(s[0]);
  }

  lemma TagStarts(tag: string, after: string)
    requires Word(tag)
    ensures var s := tag + after; s != "" && s[0] != '\'' && s[0] != '"'
  {
    assert (tag + after)[0] == tag[0];
  }

  lemma AfterTagStarts(right: string, wrapped: string)
    requires Quote(right) && wrapped != "" && !IsWord(wrapped[0])
    ensures var s := right + wrapped; s != "" && !IsWord(s[0])
  {
    var s := right + wrapped;
    assert s[0] == if right == "" then wrapped[0] else right[0];
  }

  lemma CommandIsFound(cat: string, rest: string)
    requires Command(cat)
    ensures Redirected(cat + ("<<" + rest)) == Some(rest)
  {
    if cat != "" { BlankMeans(cat[3..]); }
    hide WHITE, IsSpace, Redirected;
    RedirectIsFound(cat, rest);
  }

  lemma Stripped(s: string, word: string, n: nat, body: string)
    requires Redirected(s).Some? && AfterQuote(Redirected(s).value) == word && WordCount(word) == n > 0
    requires Unwrap(AfterQuote(word[n..]), word[..n]) == Some(body)
    ensures StripHeredoc(s) == body
  {
    hide Redirected, AfterQuote, WordCount, Unwrap;
  }

  /** Every heredoc is stripped to its body. */
  lemma StripsHeredocs(s: string, cat: string, left: string, tag: string, right: string, gap: string, body: string,
                       end: string)
    requires HeredocAt(s, cat, left, tag, right, gap, body, end)
    ensures StripHeredoc(s) == body
  {
    hide Command, Quote, Blank, SpaceCount, WHITE, IsSpace, IsWord, Unwrap, Redirected, AfterQuote, WordCount;
    var wrapped := gap + ("\n" + (body + ("\n" + (tag + end))));
    var after := right + wrapped;
    WrappedStarts(gap, body + ("\n" + (tag + end)));
    TagStarts(tag, after);
    AfterTagStarts(right, wrapped);
    UnwrapGives(gap, body, tag, end);
    WordRun(tag, after);
    hide Word, StripHeredoc;
    CommandIsFound(cat, left + (tag + after));
    QuoteIsSkipped(left, tag + after);
    QuoteIsSkipped(right, wrapped);
    assert (tag + after)[..|tag|] == tag && (tag + after)[|tag|..] == after;
    Stripped(s, tag + after, |tag|, body);
  }
}
