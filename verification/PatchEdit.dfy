/** Where every line of an updated file comes from: a line that no chunk replaces, or a new line of a chunk. */
module PatchEdit {
  import opened Wrappers
  import Text
  import opened PatchParser
  import opened PatchApply

  /** How far the first `n` replacements have moved the lines behind them. */
  function Shift(rs: seq<Replacement>, n: nat): int
    requires n <= |rs|
  {
    if n == 0 then 0 else Shift(rs, n - 1) + |rs[n - 1].insert| - rs[n - 1].remove
  }

  lemma {:induction false} ShiftTail(rs: seq<Replacement>, n: nat)
    requires 0 < n <= |rs|
    ensures Shift(rs, n) == |rs[0].insert| - rs[0].remove + Shift(rs[1..], n - 1)
  {
    if n > 1 { ShiftTail(rs, n - 1); }
  }

  /** Line `k` lies behind the first `n` replacements and before the others. */
  predicate Between(rs: seq<Replacement>, n: nat, k: int) {
    && n <= |rs|
    && (n > 0 ==> rs[n - 1].start + rs[n - 1].remove <= k)
    && (n < |rs| ==> k < rs[n].start)
  }

  lemma {:induction false} LengthAfter(lines: seq<string>, rs: seq<Replacement>, from: nat)
    requires Disjoint(rs, from, |lines|)
    ensures from <= |lines| && |Interleave(lines, rs, from)| == |lines| - from + Shift(rs, |rs|)
  {
    DisjointPairs(rs, from, |lines|);
    if rs != [] {
      LengthAfter(lines, rs[1..], rs[0].start + rs[0].remove);
      ShiftTail(rs, |rs|);
    }
  }

  /** A part of some lines, at a place in them. */
  predicate PartAt(lines: seq<string>, at: int, part: seq<string>) {
    0 <= at <= at + |part| <= |lines| && lines[at..at + |part|] == part
  }

  lemma PartBehind(front: seq<string>, rest: seq<string>, at: int, part: seq<string>)
    requires PartAt(rest, at, part)
    ensures PartAt(front + rest, |front| + at, part)
  {
    assert (front + rest)[|front| + at..|front| + at + |part|] == rest[at..at + |part|];
  }

  lemma PartInFront(left: seq<string>, part: seq<string>, rest: seq<string>)
    ensures PartAt(left + part + rest, |left|, part)
  {
  }

  lemma {:induction false} NewLinesAt(lines: seq<string>, rs: seq<Replacement>, from: nat, n: nat)
    requires Disjoint(rs, from, |lines|) && n < |rs|
    ensures PartAt(Interleave(lines, rs, from), rs[n].start + Shift(rs, n) - from, rs[n].insert)
  {
    hide PartAt, Interleave;
    DisjointPairs(rs, from, |lines|);
    var end := rs[0].start + rs[0].remove;
    var rest := Interleave(lines, rs[1..], end);
    var left := lines[from..rs[0].start];
    InterleaveStep(lines, rs, from);
    if n == 0 {
      PartInFront(left, rs[0].insert, rest);
    } else {
      NewLinesAt(lines, rs[1..], end, n - 1);
      ShiftTail(rs, n);
      PartBehind(left + rs[0].insert, rest, rs[n].start + Shift(rs[1..], n - 1) - end, rs[n].insert);
    }
  }

  lemma LineInFront(lines: seq<string>, from: nat, to: nat, rest: seq<string>, k: nat)
    requires from <= k < to <= |lines|
    ensures PartAt(lines[from..to] + rest, k - from, [lines[k]])
  {
    var s := lines[from..to] + rest;
    assert s[k - from] == lines[k];
    assert s[k - from..k - from + 1] == [s[k - from]];
  }

  lemma InterleaveStep(lines: seq<string>, rs: seq<Replacement>, from: nat)
    requires rs != [] && Disjoint(rs, from, |lines|)
    ensures rs[0].start + rs[0].remove <= |lines| && from <= rs[0].start
    ensures var rest := Interleave(lines, rs[1..], rs[0].start + rs[0].remove);
      var left := lines[from..rs[0].start];
      && Interleave(lines, rs, from) == left + rs[0].insert + rest
      && left + rs[0].insert + rest == left + (rs[0].insert + rest)
  {
    DisjointPairs(rs, from, |lines|);
  }

  lemma NothingReplaced(lines: seq<string>, from: nat)
    requires from <= |lines|
    ensures Interleave(lines, [], from) == lines[from..|lines|] + []
  {
  }

  lemma {:induction false} OldLineAt(lines: seq<string>, rs: seq<Replacement>, from: nat, n: nat, k: nat)
    requires Disjoint(rs, from, |lines|) && Between(rs, n, k) && from <= k < |lines|
    ensures PartAt(Interleave(lines, rs, from), k + Shift(rs, n) - from, [lines[k]])
  {
    hide PartAt, Interleave;
    DisjointPairs(rs, from, |lines|);
    if rs == [] {
      LineInFront(lines, from, |lines|, [], k);
      NothingReplaced(lines, from);
    } else {
      var end := rs[0].start + rs[0].remove;
      var rest := Interleave(lines, rs[1..], end);
      var left := lines[from..rs[0].start];
      InterleaveStep(lines, rs, from);
      if n == 0 {
        LineInFront(lines, from, rs[0].start, rs[0].insert + rest, k);
      } else {
        assert end <= k by { if n > 1 { assert end <= rs[n - 1].start; } }
        OldLineAt(lines, rs[1..], end, n - 1, k);
        ShiftTail(rs, n);
        PartBehind(left + rs[0].insert, rest, k + Shift(rs[1..], n - 1) - end, [lines[k]]);
      }
    }
  }

  /**
   * The new lines of each replacement stand at its place, every line that lies between the replacements is kept, both
   * moved by what the earlier replacements add and take, and there is nothing else.
   */
  ghost predicate EditOf(lines: seq<string>, rs: seq<Replacement>, edited: seq<string>) {
    && |edited| == |lines| + Shift(rs, |rs|)
    && (forall n :: 0 <= n < |rs| ==> PartAt(edited, rs[n].start + Shift(rs, n), rs[n].insert))
    && (forall n: nat, k :: 0 <= k < |lines| && Between(rs, n, k) ==> LineKept(lines, rs, edited, n, k))
  }

  lemma InterleaveEdits(lines: seq<string>, rs: seq<Replacement>)
    requires Disjoint(rs, 0, |lines|)
    ensures EditOf(lines, rs, Interleave(lines, rs, 0))
  {
    hide Interleave, Between, PartAt, Disjoint, Shift, LineKept;
    var edited := Interleave(lines, rs, 0);
    LengthAfter(lines, rs, 0);
    forall n | 0 <= n < |rs| ensures PartAt(edited, rs[n].start + Shift(rs, n), rs[n].insert) {
      NewLinesAt(lines, rs, 0, n);
    }
    forall n: nat, k | 0 <= k < |lines| && Between(rs, n, k) ensures LineKept(lines, rs, edited, n, k) {
      LineIsKept(lines, rs, n, k);
    }
  }

  /** An update that succeeds is exactly the edit by its replacements. */
  lemma EditedExactly(lines: seq<string>, chunks: seq<Chunk>)
    requires Edited(lines, chunks).Ok?
    ensures Replacements(lines, chunks).Ok?
    ensures EditOf(lines, Replacements(lines, chunks).value, Edited(lines, chunks).value)
  {
    hide EditOf, Replacements, Interleave;
    ReplacementsShape(lines, chunks);
    InterleaveEdits(lines, Replacements(lines, chunks).value);
  }

  /** Line `k`, moved by the first `n` replacements, is there. */
  predicate LineKept(lines: seq<string>, rs: seq<Replacement>, edited: seq<string>, n: nat, k: int) {
    && 0 <= k < |lines| && n <= |rs|
    && 0 <= k + Shift(rs, n) < |edited| && edited[k + Shift(rs, n)] == lines[k]
  }

  lemma LineIsKept(lines: seq<string>, rs: seq<Replacement>, n: nat, k: nat)
    requires Disjoint(rs, 0, |lines|) && Between(rs, n, k) && k < |lines|
    ensures LineKept(lines, rs, Interleave(lines, rs, 0), n, k)
  {
    hide Interleave, Disjoint, Shift;
    OldLineAt(lines, rs, 0, n, k);
  }

  // ---------------------------------------------------------------- what is written

  predicate StartsWithBom(text: string) {
    text != "" && text[0] as int == 0xFEFF
  }

  /**
   * What an update writes: the edited lines, each ended by a line break unless the last is blank already, without a
   * byte order mark in front; the mark is noted apart, if the original or the first edited line has one.
   */
  lemma WrittenExactly(original: string, edited: seq<string>)
    requires forall i :: 0 <= i < |edited| ==> Text.OneLine(edited[i])
    ensures var update := Written(original, edited);
      var mark := edited != [] && StartsWithBom(edited[0]);
      var lines := if edited != [] && edited[|edited| - 1] == "" then edited else edited + [""];
      && (update.bom <==> StartsWithBom(original) || mark)
      && Text.Split(if mark then [BOM] + update.content else update.content) == lines
  {
    var lines := if edited != [] && edited[|edited| - 1] == "" then edited else edited + [""];
    Text.SplitJoin(lines);
    var text := EditedText(edited);
    assert text == Text.Join(lines);
    if edited != [] && edited[0] != "" {
      assert text[0] == edited[0][0];
    }
    if HasBom(text) { assert [BOM] + text[1..] == text; }
  }
}
