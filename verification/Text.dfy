/** The string operations that patch parsing and editing are written with. */
module Text {

  /** The white space that JavaScript's `trim` and `\s` recognise. */
  predicate IsSpace(c: char) {
    var n := c as int;
    || 9 <= n <= 13 || n == 32 || n == 0xA0 || n == 0x1680 || 0x2000 <= n <= 0x200A
    || n == 0x2028 || n == 0x2029 || n == 0x202F || n == 0x205F || n == 0x3000 || n == 0xFEFF
  }

  function TrimStart(s: string): string {
    if s != "" && IsSpace(s[0]) then TrimStart(s[1..]) else s
  }

  function TrimEnd(s: string): string {
    if s != "" && IsSpace(s[|s| - 1]) then TrimEnd(s[..|s| - 1]) else s
  }

  function Trim(s: string): string {
    TrimStart(TrimEnd(s))
  }

  /** A string that trimming leaves alone. */
  predicate Trimmed(s: string) {
    s == "" || (!IsSpace(s[0]) && !IsSpace(s[|s| - 1]))
  }

  predicate OneLine(s: string) {
    '\n' !in s
  }

  /** `text.split("\n")`. */
  function Split(s: string): (lines: seq<string>)
    ensures lines != []
    ensures forall i :: 0 <= i < |lines| ==> OneLine(lines[i])
  {
    if s == "" then [""]
    else
      var rest := Split(s[1..]);
      if s[0] == '\n' then [""] + rest else [[s[0]] + rest[0]] + rest[1..]
  }

  /** `lines.join("\n")`. */
  function Join(lines: seq<string>): string {
    if lines == [] then ""
    else if |lines| == 1 then lines[0]
    else lines[0] + "\n" + Join(lines[1..])
  }

  lemma {:induction false} JoinSplit(s: string)
    ensures Join(Split(s)) == s
  {
    if s == "" {
    } else {
      JoinSplit(s[1..]);
      var rest := Split(s[1..]);
      if s[0] == '\n' {
        assert Split(s)[1..] == rest;
      } else if |rest| > 1 {
        assert Split(s)[1..] == rest[1..];
      }
    }
  }

  lemma {:induction false} SplitOne(line: string)
    requires OneLine(line)
    ensures Split(line) == [line]
  {
    if line == "" {
    } else {
      SplitOne(line[1..]);
      assert [line[0]] + line[1..] == line;
    }
  }

  lemma {:induction false} SplitHead(line: string, rest: string)
    requires OneLine(line)
    ensures Split(line + "\n" + rest) == [line] + Split(rest)
  {
    if line == "" {
      assert line + "\n" + rest == ['\n'] + rest;
    } else {
      SplitHead(line[1..], rest);
      assert (line + "\n" + rest)[1..] == line[1..] + "\n" + rest;
      assert [line[0]] + line[1..] == line;
    }
  }

  lemma {:induction false} SplitJoin(lines: seq<string>)
    requires lines != [] && forall i :: 0 <= i < |lines| ==> OneLine(lines[i])
    ensures Split(Join(lines)) == lines
  {
    if |lines| == 1 {
      SplitOne(lines[0]);
    } else {
      SplitJoin(lines[1..]);
      SplitHead(lines[0], Join(lines[1..]));
    }
  }

  lemma {:induction false} TrimStartFacts(s: string)
    ensures |TrimStart(s)| <= |s| && TrimStart(s) == s[|s| - |TrimStart(s)|..]
    ensures TrimStart(s) == "" || !IsSpace(TrimStart(s)[0])
  {
    if s != "" && IsSpace(s[0]) {
      TrimStartFacts(s[1..]);
      var n := |TrimStart(s)|;
      assert s[1..][|s[1..]| - n..] == s[|s| - n..];
    }
  }

  lemma {:induction false} TrimEndFacts(s: string)
    ensures |TrimEnd(s)| <= |s| && TrimEnd(s) == s[..|TrimEnd(s)|]
    ensures TrimEnd(s) == "" || !IsSpace(TrimEnd(s)[|TrimEnd(s)| - 1])
  {
    if s != "" && IsSpace(s[|s| - 1]) { TrimEndFacts(s[..|s| - 1]); }
  }

  /** Trimming yields a trimmed substring, so what holds of every character still does. */
  lemma TrimFacts(s: string)
    ensures Trimmed(Trim(s)) && (OneLine(s) ==> OneLine(Trim(s)))
    ensures Trimmed(s) ==> Trim(s) == s
  {
    var e := TrimEnd(s);
    TrimEndFacts(s);
    TrimStartFacts(e);
    hide TrimStart, TrimEnd, IsSpace;
    EndTrimmedToo(e, Trim(s));
    if Trimmed(s) { TrimmedStays(s); }
  }

  lemma EndTrimmedToo(e: string, t: string)
    requires e == "" || !IsSpace(e[|e| - 1])
    requires |t| <= |e| && t == e[|e| - |t|..] && (t == "" || !IsSpace(t[0]))
    ensures Trimmed(t)
  {
    hide IsSpace;
  }

  lemma TrimmedStays(s: string)
    requires Trimmed(s)
    ensures Trim(s) == s
  {
  }

  /** A leading space does not matter to trimming. */
  lemma {:induction false} TrimPadded(s: string)
    ensures Trim(" " + s) == Trim(s)
  {
    if s == "" {
      assert (" " + s)[..0] == "";
      assert TrimEnd(" " + s) == TrimEnd("");
    } else if IsSpace(s[|s| - 1]) {
      assert (" " + s)[..|" " + s| - 1] == " " + s[..|s| - 1];
      TrimPadded(s[..|s| - 1]);
    } else {
      assert (" " + s)[1..] == s;
    }
  }

  /** A line that starts with something other than white space keeps its first character. */
  lemma TrimKeepsHead(s: string)
    requires s != "" && !IsSpace(s[0])
    ensures 0 < |Trim(s)| <= |s| && Trim(s) == s[..|Trim(s)|]
  {
    TrimEndFacts(s);
    TrimEndKeepsHead(s);
  }

  lemma {:induction false} TrimEndKeepsHead(s: string)
    requires s != "" && !IsSpace(s[0])
    ensures TrimEnd(s) != "" && TrimEnd(s)[0] == s[0]
  {
    if IsSpace(s[|s| - 1]) { TrimEndKeepsHead(s[..|s| - 1]); }
  }
}
