/** Splitting text into lines that keep their terminators, and what an edit inside one line does to them. */
module Lines {
  /** Just past the first newline, or the end. */
  function LineEnd(s: string): (k: nat)
    requires s != ""
    ensures 0 < k <= |s|
    ensures forall i | 0 <= i < k - 1 :: s[i] != '\n'
    ensures s[k - 1] != '\n' ==> k == |s|
  {
    if s[0] == '\n' || |s| == 1 then 1 else 1 + LineEnd(s[1..])
  }

  /** `split_inclusive('\n')`. */
  function SplitInclusive(s: string): seq<string> {
    if s == "" then [] else [s[..LineEnd(s)]] + SplitInclusive(s[LineEnd(s)..])
  }

  function Join(lines: seq<string>): string {
    if lines == [] then "" else lines[0] + Join(lines[1..])
  }

  predicate NoNewline(s: string) {
    forall i | 0 <= i < |s| :: s[i] != '\n'
  }

  /** Ends in its only newline. */
  predicate FullLine(s: string) {
    s != "" && s[|s| - 1] == '\n' && NoNewline(s[..|s| - 1])
  }

  /** A full line, or a nonempty unterminated one. */
  predicate Line(s: string) {
    s != "" && NoNewline(s[..|s| - 1])
  }

  lemma JoinFirst(first: string, rest: seq<string>)
    ensures Join([first] + rest) == first + Join(rest)
  {
    assert ([first] + rest)[1..] == rest;
  }

  lemma {:induction false} JoinSplit(s: string)
    ensures Join(SplitInclusive(s)) == s
    decreases |s|
  {
    if s != "" {
      hide LineEnd;
      var k := LineEnd(s);
      JoinSplit(s[k..]);
      JoinFirst(s[..k], SplitInclusive(s[k..]));
      assert s == s[..k] + s[k..];
    }
  }

  lemma LineEndIs(s: string, k: nat)
    requires 0 < k <= |s| && NoNewline(s[..k - 1]) && (s[k - 1] == '\n' || k == |s|)
    ensures LineEnd(s) == k
  {
    assert forall i | 0 <= i < k - 1 :: s[i] == s[..k - 1][i];
  }

  /** A full line in front is the first line. */
  lemma SplitFullLine(line: string, rest: string)
    requires FullLine(line)
    ensures SplitInclusive(line + rest) == [line] + SplitInclusive(rest)
  {
    var s := line + rest;
    assert s[..|line| - 1] == line[..|line| - 1];
    LineEndIs(s, |line|);
    assert s[..|line|] == line && s[|line|..] == rest;
  }

  lemma {:induction false} SplitGivesLines(s: string)
    ensures forall i | 0 <= i < |SplitInclusive(s)| :: Line(SplitInclusive(s)[i])
    ensures forall i | 0 <= i < |SplitInclusive(s)| - 1 :: FullLine(SplitInclusive(s)[i])
    decreases |s|
  {
    if s != "" {
      var k := LineEnd(s);
      SplitGivesLines(s[k..]);
    }
  }

  function Replace(s: string, start: nat, end: nat, text: string): string
    requires start <= end <= |s|
  {
    s[..start] + text + s[end..]
  }

  lemma NoNewlineConcat(a: string, b: string, c: string)
    requires NoNewline(a) && NoNewline(b) && NoNewline(c)
    ensures NoNewline(a + b + c)
  {
  }

  lemma EditedLineFull(first: string, start: nat, end: nat, text: string)
    requires FullLine(first) && start < end <= |first| && NoNewline(text) && NoNewline(first[start..end])
    ensures end < |first| && FullLine(Replace(first, start, end, text))
  {
    var n := |first| - 1;
    assert first[start..end][end - 1 - start] == first[end - 1];
    var init := first[..n];
    assert first[..start] == init[..start] && first[end..n] == init[end..];
    NoNewlineConcat(init[..start], text, init[end..]);
    var line := Replace(first, start, end, text);
    assert first[end..] == first[end..n] + [first[n]];
    assert line == (first[..start] + text + first[end..n]) + [first[n]];
    assert line[..|line| - 1] == first[..start] + text + first[end..n];
  }

  lemma SplitLastLine(line: string)
    requires line != "" && NoNewline(line)
    ensures SplitInclusive(line) == [line]
  {
    LineEndIs(line, |line|);
    assert line[..|line|] == line && line[|line|..] == "";
  }

  lemma EditedLastLine(first: string, start: nat, end: nat, text: string)
    requires NoNewline(first) && start <= end <= |first| && NoNewline(text) && text != ""
    ensures Replace(first, start, end, text) != "" && NoNewline(Replace(first, start, end, text))
  {
    NoNewlineConcat(first[..start], text, first[end..]);
  }

  /** Nothing, or whole lines only. */
  predicate Terminated(s: string) {
    s != "" ==> s[|s| - 1] == '\n'
  }

  /** Whole lines in front split off unchanged. */
  lemma {:induction false} SplitConcat(before: string, rest: string)
    requires Terminated(before)
    ensures SplitInclusive(before + rest) == SplitInclusive(before) + SplitInclusive(rest)
    decreases |before|
  {
    hide *;
    if before == "" {
      SplitConcatEmpty(before, rest);
    } else {
      var k := LineEnd(before);
      TerminatedFirstLine(before);
      SplitConcat(before[k..], rest);
      SplitConcatStep(before[..k], before[k..], rest);
      assert before == before[..k] + before[k..];
    }
  }

  lemma SplitConcatEmpty(before: string, rest: string)
    requires before == ""
    ensures SplitInclusive(before + rest) == SplitInclusive(before) + SplitInclusive(rest)
  {
    assert before + rest == rest;
    assert SplitInclusive(before) == [];
  }

  lemma SplitConcatStep(first: string, others: string, rest: string)
    requires FullLine(first) && SplitInclusive(others + rest) == SplitInclusive(others) + SplitInclusive(rest)
    ensures SplitInclusive(first + others + rest) == SplitInclusive(first + others) + SplitInclusive(rest)
  {
    hide *;
    SplitFullLine(first, others);
    SplitFullLine(first, others + rest);
    ConcatSplit(first, others, rest);
    AppendBehind(first, SplitInclusive(others), SplitInclusive(rest));
  }

  lemma TerminatedFirstLine(s: string)
    requires s != "" && Terminated(s)
    ensures FullLine(s[..LineEnd(s)]) && Terminated(s[LineEnd(s)..])
  {
    var k := LineEnd(s);
    assert s[..k][..k - 1] == s[..k - 1];
  }

  lemma ConcatSplit(a: string, b: string, c: string)
    ensures a + b + c == a + (b + c)
  {
  }

  lemma AppendBehind(first: string, a: seq<string>, b: seq<string>)
    ensures [first] + (a + b) == ([first] + a) + b
  {
  }

  /** A line between whole lines and the rest of the text: only the last one may be unterminated. */
  predicate Between(before: string, line: string, after: string) {
    Terminated(before) && Line(line) && (after != "" ==> FullLine(line))
  }

  lemma SplitBetween(before: string, line: string, after: string)
    requires Between(before, line, after)
    ensures SplitInclusive(before + line + after) == SplitInclusive(before) + [line] + SplitInclusive(after)
  {
    hide LineEnd;
    ConcatSplit(before, line, after);
    SplitConcat(before, line + after);
    if FullLine(line) {
      SplitFullLine(line, after);
    } else {
      assert NoNewline(line) by { assert forall i | 0 <= i < |line| - 1 :: line[..|line| - 1][i] == line[i]; }
      SplitLastLine(line);
      assert line + after == line;
    }
  }

  /** Replacing newline-free text by newline-free text inside a line leaves a line. */
  lemma EditKeepsLine(before: string, line: string, after: string, start: nat, end: nat, text: string)
    requires Between(before, line, after) && start < end <= |line|
    requires NoNewline(line[start..end]) && NoNewline(text) && text != ""
    ensures Between(before, Replace(line, start, end, text), after)
  {
    if FullLine(line) {
      EditedLineFull(line, start, end, text);
    } else {
      assert NoNewline(line) by { assert forall i | 0 <= i < |line| - 1 :: line[..|line| - 1][i] == line[i]; }
      EditedLastLine(line, start, end, text);
    }
  }

  /** The next line of the text, once whole lines were consumed. */
  lemma NextLine(s: string, offset: nat)
    requires offset < |s| && Terminated(s[..offset])
    ensures var k := LineEnd(s[offset..]);
            && Between(s[..offset], s[offset..offset + k], s[offset + k..])
            && s == s[..offset] + s[offset..offset + k] + s[offset + k..]
            && (offset + k < |s| ==> Terminated(s[..offset + k]))
  {
    var rest := s[offset..];
    var k := LineEnd(rest);
    assert rest[..k] == s[offset..offset + k];
    assert rest[..k][..k - 1] == rest[..k - 1];
    assert s[offset + k - 1] == rest[k - 1];
  }
}
