/**
 The one-hunk repair patch (src/gitops/artifact.rs) and, as its independent meaning, a reader that
 applies such a zero-context unified diff to a text.
 */
module Patch {
  import opened Outcomes
  import opened Lines
  import opened ComposeImage
  import opened Decimal
  import Text

  const OLD_FILE: string := "--- a/" + PILOT_PATH + "\n"
  const NEW_FILE: string := "+++ b/" + PILOT_PATH + "\n"
  const NO_NEWLINE: string := "\\ No newline at end of file\n"
  const TAG_PREFIX: string := "ghcr.io/corentinth/it-tools:"

  datatype Request = Request(incident: string, run: string, evidence: string, expectedBase: string, currentBase: string,
                             source: string)

  predicate SafeId(s: string) {
    0 < |s| <= 128 && forall i | 0 <= i < |s| :: Text.IsAlphanumeric(s[i]) || s[i] == '-' || s[i] == '_'
  }

  predicate ValidDigest(s: string) {
    Text.At(s, 0, "sha256:") && |s| == 71 && Text.LowerHex(s[7..])
  }

  /** `validate_change` for a text just rendered from the same source. */
  predicate ScopeAllows(q: Request, after: string) {
    Text.ValidSha(q.expectedBase) && q.expectedBase == q.currentBase && Text.Utf8Length(after) <= MAX_SOURCE_BYTES
  }

  /** The first position from `from` at which the zipped lines differ. */
  function NextChange(a: seq<string>, b: seq<string>, from: nat): (r: Option<nat>)
    ensures r.Some? ==> from <= r.value < |a| && r.value < |b| && a[r.value] != b[r.value]
    ensures forall j | from <= j < |a| && j < |b| && (r.Some? ==> j < r.value) :: a[j] == b[j]
    decreases |a| - from
  {
    if from >= |a| || from >= |b| then None
    else if a[from] != b[from] then Some(from)
    else NextChange(a, b, from + 1)
  }

  predicate ReplaceableImage(image: string) {
    && (Text.At(image, 0, TAG_PREFIX) || Text.At(image, 0, IMAGE_PREFIX))
    && Text.Utf8Length(image) <= 256
    && forall i | 0 <= i < |image| :: Text.IsAlphanumeric(image[i]) || image[i] in "./:@_-"
  }

  /** The replaced line must be a bare image scalar of the pilot repository, without comment. */
  predicate ReplaceableLine(scalarOf: string -> Option<string>, line: string) {
    var trimmed := Text.Trim(line);
    && '#' !in line
    && Text.At(trimmed, 0, KEY)
    && var current := scalarOf(Text.Trim(trimmed[|KEY|..])); current.Some? && ReplaceableImage(current.value)
  }

  function HunkHeader(line: nat): string {
    "@@ -" + Print(line) + ",1 +" + Print(line) + ",1 @@\n"
  }

  /** One side of the hunk: its sign, its line, and the marker of a missing final newline. */
  function Side(sign: char, line: string): string {
    [sign] + line + if line != "" && line[|line| - 1] == '\n' then "" else "\n" + NO_NEWLINE
  }

  function PatchText(index: nat, before: string, after: string): string {
    OLD_FILE + NEW_FILE + HunkHeader(index + 1) + Side('-', before) + Side('+', after)
  }

  /** The patch `build` puts into a candidate, if every guard passes. */
  function Built<V(==)>(y: Yaml<V>, scalarOf: string -> Option<string>, q: Request, image: string): Option<string> {
    if !SafeId(q.incident) || !SafeId(q.run) || !ValidDigest(q.evidence) then None else
    match Rendered(y, q.source, image)
    case Err(_) => None
    case Ok(after) =>
      if !ScopeAllows(q, after) then None else
      var a, b := SplitInclusive(q.source), SplitInclusive(after);
      var i := NextChange(a, b, 0);
      if i.None? || NextChange(a, b, i.value + 1).Some? || !ReplaceableLine(scalarOf, a[i.value]) then None
      else Some(PatchText(i.value, a[i.value], b[i.value]))
  }

  /** `build`'s patch, stepping the iterator of changed lines and pushing onto the text. */
  method Build<V(==)>(y: Yaml<V>, scalarOf: string -> Option<string>, q: Request, image: string) returns (r: Option<string>)
    ensures r == Built(y, scalarOf, q, image)
  {
    hide *;
    BuiltCases(y, scalarOf, q, image);
    if !SafeId(q.incident) || !SafeId(q.run) || !ValidDigest(q.evidence) { return None; }
    var rendered := Render(y, q.source, image);
    if rendered.Err? { return None; }
    var after := rendered.value;
    if !ScopeAllows(q, after) { return None; }
    var a, b := SplitInclusive(q.source), SplitInclusive(after);
    var first := StepChanges(a, b, 0);
    if first.None? { return None; }
    var second := StepChanges(a, b, first.value + 1);
    if second.Some? || !ReplaceableLine(scalarOf, a[first.value]) { return None; }
    var patch := WritePatch(first.value, a[first.value], b[first.value]);
    return Some(patch);
  }

  /** `Built`, guard by guard. */
  lemma BuiltCases<V>(y: Yaml<V>, scalarOf: string -> Option<string>, q: Request, image: string)
    ensures !SafeId(q.incident) || !SafeId(q.run) || !ValidDigest(q.evidence) ==> Built(y, scalarOf, q, image) == None
    ensures SafeId(q.incident) && SafeId(q.run) && ValidDigest(q.evidence) ==>
              match Rendered(y, q.source, image)
              case Err(_) => Built(y, scalarOf, q, image) == None
              case Ok(after) =>
                var a, b := SplitInclusive(q.source), SplitInclusive(after);
                var i := NextChange(a, b, 0);
                Built(y, scalarOf, q, image)
                == if ScopeAllows(q, after) && i.Some? && NextChange(a, b, i.value + 1).None? && ReplaceableLine(scalarOf, a[i.value])
                then Some(PatchText(i.value, a[i.value], b[i.value])) else None
  {
    hide SafeId, ValidDigest, Rendered, SplitInclusive, ReplaceableLine, ScopeAllows, PatchText;
  }

  method WritePatch(index: nat, before: string, after: string) returns (patch: string)
    ensures patch == PatchText(index, before, after)
  {
    hide *;
    patch := OLD_FILE + NEW_FILE + HunkHeader(index + 1);
    ghost var head, m, p := patch, Side('-', before), Side('+', after);
    var sides := [('-', before), ('+', after)];
    for k := 0 to 2
      invariant patch == if k == 0 then head else if k == 1 then head + m else head + m + p
    {
      patch := PushSide(patch, sides[k].0, sides[k].1);
    }
    PatchTextIs(index, before, after);
  }

  lemma PatchTextIs(index: nat, before: string, after: string)
    ensures PatchText(index, before, after) == OLD_FILE + NEW_FILE + HunkHeader(index + 1) + Side('-', before) + Side('+', after)
  {
    hide HunkHeader, Side;
  }

  method PushSide(patch: string, sign: char, content: string) returns (r: string)
    ensures r == patch + Side(sign, content)
  {
    r := patch + [sign];
    r := r + content;
    if content == "" || content[|content| - 1] != '\n' {
      r := r + ("\n" + NO_NEWLINE);
    }
    assert Side(sign, content) == [sign] + content + (if content != "" && content[|content| - 1] == '\n' then "" else "\n" + NO_NEWLINE);
  }

  method StepChanges(a: seq<string>, b: seq<string>, from: nat) returns (r: Option<nat>)
    ensures r == NextChange(a, b, from)
  {
    var i := from;
    while i < |a| && i < |b| && a[i] == b[i]
      invariant NextChange(a, b, i) == NextChange(a, b, from)
      decreases |a| - i
    {
      i := i + 1;
    }
    return if i < |a| && i < |b| then Some(i) else None;
  }

  // ---- Reading a patch ----

  /** "@@ -N,1 +M,1 @@" on one line: the one-line ranges it names. */
  function ReadHeader(line: string): Option<(nat, nat)> {
    if !Text.At(line, 0, "@@ -") then None else
    var e := DigitsEnd(line, 4);
    if e == 4 || !Text.At(line, e, ",1 +") then None else
    var f := DigitsEnd(line, e + 4);
    if f == e + 4 || line[f..] != ",1 @@\n" then None else Some((Value(line[4..e]), Value(line[e + 4..f])))
  }

  /** A signed line at position `i` of the patch, and where reading continues. */
  function ReadSide(p: seq<string>, i: nat, sign: char): Option<(string, nat)> {
    if i >= |p| || p[i] == "" || p[i][0] != sign then None
    else if i + 1 < |p| && p[i + 1] == NO_NEWLINE then
      if |p[i]| < 2 then None else Some((p[i][1..|p[i]| - 1], i + 2))
    else Some((p[i][1..], i + 1))
  }

  /** Applies a one-hunk, zero-context patch of the pilot file; every mismatch refuses. */
  function ApplyPatch(source: string, patch: string): Option<string> {
    var p := SplitInclusive(patch);
    if |p| < 5 || p[0] != OLD_FILE || p[1] != NEW_FILE then None else
    var range := ReadHeader(p[2]);
    var minus := ReadSide(p, 3, '-');
    if range.None? || minus.None? then None else
    var plus := ReadSide(p, minus.value.1, '+');
    if plus.None? || plus.value.1 != |p| then None else
    var lines, n := SplitInclusive(source), range.value.0;
    if n == 0 || n != range.value.1 || n > |lines| || lines[n - 1] != minus.value.0 then None
    else Some(Join(lines[n - 1 := plus.value.0]))
  }

  // ---- The round trip ----

  lemma HeaderReads(line: nat)
    ensures ReadHeader(HunkHeader(line)) == Some((line, line)) && FullLine(HunkHeader(line))
  {
    hide *;
    PrintValue(line);
    HeaderIs(line);
    HeaderTextReads(Print(line), HunkHeader(line), "@@ -", ",1 +", ",1 @@\n");
    HeaderIsLine(Print(line), HunkHeader(line));
  }

  lemma HeaderIs(line: nat)
    ensures HunkHeader(line) == "@@ -" + Print(line) + ",1 +" + Print(line) + ",1 @@\n"
  {
  }

  lemma HeaderTextReads(n: string, h: string, a: string, c: string, t: string)
    requires n != "" && AllDigits(n)
    requires h == a + n + c + n + t && a == "@@ -" && c == ",1 +" && t == ",1 @@\n"
    ensures ReadHeader(h) == Some((Value(n), Value(n)))
  {
    hide Value, DigitsEnd, AllDigits;
    var e := 4 + |n|;
    var f := e + 4 + |n|;
    FiveSlices(a, n, c, t, h);
    assert h[e] == h[e..e + 4][0] && h[f] == h[f..][0];
    DigitsEndAt(h, 4, e);
    DigitsEndAt(h, e + 4, f);
  }

  lemma HeaderIsLine(n: string, h: string)
    requires AllDigits(n) && h == "@@ -" + n + ",1 +" + n + ",1 @@\n"
    ensures FullLine(h)
  {
    var a, c, t := "@@ -", ",1 +", ",1 @@";
    assert NoNewline(a) && NoNewline(n) && NoNewline(c) && NoNewline(t);
    NoNewlineConcat(a, n, c);
    NoNewlineConcat(a + n + c, n, t);
    assert h[..|h| - 1] == a + n + c + n + t;
  }

  lemma FiveSlices(a: string, n: string, c: string, t: string, h: string)
    requires h == a + n + c + n + t
    ensures var e := |a| + |n|;
            var f := e + |c| + |n|;
            |h| == f + |t| && h[0..|a|] == a && h[|a|..e] == n && h[e..e + |c|] == c && h[e + |c|..f] == n && h[f..] == t
  {
    Slice("", a, n + c + n + t, h);
    Slice(a, n, c + n + t, h);
    Slice(a + n, c, n + t, h);
    Slice(a + n + c, n, t, h);
    Slice(a + n + c + n, t, "", h);
  }

  lemma Slice(a: string, b: string, c: string, s: string)
    requires s == a + b + c
    ensures s[|a|..|a| + |b|] == b
  {
  }

  /** The lines one side of the hunk occupies in the patch. */
  function SideLines(sign: char, line: string): seq<string>
    requires line != ""
  {
    if line[|line| - 1] == '\n' then [[sign] + line] else [[sign] + line + "\n", NO_NEWLINE]
  }

  lemma SideSplits(sign: char, line: string)
    requires Line(line) && sign != '\n'
    ensures SplitInclusive(Side(sign, line)) == SideLines(sign, line) && Terminated(Side(sign, line))
  {
    hide *;
    MarkerSplits();
    var s := SignedLine(sign, line);
    if line[|line| - 1] == '\n' {
      SplitFullLine(s, "");
      SplitEmpty();
      assert s + "" == s;
    } else {
      SplitFullLine(s, NO_NEWLINE);
    }
    SideIs(sign, line);
    EndsTerminated(Side(sign, line));
  }

  /** The signed line, completed to a full line of the patch. */
  lemma SignedLine(sign: char, line: string) returns (s: string)
    requires Line(line) && sign != '\n'
    ensures line != "" && FullLine(s)
    ensures s == if line[|line| - 1] == '\n' then [sign] + line else [sign] + line + "\n"
  {
    if line[|line| - 1] == '\n' {
      s := [sign] + line;
      assert s[..|s| - 1] == [sign] + line[..|line| - 1];
    } else {
      s := [sign] + line + "\n";
      assert NoNewline(line) by { assert forall i | 0 <= i < |line| - 1 :: line[..|line| - 1][i] == line[i]; }
      assert s[..|s| - 1] == [sign] + line;
    }
  }

  lemma SideIs(sign: char, line: string)
    requires line != ""
    ensures line[|line| - 1] == '\n' ==> Side(sign, line) == [sign] + line && SideLines(sign, line) == [[sign] + line]
    ensures line[|line| - 1] != '\n' ==> Side(sign, line) == [sign] + line + "\n" + NO_NEWLINE
                                         && SideLines(sign, line) == [[sign] + line + "\n", NO_NEWLINE]
    ensures Side(sign, line) != "" && Side(sign, line)[|Side(sign, line)| - 1] == '\n'
  {
    if line[|line| - 1] == '\n' {
      assert Side(sign, line) == [sign] + line + "";
    } else {
      assert Side(sign, line) == [sign] + line + "\n" + NO_NEWLINE;
    }
  }

  lemma EndsTerminated(s: string)
    requires s != "" && s[|s| - 1] == '\n'
    ensures Terminated(s)
  {
  }

  lemma SplitEmpty()
    ensures SplitInclusive("") == []
  {
  }

  lemma MarkerSplits()
    ensures SplitInclusive(NO_NEWLINE) == [NO_NEWLINE] && FullLine(NO_NEWLINE)
  {
    assert NO_NEWLINE + "" == NO_NEWLINE;
    SplitFullLine(NO_NEWLINE, "");
  }

  lemma FilesSplit(rest: string)
    ensures SplitInclusive(OLD_FILE + NEW_FILE + rest) == [OLD_FILE, NEW_FILE] + SplitInclusive(rest)
  {
    assert FullLine(OLD_FILE) && FullLine(NEW_FILE);
    assert OLD_FILE + NEW_FILE + rest == OLD_FILE + (NEW_FILE + rest);
    SplitFullLine(OLD_FILE, NEW_FILE + rest);
    SplitFullLine(NEW_FILE, rest);
    assert [OLD_FILE] + ([NEW_FILE] + SplitInclusive(rest)) == [OLD_FILE, NEW_FILE] + SplitInclusive(rest);
  }

  lemma PatchSplits(index: nat, before: string, after: string)
    requires Line(before) && Line(after)
    ensures SplitInclusive(PatchText(index, before, after))
            == [OLD_FILE, NEW_FILE, HunkHeader(index + 1)] + SideLines('-', before) + SideLines('+', after)
  {
    hide *;
    LineNotEmpty(before);
    LineNotEmpty(after);
    var h, m, p := HunkHeader(index + 1), Side('-', before), Side('+', after);
    HeaderReads(index + 1);
    SideSplits('-', before);
    SideSplits('+', after);
    SplitConcat(m, p);
    SplitFullLine(h, m + p);
    FilesSplit(h + (m + p));
    PatchTextParts(index, before, after);
    FiveParts(OLD_FILE, NEW_FILE, h, SideLines('-', before), SideLines('+', after));
  }

  lemma PatchTextParts(index: nat, before: string, after: string)
    ensures PatchText(index, before, after)
            == OLD_FILE + NEW_FILE + (HunkHeader(index + 1) + (Side('-', before) + Side('+', after)))
  {
    hide HunkHeader, Side;
  }

  lemma FiveParts(a: string, b: string, c: string, m: seq<string>, p: seq<string>)
    ensures [a, b] + ([c] + (m + p)) == [a, b, c] + m + p
  {
  }

  /** Reading the patch of a one-line change recovers its place and both lines, terminated or not. */
  lemma PatchReads(index: nat, before: string, after: string, source: string)
    requires Line(before) && Line(after)
    requires index < |SplitInclusive(source)| && SplitInclusive(source)[index] == before
    ensures ApplyPatch(source, PatchText(index, before, after)) == Some(Join(SplitInclusive(source)[index := after]))
  {
    hide SplitInclusive, PatchText, ReadHeader, HunkHeader, Join, Line;
    PatchSplits(index, before, after);
    HeaderReads(index + 1);
    var p := SplitInclusive(PatchText(index, before, after));
    LineNotEmpty(before);
    LineNotEmpty(after);
    var m := SideLines('-', before);
    var q := SideLines('+', after);
    assert p == [OLD_FILE, NEW_FILE, HunkHeader(index + 1)] + m + q;
    assert p[3..3 + |m|] == m && p[3 + |m|..] == q && q[0][0] == '+';
    assert p[3 + |m|] == q[0];
    SideReads(p, 3, '-', before);
    SideReads(p, 3 + |m|, '+', after);
  }

  lemma LineNotEmpty(line: string)
    requires Line(line)
    ensures line != ""
  {
  }

  lemma SideReads(p: seq<string>, i: nat, sign: char, line: string)
    requires line != "" && sign != '\\' && i + |SideLines(sign, line)| <= |p|
    requires p[i..i + |SideLines(sign, line)|] == SideLines(sign, line)
    requires i + 1 < |p| && line[|line| - 1] == '\n' ==> p[i + 1] != NO_NEWLINE
    ensures ReadSide(p, i, sign) == Some((line, i + |SideLines(sign, line)|))
  {
    var side := SideLines(sign, line);
    assert p[i] == side[0];
    assert |side| == 2 ==> p[i + 1] == side[1];
    if |side| == 2 {
      assert p[i][1..|p[i]| - 1] == line;
    } else {
      assert p[i][1..] == line;
    }
  }

  /**
   Round trip: whenever a patch is built, applying it to the source gives exactly the rendered
   text, with or without a final newline.
   */
  lemma PatchRoundTrip<V>(y: Yaml<V>, scalarOf: string -> Option<string>, q: Request, image: string)
    requires Built(y, scalarOf, q, image).Some?
    ensures Rendered(y, q.source, image).Ok?
    ensures ApplyPatch(q.source, Built(y, scalarOf, q, image).value) == Some(Rendered(y, q.source, image).value)
  {
    hide *;
    var after := BuiltParts(y, scalarOf, q, image);
    var a, b := SplitInclusive(q.source), SplitInclusive(after);
    var i := NextChange(a, b, 0).value;
    OnlyOneChange(y, q.source, image);
    PatchReads(i, a[i], b[i], q.source);
    JoinSplit(after);
  }

  lemma BuiltParts<V>(y: Yaml<V>, scalarOf: string -> Option<string>, q: Request, image: string) returns (after: string)
    requires Built(y, scalarOf, q, image).Some?
    ensures Rendered(y, q.source, image) == Ok(after)
    ensures var a, b := SplitInclusive(q.source), SplitInclusive(after);
            var i := NextChange(a, b, 0);
            i.Some? && Built(y, scalarOf, q, image) == Some(PatchText(i.value, a[i.value], b[i.value]))
  {
    hide Rendered, SplitInclusive, ReplaceableLine, PatchText;
    after := Rendered(y, q.source, image).value;
  }

  /** The rendered text's lines are the source's with one replaced, so a second change is never met. */
  lemma OnlyOneChange<V>(y: Yaml<V>, source: string, image: string)
    requires Rendered(y, source, image).Ok?
    ensures var a, b := SplitInclusive(source), SplitInclusive(Rendered(y, source, image).value);
            var i := NextChange(a, b, 0);
            |a| == |b| && (i.Some? ==>
              Line(a[i.value]) && Line(b[i.value]) && b == a[i.value := b[i.value]] && NextChange(a, b, i.value + 1).None?)
  {
    hide *;
    var out := Rendered(y, source, image).value;
    var e := RenderIsEdit(y, source, image);
    var line := EditedLine(source, image, out, e);
    RenderedImageValid(y, source, image);
    EditChangesOneLine(source, image, out, e);
    BetweenIsLine(e.before, e.line, e.after);
    BetweenIsLine(e.before, line, e.after);
    OneUpdate(SplitInclusive(source), SplitInclusive(out), |SplitInclusive(e.before)|);
  }

  lemma EditedLine(source: string, image: string, out: string, e: Edit) returns (line: string)
    requires IsEdit(source, image, out, e)
    ensures e.span.start <= e.span.end <= |e.line| && line == Replace(e.line, e.span.start, e.span.end, image)
    ensures Between(e.before, e.line, e.after)
  {
    hide Replace, Between;
    line := Replace(e.line, e.span.start, e.span.end, image);
  }

  lemma RenderedImageValid<V>(y: Yaml<V>, source: string, image: string)
    requires Rendered(y, source, image).Ok?
    ensures ValidImage(image)
  {
    hide ValidImage, Spans, Matching;
  }

  lemma OneUpdate(a: seq<string>, b: seq<string>, k: nat)
    requires k < |a| == |b| && b == a[k := b[k]] && Line(a[k]) && Line(b[k])
    ensures var i := NextChange(a, b, 0);
            i.Some? ==> Line(a[i.value]) && Line(b[i.value]) && b == a[i.value := b[i.value]] && NextChange(a, b, i.value + 1).None?
  {
    hide Line;
    var i := NextChange(a, b, 0);
    if i.Some? {
      assert i.value == k;
    }
  }

  lemma BetweenIsLine(before: string, line: string, after: string)
    requires Between(before, line, after)
    ensures Line(line)
  {
  }

  // ---- Exactly when a patch is built ----

  ghost predicate Identifier(s: string) {
    1 <= |s| <= 128 && forall i | 0 <= i < |s| :: Text.IsAlphanumeric(s[i]) || s[i] in "-_"
  }

  /** "sha256:" and 64 lower-case hexadecimal digits. */
  ghost predicate EvidenceDigest(s: string) {
    exists digest :: |digest| == 64 && s == "sha256:" + digest && forall i | 0 <= i < 64 :: digest[i] in "0123456789abcdef"
  }

  lemma DigestExactly(s: string)
    ensures ValidDigest(s) <==> EvidenceDigest(s)
  {
    var prefix := "sha256:";
    if ValidDigest(s) {
      Text.LowerHexExactly(s[7..]);
      assert s == prefix + s[7..];
    }
    if digest :| |digest| == 64 && s == prefix + digest && forall i | 0 <= i < 64 :: digest[i] in "0123456789abcdef" {
      Text.LowerHexExactly(digest);
      assert s[0..7] == prefix && s[7..] == digest;
    }
  }

  /** The bare scalar of a line that sets the pilot image by tag or digest, without a comment. */
  ghost predicate PilotLine(scalarOf: string -> Option<string>, line: string) {
    var t := Text.Trim(line);
    && (forall i | 0 <= i < |line| :: line[i] != '#') && |t| >= 6 && t[0..6] == "image:"
    && match scalarOf(Text.Trim(t[6..]))
       case None => false
       case Some(image) =>
         && (Text.At(image, 0, "ghcr.io/corentinth/it-tools:") || Text.At(image, 0, "ghcr.io/corentinth/it-tools@sha256:"))
         && Text.Utf8Length(image) <= 256 && forall i | 0 <= i < |image| :: Text.IsAlphanumeric(image[i]) || image[i] in "./:@_-"
  }

  lemma PilotLineExactly(scalarOf: string -> Option<string>, line: string)
    ensures ReplaceableLine(scalarOf, line) <==> PilotLine(scalarOf, line)
  {
    hide Text.Trim, Text.Utf8Length, Text.IsAlphanumeric;
    assert KEY == "image:";
  }

  ghost predicate GitObject(s: string) {
    (|s| == 40 || |s| == 64) && forall i | 0 <= i < |s| :: s[i] in "0123456789abcdef"
  }

  /** The text the source is rendered to, if it is. */
  ghost predicate RendersTo<V>(y: Yaml<V>, source: string, image: string, after: string) {
    Rendered(y, source, image) == Ok(after)
  }

  /**
   A patch is built if and only if the identifiers and the digest are well-formed, the source renders to
   a text of at most 256 KiB on the expected base, and the changed line is a bare pilot image scalar.
   */
  lemma BuildsExactly<V>(y: Yaml<V>, scalarOf: string -> Option<string>, q: Request, image: string)
    ensures Built(y, scalarOf, q, image).Some? <==>
              && Identifier(q.incident) && Identifier(q.run) && EvidenceDigest(q.evidence)
              && GitObject(q.expectedBase) && q.expectedBase == q.currentBase
              && exists after, k ::
                   && RendersTo(y, q.source, image, after) && Text.Utf8Length(after) <= 256 * 1024
                   && ChangedAt(SplitInclusive(q.source), SplitInclusive(after), k) && PilotLine(scalarOf, SplitInclusive(q.source)[k])
  {
    hide Rendered, SplitInclusive, ReplaceableLine, PilotLine, PatchText, ValidDigest, EvidenceDigest, Text.LowerHex, Text.Utf8Length;
    DigestExactly(q.evidence);
    Text.LowerHexExactly(q.expectedBase);
    BuiltCases(y, scalarOf, q, image);
    hide Built;
    if Rendered(y, q.source, image).Ok? {
      var after := Rendered(y, q.source, image).value;
      var a, b := SplitInclusive(q.source), SplitInclusive(after);
      OnlyOneChange(y, q.source, image);
      var i := NextChange(a, b, 0);
      assert RendersTo(y, q.source, image, after);
      if i.Some? {
        PilotLineExactly(scalarOf, a[i.value]);
        assert ChangedAt(a, b, i.value);
      }
      forall k | ChangedAt(a, b, k) ensures i == Some(k) {
      }
    }
  }

  ghost predicate ChangedAt(a: seq<string>, b: seq<string>, k: int) {
    0 <= k < |a| && k < |b| && a[k] != b[k]
  }
}
