/**
 The source-preserving rewrite of the pilot image scalar (src/gitops/it_tools_image.rs). The YAML
 reader is any function from text to values; positions count characters.
 */
module ComposeImage {
  import opened Outcomes
  import opened Lines
  import Text

  const PILOT_PATH: string := "stacks/utility/compose.yml"
  const IMAGE_PREFIX: string := "ghcr.io/corentinth/it-tools@sha256:"
  const KEY: string := "image:"
  const MAX_SOURCE_BYTES: nat := 256 * 1024
  const MAX_IMAGE_LINES: nat := 32

  datatype RenderError = InvalidImage | UnsupportedSource | NoChange

  /** What services.it-tools.image holds. */
  datatype Slot = Missing | NotText | Scalar(text: string)

  /** A YAML reader: parse a document, look at the pilot slot, write a string into it. */
  datatype Yaml<!V(==)> = Yaml(parse: string -> Option<V>, slot: V -> Slot, put: (V, string) -> V)

  /** The one law relied on: a slot that held text reads back the text written to it. */
  ghost predicate Lawful<V(!new)>(y: Yaml<V>) {
    forall v: V, text: string :: y.slot(v).Scalar? ==> y.slot(y.put(v, text)) == Scalar(text)
  }

  predicate ValidImage(image: string) {
    Text.At(image, 0, IMAGE_PREFIX) && |image| == |IMAGE_PREFIX| + 64 && Text.LowerHex(image[|IMAGE_PREFIX|..])
  }

  /** An image is valid if and only if it is the pilot's name and a digest of 64 lower-case hexadecimal digits. */
  lemma ImageExactly(image: string)
    ensures ValidImage(image) <==> exists digest ::
              |digest| == 64 && image == "ghcr.io/corentinth/it-tools@sha256:" + digest
              && forall i | 0 <= i < 64 :: digest[i] in "0123456789abcdef"
  {
    var prefix := "ghcr.io/corentinth/it-tools@sha256:";
    if ValidImage(image) {
      var digest := image[|prefix|..];
      Text.LowerHexExactly(digest);
      assert image == prefix + digest;
    }
    if digest :| |digest| == 64 && image == prefix + digest && forall i | 0 <= i < 64 :: digest[i] in "0123456789abcdef" {
      Text.LowerHexExactly(digest);
      assert image[0..|prefix|] == prefix && image[|prefix|..] == digest;
    }
  }

  lemma PrefixIsPlain()
    ensures forall i | 0 <= i < |IMAGE_PREFIX| :: IMAGE_PREFIX[i] != '\n' && IMAGE_PREFIX[i] != '#'
  {
  }

  lemma ImageIsOneLine(image: string)
    requires ValidImage(image)
    ensures image != "" && NoNewline(image) && '#' !in image
  {
    PrefixIsPlain();
    var prefix := IMAGE_PREFIX;
    forall i | 0 <= i < |image| ensures image[i] != '\n' && image[i] != '#' {
      if i < |IMAGE_PREFIX| {
        assert image[i] == image[0..|prefix|][i] == prefix[i];
      } else {
        assert image[i] == image[|IMAGE_PREFIX|..][i - |IMAGE_PREFIX|];
      }
    }
  }

  function LeadingSpaces(s: string): (n: nat)
    ensures n <= |s| && (forall i | 0 <= i < n :: s[i] == ' ') && (n < |s| ==> s[n] != ' ')
  {
    if s != "" && s[0] == ' ' then 1 + LeadingSpaces(s[1..]) else 0
  }

  /** First " #" from position `i`: where a scalar's comment begins. */
  function CommentFrom(s: string, i: nat): (r: Option<nat>)
    requires i <= |s|
    ensures r.Some? ==> i <= r.value < |s| && Text.At(s, r.value, " #")
    ensures forall j: nat | i <= j < (if r.Some? then r.value else |s|) :: !Text.At(s, j, " #")
    decreases |s| - i
  {
    if i == |s| then None else if Text.At(s, i, " #") then Some(i) else CommentFrom(s, i + 1)
  }

  datatype Span = Span(start: nat, end: nat)

  predicate InText(s: Span, source: string) {
    s.start < s.end <= |source|
  }

  predicate HasBreak(s: string) {
    exists i | 0 <= i < |s| :: s[i] == '\n' || s[i] == '\r'
  }

  /** Length of the scalar itself: up to its comment, or without trailing white space. */
  function ScalarLength(scalar: string): (n: nat)
    ensures n <= |scalar|
  {
    match CommentFrom(scalar, 0)
    case Some(i) => i
    case None => |Text.TrimEnd(scalar)|
  }

  /** Behind indentation, "image:" and spaces. */
  function ScalarStart(line: string): (r: Option<nat>)
    ensures r.Some? ==> r.value <= |line|
  {
    var indent := LeadingSpaces(line);
    if !Text.At(line, indent, KEY) then None else Some(indent + |KEY| + LeadingSpaces(line[indent + |KEY|..]))
  }

  /** The candidate scalar of one line; it may not be empty or span a line break. */
  function ScalarSpan(line: string): (r: Option<Span>)
    ensures r.Some? ==> r.value.start < r.value.end <= |line| && !HasBreak(line[r.value.start..r.value.end])
  {
    match ScalarStart(line)
    case None => None
    case Some(start) =>
      var end := start + ScalarLength(line[start..]);
      if end == start || HasBreak(line[start..end]) then None else Some(Span(start, end))
  }

  predicate IsImageLine(line: string) {
    Text.At(Text.TrimStart(line), 0, KEY)
  }

  function CountImageLines(lines: seq<string>): nat {
    if lines == [] then 0 else (if IsImageLine(lines[0]) then 1 else 0) + CountImageLines(lines[1..])
  }

  /** Absolute candidate spans of the text from `offset`, in order. */
  function Spans(source: string, offset: nat): (spans: seq<Span>)
    requires offset <= |source|
    ensures forall i | 0 <= i < |spans| :: InText(spans[i], source)
    decreases |source| - offset
  {
    if offset == |source| then [] else
    var next := offset + LineEnd(source[offset..]);
    (match ScalarSpan(source[offset..next])
     case Some(s) => [Span(offset + s.start, offset + s.end)]
     case None => []) + Spans(source, next)
  }

  /** The candidates whose whole document reads as the intended change. */
  function Matching<V(==)>(y: Yaml<V>, source: string, image: string, expected: V, spans: seq<Span>): (m: seq<Span>)
    requires forall i | 0 <= i < |spans| :: InText(spans[i], source)
    ensures forall i | 0 <= i < |m| :: m[i] in spans && InText(m[i], source) && y.parse(Replace(source, m[i].start, m[i].end, image)) == Some(expected)
  {
    if spans == [] then []
    else
      assert InText(spans[0], source);
      (if y.parse(Replace(source, spans[0].start, spans[0].end, image)) == Some(expected) then [spans[0]] else [])
      + Matching(y, source, image, expected, spans[1..])
  }

  /** The checks before any rewriting, and the value the rewritten document must read as. */
  function Expectation<V(==)>(y: Yaml<V>, source: string, image: string): Result<V, RenderError> {
    if !ValidImage(image) then Err(InvalidImage)
    else if Text.Utf8Length(source) > MAX_SOURCE_BYTES || '\t' in source || CountImageLines(SplitInclusive(source)) > MAX_IMAGE_LINES
    then Err(UnsupportedSource)
    else match y.parse(source)
      case None => Err(UnsupportedSource)
      case Some(v) =>
        match y.slot(v)
        case Missing => Err(UnsupportedSource)
        case NotText => Err(UnsupportedSource)
        case Scalar(text) => if text == image then Err(NoChange) else Ok(y.put(v, image))
  }

  /** `render`: exactly one candidate must read as the intended change. */
  function Rendered<V(==)>(y: Yaml<V>, source: string, image: string): Result<string, RenderError> {
    match Expectation(y, source, image)
    case Err(e) => Err(e)
    case Ok(expected) =>
      var m := Matching(y, source, image, expected, Spans(source, 0));
      if |m| == 1 then Ok(Replace(source, m[0].start, m[0].end, image)) else Err(UnsupportedSource)
  }

  function Single(found: Option<Span>): seq<Span> {
    if found.Some? then [found.value] else []
  }

  /** The candidate of the line at `offset`, if the document with it reads as intended. */
  function MatchHere<V(==)>(y: Yaml<V>, source: string, image: string, expected: V, offset: nat): (found: Option<Span>)
    requires offset < |source|
    ensures found.Some? ==> InText(found.value, source)
  {
    var line := source[offset..offset + LineEnd(source[offset..])];
    match ScalarSpan(line)
    case None => None
    case Some(s) =>
      var here := Span(offset + s.start, offset + s.end);
      if y.parse(Replace(source, here.start, here.end, image)) == Some(expected) then Some(here) else None
  }

  lemma MatchingCons<V>(y: Yaml<V>, source: string, image: string, expected: V, here: Span, others: seq<Span>)
    requires InText(here, source) && forall i | 0 <= i < |others| :: InText(others[i], source)
    ensures Matching(y, source, image, expected, [here] + others)
            == Single(if y.parse(Replace(source, here.start, here.end, image)) == Some(expected) then Some(here) else None)
               + Matching(y, source, image, expected, others)
  {
    assert ([here] + others)[1..] == others;
  }

  lemma SpansStep(source: string, offset: nat)
    requires offset < |source|
    ensures var next := offset + LineEnd(source[offset..]);
            match ScalarSpan(source[offset..next])
            case Some(s) => Spans(source, offset) == [Span(offset + s.start, offset + s.end)] + Spans(source, next)
            case None => Spans(source, offset) == Spans(source, next)
  {
    hide ScalarSpan, LineEnd;
  }

  lemma MatchingStep<V>(y: Yaml<V>, source: string, image: string, expected: V, offset: nat)
    requires offset < |source|
    ensures Matching(y, source, image, expected, Spans(source, offset))
            == Single(MatchHere(y, source, image, expected, offset))
               + Matching(y, source, image, expected, Spans(source, offset + LineEnd(source[offset..])))
  {
    hide LineEnd, ScalarSpan, Replace, Spans, Matching;
    var next := offset + LineEnd(source[offset..]);
    SpansStep(source, offset);
    match ScalarSpan(source[offset..next])
    case None =>
    case Some(s) => MatchingCons(y, source, image, expected, Span(offset + s.start, offset + s.end), Spans(source, next));
  }

  lemma AtMostOne(found: Option<Span>, here: Option<Span>, others: seq<Span>)
    ensures found.Some? && here.Some? ==> |Single(found) + (Single(here) + others)| >= 2
    ensures !(found.Some? && here.Some?) ==>
              Single(found) + (Single(here) + others) == Single(if here.Some? then here else found) + others
  {
  }

  /** The renderer as it runs: one pass over the lines with a running offset and at most one accepted candidate. */
  method Render<V(==)>(y: Yaml<V>, source: string, image: string) returns (r: Result<string, RenderError>)
    ensures r == Rendered(y, source, image)
  {
    hide LineEnd, ScalarSpan, MatchHere, Matching, Spans, Replace, Expectation;
    var checked := Expectation(y, source, image);
    if checked.Err? { return Err(checked.error); }
    var expected := checked.value;
    var offset := 0;
    var accepted: Option<string> := None;
    ghost var found: Option<Span> := None;
    while offset < |source|
      invariant offset <= |source|
      invariant Matching(y, source, image, expected, Spans(source, 0))
                == Single(found) + Matching(y, source, image, expected, Spans(source, offset))
      invariant found.Some? ==> InText(found.value, source)
      invariant accepted == if found.Some? then Some(Replace(source, found.value.start, found.value.end, image)) else None
      decreases |source| - offset
    {
      var next := offset + LineEnd(source[offset..]);
      ghost var here := MatchHere(y, source, image, expected, offset);
      MatchingStep(y, source, image, expected, offset);
      AtMostOne(found, here, Matching(y, source, image, expected, Spans(source, next)));
      var span := ScalarSpan(source[offset..next]);
      MatchHereIs(y, source, image, expected, offset);
      if span.Some? {
        var candidate := Replace(source, offset + span.value.start, offset + span.value.end, image);
        if y.parse(candidate) == Some(expected) {
          if accepted.Some? { return Err(UnsupportedSource); }
          accepted := Some(candidate);
          found := here;
        }
      }
      offset := next;
    }
    NothingAfter(y, source, image, expected);
    return if accepted.Some? then Ok(accepted.value) else Err(UnsupportedSource);
  }

  lemma NothingAfter<V>(y: Yaml<V>, source: string, image: string, expected: V)
    ensures Matching(y, source, image, expected, Spans(source, |source|)) == []
  {
  }

  lemma MatchHereIs<V>(y: Yaml<V>, source: string, image: string, expected: V, offset: nat)
    requires offset < |source|
    ensures var span := ScalarSpan(source[offset..offset + LineEnd(source[offset..])]);
            var here := MatchHere(y, source, image, expected, offset);
            && (span.None? ==> here.None?)
            && (span.Some? ==> var s := Span(offset + span.value.start, offset + span.value.end);
                  InText(s, source)
                  && here == if y.parse(Replace(source, s.start, s.end, image)) == Some(expected) then Some(s) else None)
  {
    hide ScalarSpan, LineEnd, Replace;
  }

  // ---- What a successful rendering is ----

  /** One line of the text and the scalar within it. */
  datatype Edit = Edit(before: string, line: string, after: string, span: Span)

  /** `out` is `source` with one line's image scalar replaced, byte for byte elsewhere. */
  predicate IsEdit(source: string, image: string, out: string, e: Edit) {
    && source == e.before + e.line + e.after
    && Between(e.before, e.line, e.after)
    && ScalarSpan(e.line) == Some(e.span)
    && out == e.before + Replace(e.line, e.span.start, e.span.end, image) + e.after
  }

  /** Every candidate span lies inside the line it was found in. */
  lemma {:induction false} SpanInLine(source: string, offset: nat, s: Span) returns (at: nat)
    requires offset <= |source| && s in Spans(source, offset)
    requires offset == |source| || Terminated(source[..offset])
    ensures offset <= at < |source| && Terminated(source[..at])
    ensures var line := source[at..at + LineEnd(source[at..])];
            ScalarSpan(line).Some? && s == Span(at + ScalarSpan(line).value.start, at + ScalarSpan(line).value.end)
    decreases |source| - offset
  {
    hide *;
    if offset == |source| {
      NoSpansAtEnd(source);
    } else {
      var next := offset + LineEnd(source[offset..]);
      var span := ScalarSpan(source[offset..next]);
      SpansStep(source, offset);
      if span.Some? && s == Span(offset + span.value.start, offset + span.value.end) {
        at := offset;
      } else {
        NextOffset(source, offset);
        at := SpanInLine(source, next, s);
      }
    }
  }

  lemma NoSpansAtEnd(source: string)
    ensures Spans(source, |source|) == []
  {
  }

  /** The end of a line is the beginning of the next, unless the text ended unterminated. */
  lemma NextOffset(source: string, offset: nat)
    requires offset < |source| && Terminated(source[..offset])
    ensures var next := offset + LineEnd(source[offset..]);
            next == |source| || Terminated(source[..next])
  {
    NextLine(source, offset);
  }

  /** The rewritten text differs from the source only inside one image scalar, and reads as intended. */
  lemma RenderIsEdit<V>(y: Yaml<V>, source: string, image: string) returns (e: Edit)
    requires Rendered(y, source, image).Ok?
    ensures IsEdit(source, image, Rendered(y, source, image).value, e)
    ensures y.parse(source).Some? && y.parse(Rendered(y, source, image).value) == Some(y.put(y.parse(source).value, image))
  {
    hide *;
    var s := RenderSpan(y, source, image);
    StartIsTerminated(source);
    var at := SpanInLine(source, 0, s);
    e := EditAt(source, image, at, s);
  }

  lemma StartIsTerminated(source: string)
    ensures Terminated(source[..0])
  {
  }

  lemma RenderSpan<V>(y: Yaml<V>, source: string, image: string) returns (s: Span)
    requires Rendered(y, source, image).Ok?
    ensures s in Spans(source, 0) && InText(s, source)
    ensures s.start <= s.end <= |source| && Rendered(y, source, image).value == Replace(source, s.start, s.end, image)
    ensures y.parse(source).Some? && y.parse(Rendered(y, source, image).value) == Some(y.put(y.parse(source).value, image))
  {
    hide Spans, Matching, ValidImage;
    var m := Matching(y, source, image, Expectation(y, source, image).value, Spans(source, 0));
    s := m[0];
    assert InText(s, source);
  }

  lemma EditAt(source: string, image: string, at: nat, s: Span) returns (e: Edit)
    requires at < |source| && Terminated(source[..at])
    requires var line := source[at..at + LineEnd(source[at..])];
             ScalarSpan(line).Some? && s == Span(at + ScalarSpan(line).value.start, at + ScalarSpan(line).value.end)
    ensures s.start <= s.end <= |source| && IsEdit(source, image, Replace(source, s.start, s.end, image), e)
  {
    hide ScalarSpan, LineEnd, Between, Terminated, Replace;
    var k := LineEnd(source[at..]);
    NextLine(source, at);
    var span := ScalarSpan(source[at..at + k]).value;
    e := Edit(source[..at], source[at..at + k], source[at + k..], span);
    ReplaceInside(e.before, e.line, e.after, span.start, span.end, image);
  }

  lemma ReplaceInside(before: string, line: string, after: string, start: nat, end: nat, text: string)
    requires start <= end <= |line|
    ensures Replace(before + line + after, |before| + start, |before| + end, text)
            == before + Replace(line, start, end, text) + after
  {
    var s := before + line + after;
    assert s[..|before| + start] == before + line[..start];
    assert s[|before| + end..] == line[end..] + after;
    assert before + line[..start] + text + (line[end..] + after) == before + (line[..start] + text + line[end..]) + after;
  }

  lemma HasNoBreak(s: string)
    requires !HasBreak(s)
    ensures NoNewline(s)
  {
    forall i | 0 <= i < |s| ensures s[i] != '\n' { assert !HasBreak(s); }
  }

  /** Line for line: the same number of lines, one of them changed, its replaced part exactly the old scalar. */
  lemma EditChangesOneLine(source: string, image: string, out: string, e: Edit)
    requires IsEdit(source, image, out, e) && ValidImage(image)
    ensures var i := |SplitInclusive(e.before)|;
            && i < |SplitInclusive(source)| && SplitInclusive(source)[i] == e.line
            && SplitInclusive(out) == SplitInclusive(source)[i := Replace(e.line, e.span.start, e.span.end, image)]
    ensures Between(e.before, Replace(e.line, e.span.start, e.span.end, image), e.after)
  {
    hide Between, SplitInclusive, ScalarSpan, HasBreak, ValidImage;
    ImageIsOneLine(image);
    HasNoBreak(e.line[e.span.start..e.span.end]);
    EditKeepsLine(e.before, e.line, e.after, e.span.start, e.span.end, image);
    SplitBetween(e.before, e.line, e.after);
    SplitBetween(e.before, Replace(e.line, e.span.start, e.span.end, image), e.after);
  }

  /** With a lawful reader the changed line really changed. */
  lemma RenderChangesSomething<V(!new)>(y: Yaml<V>, source: string, image: string)
    requires Lawful(y) && Rendered(y, source, image).Ok?
    ensures Rendered(y, source, image).value != source
  {
    hide Spans, ValidImage;
    var e := RenderIsEdit(y, source, image);
    var v := y.parse(source).value;
    assert y.slot(y.put(v, image)) == Scalar(image);
  }

  // ---- Exactly one place ----

  predicate Good<V(==)>(y: Yaml<V>, source: string, image: string, expected: V, s: Span) {
    InText(s, source) && y.parse(Replace(source, s.start, s.end, image)) == Some(expected)
  }

  ghost predicate Increasing(spans: seq<Span>, from: nat) {
    (forall i | 0 <= i < |spans| :: from <= spans[i].start) && (forall i, j | 0 <= i < j < |spans| :: spans[i].start < spans[j].start)
  }

  lemma {:induction false} SpansIncrease(source: string, offset: nat)
    requires offset <= |source|
    ensures Increasing(Spans(source, offset), offset)
    decreases |source| - offset
  {
    hide *;
    if offset == |source| {
      NoSpansAtEnd(source);
      NothingIncreases(offset);
    } else {
      var next := offset + LineEnd(source[offset..]);
      var span := ScalarSpan(source[offset..next]);
      SpansStep(source, offset);
      SpansIncrease(source, next);
      IncreasingBehind(if span.Some? then Some(Span(offset + span.value.start, offset + span.value.end)) else None,
                       Spans(source, next), offset, next);
    }
  }

  lemma NothingIncreases(from: nat)
    ensures Increasing([], from)
  {
  }

  lemma IncreasingBehind(first: Option<Span>, rest: seq<Span>, from: nat, next: nat)
    requires Increasing(rest, next) && from <= next
    requires first.Some? ==> from <= first.value.start < first.value.end <= next
    ensures Increasing(if first.Some? then [first.value] + rest else rest, from)
  {
  }

  lemma {:induction false} MatchingMembers<V>(y: Yaml<V>, source: string, image: string, expected: V, spans: seq<Span>, from: nat)
    requires (forall i | 0 <= i < |spans| :: InText(spans[i], source)) && Increasing(spans, from)
    ensures forall s :: s in Matching(y, source, image, expected, spans) <==> s in spans && Good(y, source, image, expected, s)
    ensures Increasing(Matching(y, source, image, expected, spans), from)
  {
    if spans != [] {
      hide *;
      IncreasingTail(spans, from, source);
      MatchingMembers(y, source, image, expected, spans[1..], spans[0].start + 1);
      MatchingHead(y, source, image, expected, spans);
      var rest := Matching(y, source, image, expected, spans[1..]);
      IncreasingHead(rest, spans[0], from);
      forall s ensures s in Matching(y, source, image, expected, spans) <==> s in spans && Good(y, source, image, expected, s) {
        assert s in spans <==> s == spans[0] || s in spans[1..];
        assert s in [spans[0]] + rest <==> s == spans[0] || s in rest;
      }
    }
  }

  lemma MatchingHead<V>(y: Yaml<V>, source: string, image: string, expected: V, spans: seq<Span>)
    requires spans != [] && forall i | 0 <= i < |spans| :: InText(spans[i], source)
    ensures forall i | 0 <= i < |spans[1..]| :: InText(spans[1..][i], source)
    ensures var rest := Matching(y, source, image, expected, spans[1..]);
            Matching(y, source, image, expected, spans)
            == if Good(y, source, image, expected, spans[0]) then [spans[0]] + rest else rest
  {
  }

  lemma IncreasingTail(spans: seq<Span>, from: nat, source: string)
    requires spans != [] && Increasing(spans, from) && forall i | 0 <= i < |spans| :: InText(spans[i], source)
    ensures from <= spans[0].start && Increasing(spans[1..], spans[0].start + 1)
    ensures forall i | 0 <= i < |spans[1..]| :: InText(spans[1..][i], source)
  {
  }

  lemma IncreasingHead(rest: seq<Span>, s: Span, from: nat)
    requires from <= s.start && Increasing(rest, s.start + 1)
    ensures Increasing([s] + rest, from) && Increasing(rest, from)
  {
  }

  /** Rendering succeeds if and only if exactly one candidate of the text reads as the intended change. */
  lemma RenderNeedsOnePlace<V>(y: Yaml<V>, source: string, image: string)
    requires Expectation(y, source, image).Ok?
    ensures var expected := Expectation(y, source, image).value;
            Rendered(y, source, image).Ok? <==>
              exists s | s in Spans(source, 0) ::
                Good(y, source, image, expected, s) && forall t | t in Spans(source, 0) :: Good(y, source, image, expected, t) ==> t == s
  {
    hide Spans, Matching, Expectation;
    var expected := Expectation(y, source, image).value;
    var spans := Spans(source, 0);
    var m := Matching(y, source, image, expected, spans);
    SpansIncrease(source, 0);
    MatchingMembers(y, source, image, expected, spans, 0);
    if |m| == 1 {
      assert m[0] in m;
      assert forall t | t in spans && Good(y, source, image, expected, t) :: t in m && t == m[0];
    } else if |m| >= 2 {
      assert m[0] in m && m[1] in m && m[0].start < m[1].start;
    } else {
      assert forall t | t in spans :: !(t in m) && !Good(y, source, image, expected, t);
    }
  }

  // ---- Exactly which places are candidates, and what is refused ----

  /** `at` begins a line of the text, which ends at `next`, behind its newline if it has one. */
  ghost predicate LineAt(source: string, at: int, next: int) {
    && 0 <= at < next <= |source| && (at == 0 || source[at - 1] == '\n')
    && (forall i | at <= i < next - 1 :: source[i] != '\n') && (source[next - 1] == '\n' || next == |source|)
  }

  /**
   The characters from `a` to `b` are the candidate of a line whose key begins at `i`: spaces, "image:",
   spaces, and then the value, up to its comment or else to the last character that is not white space.
   */
  ghost predicate CandidateAt(line: string, i: int, a: int, b: int) {
    && 0 <= i <= i + 6 <= a < b <= |line|
    && (forall j | 0 <= j < i :: line[j] == ' ') && line[i..i + 6] == "image:"
    && (forall j | i + 6 <= j < a :: line[j] == ' ') && line[a] != ' '
    && (forall j | a <= j < b :: line[j] != '\n' && line[j] != '\r')
    && (if exists j: nat :: Text.At(line[a..], j, " #")
        then Text.At(line[a..], b - a, " #") && forall j: nat | j < b - a :: !Text.At(line[a..], j, " #")
        else Text.Blank(line[b..]) && !Text.IsWhitespace(line[b - 1]))
  }

  lemma SpacesEnd(s: string, n: nat)
    requires n <= |s| && (forall i | 0 <= i < n :: s[i] == ' ') && (n < |s| ==> s[n] != ' ')
    ensures LeadingSpaces(s) == n
  {
  }

  lemma LengthExactly(scalar: string, n: nat)
    requires n > 0
    ensures ScalarLength(scalar) == n <==>
              && n <= |scalar|
              && if exists j: nat :: Text.At(scalar, j, " #")
                 then Text.At(scalar, n, " #") && forall j: nat | j < n :: !Text.At(scalar, j, " #")
                 else Text.Blank(scalar[n..]) && !Text.IsWhitespace(scalar[n - 1])
  {
    hide CommentFrom;
    var c := CommentFrom(scalar, 0);
    NoCommentBehind(scalar);
    if c.None? {
      var m := |Text.TrimEnd(scalar)|;
      assert m > 0 ==> scalar[m - 1] == Text.TrimEnd(scalar)[m - 1];
      assert n < m ==> scalar[n..][m - 1 - n] == scalar[m - 1];
    }
  }

  lemma NoCommentBehind(scalar: string)
    ensures CommentFrom(scalar, 0).None? ==> forall j: nat :: !Text.At(scalar, j, " #")
    ensures CommentFrom(scalar, 0).Some? ==> Text.At(scalar, CommentFrom(scalar, 0).value, " #")
  {
  }

  ghost predicate HasCandidate(line: string, a: int, b: int) {
    exists i :: CandidateAt(line, i, a, b)
  }

  lemma ScalarSpanExactly(line: string, a: nat, b: nat)
    ensures ScalarSpan(line) == Some(Span(a, b)) <==> HasCandidate(line, a, b)
  {
    hide ScalarSpan, CandidateAt;
    if ScalarSpan(line) == Some(Span(a, b)) {
      SpanIsCandidate(line, a, b);
    }
    if i :| CandidateAt(line, i, a, b) {
      CandidateIsSpan(line, i, a, b);
    }
  }

  lemma SpanIsCandidate(line: string, a: nat, b: nat)
    requires ScalarSpan(line) == Some(Span(a, b))
    ensures HasCandidate(line, a, b)
  {
    hide HasBreak, ScalarLength, ScalarStart, Text.At, Text.Blank;
    assert ScalarStart(line) == Some(a);
    StartIsBehindKey(line, a);
    UnbrokenSlice(line, a, b);
    ValueExactly(line, a, b);
    var i :| BehindKey(line, i, a);
    assert CandidateAt(line, i, a, b);
  }

  /** Where the value begins: behind spaces, the key and spaces. */
  ghost predicate BehindKey(line: string, i: int, a: int) {
    && 0 <= i <= i + 6 <= a <= |line|
    && (forall j | 0 <= j < i :: line[j] == ' ') && line[i..i + 6] == "image:"
    && (forall j | i + 6 <= j < a :: line[j] == ' ') && (a < |line| ==> line[a] != ' ')
  }

  lemma StartIsBehindKey(line: string, a: nat)
    requires ScalarStart(line) == Some(a)
    ensures exists i :: BehindKey(line, i, a)
  {
    hide LeadingSpaces;
    var i := LeadingSpaces(line);
    KeyAt(line, i);
    hide Text.At;
    SpacesRead(line, i + |KEY|);
    assert BehindKey(line, i, a);
  }

  lemma BehindKeyIsStart(line: string, i: nat, a: nat)
    requires BehindKey(line, i, a)
    ensures ScalarStart(line) == Some(a)
  {
    hide LeadingSpaces;
    KeyAt(line, i);
    hide Text.At;
    assert line[i] == line[i..i + 6][0];
    assert line[0..] == line;
    SpacesAre(line, 0, i);
    SpacesAre(line, i + |KEY|, a);
  }

  lemma KeyAt(line: string, i: nat)
    ensures |KEY| == 6 && (Text.At(line, i, KEY) <==> i + 6 <= |line| && line[i..i + 6] == "image:")
  {
  }

  lemma SpacesRead(line: string, from: nat)
    requires from <= |line|
    ensures var a := from + LeadingSpaces(line[from..]);
            a <= |line| && (forall j | from <= j < a :: line[j] == ' ') && (a < |line| ==> line[a] != ' ')
  {
    hide LeadingSpaces;
    assert forall j | 0 <= j < |line| - from :: line[from..][j] == line[from + j];
    assert forall j | from <= j < from + LeadingSpaces(line[from..]) :: line[j] == line[from..][j - from];
  }

  lemma SpacesAre(line: string, from: nat, a: nat)
    requires from <= a <= |line| && (forall j | from <= j < a :: line[j] == ' ') && (a < |line| ==> line[a] != ' ')
    ensures from + LeadingSpaces(line[from..]) == a
  {
    hide LeadingSpaces;
    SpacesEnd(line[from..], a - from);
  }

  /** The value's length, by positions of the line. */
  lemma ValueExactly(line: string, a: nat, b: nat)
    requires a < b <= |line|
    ensures ScalarLength(line[a..]) == b - a <==>
              if exists j: nat :: Text.At(line[a..], j, " #")
              then Text.At(line[a..], b - a, " #") && forall j: nat | j < b - a :: !Text.At(line[a..], j, " #")
              else Text.Blank(line[b..]) && !Text.IsWhitespace(line[b - 1])
  {
    hide ScalarLength, Text.At, Text.Blank, Text.IsWhitespace;
    LengthExactly(line[a..], b - a);
    assert line[a..][b - a..] == line[b..] && line[a..][b - a - 1] == line[b - 1];
  }

  lemma CandidateIsSpan(line: string, i: int, a: nat, b: nat)
    requires CandidateAt(line, i, a, b)
    ensures ScalarSpan(line) == Some(Span(a, b))
  {
    hide HasBreak, ScalarLength, ScalarStart, Text.At, Text.Blank;
    assert BehindKey(line, i, a);
    BehindKeyIsStart(line, i, a);
    ValueExactly(line, a, b);
    UnbrokenSlice(line, a, b);
  }

  lemma UnbrokenSlice(line: string, a: nat, b: nat)
    requires a < b <= |line|
    ensures !HasBreak(line[a..b]) <==> forall j | a <= j < b :: line[j] != '\n' && line[j] != '\r'
  {
    assert forall j | a <= j < b :: line[j] == line[a..b][j - a];
  }

  /** The span is the candidate of one of the text's lines. */
  ghost predicate IsCandidate(source: string, s: Span) {
    exists at, next :: LineAt(source, at, next) && HasCandidate(source[at..next], s.start - at, s.end - at)
  }

  lemma SpansExactly(source: string, s: Span)
    ensures s in Spans(source, 0) <==> IsCandidate(source, s)
  {
    hide Spans, ScalarSpan, HasCandidate, LineAt;
    SpansFrom(source, 0, s);
    forall at, next | LineAt(source, at, next)
      ensures 0 <= at < next <= |source|
      ensures SpannedBy(source, at, next, s) <==> HasCandidate(source[at..next], s.start - at, s.end - at)
    {
      SpannedExactly(source, at, next, s);
    }
  }

  ghost predicate SpannedBy(source: string, at: int, next: int, s: Span) {
    && 0 <= at <= next <= |source| && at <= s.start && at <= s.end
    && ScalarSpan(source[at..next]) == Some(Span(s.start - at, s.end - at))
  }

  lemma SpannedExactly(source: string, at: int, next: int, s: Span)
    requires LineAt(source, at, next)
    ensures 0 <= at < next <= |source|
    ensures SpannedBy(source, at, next, s) <==> HasCandidate(source[at..next], s.start - at, s.end - at)
  {
    hide ScalarSpan;
    if at <= s.start && at <= s.end {
      ScalarSpanExactly(source[at..next], s.start - at, s.end - at);
    }
  }

  lemma {:induction false} SpansFrom(source: string, offset: nat, s: Span)
    requires offset <= |source| && (offset == 0 || offset == |source| || source[offset - 1] == '\n')
    ensures s in Spans(source, offset) <==>
              exists at, next :: LineAt(source, at, next) && offset <= at && SpannedBy(source, at, next, s)
    decreases |source| - offset
  {
    hide ScalarSpan, LineEnd, Spans;
    if offset == |source| {
      NoSpansAtEnd(source);
    } else {
      var end := LineHere(source, offset);
      SpansStep(source, offset);
      SpansFrom(source, end, s);
      if at, next :| LineAt(source, at, next) && offset <= at && SpannedBy(source, at, next, s) {
        LinesApart(source, offset, end, at, next);
      }
    }
  }

  lemma LineHere(source: string, offset: nat) returns (next: nat)
    requires offset < |source| && (offset == 0 || source[offset - 1] == '\n')
    ensures next == offset + LineEnd(source[offset..]) && LineAt(source, offset, next)
    ensures next == |source| || source[next - 1] == '\n'
  {
    var k := LineEnd(source[offset..]);
    next := offset + k;
    assert forall i | 0 <= i < k :: source[offset..][i] == source[offset + i];
    assert source[next - 1] == source[offset..][k - 1];
    assert forall i | offset <= i < next - 1 :: source[i] == source[offset..][i - offset];
  }

  /** Two lines of a text are the same one, or the later begins where the earlier has ended. */
  lemma LinesApart(source: string, a: int, b: int, c: int, d: int)
    requires LineAt(source, a, b) && LineAt(source, c, d) && a <= c
    ensures (a == c && b == d) || b <= c
  {
  }

  /** The lines from the k-th on that begin, behind white space, with the key. */
  ghost function ImageLines(lines: seq<string>, k: nat): set<int> {
    set i | k <= i < |lines| && IsImageLine(lines[i])
  }

  lemma {:induction false} ImageLinesCounted(lines: seq<string>, k: nat)
    requires k <= |lines|
    ensures CountImageLines(lines[k..]) == |ImageLines(lines, k)|
    decreases |lines| - k
  {
    hide IsImageLine;
    if k < |lines| {
      ImageLinesCounted(lines, k + 1);
      assert lines[k..][1..] == lines[k + 1..];
      assert ImageLines(lines, k) == ImageLines(lines, k + 1) + if IsImageLine(lines[k]) then {k} else {};
    } else {
      assert ImageLines(lines, k) == {};
    }
  }

  lemma ImageLineExactly(line: string)
    ensures IsImageLine(line) <==> exists i: nat :: KeyBehindBlanks(line, i)
  {
    var t := Text.TrimStart(line);
    var k := |line| - |t|;
    KeyAt(t, 0);
    assert forall j | 0 <= j < |t| :: t[j] == line[k + j];
    assert k + 6 <= |line| ==> t[0..6] == line[k..k + 6];
    if IsImageLine(line) { assert KeyBehindBlanks(line, k); }
    if i: nat :| KeyBehindBlanks(line, i) {
      assert line[i] == line[i..i + 6][0];
      BlanksBefore(line, k);
      BlanksBefore(line, i);
    }
  }

  lemma BlanksBefore(line: string, i: nat)
    requires i <= |line| && Text.Blank(line[..i])
    ensures forall j | 0 <= j < i :: Text.IsWhitespace(line[j])
  {
    hide Text.IsWhitespace;
    assert forall j | 0 <= j < i :: line[j] == line[..i][j];
  }

  /** The key stands at `i` with white space only before it. */
  ghost predicate KeyBehindBlanks(line: string, i: nat) {
    i + 6 <= |line| && Text.Blank(line[..i]) && line[i..i + 6] == "image:"
  }

  /** What the text must be before any place is tried, and which error refuses it. */
  lemma ExpectationExactly<V>(y: Yaml<V>, source: string, image: string)
    ensures var r := Expectation(y, source, image);
            var readable := && Text.Utf8Length(source) <= 256 * 1024 && '\t' !in source && CountImageLines(SplitInclusive(source)) <= 32
                            && y.parse(source).Some? && y.slot(y.parse(source).value).Scalar?;
            && (r == Err(InvalidImage) <==> !ValidImage(image))
            && (r == Err(UnsupportedSource) <==> ValidImage(image) && !readable)
            && (r == Err(NoChange) <==> ValidImage(image) && readable && y.slot(y.parse(source).value).text == image)
            && (r.Ok? ==> readable && r.value == y.put(y.parse(source).value, image))
  {
    hide ValidImage, CountImageLines, SplitInclusive;
  }

  /** The candidate whose replacement reads as the intended change. */
  ghost predicate Accepted<V>(y: Yaml<V>, source: string, image: string, s: Span) {
    && s.start < s.end <= |source| && y.parse(source).Some?
    && IsCandidate(source, s)
    && y.parse(source[..s.start] + image + source[s.end..]) == Some(y.put(y.parse(source).value, image))
  }

  /**
   The rewrite, exactly: with an acceptable source, it succeeds if and only if one candidate of one line
   reads as the intended change and no other does; that candidate alone is replaced.
   */
  lemma RendersExactly<V>(y: Yaml<V>, source: string, image: string, out: string)
    ensures Rendered(y, source, image) == Ok(out) <==>
              && Expectation(y, source, image).Ok?
              && exists s :: && Accepted(y, source, image, s) && out == source[..s.start] + image + source[s.end..]
                             && forall t :: Accepted(y, source, image, t) ==> t == s
  {
    hide Spans, Matching, Expectation, Good, Accepted;
    ExpectationExactly(y, source, image);
    if Expectation(y, source, image).Ok? {
      var expected := Expectation(y, source, image).value;
      var spans := Spans(source, 0);
      forall s: Span ensures s in spans && Good(y, source, image, expected, s) <==> Accepted(y, source, image, s) {
        SpansExactly(source, s);
        AcceptedExactly(y, source, image, s);
      }
      SpansIncrease(source, 0);
      MatchingMembers(y, source, image, expected, spans, 0);
      OnlyMatch(y, source, image, expected, Matching(y, source, image, expected, spans), out);
    }
  }

  lemma AcceptedExactly<V>(y: Yaml<V>, source: string, image: string, s: Span)
    requires y.parse(source).Some?
    ensures Accepted(y, source, image, s) <==> IsCandidate(source, s) && Good(y, source, image, y.put(y.parse(source).value, image), s)
  {
    hide IsCandidate;
  }

  lemma OnlyMatch<V>(y: Yaml<V>, source: string, image: string, expected: V, m: seq<Span>, out: string)
    requires Expectation(y, source, image) == Ok(expected) && m == Matching(y, source, image, expected, Spans(source, 0))
    requires Increasing(m, 0) && forall s :: s in m <==> Accepted(y, source, image, s)
    ensures Rendered(y, source, image) == Ok(out) <==>
              exists s :: && Accepted(y, source, image, s) && out == source[..s.start] + image + source[s.end..]
                          && forall t :: Accepted(y, source, image, t) ==> t == s
  {
    hide Spans, Matching, Expectation, IsCandidate;
    if |m| >= 1 { assert m[0] in m; }
    if |m| >= 2 { assert m[1] in m && m[0].start < m[1].start; }
    forall s | s in m ensures exists k | 0 <= k < |m| :: m[k] == s {
    }
  }
}
