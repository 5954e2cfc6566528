/**
 The credential redactor of the evidence board (redact_text in src/reasoning/evidence.rs): a scanner
 over characters, specified by what one step reads and writes, and proved not to reveal the values
 it replaces.
 */
module Redactor {
  import opened Outcomes
  import Text

  const MARK: string := "[REDACTED]"

  /** Lower-case keys, in the order they are tried. */
  const KEYS: seq<string> := [
    "access_token", "authorization", "private_key", "credential", "password", "api_key", "apikey", "secret", "token"]

  const BEARER: string := "bearer"

  /** The characters one of the scanner's inner loops passes over. */
  datatype Class = Blanks | NonBlanks | Until(quote: char) | Value(authorization: bool)

  predicate In(k: Class, c: char) {
    match k
    case Blanks => Text.IsWhitespace(c)
    case NonBlanks => !Text.IsWhitespace(c)
    case Until(quote) => c != quote
    case Value(authorization) => if authorization then c != '\n' && c != '\r' else !Text.IsWhitespace(c) && c != ',' && c != '}' && c != ']'
  }

  predicate IsSeparator(c: char) {
    c == ':' || c == '='
  }

  predicate IsQuote(c: char) {
    c == '"' || c == '\''
  }

  function Lower(c: char): char {
    if 'A' <= c <= 'Z' then (c as int + 32) as char else c
  }

  /** The first position from `i` whose character is not in the class. */
  function Skip(s: string, i: nat, k: Class): (e: nat)
    requires i <= |s|
    ensures i <= e <= |s| && (forall j | i <= j < e :: In(k, s[j])) && (e < |s| ==> !In(k, s[e]))
    decreases |s| - i
  {
    if i < |s| && In(k, s[i]) then Skip(s, i + 1, k) else i
  }

  /** The word stands at the front, in any case. */
  predicate Leads(word: string, s: string) {
    |word| <= |s| && forall i | 0 <= i < |word| :: Lower(s[i]) == word[i]
  }

  /** A key with a separator behind it. */
  predicate Assigns(key: string, s: string) {
    Leads(key, s) && var e := Skip(s, |key|, Blanks); e < |s| && IsSeparator(s[e])
  }

  function FirstKey(keys: seq<string>, s: string): (r: Option<string>)
    ensures r.Some? ==> r.value in keys && Assigns(r.value, s)
  {
    if keys == [] then None else if Assigns(keys[0], s) then Some(keys[0]) else FirstKey(keys[1..], s)
  }

  /** `sensitive_assignment`: only at a word boundary. */
  function Assignment(boundary: bool, s: string): (r: Option<string>)
    ensures r.Some? ==> r.value in KEYS && Assigns(r.value, s)
  {
    if boundary then FirstKey(KEYS, s) else None
  }

  /** `bearer_prefix`. */
  predicate BearerLeads(boundary: bool, s: string) {
    boundary && Leads(BEARER, s) && |BEARER| < |s| && Text.IsWhitespace(s[|BEARER|])
  }

  /** Where the value of an assignment begins: behind the key, blanks, the separator and blanks. */
  function ValueStart(key: string, s: string): (p: nat)
    requires |key| <= |s|
    ensures |key| <= p <= |s|
  {
    var p := Skip(s, |key|, Blanks);
    Skip(s, if p < |s| && IsSeparator(s[p]) then p + 1 else p, Blanks)
  }

  /** A sensitive assignment: what is written in its place, and how much is read. */
  function AssignmentStep(key: string, s: string): (r: (string, nat))
    requires 0 < |key| <= |s|
    ensures 1 <= r.1 <= |s|
  {
    var p := ValueStart(key, s);
    if p < |s| && IsQuote(s[p]) then
      var e := Skip(s, p + 1, Until(s[p]));
      (s[..p] + [s[p]] + MARK + (if e < |s| then [s[p]] else ""), if e < |s| then e + 1 else e)
    else (s[..p] + MARK, Skip(s, p, Value(key == "authorization")))
  }

  /** A bearer token. */
  function BearerStep(s: string): (r: (string, nat))
    requires |BEARER| <= |s|
    ensures 1 <= r.1 <= |s|
  {
    var p := Skip(s, |BEARER|, Blanks);
    if p < |s| then (s[..p] + MARK, Skip(s, p, NonBlanks)) else (s[..p], p)
  }

  /** One step at the front of the text: what is written, and how much is read. */
  function Step(boundary: bool, s: string): (r: (string, nat))
    requires s != ""
    ensures 1 <= r.1 <= |s|
  {
    var key := Assignment(boundary, s);
    if key.Some? then
      KeysNotEmpty(key.value);
      AssignmentStep(key.value, s)
    else if BearerLeads(boundary, s) then BearerStep(s)
    else ([s[0]], 1)
  }

  lemma KeysNotEmpty(key: string)
    requires key in KEYS
    ensures key != ""
  {
  }

  predicate Boundary(c: char) {
    !Text.IsAlphanumeric(c)
  }

  /** The whole scan of a text, whose beginning is a word boundary or not. */
  function Scan(boundary: bool, s: string): string
    decreases |s|
  {
    if s == "" then "" else
    var (out, n) := Step(boundary, s);
    out + Scan(Boundary(s[n - 1]), s[n..])
  }

  function Redacted(s: string): string {
    Scan(true, s)
  }

  // ---- The scanner as written ----

  method CopyWhile(chars: string, from: nat, k: Class, written: string) returns (index: nat, output: string)
    requires from <= |chars|
    ensures index == Skip(chars, from, k) && output == written + chars[from..index]
  {
    index, output := from, written;
    while index < |chars| && In(k, chars[index])
      invariant from <= index <= |chars| && Skip(chars, from, k) == Skip(chars, index, k)
      invariant output == written + chars[from..index]
    {
      output := output + [chars[index]];
      index := index + 1;
    }
  }

  method SkipWhile(chars: string, from: nat, k: Class) returns (index: nat)
    requires from <= |chars|
    ensures index == Skip(chars, from, k)
  {
    index := from;
    while index < |chars| && In(k, chars[index])
      invariant from <= index <= |chars| && Skip(chars, from, k) == Skip(chars, index, k)
    {
      index := index + 1;
    }
  }

  /** Skipping seen from a later start of the text. */
  lemma {:induction false} SkipShift(s: string, i: nat, from: nat, k: Class)
    requires i + from <= |s|
    ensures Skip(s, i + from, k) == i + Skip(s[i..], from, k)
    decreases |s| - from
  {
    if i + from < |s| && In(k, s[i + from]) {
      assert s[i..][from] == s[i + from];
      SkipShift(s, i, from + 1, k);
    } else if i + from < |s| {
      assert s[i..][from] == s[i + from];
    }
  }

  /** Copies key, blanks, separator and blanks. */
  method CopyHead(chars: string, start: nat, key: string, written: string) returns (index: nat, output: string)
    requires start < |chars| && |key| <= |chars| - start
    ensures var s := chars[start..];
            var p := ValueStart(key, s);
            index == start + p && output == written + s[..p]
  {
    hide *;
    HeadAt(chars, start, key);
    output := written + chars[start..start + |key|];
    index, output := CopyWhile(chars, start + |key|, Blanks, output);
    Slices(written, chars, start, start + |key|, index);
    if index < |chars| && IsSeparator(chars[index]) {
      OneMore(written, chars, start, index);
      output := output + [chars[index]];
      index := index + 1;
    }
    ghost var from := index;
    index, output := CopyWhile(chars, index, Blanks, output);
    Slices(written, chars, start, from, index);
  }

  lemma OneMore(written: string, chars: string, a: nat, b: nat)
    requires a <= b < |chars|
    ensures written + chars[a..b] + [chars[b]] == written + chars[a..b + 1]
  {
    assert chars[a..b] + [chars[b]] == chars[a..b + 1];
  }

  lemma Slices(written: string, chars: string, a: nat, b: nat, c: nat)
    requires a <= b <= c <= |chars|
    ensures written + chars[a..b] + chars[b..c] == written + chars[a..c]
    ensures chars[a..c] == chars[a..][..c - a]
  {
    assert chars[a..b] + chars[b..c] == chars[a..c];
    assert written + chars[a..b] + chars[b..c] == written + (chars[a..b] + chars[b..c]);
  }

  /** The end of the head, found by skipping in the whole text. */
  lemma HeadAt(chars: string, start: nat, key: string)
    requires start < |chars| && |key| <= |chars| - start
    ensures var a := Skip(chars, start + |key|, Blanks);
            var b := if a < |chars| && IsSeparator(chars[a]) then a + 1 else a;
            Skip(chars, b, Blanks) == start + ValueStart(key, chars[start..])
  {
    hide *;
    var s := chars[start..];
    var e := Skip(s, |key|, Blanks);
    SkipShift(chars, start, |key|, Blanks);
    SuffixAt(chars, start, e);
    ValueStartIs(key, s);
    SkipShift(chars, start, if e < |s| && IsSeparator(s[e]) then e + 1 else e, Blanks);
  }

  lemma SuffixAt(chars: string, start: nat, i: nat)
    requires start + i <= |chars|
    ensures start + i < |chars| ==> i < |chars[start..]| && chars[start..][i] == chars[start + i]
  {
  }

  lemma ValueStartIs(key: string, s: string)
    requires |key| <= |s|
    ensures var e := Skip(s, |key|, Blanks);
            e <= |s| && ValueStart(key, s) == Skip(s, if e < |s| && IsSeparator(s[e]) then e + 1 else e, Blanks)
  {
    hide In, IsSeparator, Skip;
  }

  /** A sensitive assignment at `start`: copies its head and replaces its value. */
  method RedactAssignment(chars: string, start: nat, key: string, written: string) returns (index: nat, output: string)
    requires start < |chars| && 0 < |key| <= |chars| - start
    ensures var (out, n) := AssignmentStep(key, chars[start..]); output == written + out && index == start + n
  {
    hide In, IsQuote, Skip, ValueStart;
    ghost var s := chars[start..];
    index, output := CopyHead(chars, start, key, written);
    ghost var p := ValueStart(key, s);
    assert index < |chars| ==> chars[index] == s[p];
    if index < |chars| && IsQuote(chars[index]) {
      var quote := chars[index];
      SkipShift(chars, start, p + 1, Until(quote));
      output := output + [quote];
      output := output + MARK;
      index := SkipWhile(chars, index + 1, Until(quote));
      Reassociate(written, s[..p], [quote], MARK, if index < |chars| then [quote] else "");
      if index < |chars| {
        output := output + [quote];
        index := index + 1;
      } else {
        assert output + "" == output;
      }
    } else {
      SkipShift(chars, start, p, Value(key == "authorization"));
      output := output + MARK;
      Reassociate(written, s[..p], MARK, "", "");
      index := SkipWhile(chars, index, Value(key == "authorization"));
      assert written + s[..p] + MARK == written + (s[..p] + MARK);
    }
  }

  lemma Reassociate(w: string, a: string, b: string, c: string, d: string)
    ensures w + a + b + c + d == w + (a + b + c + d)
  {
  }

  method RedactBearer(chars: string, start: nat, written: string) returns (index: nat, output: string)
    requires start < |chars| && |BEARER| <= |chars| - start
    ensures var (out, n) := BearerStep(chars[start..]); output == written + out && index == start + n
  {
    hide In, Skip;
    ghost var s := chars[start..];
    SkipShift(chars, start, |BEARER|, Blanks);
    output := written + chars[start..start + |BEARER|];
    index, output := CopyWhile(chars, start + |BEARER|, Blanks, output);
    ghost var p := Skip(s, |BEARER|, Blanks);
    assert output == written + s[..p];
    if index < |chars| {
      SkipShift(chars, start, p, NonBlanks);
      output := output + MARK;
      index := SkipWhile(chars, index, NonBlanks);
    }
  }

  /** `redact_text`: the index strictly advances, so the scan ends; the output is the specified scan. */
  method RedactText(input: string) returns (output: string)
    ensures output == Redacted(input)
  {
    hide *;
    var index := 0;
    output := "";
    ScanBegins(input);
    while index < |input|
      invariant index <= |input|
      invariant Redacted(input) == output + Scan(index == 0 || Boundary(input[index - 1]), input[index..])
      decreases |input| - index
    {
      var boundary := index == 0 || Boundary(input[index - 1]);
      StepIs(boundary, input[index..]);
      ScanStep(boundary, input, index, output);
      var key := Assignment(boundary, input[index..]);
      if key.Some? {
        index, output := RedactAssignment(input, index, key.value, output);
      } else if BearerLeads(boundary, input[index..]) {
        index, output := RedactBearer(input, index, output);
      } else {
        output := output + [input[index]];
        index := index + 1;
      }
    }
    ScanEnds(input, index, output);
  }

  lemma ScanBegins(input: string)
    ensures Redacted(input) == "" + Scan(true, input[0..])
  {
    assert input[0..] == input && "" + Scan(true, input) == Scan(true, input);
  }

  lemma ScanEnds(input: string, index: nat, output: string)
    requires index == |input|
    ensures forall boundary :: output + Scan(boundary, input[index..]) == output
  {
    assert input[index..] == "";
  }

  /** The three kinds of step. */
  lemma StepIs(boundary: bool, s: string)
    requires s != ""
    ensures var key := Assignment(boundary, s);
            && (key.Some? ==> key.value in KEYS && 0 < |key.value| <= |s| && Step(boundary, s) == AssignmentStep(key.value, s))
            && (key.None? && BearerLeads(boundary, s) ==> |BEARER| <= |s| && Step(boundary, s) == BearerStep(s))
            && (key.None? && !BearerLeads(boundary, s) ==> Step(boundary, s) == ([s[0]], 1))
  {
    hide AssignmentStep, BearerStep, FirstKey;
    var key := Assignment(boundary, s);
    if key.Some? {
      KeysNotEmpty(key.value);
    }
  }

  lemma ScanStep(boundary: bool, input: string, index: nat, output: string)
    requires index < |input|
    ensures var (out, n) := Step(boundary, input[index..]);
            && 1 <= n <= |input| - index
            && output + Scan(boundary, input[index..]) == (output + out) + Scan(Boundary(input[index + n - 1]), input[index + n..])
  {
    hide Step;
    var s := input[index..];
    var (out, n) := Step(boundary, s);
    assert 1 <= n <= |s|;
    assert s[n - 1] == input[index + n - 1] && s[n..] == input[index + n..];
    assert output + (out + Scan(Boundary(s[n - 1]), s[n..])) == (output + out) + Scan(Boundary(s[n - 1]), s[n..]);
  }

  // ---- Locality: what a step may depend on ----

  /**
   What no word and no undecided assignment reaches across: a separator, or the first blank behind an
   'r', with which "bearer" ends and no key does.
   */
  predicate Barrier(x: string, n: nat)
    requires 0 < n <= |x|
  {
    IsSeparator(x[n - 1]) || (Text.IsWhitespace(x[n - 1]) && n > 1 && Lower(x[n - 2]) == 'r')
  }

  /** The two texts agree up to and including a barrier. */
  ghost predicate Shared(x: string, y: string, n: nat) {
    0 < n <= |x| && n <= |y| && Barrier(x, n) && forall i | 0 <= i < n :: x[i] == y[i]
  }

  predicate Word(word: string) {
    word != "" && 'a' <= word[0] <= 'z' && forall i | 0 <= i < |word| :: 'a' <= word[i] <= 'z' || word[i] == '_'
  }

  predicate IsKey(key: string) {
    Word(key) && key[|key| - 1] != 'r'
  }

  lemma {:induction false} SkipLocal(x: string, y: string, n: nat, i: nat, k: Class)
    requires Shared(x, y, n) && i <= n && Skip(x, i, k) < n
    ensures Skip(y, i, k) == Skip(x, i, k)
    decreases n - i
  {
    if In(k, x[i]) {
      SkipLocal(x, y, n, i + 1, k);
    }
  }

  /** No word spans a barrier, so whether one leads is decided before it. */
  lemma LeadsLocal(word: string, x: string, y: string, n: nat)
    requires Shared(x, y, n) && Word(word)
    ensures Leads(word, x) <==> Leads(word, y)
    ensures Leads(word, x) ==> |word| < n
  {
    assert Lower(x[n - 1]) == x[n - 1];
    assert n <= |word| ==> !IsSeparator(word[n - 1]) && !Text.IsWhitespace(word[n - 1]);
  }

  /** Behind a key the blanks end before a barrier. */
  lemma BlanksStop(key: string, x: string, n: nat)
    requires 0 < n <= |x| && Barrier(x, n) && IsKey(key) && Leads(key, x) && |key| < n
    ensures Skip(x, |key|, Blanks) < n
  {
    hide Skip;
    assert IsSeparator(x[n - 1]) ==> !In(Blanks, x[n - 1]);
    assert Lower(x[n - 2]) == 'r' ==> !In(Blanks, x[n - 2]);
    assert |key| == n - 1 ==> Lower(x[n - 2]) == key[|key| - 1];
  }

  lemma AssignsLocal(key: string, x: string, y: string, n: nat)
    requires Shared(x, y, n) && IsKey(key)
    ensures Assigns(key, x) <==> Assigns(key, y)
  {
    hide In, Word, Skip, Barrier;
    LeadsLocal(key, x, y, n);
    if Leads(key, x) {
      BlanksStop(key, x, n);
      SkipLocal(x, y, n, |key|, Blanks);
    }
  }

  lemma {:induction false} FirstKeyLocal(keys: seq<string>, x: string, y: string, n: nat)
    requires Shared(x, y, n) && forall i | 0 <= i < |keys| :: IsKey(keys[i])
    ensures FirstKey(keys, x) == FirstKey(keys, y)
  {
    hide Assigns, Shared, IsKey;
    if keys != [] {
      AssignsLocal(keys[0], x, y, n);
      FirstKeyLocal(keys[1..], x, y, n);
    }
  }

  lemma KeysAreWords()
    ensures forall i | 0 <= i < |KEYS| :: IsKey(KEYS[i]) && KEYS[i][0] != BEARER[0]
    ensures Word(BEARER)
  {
  }

  lemma AssignmentLocal(boundary: bool, x: string, y: string, n: nat)
    requires Shared(x, y, n)
    ensures Assignment(boundary, x) == Assignment(boundary, y)
    ensures BearerLeads(boundary, x) == BearerLeads(boundary, y)
    ensures BearerLeads(boundary, x) ==> |BEARER| < n
    ensures Assignment(boundary, x).Some? ==> Word(Assignment(boundary, x).value) && |Assignment(boundary, x).value| < n
  {
    hide FirstKey, Leads, Word, Barrier;
    KeysAreWords();
    FirstKeyLocal(KEYS, x, y, n);
    LeadsLocal(BEARER, x, y, n);
    var key := Assignment(boundary, x);
    if key.Some? {
      var i :| 0 <= i < |KEYS| && KEYS[i] == key.value;
      LeadsLocal(key.value, x, y, n);
    }
  }

  lemma ValueStartLocal(key: string, x: string, y: string, n: nat)
    requires Shared(x, y, n) && |key| < n && ValueStart(key, x) < n
    ensures ValueStart(key, y) == ValueStart(key, x)
  {
    hide In, Skip, Barrier;
    SkipLocal(x, y, n, |key|, Blanks);
    var p := Skip(x, |key|, Blanks);
    SkipLocal(x, y, n, if IsSeparator(x[p]) then p + 1 else p, Blanks);
  }

  lemma AssignmentStepLocal(key: string, x: string, y: string, n: nat)
    requires Shared(x, y, n) && 0 < |key| < n && AssignmentStep(key, x).1 < n
    ensures AssignmentStep(key, y) == AssignmentStep(key, x)
  {
    hide In, Skip, ValueStart, Barrier;
    var p := ValueStart(key, x);
    ValueStartLocal(key, x, y, n);
    assert x[..p] == y[..p];
    if IsQuote(x[p]) {
      SkipLocal(x, y, n, p + 1, Until(x[p]));
    } else {
      SkipLocal(x, y, n, p, Value(key == "authorization"));
    }
  }

  lemma BearerStepLocal(x: string, y: string, n: nat)
    requires Shared(x, y, n) && |BEARER| < n && BearerStep(x).1 < n
    ensures BearerStep(y) == BearerStep(x)
  {
    hide In, Skip, Barrier;
    SkipLocal(x, y, n, |BEARER|, Blanks);
    var p := Skip(x, |BEARER|, Blanks);
    assert x[..p] == y[..p];
    SkipLocal(x, y, n, p, NonBlanks);
  }

  /** A step that ends before the barrier is decided by the text up to it, whatever follows. */
  lemma StepLocal(boundary: bool, x: string, y: string, n: nat)
    requires Shared(x, y, n) && Step(boundary, x).1 < n
    ensures Step(boundary, y) == Step(boundary, x)
  {
    hide *;
    SharedNotEmpty(x, y, n);
    AssignmentLocal(boundary, x, y, n);
    StepIs(boundary, x);
    StepIs(boundary, y);
    var key := Assignment(boundary, x);
    if key.Some? {
      AssignmentStepLocal(key.value, x, y, n);
    } else if BearerLeads(boundary, x) {
      BearerStepLocal(x, y, n);
    }
  }

  lemma SharedNotEmpty(x: string, y: string, n: nat)
    requires Shared(x, y, n)
    ensures 0 < n <= |x| && n <= |y| && x[0] == y[0]
  {
  }

  // ---- Non-interference ----

  /** The scan begins a step at this offset. */
  ghost predicate Reaches(boundary: bool, s: string, k: nat)
    decreases |s|
  {
    k == 0 || (s != "" && var n := Step(boundary, s).1; n <= k && Reaches(Boundary(s[n - 1]), s[n..], k - n))
  }

  /** What the scan has written before it reaches an offset. */
  function Before(boundary: bool, s: string, k: nat): string
    decreases |s|
  {
    if k == 0 || s == "" then "" else
    var (out, n) := Step(boundary, s);
    if n > k then "" else out + Before(Boundary(s[n - 1]), s[n..], k - n)
  }

  function BoundaryAt(boundary: bool, s: string, k: nat): bool
    requires k <= |s|
  {
    if k == 0 then boundary else Boundary(s[k - 1])
  }

  /** The first step on the way, in both directions. */
  lemma ReachesStep(boundary: bool, s: string, k: nat, out: string, n: nat)
    requires k > 0 && 1 <= n <= |s| && Step(boundary, s) == (out, n)
    ensures Reaches(boundary, s, k) <==> n <= k && Reaches(Boundary(s[n - 1]), s[n..], k - n)
    ensures Reaches(boundary, s, k) ==> Before(boundary, s, k) == out + Before(Boundary(s[n - 1]), s[n..], k - n)
  {
    hide Step, Boundary;
  }

  lemma ReachesStart(boundary: bool, s: string, k: nat)
    ensures k == 0 ==> Reaches(boundary, s, k) && Before(boundary, s, k) == "" && BoundaryAt(boundary, s, k) == boundary
    ensures Reaches(boundary, s, k) && k > 0 ==> s != ""
  {
    hide Step, Boundary;
  }

  lemma TailAt(boundary: bool, s: string, m: nat, k: nat)
    requires 1 <= m <= k <= |s|
    ensures s[m..][k - m..] == s[k..] && BoundaryAt(Boundary(s[m - 1]), s[m..], k - m) == BoundaryAt(boundary, s, k)
  {
    hide Boundary;
  }

  lemma Regroup(a: string, b: string, c: string)
    ensures a + (b + c) == (a + b) + c && "" + a == a
  {
  }

  lemma {:induction false} ScanResumes(boundary: bool, s: string, k: nat)
    requires Reaches(boundary, s, k)
    ensures k <= |s| && Scan(boundary, s) == Before(boundary, s, k) + Scan(BoundaryAt(boundary, s, k), s[k..])
    decreases |s|
  {
    hide *;
    ReachesStart(boundary, s, k);
    if k > 0 {
      ScanUnfolds(boundary, s);
      var (out, m) := Step(boundary, s);
      ReachesStep(boundary, s, k, out, m);
      var next := Boundary(s[m - 1]);
      ScanResumes(next, s[m..], k - m);
      TailAt(boundary, s, m, k);
      Regroup(out, Before(next, s[m..], k - m), Scan(BoundaryAt(boundary, s, k), s[k..]));
    } else {
      assert s[0..] == s;
      Regroup(Scan(boundary, s), "", "");
    }
  }

  lemma SharedTail(x: string, y: string, n: nat, m: nat)
    requires Shared(x, y, n) && m + 1 < n
    ensures m <= |x| && m <= |y| && Shared(x[m..], y[m..], n - m) && (m > 0 ==> x[m - 1] == y[m - 1])
  {
  }

  /** Up to a barrier not yet met, both scans take the same steps and write the same. */
  lemma {:induction false} ScansAgree(boundary: bool, x: string, y: string, n: nat, k: nat)
    requires Shared(x, y, n) && k + 1 < n && Reaches(boundary, x, k)
    ensures Reaches(boundary, y, k) && Before(boundary, y, k) == Before(boundary, x, k)
    ensures k <= |x| && k <= |y| && BoundaryAt(boundary, y, k) == BoundaryAt(boundary, x, k)
    decreases |x|
  {
    hide *;
    SharedNotEmpty(x, y, n);
    ReachesStart(boundary, x, k);
    ReachesStart(boundary, y, k);
    if k > 0 {
      var (out, m) := Step(boundary, x);
      ReachesStep(boundary, x, k, out, m);
      StepLocal(boundary, x, y, n);
      ReachesStep(boundary, y, k, out, m);
      SharedTail(x, y, n, m);
      ScansAgree(Boundary(x[m - 1]), x[m..], y[m..], n - m, k - m);
      TailAt(boundary, x, m, k);
      TailAt(boundary, y, m, k);
    }
  }

  /** A key, blanks, a separator and blanks. */
  predicate IsHead(key: string, head: string) {
    Leads(key, head) && var e := Skip(head, |key|, Blanks); e < |head| && IsSeparator(head[e]) && Skip(head, e + 1, Blanks) == |head|
  }

  /** A nonempty value outside quotes, up to the text's end or the first character that ends it. */
  predicate IsValue(authorization: bool, v: string, rest: string) {
    && v != "" && !Text.IsWhitespace(v[0]) && !IsQuote(v[0]) && (forall i | 0 <= i < |v| :: In(Value(authorization), v[i]))
    && (rest != "" ==> !In(Value(authorization), rest[0]))
  }

  lemma {:induction false} SkipThrough(a: string, b: string, i: nat, k: Class)
    requires i <= |a| && (forall j | i <= j < |a| :: In(k, a[j])) && (b != "" ==> !In(k, b[0]))
    ensures Skip(a + b, i, k) == |a|
    decreases |a| - i
  {
    if i < |a| {
      assert (a + b)[i] == a[i];
      SkipThrough(a, b, i + 1, k);
    } else {
      assert b != "" ==> (a + b)[i] == b[0];
    }
  }

  lemma {:induction false} SkipInside(a: string, b: string, i: nat, k: Class)
    requires i <= |a| && Skip(a, i, k) < |a|
    ensures Skip(a + b, i, k) == Skip(a, i, k)
    decreases |a| - i
  {
    assert (a + b)[i] == a[i];
    if In(k, a[i]) {
      SkipInside(a, b, i + 1, k);
    }
  }

  lemma HeadStart(key: string, head: string, rest: string)
    requires IsHead(key, head) && (rest != "" ==> !Text.IsWhitespace(rest[0]))
    ensures |key| <= |head| && ValueStart(key, head + rest) == |head|
  {
    hide Leads, IsSeparator;
    KeyInHead(key, head);
    var e := Skip(head, |key|, Blanks);
    SkipInside(head, rest, |key|, Blanks);
    assert (head + rest)[e] == head[e];
    SkipThrough(head, rest, e + 1, Blanks);
  }

  lemma KeyInHead(key: string, head: string)
    requires IsHead(key, head)
    ensures |key| <= |head|
  {
  }

  /** At the key: the head and the mark are written, the value is read and dropped. */
  lemma ValueDropped(key: string, head: string, v: string, rest: string)
    requires IsHead(key, head) && key != "" && IsValue(key == "authorization", v, rest)
    ensures |key| <= |head| && AssignmentStep(key, head + (v + rest)) == (head + MARK, |head| + |v|)
  {
    hide IsHead, Skip, ValueStart;
    var s := head + (v + rest);
    HeadStart(key, head, v + rest);
    assert s[|head|] == v[0] && s[..|head|] == head;
    assert s == (head + v) + rest;
    forall j | |head| <= j < |head + v| ensures In(Value(key == "authorization"), (head + v)[j]) {
      assert (head + v)[j] == v[j - |head|];
    }
    SkipThrough(head + v, rest, |head|, Value(key == "authorization"));
  }

  /** No word begins at a character that ends a value, so the scan goes on alike behind any value. */
  lemma EndsAlike(authorization: bool, rest: string, a: bool, b: bool)
    requires rest != "" ==> !In(Value(authorization), rest[0])
    ensures Scan(a, rest) == Scan(b, rest)
  {
    hide *;
    if rest == "" {
      ScanNothing(a, b);
    } else {
      NoWordAt(authorization, rest);
      NoWordStep(a, rest);
      NoWordStep(b, rest);
      ScanUnfolds(a, rest);
      ScanUnfolds(b, rest);
    }
  }

  lemma ScanNothing(a: bool, b: bool)
    ensures Scan(a, "") == "" == Scan(b, "")
  {
  }

  lemma NoWordStep(boundary: bool, s: string)
    requires s != "" && FirstKey(KEYS, s).None? && !Leads(BEARER, s)
    ensures Step(boundary, s) == ([s[0]], 1)
  {
    hide FirstKey, Leads, AssignmentStep, BearerStep;
  }

  lemma NoWordAt(authorization: bool, rest: string)
    requires rest != "" && !In(Value(authorization), rest[0])
    ensures FirstKey(KEYS, rest).None? && !Leads(BEARER, rest)
  {
    hide Assigns, FirstKey, Word;
    StopIsNoLetter(authorization, rest[0]);
    KeysAreWords();
    NoKeyLeads(KEYS, rest);
    NoWordLeads(BEARER, rest);
  }

  lemma StopIsNoLetter(authorization: bool, c: char)
    requires !In(Value(authorization), c)
    ensures !('a' <= Lower(c) <= 'z')
  {
  }

  lemma NoWordLeads(word: string, s: string)
    requires Word(word) && s != "" && !('a' <= Lower(s[0]) <= 'z')
    ensures !Leads(word, s)
  {
  }

  lemma {:induction false} NoKeyLeads(keys: seq<string>, s: string)
    requires (forall i | 0 <= i < |keys| :: IsKey(keys[i])) && s != "" && !('a' <= Lower(s[0]) <= 'z')
    ensures FirstKey(keys, s).None?
  {
    hide Word, Leads;
    if keys != [] {
      NoWordLeads(keys[0], s);
      NoKeyLeads(keys[1..], s);
    }
  }

  /** The separator of the head, as a shared position of the two texts. */
  lemma HeadShared(pre: string, key: string, head: string, a: string, b: string) returns (n: nat)
    requires IsHead(key, head)
    ensures |pre| + |key| < n && Shared(pre + (head + a), pre + (head + b), n)
    ensures Shared(head + a, head + b, n - |pre|)
  {
    var e := Skip(head, |key|, Blanks);
    n := |pre| + e + 1;
    var x, y := pre + (head + a), pre + (head + b);
    assert x[n - 1] == head[e] && (head + a)[e] == head[e];
    assert forall i | 0 <= i < |head| :: (head + a)[i] == head[i] == (head + b)[i];
  }

  /** What the scan writes for a text with a secret it reaches: everything but the secret. */
  lemma SecretReplaced(pre: string, key: string, head: string, v: string, rest: string)
    requires IsHead(key, head) && IsValue(key == "authorization", v, rest)
    requires var s := pre + (head + (v + rest));
             Reaches(true, s, |pre|) && Assignment(BoundaryAt(true, s, |pre|), head + (v + rest)) == Some(key)
    ensures var s := pre + (head + (v + rest));
            Redacted(s) == Before(true, s, |pre|) + (head + MARK + Scan(false, rest))
  {
    hide *;
    var s, t := pre + (head + (v + rest)), head + (v + rest);
    var boundary := BoundaryAt(true, s, |pre|);
    ScanResumes(true, s, |pre|);
    assert s[|pre|..] == t;
    AssignedKey(boundary, t);
    KeysNotEmpty(key);
    ValueDropped(key, head, v, rest);
    HeadNotEmpty(key, head);
    StepIs(boundary, t);
    ScanUnfolds(boundary, t);
    ValueEnds(key == "authorization", v, rest);
    assert t[|head| + |v|..] == rest;
    EndsAlike(key == "authorization", rest, Boundary(t[|head| + |v| - 1]), false);
    RedactedIs(s);
  }

  lemma ScanUnfolds(boundary: bool, s: string)
    requires s != ""
    ensures var (out, n) := Step(boundary, s); 1 <= n <= |s| && Scan(boundary, s) == out + Scan(Boundary(s[n - 1]), s[n..])
  {
    hide Step, Boundary;
  }

  lemma RedactedIs(s: string)
    ensures Redacted(s) == Scan(true, s)
  {
  }

  lemma AssignedKey(boundary: bool, s: string)
    ensures Assignment(boundary, s).Some? ==> Assignment(boundary, s).value in KEYS
  {
    hide FirstKey;
  }

  lemma HeadNotEmpty(key: string, head: string)
    requires IsHead(key, head)
    ensures head != ""
  {
  }

  lemma ValueEnds(authorization: bool, v: string, rest: string)
    requires IsValue(authorization, v, rest)
    ensures v != "" && (rest != "" ==> !In(Value(authorization), rest[0]))
  {
    hide In;
  }

  /**
   Non-interference: if the scan of a text reaches a sensitive key whose value is unquoted, then with
   any other such value in its place the whole output is the same. For an authorization key a value
   runs to the end of its line; for the others to a blank, a comma or a closing bracket.
   */
  lemma ValuesDoNotInterfere(pre: string, key: string, head: string, v: string, w: string, rest: string)
    requires IsHead(key, head)
    requires IsValue(key == "authorization", v, rest) && IsValue(key == "authorization", w, rest)
    requires var s := pre + (head + (v + rest));
             Reaches(true, s, |pre|) && Assignment(BoundaryAt(true, s, |pre|), head + (v + rest)) == Some(key)
    ensures Redacted(pre + (head + (v + rest))) == Redacted(pre + (head + (w + rest)))
  {
    hide *;
    var x, y := pre + (head + (v + rest)), pre + (head + (w + rest));
    var n := HeadShared(pre, key, head, v + rest, w + rest);
    AssignedKey(BoundaryAt(true, x, |pre|), head + (v + rest));
    KeysNotEmpty(key);
    ScansAgree(true, x, y, n, |pre|);
    AssignmentLocal(BoundaryAt(true, x, |pre|), head + (v + rest), head + (w + rest), n - |pre|);
    SecretReplaced(pre, key, head, v, rest);
    SecretReplaced(pre, key, head, w, rest);
  }

  /** A quoted value, possibly empty, up to its closing quote or the end of the text. */
  predicate IsQuoted(quote: char, v: string, rest: string) {
    IsQuote(quote) && quote !in v && (rest != "" ==> rest[0] == quote)
  }

  lemma QuotedDropped(key: string, head: string, quote: char, v: string, rest: string)
    requires IsHead(key, head) && key != "" && IsQuoted(quote, v, rest)
    ensures |key| <= |head|
    ensures AssignmentStep(key, head + ([quote] + v + rest))
            == (head + [quote] + MARK + (if rest != "" then [quote] else ""), |head| + 1 + |v| + if rest != "" then 1 else 0)
  {
    hide IsHead, Skip, ValueStart;
    var s := head + ([quote] + v + rest);
    HeadStart(key, head, [quote] + v + rest);
    var open := head + [quote] + v;
    assert s[|head|] == quote && s[..|head|] == head && s == open + rest;
    forall j | |head| + 1 <= j < |open| ensures In(Until(quote), open[j]) {
      assert open[j] == v[j - |head| - 1];
    }
    SkipThrough(open, rest, |head| + 1, Until(quote));
  }

  /** What the scan writes behind a quoted secret. */
  function Closed(quote: char, rest: string): string {
    if rest == "" then "" else [quote] + Scan(Boundary(quote), rest[1..])
  }

  lemma QuotedReplaced(pre: string, key: string, head: string, quote: char, v: string, rest: string)
    requires IsHead(key, head) && IsQuoted(quote, v, rest)
    requires var s := pre + (head + ([quote] + v + rest));
             Reaches(true, s, |pre|) && Assignment(BoundaryAt(true, s, |pre|), head + ([quote] + v + rest)) == Some(key)
    ensures var s := pre + (head + ([quote] + v + rest));
            Redacted(s) == Before(true, s, |pre|) + (head + [quote] + MARK + Closed(quote, rest))
  {
    hide *;
    var t := head + ([quote] + v + rest);
    var s := pre + t;
    var boundary := BoundaryAt(true, s, |pre|);
    ScanResumes(true, s, |pre|);
    assert s[|pre|..] == t;
    AssignedKey(boundary, t);
    KeysNotEmpty(key);
    QuotedDropped(key, head, quote, v, rest);
    HeadNotEmpty(key, head);
    StepIs(boundary, t);
    ScanUnfolds(boundary, t);
    QuotedTail(head, quote, v, rest);
    RedactedIs(s);
  }

  lemma QuotedTail(head: string, quote: char, v: string, rest: string)
    requires IsQuoted(quote, v, rest)
    ensures var t := head + ([quote] + v + rest);
            var n := |head| + 1 + |v| + if rest != "" then 1 else 0;
            && 1 <= n <= |t|
            && (head + [quote] + MARK + (if rest != "" then [quote] else "")) + Scan(Boundary(t[n - 1]), t[n..])
               == head + [quote] + MARK + Closed(quote, rest)
  {
    hide Scan, Boundary;
    var t, shown := head + ([quote] + v + rest), head + [quote] + MARK;
    if rest == "" {
      ScanNothing(Boundary(t[|t| - 1]), true);
      assert t[|head| + 1 + |v|..] == "" && shown + "" + "" == shown + "";
    } else {
      assert t[|head| + 1 + |v|] == quote && t[|head| + |v| + 2..] == rest[1..];
      Regroup(shown, [quote], Scan(Boundary(quote), rest[1..]));
    }
  }

  /** The same for quoted values: the output does not depend on what stands between the quotes. */
  lemma QuotedValuesDoNotInterfere(pre: string, key: string, head: string, quote: char, v: string, w: string, rest: string)
    requires IsHead(key, head) && IsQuoted(quote, v, rest) && IsQuoted(quote, w, rest)
    requires var s := pre + (head + ([quote] + v + rest));
             Reaches(true, s, |pre|) && Assignment(BoundaryAt(true, s, |pre|), head + ([quote] + v + rest)) == Some(key)
    ensures Redacted(pre + (head + ([quote] + v + rest))) == Redacted(pre + (head + ([quote] + w + rest)))
  {
    hide *;
    var a, b := [quote] + v + rest, [quote] + w + rest;
    var n := HeadShared(pre, key, head, a, b);
    AssignedKey(BoundaryAt(true, pre + (head + a), |pre|), head + a);
    KeysNotEmpty(key);
    ScansAgree(true, pre + (head + a), pre + (head + b), n, |pre|);
    AssignmentLocal(BoundaryAt(true, pre + (head + a), |pre|), head + a, head + b, n - |pre|);
    QuotedReplaced(pre, key, head, quote, v, rest);
    QuotedReplaced(pre, key, head, quote, w, rest);
  }

  // ---- Bearer tokens ----

  /** The word "bearer" and the blanks behind it. */
  predicate IsBearerHead(head: string) {
    Leads(BEARER, head) && |BEARER| < |head| && forall i | |BEARER| <= i < |head| :: Text.IsWhitespace(head[i])
  }

  /** A token up to the next blank or the end of the text. */
  predicate IsToken(v: string, rest: string) {
    && v != "" && (forall i | 0 <= i < |v| :: !Text.IsWhitespace(v[i]))
    && (rest != "" ==> Text.IsWhitespace(rest[0]))
  }

  lemma TokenDropped(head: string, v: string, rest: string)
    requires IsBearerHead(head) && IsToken(v, rest)
    ensures |BEARER| <= |head + (v + rest)| && BearerStep(head + (v + rest)) == (head + MARK, |head| + |v|)
  {
    hide Leads, Skip;
    var t := head + (v + rest);
    assert t == (head + v) + rest && t[..|head|] == head && (v + rest)[0] == v[0];
    SkipThrough(head, v + rest, |BEARER|, Blanks);
    assert forall j | |head| <= j < |head + v| :: (head + v)[j] == v[j - |head|];
    SkipThrough(head + v, rest, |head|, NonBlanks);
  }

  lemma {:induction false} BearerIsNoKey(keys: seq<string>, s: string)
    requires Leads(BEARER, s) && forall i | 0 <= i < |keys| :: IsKey(keys[i]) && keys[i][0] != BEARER[0]
    ensures FirstKey(keys, s).None?
  {
    if keys != [] {
      BearerIsNoKey(keys[1..], s);
      FirstLetter(keys[0], s);
      FirstLetter(BEARER, s);
    }
  }

  lemma FirstLetter(word: string, s: string)
    requires word != ""
    ensures Leads(word, s) ==> s != "" && Lower(s[0]) == word[0]
  {
  }

  /** At a word boundary a bearer head is read as one, whatever follows. */
  lemma BearerRead(head: string, tail: string)
    requires IsBearerHead(head)
    ensures Assignment(true, head + tail).None? && BearerLeads(true, head + tail)
  {
    hide FirstKey, IsKey;
    var t := head + tail;
    assert forall i | 0 <= i < |head| :: t[i] == head[i];
    KeysAreWords();
    BearerIsNoKey(KEYS, t);
  }

  lemma BearerShared(pre: string, head: string, a: string, b: string)
    requires IsBearerHead(head)
    ensures 0 < |BEARER|
    ensures Shared(pre + (head + a), pre + (head + b), |pre| + |BEARER| + 1)
  {
    var x, y, n := pre + (head + a), pre + (head + b), |pre| + |BEARER| + 1;
    assert x[n - 1] == head[|BEARER|] && x[n - 2] == head[|BEARER| - 1];
    assert Lower(head[5]) == BEARER[5];
  }

  lemma BlankEnds(v: string, rest: string)
    requires IsToken(v, rest)
    ensures v != "" && (rest != "" ==> !In(Value(false), rest[0]))
  {
  }

  lemma TokenTail(head: string, v: string, rest: string)
    ensures (head + (v + rest))[|head| + |v|..] == rest
  {
  }

  /** What the scan writes for a text with a bearer token it reaches: everything but the token. */
  lemma TokenReplaced(pre: string, head: string, v: string, rest: string)
    requires IsBearerHead(head) && IsToken(v, rest)
    requires var s := pre + (head + (v + rest)); Reaches(true, s, |pre|) && BoundaryAt(true, s, |pre|)
    ensures var s := pre + (head + (v + rest));
            Redacted(s) == Before(true, s, |pre|) + (head + MARK + Scan(false, rest))
  {
    hide *;
    var t := head + (v + rest);
    var s := pre + t;
    ScanResumes(true, s, |pre|);
    assert s[|pre|..] == t;
    BearerRead(head, v + rest);
    TokenDropped(head, v, rest);
    BlankEnds(v, rest);
    StepIs(true, t);
    ScanUnfolds(true, t);
    TokenTail(head, v, rest);
    EndsAlike(false, rest, Boundary(t[|head| + |v| - 1]), false);
    RedactedIs(s);
  }

  /** Non-interference for bearer tokens: the output does not depend on the token the scan reaches. */
  lemma TokensDoNotInterfere(pre: string, head: string, v: string, w: string, rest: string)
    requires IsBearerHead(head) && IsToken(v, rest) && IsToken(w, rest)
    requires var s := pre + (head + (v + rest)); Reaches(true, s, |pre|) && BoundaryAt(true, s, |pre|)
    ensures Redacted(pre + (head + (v + rest))) == Redacted(pre + (head + (w + rest)))
  {
    hide *;
    BearerShared(pre, head, v + rest, w + rest);
    ScansAgree(true, pre + (head + (v + rest)), pre + (head + (w + rest)), |pre| + |BEARER| + 1, |pre|);
    TokenReplaced(pre, head, v, rest);
    TokenReplaced(pre, head, w, rest);
  }

  // ---- Which key is read ----

  /** Two keys are never assigned at the same place: a separator or a blank cannot go on a longer key. */
  lemma KeyNotLonger(key: string, other: string, s: string)
    requires IsKey(key) && IsKey(other) && Assigns(key, s) && Assigns(other, s)
    ensures |other| <= |key|
  {
    assert forall i | 0 <= i < |other| :: 'a' <= Lower(s[i]) <= 'z' || s[i] == '_';
    assert forall i | 0 <= i < |other| :: !In(Blanks, s[i]) && !IsSeparator(s[i]);
    assert In(Blanks, s[|key|]) || IsSeparator(s[|key|]);
  }

  lemma OneKeyAssigned(key: string, other: string, s: string)
    requires IsKey(key) && IsKey(other) && Assigns(key, s) && Assigns(other, s)
    ensures key == other
  {
    KeyNotLonger(key, other, s);
    KeyNotLonger(other, key, s);
    assert forall i | 0 <= i < |key| :: key[i] == Lower(s[i]) == other[i];
  }

  lemma {:induction false} FirstKeyFinds(keys: seq<string>, key: string, s: string)
    requires key in keys && Assigns(key, s) && forall i | 0 <= i < |keys| :: IsKey(keys[i])
    ensures FirstKey(keys, s) == Some(key)
  {
    hide Assigns, IsKey;
    if Assigns(keys[0], s) {
      OneKeyAssigned(keys[0], key, s);
    } else {
      FirstKeyFinds(keys[1..], key, s);
    }
  }

  lemma KeyRead(key: string, head: string, tail: string)
    requires key in KEYS && IsHead(key, head)
    ensures Assignment(true, head + tail) == Some(key)
  {
    hide FirstKey, Skip, IsKey;
    SkipInside(head, tail, |key|, Blanks);
    assert forall i | 0 <= i < |head| :: (head + tail)[i] == head[i];
    KeysAreWords();
    FirstKeyFinds(KEYS, key, head + tail);
  }

  // ---- Instances ----

  /** A text that begins with a password shows nothing of it, whatever it is. */
  lemma LeadingPasswordHidden(v: string, rest: string)
    requires IsValue(false, v, rest)
    ensures Redacted("password=" + (v + rest)) == "password=" + MARK + Scan(false, rest)
  {
    hide *;
    PasswordAndToken();
    LeadingSecretReplaced("password", v, rest);
  }

  lemma LeadingSecretReplaced(key: string, v: string, rest: string)
    requires key in KEYS && key[0] != 'a' && IsValue(false, v, rest)
    ensures Redacted(key + "=" + (v + rest)) == key + "=" + MARK + Scan(false, rest)
  {
    hide *;
    var head := key + "=";
    var t := head + (v + rest);
    assert key != "authorization" by { assert "authorization"[0] == 'a'; }
    PlainHead(key);
    KeyRead(key, head, v + rest);
    assert "" + t == t;
    ReachesStart(true, t, 0);
    SecretReplaced("", key, head, v, rest);
    Regroup(head + MARK + Scan(false, rest), "", "");
  }

  lemma PasswordAndToken()
    ensures "password" in KEYS && "password"[0] != 'a' && "password" + "=" == "password="
    ensures "token" in KEYS && "token"[0] != 'a' && "token" + "=" == "token="
  {
    assert KEYS[4] == "password" && KEYS[8] == "token";
  }

  lemma EqualsSeparates()
    ensures !In(Blanks, '=') && IsSeparator('=')
  {
  }

  lemma PlainHead(key: string)
    requires key in KEYS
    ensures IsHead(key, key + "=")
  {
    hide In, IsSeparator;
    KeysAreWords();
    EqualsSeparates();
    var head := key + "=";
    assert forall i | 0 <= i < |key| :: head[i] == key[i] && Lower(key[i]) == key[i];
  }

  /** Too short for any word to be assigned or to lead. */
  lemma {:induction false} ShortTextKept(boundary: bool, s: string)
    requires |s| <= 5
    ensures Scan(boundary, s) == s
    decreases |s|
  {
    hide Step, Boundary;
    if s != "" {
      NoShortKey(KEYS, s);
      NoWordStep(boundary, s);
      ShortTextKept(Boundary(s[0]), s[1..]);
    }
  }

  lemma {:induction false} NoShortKey(keys: seq<string>, s: string)
    requires |s| <= 5 && forall i | 0 <= i < |keys| :: |keys[i]| >= 5
    ensures FirstKey(keys, s).None?
  {
    if keys != [] { NoShortKey(keys[1..], s); }
  }

  lemma SwallowedValue(v: string)
    ensures IsValue(false, "x;password=", " " + v)
  {
  }

  /**
   The scan does not reach every key: here the first value takes in the second key, and the password
   behind the blank is written out.
   */
  lemma SwallowedKeyShowsSecret(v: string)
    requires |v| <= 4
    ensures Redacted("token=" + ("x;password=" + (" " + v))) == "token=" + MARK + " " + v
  {
    hide *;
    PasswordAndToken();
    SwallowedValue(v);
    LeadingSecretReplaced("token", "x;password=", " " + v);
    ShortTextKept(false, " " + v);
    Regroup("token=" + MARK, " ", v);
  }

  // ---- Which places are rewritten, and what is written there ----

  /** The character, or its capital if it is a letter. */
  ghost predicate CaseOf(c: char, k: char) {
    c == k || exists n | 0 <= n < 26 :: "ABCDEFGHIJKLMNOPQRSTUVWXYZ"[n] == c && "abcdefghijklmnopqrstuvwxyz"[n] == k
  }

  lemma CapitalAt(n: nat)
    requires n < 26
    ensures "ABCDEFGHIJKLMNOPQRSTUVWXYZ"[n] as int == 65 + n && "abcdefghijklmnopqrstuvwxyz"[n] as int == 97 + n
  {
  }

  lemma LowerExactly(c: char, k: char)
    requires !('A' <= k <= 'Z')
    ensures Lower(c) == k <==> CaseOf(c, k)
  {
    var capitals, letters := "ABCDEFGHIJKLMNOPQRSTUVWXYZ", "abcdefghijklmnopqrstuvwxyz";
    forall n: nat | n < 26 ensures capitals[n] as int == 65 + n && letters[n] as int == 97 + n { CapitalAt(n); }
    if 'A' <= c <= 'Z' && Lower(c) == k {
      var n := c as int - 65;
      assert capitals[n] == c && letters[n] == k;
    }
  }

  lemma LeadsExactly(word: string, s: string)
    requires forall i | 0 <= i < |word| :: !('A' <= word[i] <= 'Z')
    ensures Leads(word, s) <==> |word| <= |s| && forall i | 0 <= i < |word| :: CaseOf(s[i], word[i])
  {
    hide CaseOf, Lower;
    if |word| <= |s| {
      forall i | 0 <= i < |word| ensures Lower(s[i]) == word[i] <==> CaseOf(s[i], word[i]) {
        LowerExactly(s[i], word[i]);
      }
    }
  }

  /** The key leads the text in any case, and behind it, over blanks only, a separator stands at `a`. */
  ghost predicate SeparatedAt(key: string, s: string, a: nat) {
    && |key| <= a < |s| && (forall i | 0 <= i < |key| :: CaseOf(s[i], key[i]))
    && (forall i | |key| <= i < a :: Text.IsWhitespace(s[i])) && s[a] in ":="
  }

  /**
   An assignment is recognized if and only if a word boundary comes before it and one of the nine keys
   leads it, in any case, with a colon or an equals sign behind it over blanks only.
   */
  lemma AssignmentExactly(boundary: bool, s: string)
    ensures Assignment(boundary, s).Some? <==>
              boundary && exists key, a ::
                && key in ["access_token", "authorization", "private_key", "credential", "password", "api_key", "apikey", "secret", "token"]
                && SeparatedAt(key, s, a)
    ensures Assignment(boundary, s).Some? ==> exists a :: SeparatedAt(Assignment(boundary, s).value, s, a)
  {
    hide FirstKey, SeparatedAt;
    KeysAreWords();
    forall key | key in KEYS ensures Assigns(key, s) <==> exists a :: SeparatedAt(key, s, a) {
      AssignsExactly(key, s);
    }
    if key, a :| boundary && key in KEYS && SeparatedAt(key, s, a) {
      FirstKeyFinds(KEYS, key, s);
    }
  }

  lemma AssignsExactly(key: string, s: string)
    requires IsKey(key)
    ensures Assigns(key, s) <==> exists a :: SeparatedAt(key, s, a)
  {
    hide CaseOf, Lower;
    LeadsExactly(key, s);
    if |key| <= |s| {
      var e := Skip(s, |key|, Blanks);
      if Assigns(key, s) { assert SeparatedAt(key, s, e); }
      if a: nat :| SeparatedAt(key, s, a) {
        assert !Text.IsWhitespace(s[a]);
        assert a <= e;
      }
    }
  }

  /** A bearer token is recognized if and only if a word boundary comes before "bearer", in any case, and a blank behind it. */
  lemma BearerExactly(boundary: bool, s: string)
    ensures BearerLeads(boundary, s) <==>
              boundary && |s| > 6 && (forall i | 0 <= i < 6 :: CaseOf(s[i], "bearer"[i])) && Text.IsWhitespace(s[6])
  {
    LeadsExactly("bearer", s);
  }

  /** Where an unquoted value ends: at the line's end behind "authorization", else at a blank, comma or closing bracket. */
  ghost predicate Stops(key: string, c: char) {
    if key == "authorization" then c in "\n\r" else Text.IsWhitespace(c) || c in ",}]"
  }

  /** `e` is the first position from `p` that holds a stop, or the end. */
  ghost predicate RunsTo(s: string, p: nat, e: nat, stop: char -> bool) {
    p <= e <= |s| && (forall i | p <= i < e :: !stop(s[i])) && (e < |s| ==> stop(s[e]))
  }

  /**
   What is written for an assignment whose value begins at `p`: everything before it, then the mark. A
   quoted value is read up to its quote, which is kept on both sides, an unquoted one up to where it ends.
   */
  lemma AssignmentStepExactly(key: string, s: string, a: nat, p: nat, e: nat)
    requires key != "" && SeparatedAt(key, s, a) && RunsTo(s, a + 1, p, c => !Text.IsWhitespace(c))
    ensures p < |s| && s[p] in "\"'" && RunsTo(s, p + 1, e, c => c == s[p]) ==>
              AssignmentStep(key, s) == if e < |s| then (s[..p + 1] + "[REDACTED]" + [s[p]], e + 1) else (s[..p + 1] + "[REDACTED]", e)
    ensures !(p < |s| && s[p] in "\"'") && RunsTo(s, p, e, c => Stops(key, c)) ==> AssignmentStep(key, s) == (s[..p] + "[REDACTED]", e)
  {
    ValueStartsAt(key, s, a, p);
    if p < |s| && s[p] in "\"'" {
      if RunsTo(s, p + 1, e, c => c == s[p]) {
        SkipEnds(s, p + 1, e, Until(s[p]));
        assert s[..p + 1] == s[..p] + [s[p]];
        assert s[..p] + [s[p]] + MARK + "" == s[..p] + [s[p]] + MARK;
      }
    } else if RunsTo(s, p, e, c => Stops(key, c)) {
      SkipEnds(s, p, e, Value(key == "authorization"));
    }
  }

  lemma ValueStartsAt(key: string, s: string, a: nat, p: nat)
    requires SeparatedAt(key, s, a) && RunsTo(s, a + 1, p, c => !Text.IsWhitespace(c))
    ensures ValueStart(key, s) == p
  {
    assert !Text.IsWhitespace(s[a]);
    SkipEnds(s, |key|, a, Blanks);
    SkipEnds(s, a + 1, p, Blanks);
  }

  lemma SkipEnds(s: string, i: nat, e: nat, k: Class)
    requires i <= e <= |s| && (forall j | i <= j < e :: In(k, s[j])) && (e < |s| ==> !In(k, s[e]))
    ensures Skip(s, i, k) == e
  {
    hide In;
  }

  /** What is written for a bearer token: everything up to it, then the mark, if there is one at all. */
  lemma BearerStepExactly(s: string, p: nat, e: nat)
    requires BearerLeads(true, s) && RunsTo(s, 6, p, c => !Text.IsWhitespace(c)) && RunsTo(s, p, e, c => Text.IsWhitespace(c))
    ensures BearerStep(s) == if p < |s| then (s[..p] + "[REDACTED]", e) else (s, |s|)
  {
    SkipEnds(s, 6, p, Blanks);
    SkipEnds(s, p, e, NonBlanks);
    assert s[..|s|] == s;
  }

  /** Where nothing is recognized, the character is kept; a word begins behind what is neither letter nor digit. */
  lemma OtherwiseKept(boundary: bool, s: string)
    requires s != "" && Assignment(boundary, s).None? && !BearerLeads(boundary, s)
    ensures Scan(boundary, s) == [s[0]] + Scan(!Text.IsAlphanumeric(s[0]), s[1..])
  {
    hide Assignment, BearerLeads;
    StepOrdinary(boundary, s);
    ScanUnfolds(boundary, s);
  }

  lemma StepOrdinary(boundary: bool, s: string)
    requires s != "" && Assignment(boundary, s).None? && !BearerLeads(boundary, s)
    ensures Step(boundary, s) == ([s[0]], 1)
  {
  }
}
