/**
 Which secrets the redactor hides, exactly: a scan of the text in front of a secret tells whether any
 of its values can show, whatever stands behind it.
 */
module Secrets {
  import opened Outcomes
  import opened Redactor
  import Text

  /** Where the scan stands at the end of a text that may go on. */
  datatype Standing = Clear | AtValue(authorization: bool) | AtToken | Within(k: Class)

  /** The step that reads the text to its end; a closed quotation leaves nothing open. */
  function AfterAssignment(key: string, s: string): Standing
    requires |key| <= |s|
  {
    var p := ValueStart(key, s);
    if p == |s| then AtValue(key == "authorization")
    else if !IsQuote(s[p]) then Within(Value(key == "authorization"))
    else if Skip(s, p + 1, Until(s[p])) < |s| then Clear
    else Within(Until(s[p]))
  }

  function AfterLast(boundary: bool, s: string): Standing
    requires s != ""
  {
    var key := Assignment(boundary, s);
    if key.Some? then AfterAssignment(key.value, s)
    else if !BearerLeads(boundary, s) then Clear
    else if Skip(s, |BEARER|, Blanks) == |s| then AtToken
    else Within(NonBlanks)
  }

  function StandingAt(boundary: bool, s: string): Standing
    decreases |s|
  {
    if s == "" then Clear else
    var n := Step(boundary, s).1;
    if n < |s| then StandingAt(Boundary(s[n - 1]), s[n..]) else AfterLast(boundary, s)
  }

  /** The characters dropped from what follows, unless it opens a quotation. */
  function Drops(at: Standing): Option<Class> {
    match at
    case Clear => None
    case AtValue(authorization) => Some(Value(authorization))
    case AtToken => Some(NonBlanks)
    case Within(k) => Some(k)
  }

  /** Every character of the one class is dropped with the other. */
  predicate Covers(k: Class, secret: Class) {
    k == Value(true) || (k == NonBlanks && secret != Value(true)) || (k == Value(false) && secret == Value(false))
  }

  predicate Hides(at: Standing, secret: Class) {
    Drops(at).Some? && Covers(Drops(at).value, secret)
  }

  // ---- A text that goes on ----

  /** All blanks from `n` on, behind a separator, or at least one blank behind the last letter of "bearer". */
  predicate Poised(s: string, n: int) {
    && n <= |s| && (forall i | 0 <= i < |s| && n <= i :: Text.IsWhitespace(s[i]))
    && (n > 0 ==> IsSeparator(s[n - 1]) || (n < |s| && Lower(s[n - 1]) == 'r'))
  }

  lemma PoisedTail(s: string, n: int, m: nat)
    requires Poised(s, n) && m <= |s|
    ensures Poised(s[m..], n - m)
  {
  }

  lemma {:induction false} SkipOn(s: string, x: string, i: nat, k: Class)
    requires i <= |s|
    ensures Skip(s + x, i, k) == if Skip(s, i, k) < |s| then Skip(s, i, k) else |s| + Skip(x, 0, k)
    decreases |s| - i
  {
    hide In;
    if i < |s| {
      assert (s + x)[i] == s[i];
      if In(k, s[i]) { SkipOn(s, x, i + 1, k); }
    } else {
      SkipFromEnd(s, x, k);
      SkipAtEnd(s, k);
    }
  }

  lemma SkipFromEnd(s: string, x: string, k: Class)
    ensures Skip(s + x, |s|, k) == |s| + Skip(x, 0, k)
  {
    hide Skip, In;
    SkipShift(s + x, |s|, 0, k);
    assert (s + x)[|s|..] == x;
  }

  /** A word does not go on over the end of a poised text. */
  lemma LeadsOn(word: string, s: string, x: string, n: int)
    requires Poised(s, n) && s != "" && Word(word)
    ensures Leads(word, s + x) <==> Leads(word, s)
    ensures Leads(word, s) ==> |word| < |s|
  {
    var last := s[|s| - 1];
    assert IsSeparator(last) || Text.IsWhitespace(last);
    assert Lower(last) == last;
    assert forall i | 0 <= i < |s| :: (s + x)[i] == s[i];
    assert |word| >= |s| ==> 'a' <= word[|s| - 1] <= 'z' || word[|s| - 1] == '_';
  }

  /** A key is not followed by blanks alone. */
  lemma KeyDecided(key: string, s: string, n: int)
    requires Poised(s, n) && s != "" && IsKey(key) && Leads(key, s) && |key| < |s|
    ensures Skip(s, |key|, Blanks) < |s|
  {
    hide Skip;
    var e := Skip(s, |key|, Blanks);
    assert forall i | 0 <= i < |key| :: Lower(s[i]) == key[i] && !Text.IsWhitespace(s[i]);
    assert |key| <= n;
    assert Lower(s[|key| - 1]) == key[|key| - 1] && !IsSeparator(s[|key| - 1]);
    assert n > |key|;
    assert !In(Blanks, s[n - 1]);
  }

  lemma AssignsOn(key: string, s: string, x: string, n: int)
    requires Poised(s, n) && s != "" && IsKey(key)
    ensures Assigns(key, s + x) <==> Assigns(key, s)
  {
    hide Skip, Poised, In, Leads, Word, IsSeparator;
    LeadsOn(key, s, x, n);
    if Leads(key, s) {
      KeyDecided(key, s, n);
      SkipOn(s, x, |key|, Blanks);
      var e := Skip(s, |key|, Blanks);
      assert (s + x)[e] == s[e];
    }
  }

  lemma {:induction false} FirstKeyOn(keys: seq<string>, s: string, x: string, n: int)
    requires Poised(s, n) && s != "" && forall i | 0 <= i < |keys| :: IsKey(keys[i])
    ensures FirstKey(keys, s + x) == FirstKey(keys, s)
  {
    hide Assigns, IsKey, Poised;
    if keys != [] {
      AssignsOn(keys[0], s, x, n);
      FirstKeyOn(keys[1..], s, x, n);
    }
  }

  /** What leads or is assigned at the front does not depend on what follows a poised text. */
  lemma WordsOn(boundary: bool, s: string, x: string, n: int)
    requires Poised(s, n) && s != ""
    ensures Assignment(boundary, s + x) == Assignment(boundary, s)
    ensures BearerLeads(boundary, s + x) == BearerLeads(boundary, s)
    ensures Assignment(boundary, s).Some? ==> 0 < |Assignment(boundary, s).value| <= |s|
  {
    hide FirstKey, Leads, IsKey, Word, Poised;
    KeysAreWords();
    FirstKeyOn(KEYS, s, x, n);
    LeadsOn(BEARER, s, x, n);
    StepIs(boundary, s);
    assert |BEARER| < |s| ==> (s + x)[|BEARER|] == s[|BEARER|];
  }

  // ---- One step ----

  /** What the last step of the text does when the text goes on unquoted: what is written, and how much of the rest is read. */
  function Further(at: Standing, x: string): (string, nat) {
    match at
    case Clear => ("", 0)
    case AtValue(authorization) => ("", Skip(x, 0, Value(authorization)))
    case AtToken => (MARK, Skip(x, 0, NonBlanks))
    case Within(k) =>
      var e := Skip(x, 0, k);
      if k.Until? && e < |x| then ([k.quote], e + 1) else ("", e)
  }

  lemma ValueStartOn(key: string, s: string, x: string)
    requires Assigns(key, s) && x != "" && !Text.IsWhitespace(x[0])
    ensures ValueStart(key, s + x) == ValueStart(key, s)
  {
    hide In, Leads, IsSeparator;
    var e := Skip(s, |key|, Blanks);
    SkipOn(s, x, |key|, Blanks);
    assert (s + x)[e] == s[e];
    SkipOn(s, x, e + 1, Blanks);
    NothingSkipped(x);
  }

  lemma NothingSkipped(x: string)
    requires x != "" && !Text.IsWhitespace(x[0])
    ensures Skip(x, 0, Blanks) == 0
  {
  }

  /** The last step of an assignment, going on. */
  lemma AssignmentOn(key: string, s: string, x: string)
    requires Assigns(key, s) && 0 < |key| && x != "" && !Text.IsWhitespace(x[0])
    requires AfterAssignment(key, s).AtValue? ==> !IsQuote(x[0])
    ensures var ((out, n), (more, k)) := (AssignmentStep(key, s), Further(AfterAssignment(key, s), x));
            AssignmentStep(key, s + x) == if n < |s| then (out, n) else (out + more, n + k)
  {
    hide In, Assigns, ValueStart, Skip, IsQuote, Further, AfterAssignment, AssignmentStep;
    KeyFits(key, s);
    var p := ValueStart(key, s);
    if p == |s| {
      AtValueOn(key, s, x);
    } else if IsQuote(s[p]) {
      QuotedOn(key, s, x);
    } else {
      UnquotedOn(key, s, x);
    }
  }

  lemma AtValueOn(key: string, s: string, x: string)
    requires Assigns(key, s) && 0 < |key| <= |s| && x != "" && !Text.IsWhitespace(x[0])
    requires ValueStart(key, s) == |s| && (AfterAssignment(key, s).AtValue? ==> !IsQuote(x[0]))
    ensures var ((out, n), (more, k)) := (AssignmentStep(key, s), Further(AfterAssignment(key, s), x));
            AssignmentStep(key, s + x) == if n < |s| then (out, n) else (out + more, n + k)
  {
    hide In, Assigns, ValueStart, Skip, IsQuote;
    ValueStartOn(key, s, x);
    assert (s + x)[..|s|] == s == s[..|s|] && (s + x)[|s|] == x[0];
    SkipOn(s, x, |s|, Value(key == "authorization"));
    SkipAtEnd(s, Value(key == "authorization"));
    assert s + MARK + "" == s + MARK;
  }

  lemma UnquotedOn(key: string, s: string, x: string)
    requires Assigns(key, s) && 0 < |key| <= |s| && x != "" && !Text.IsWhitespace(x[0])
    requires ValueStart(key, s) < |s| && !IsQuote(s[ValueStart(key, s)])
    ensures var ((out, n), (more, k)) := (AssignmentStep(key, s), Further(AfterAssignment(key, s), x));
            AssignmentStep(key, s + x) == if n < |s| then (out, n) else (out + more, n + k)
  {
    hide In, Assigns, ValueStart, Skip, IsQuote;
    ValueStartOn(key, s, x);
    var p := ValueStart(key, s);
    assert (s + x)[..p] == s[..p] && (s + x)[p] == s[p];
    SkipOn(s, x, p, Value(key == "authorization"));
    assert s[..p] + MARK + "" == s[..p] + MARK;
  }

  lemma QuotedOn(key: string, s: string, x: string)
    requires Assigns(key, s) && 0 < |key| <= |s| && x != "" && !Text.IsWhitespace(x[0])
    requires ValueStart(key, s) < |s| && IsQuote(s[ValueStart(key, s)])
    ensures var ((out, n), (more, k)) := (AssignmentStep(key, s), Further(AfterAssignment(key, s), x));
            AssignmentStep(key, s + x) == if n < |s| then (out, n) else (out + more, n + k)
  {
    hide In, Assigns, ValueStart, Skip, IsQuote;
    ValueStartOn(key, s, x);
    var p := ValueStart(key, s);
    var q := s[p];
    assert (s + x)[..p] == s[..p] && (s + x)[p] == q;
    SkipOn(s, x, p + 1, Until(q));
    var shown := s[..p] + [q] + MARK;
    assert shown + "" == shown && shown + [q] + "" == shown + [q];
  }

  lemma KeyFits(key: string, s: string)
    requires Assigns(key, s)
    ensures |key| <= |s|
  {
  }

  lemma SkipAtEnd(s: string, k: Class)
    ensures Skip(s, |s|, k) == |s|
  {
  }

  lemma TokenBegins(s: string, x: string)
    requires |BEARER| < |s| && x != "" && !Text.IsWhitespace(x[0]) && Skip(s, |BEARER|, Blanks) == |s|
    ensures BearerStep(s) == (s, |s|) && BearerStep(s + x) == (s + MARK, |s| + Skip(x, 0, NonBlanks))
  {
    hide *;
    var t := s + x;
    SkipOn(s, x, |BEARER|, Blanks);
    NothingSkipped(x);
    SkipOn(s, x, |s|, NonBlanks);
    SkipAtEnd(s, NonBlanks);
    BearerStepIs(s);
    BearerStepIs(t);
    assert t[..|s|] == s && s[..|s|] == s;
  }

  lemma TokenGoesOn(s: string, x: string)
    requires |BEARER| < |s| && Skip(s, |BEARER|, Blanks) < |s|
    ensures var (out, n) := BearerStep(s);
            BearerStep(s + x) == (out, if n < |s| then n else n + Skip(x, 0, NonBlanks))
  {
    hide *;
    var p, t := Skip(s, |BEARER|, Blanks), s + x;
    SkipOn(s, x, |BEARER|, Blanks);
    SkipOn(s, x, p, NonBlanks);
    BearerStepIs(s);
    BearerStepIs(t);
    assert t[..p] == s[..p];
  }

  lemma BearerOn(s: string, x: string)
    requires |BEARER| < |s| && x != "" && !Text.IsWhitespace(x[0])
    ensures var at := if Skip(s, |BEARER|, Blanks) == |s| then AtToken else Within(NonBlanks);
            var ((out, n), (more, k)) := (BearerStep(s), Further(at, x));
            && (n < |s| ==> BearerStep(s + x) == (out, n))
            && (n == |s| ==> BearerStep(s + x).0 == out + more && BearerStep(s + x).1 == n + k)
  {
    hide *;
    FurtherTokens(x);
    if Skip(s, |BEARER|, Blanks) == |s| {
      TokenBegins(s, x);
    } else {
      TokenGoesOn(s, x);
      NothingMore(BearerStep(s).0);
    }
  }

  lemma NothingMore(a: string)
    ensures a + "" == a
  {
  }

  lemma BearerStepIs(s: string)
    requires |BEARER| <= |s|
    ensures var p := Skip(s, |BEARER|, Blanks);
            p <= |s| && BearerStep(s) == if p < |s| then (s[..p] + MARK, Skip(s, p, NonBlanks)) else (s[..p], p)
  {
    hide In, Skip;
  }

  lemma FurtherTokens(x: string)
    ensures Further(AtToken, x) == (MARK, Skip(x, 0, NonBlanks))
    ensures Further(Within(NonBlanks), x) == ("", Skip(x, 0, NonBlanks))
  {
    hide Skip;
  }

  /** A step that ends in front of the text's end stays as it is; the last one reads on. */
  lemma StepOn(boundary: bool, s: string, x: string, n: int)
    requires Poised(s, n) && s != "" && x != "" && !Text.IsWhitespace(x[0])
    requires AfterLast(boundary, s).AtValue? && Step(boundary, s).1 == |s| ==> !IsQuote(x[0])
    ensures var ((out, m), (more, k)) := (Step(boundary, s), Further(AfterLast(boundary, s), x));
            Step(boundary, s + x) == if m < |s| then (out, m) else (out + more, m + k)
  {
    hide Poised, Assignment, BearerLeads, AssignmentStep, BearerStep, Step, AfterAssignment, Skip, IsQuote;
    WordsOn(boundary, s, x, n);
    StepIs(boundary, s);
    StepIs(boundary, s + x);
    var key := Assignment(boundary, s);
    if key.Some? {
      if AfterAssignment(key.value, s).AtValue? { AtValueReadsAll(key.value, s); }
      AssignmentOn(key.value, s, x);
    } else if BearerLeads(boundary, s) {
      BearerFits(boundary, s);
      BearerOn(s, x);
    } else {
      assert (s + x)[0] == s[0] && [s[0]] + "" == [s[0]];
    }
  }

  lemma AtValueReadsAll(key: string, s: string)
    requires 0 < |key| <= |s| && AfterAssignment(key, s).AtValue?
    ensures AssignmentStep(key, s).1 == |s|
  {
    hide In;
  }

  lemma BearerFits(boundary: bool, s: string)
    requires BearerLeads(boundary, s)
    ensures |BEARER| < |s|
  {
  }

  // ---- The whole scan ----

  /** What is written behind the text. */
  function Behind(at: Standing, boundary: bool, x: string): string {
    var (more, k) := Further(at, x);
    more + Scan(if k == 0 || k > |x| then boundary else Boundary(x[k - 1]), if k > |x| then "" else x[k..])
  }

  /**
   A text that goes on: its own redaction comes first, and what follows is decided by where the scan
   of the text stands.
   */
  lemma {:induction false} GoesOn(boundary: bool, s: string, x: string, n: int)
    requires Poised(s, n) && s != "" && x != "" && !Text.IsWhitespace(x[0])
    requires StandingAt(boundary, s).AtValue? ==> !IsQuote(x[0])
    ensures Scan(boundary, s + x)
            == Scan(boundary, s) + Behind(StandingAt(boundary, s), Boundary(s[|s| - 1]), x)
    decreases |s|
  {
    hide Poised, Step, AfterLast, Boundary, Further, IsQuote, Scan;
    var (out, m) := Step(boundary, s);
    StepOn(boundary, s, x, n);
    ScanUnfolds(boundary, s);
    ScanUnfolds(boundary, s + x);
    if m < |s| {
      PoisedTail(s, n, m);
      assert (s + x)[m..] == s[m..] + x;
      GoesOn(Boundary(s[m - 1]), s[m..], x, n - m);
      Regroup(out, Scan(Boundary(s[m - 1]), s[m..]), Behind(StandingAt(boundary, s), Boundary(s[|s| - 1]), x));
    } else {
      LastGoesOn(boundary, s, x, out);
    }
  }

  lemma LastGoesOn(boundary: bool, s: string, x: string, out: string)
    requires s != "" && x != "" && Step(boundary, s) == (out, |s|)
    requires var (more, k) := Further(AfterLast(boundary, s), x); Step(boundary, s + x) == (out + more, |s| + k)
    ensures Scan(boundary, s + x) == Scan(boundary, s) + Behind(AfterLast(boundary, s), Boundary(s[|s| - 1]), x)
  {
    hide Step, AfterLast, Boundary, Further, Scan;
    var (more, k) := Further(AfterLast(boundary, s), x);
    ScanUnfolds(boundary, s);
    ScanUnfolds(boundary, s + x);
    assert s[|s|..] == "" && (s + x)[|s| + k..] == x[k..];
    ScanNothing(Boundary(s[|s| - 1]), true);
    NothingMore(out);
    Regroup(out, more, Scan(Boundary((s + x)[|s| + k - 1]), x[k..]));
  }

  // ---- What shows ----

  predicate Letter(c: char) {
    'a' <= Lower(c) <= 'z'
  }

  lemma NoLetterLeads(s: string)
    requires s != "" && !Letter(s[0])
    ensures FirstKey(KEYS, s).None? && !Leads(BEARER, s)
  {
    hide FirstKey, Leads, Word;
    KeysAreWords();
    NoKeyLeads(KEYS, s);
    NoWordLeads(BEARER, s);
  }

  /** Characters no word begins with are copied. */
  lemma {:induction false} PlainShown(boundary: bool, y: string, tail: string)
    requires y != "" && forall i | 0 <= i < |y| :: !Letter(y[i])
    ensures Scan(boundary, y + tail) == y + Scan(Boundary(y[|y| - 1]), tail)
    decreases |y|
  {
    hide Step, Boundary, Scan, Letter;
    var s := y + tail;
    NoLetterLeads(s);
    NoWordStep(boundary, s);
    ScanUnfolds(boundary, s);
    assert s[1..] == y[1..] + tail;
    if |y| > 1 {
      PlainShown(Boundary(y[0]), y[1..], tail);
      Regroup([y[0]], y[1..], Scan(Boundary(y[|y| - 1]), tail));
      assert [y[0]] + y[1..] == y;
    } else {
      assert y == [y[0]] && y[1..] + tail == tail;
    }
  }

  predicate Digit(c: char) {
    '0' <= c <= '9'
  }

  /** If the scan resumes in front of a digit, with nothing but plain characters between, the digit shows. */
  lemma Shows(at: Standing, boundary: bool, y: string, c: char, rest: string)
    requires Digit(c) && Further(at, y + ([c] + rest)).1 <= |y|
    requires forall i | Further(at, y + ([c] + rest)).1 <= i < |y| :: !Letter(y[i])
    ensures var (more, k) := Further(at, y + ([c] + rest));
            Behind(at, boundary, y + ([c] + rest)) == (more + (y[k..] + [c])) + Scan(false, rest)
  {
    hide Further, Scan, Letter;
    var x := y + ([c] + rest);
    var (more, k) := Further(at, x);
    var plain := y[k..] + [c];
    assert x[k..] == plain + rest;
    DigitsArePlain(c);
    PlainShown(if k == 0 then boundary else Boundary(x[k - 1]), plain, rest);
    Regroup(more, plain, Scan(false, rest));
  }

  lemma DigitsArePlain(c: char)
    requires Digit(c)
    ensures !Letter(c) && !Boundary(c) && !IsQuote(c) && !Text.IsWhitespace(c)
    ensures In(Value(false), c) && In(Value(true), c)
  {
  }

  /** The stretch dropped ends at the first character outside its class. */
  lemma {:induction false} SkipTo(x: string, i: nat, j: nat, k: Class)
    requires i <= j <= |x| && (forall h | i <= h < j :: In(k, x[h])) && (j < |x| ==> !In(k, x[j]))
    ensures Skip(x, i, k) == j
    decreases j - i
  {
    hide In;
    if i < j { SkipTo(x, i + 1, j, k); }
  }

  /** Two texts that differ in one place. */
  lemma Differ(a: string, z: string, r: string)
    ensures a + ((z + "0") + r) != a + ((z + "1") + r)
  {
    var x, y := a + ((z + "0") + r), a + ((z + "1") + r);
    assert x[|a| + |z|] == '0' && y[|a| + |z|] == '1';
  }

  /** Quotations, tokens and values are all the scan can be inside of. */
  predicate Known(at: Standing) {
    at.Within? ==> at.k.Value? || at.k.NonBlanks? || (at.k.Until? && IsQuote(at.k.quote))
  }

  lemma {:induction false} StandingKnown(boundary: bool, s: string)
    ensures Known(StandingAt(boundary, s))
    decreases |s|
  {
    hide Step, Assignment, BearerLeads, Skip, ValueStart, IsQuote, Boundary;
    if s != "" && Step(boundary, s).1 < |s| {
      StandingKnown(Boundary(s[Step(boundary, s).1 - 1]), s[Step(boundary, s).1..]);
    }
  }

  // ---- Values and tokens outside quotations ----

  predicate OfClass(secret: Class, v: string) {
    v != "" && !Text.IsWhitespace(v[0]) && forall i | 0 <= i < |v| :: In(secret, v[i])
  }

  lemma CoversChar(k: Class, secret: Class, c: char)
    requires Covers(k, secret) && In(secret, c) && (secret.Value? || secret.NonBlanks?)
    ensures In(k, c)
  {
  }

  /** What ends a dropped stretch begins no word. */
  lemma ResumesAlike(k: Class, tail: string, a: bool, b: bool)
    requires (k.Value? || k.NonBlanks?) && (tail != "" ==> !In(k, tail[0]))
    ensures Scan(a, tail) == Scan(b, tail)
  {
    hide Scan;
    EndsAlike(k.Value? && k.authorization, tail, a, b);
  }

  lemma CoveredSkip(k: Class, secret: Class, v: string, rest: string)
    requires Covers(k, secret) && OfClass(secret, v) && (secret.Value? || secret.NonBlanks?)
    ensures Skip(v + rest, 0, k) == |v| + Skip(rest, 0, k)
  {
    hide In, Skip, Covers;
    forall i | 0 <= i < |v| ensures In(k, v[i]) { CoversChar(k, secret, v[i]); }
    SkipTo(v, 0, |v|, k);
    SkipOn(v, rest, 0, k);
  }

  lemma FurtherDropped(at: Standing, x: string)
    requires Drops(at).Some? && !Drops(at).value.Until?
    ensures Further(at, x).0 == (if at.AtToken? then MARK else "") && Further(at, x).1 == Skip(x, 0, Drops(at).value)
  {
    hide Skip;
  }

  lemma TailOf(v: string, rest: string, e: nat)
    requires e <= |rest|
    ensures (v + rest)[|v| + e..] == rest[e..]
  {
  }

  /** A secret of a covered class leaves no trace: what follows depends on the rest alone. */
  lemma CoveredBehind(at: Standing, secret: Class, boundary: bool, v: string, rest: string)
    requires Hides(at, secret) && OfClass(secret, v) && (secret.Value? || secret.NonBlanks?)
    ensures var k := Drops(at).value;
            Behind(at, boundary, v + rest)
            == (if at.AtToken? then MARK else "") + Scan(false, rest[Skip(rest, 0, k)..])
  {
    hide In, Skip, Scan, Boundary, Covers, Further, Drops, OfClass;
    var (k, x) := (Drops(at).value, v + rest);
    CoversKinds(k, secret);
    CoveredSkip(k, secret, v, rest);
    FurtherDropped(at, x);
    var e := Skip(rest, 0, k);
    TailOf(v, rest, e);
    ResumesAlike(k, rest[e..], if |v| + e == 0 then boundary else Boundary(x[|v| + e - 1]), false);
  }

  lemma CoversKinds(k: Class, secret: Class)
    requires Covers(k, secret)
    ensures k.Value? || k.NonBlanks?
  {
  }

  /** A character that ends what is dropped and may stand in the secret. */
  function Stop(k: Class, secret: Class): char {
    if k.Until? then k.quote else if k.Value? && secret == NonBlanks then ',' else ' '
  }

  /** What stands in front of the digit that shows. */
  function Lead(at: Standing, secret: Class): string {
    if at.Clear? then "" else ['0', Stop(Drops(at).value, secret)]
  }

  lemma LeadStops(at: Standing, secret: Class, c: char, rest: string)
    requires Known(at) && !Hides(at, secret) && Digit(c) && (secret.Value? || secret.NonBlanks?)
    ensures var y := Lead(at, secret);
            var (more, k) := Further(at, y + ([c] + rest));
            && k <= |y| && (forall i | k <= i < |y| :: !Letter(y[i]))
            && more == Further(at, y + (['0'] + rest)).0 && k == Further(at, y + (['0'] + rest)).1
            && OfClass(secret, y + [c]) && !IsQuote((y + [c])[0])
  {
    hide Skip;
    DigitsArePlain(c);
    DigitsArePlain('0');
    var y := Lead(at, secret);
    if !at.Clear? {
      var k := Drops(at).value;
      SkipTo(y + ([c] + rest), 0, 1, k);
      SkipTo(y + (['0'] + rest), 0, 1, k);
    }
  }

  /** A text behind which a secret of the class does not show. */
  lemma CoveredHidden(t: string, n: int, secret: Class, v: string, w: string, rest: string)
    requires Poised(t, n) && t != "" && Hides(StandingAt(true, t), secret) && (secret.Value? || secret.NonBlanks?)
    requires OfClass(secret, v) && OfClass(secret, w)
    requires StandingAt(true, t).AtValue? ==> !IsQuote(v[0]) && !IsQuote(w[0])
    ensures Redacted(t + (v + rest)) == Redacted(t + (w + rest))
  {
    hide Poised, StandingAt, Hides, Scan, Behind, In, IsQuote;
    var (at, boundary) := (StandingAt(true, t), Boundary(t[|t| - 1]));
    GoesOn(true, t, v + rest, n);
    GoesOn(true, t, w + rest, n);
    CoveredBehind(at, secret, boundary, v, rest);
    CoveredBehind(at, secret, boundary, w, rest);
  }

  /** A text behind which one does. */
  lemma UncoveredShows(t: string, n: int, secret: Class, rest: string)
    requires Poised(t, n) && t != "" && !Hides(StandingAt(true, t), secret) && (secret.Value? || secret.NonBlanks?)
    ensures var y := Lead(StandingAt(true, t), secret);
            && OfClass(secret, y + "0") && OfClass(secret, y + "1") && !IsQuote((y + "0")[0]) && !IsQuote((y + "1")[0])
            && Redacted(t + ((y + "0") + rest)) != Redacted(t + ((y + "1") + rest))
  {
    hide Poised, StandingAt, Hides, Known, Lead, Further, Letter, Redacted, IsQuote, In;
    var at := StandingAt(true, t);
    StandingKnown(true, t);
    DigitsHere();
    LeadStops(at, secret, '0', rest);
    LeadStops(at, secret, '1', rest);
    TellTale(t, n, at, Lead(at, secret), rest);
  }

  lemma DigitsHere()
    ensures Digit('0') && Digit('1')
  {
  }

  /** Two continuations that differ in a digit in front of which the scan has resumed. */
  lemma TellTale(t: string, n: int, at: Standing, y: string, rest: string)
    requires Poised(t, n) && t != "" && at == StandingAt(true, t)
    requires !Text.IsWhitespace((y + "0")[0]) && !Text.IsWhitespace((y + "1")[0])
    requires at.AtValue? ==> !IsQuote((y + "0")[0]) && !IsQuote((y + "1")[0])
    requires Further(at, y + ("0" + rest)) == Further(at, y + ("1" + rest))
    requires Further(at, y + ("0" + rest)).1 <= |y| && forall i | Further(at, y + ("0" + rest)).1 <= i < |y| :: !Letter(y[i])
    ensures Redacted(t + ((y + "0") + rest)) != Redacted(t + ((y + "1") + rest))
  {
    hide Poised, StandingAt, Scan, Behind, Further, IsQuote, Letter;
    var boundary := Boundary(t[|t| - 1]);
    var (more, k) := Further(at, y + ("0" + rest));
    Regroup(y, "0", rest);
    Regroup(y, "1", rest);
    GoesOn(true, t, y + ("0" + rest), n);
    GoesOn(true, t, y + ("1" + rest), n);
    Shows(at, boundary, y, '0', rest);
    Shows(at, boundary, y, '1', rest);
    Regroup(more, y[k..], "0");
    Regroup(more, y[k..], "1");
    Differ(Scan(true, t), more + y[k..], Scan(false, rest));
  }

  lemma HeadPoised(pre: string, key: string, head: string)
    requires IsHead(key, head)
    ensures pre + head != "" && Poised(pre + head, |pre| + Skip(head, |key|, Blanks) + 1)
  {
    hide Leads, IsSeparator;
    var e := Skip(head, |key|, Blanks);
    var t := pre + head;
    assert t[|pre| + e] == head[e];
    forall i | |pre| + e + 1 <= i < |t| ensures Text.IsWhitespace(t[i]) {
      assert t[i] == head[i - |pre|] && In(Blanks, head[i - |pre|]);
    }
  }

  /** No unquoted value of the key shows behind the text. */
  ghost predicate ValuesHidden(t: string, authorization: bool, rest: string) {
    forall v, w | IsValue(authorization, v, rest) && IsValue(authorization, w, rest) ::
      Redacted(t + (v + rest)) == Redacted(t + (w + rest))
  }

  /**
   Unquoted values, exactly: behind a sensitive key no value shows if and only if, where the value
   begins, the scan of the text in front of it drops every character a value may hold.
   */
  lemma ValuesHiddenExactly(pre: string, key: string, head: string, rest: string)
    requires IsHead(key, head) && (rest != "" ==> !In(Value(key == "authorization"), rest[0]))
    ensures ValuesHidden(pre + head, key == "authorization", rest)
            <==> Hides(StandingAt(true, pre + head), Value(key == "authorization"))
  {
    hide Poised, StandingAt, Hides, IsHead, IsQuote, Redacted, Skip;
    KeyInHead(key, head);
    var (t, authorization, n) := (pre + head, key == "authorization", |pre| + Skip(head, |key|, Blanks) + 1);
    HeadPoised(pre, key, head);
    if Hides(StandingAt(true, t), Value(authorization)) {
      forall v, w | IsValue(authorization, v, rest) && IsValue(authorization, w, rest)
        ensures Redacted(t + (v + rest)) == Redacted(t + (w + rest))
      {
        CoveredHidden(t, n, Value(authorization), v, w, rest);
      }
    } else {
      UncoveredShows(t, n, Value(authorization), rest);
      var y := Lead(StandingAt(true, t), Value(authorization));
      assert IsValue(authorization, y + "0", rest) && IsValue(authorization, y + "1", rest);
    }
  }

  // ---- Bearer tokens ----

  lemma BearerPoised(pre: string, head: string)
    requires IsBearerHead(head)
    ensures Poised(pre + head, |pre| + |BEARER|) && Lower((pre + head)[|pre| + |BEARER| - 1]) == 'r'
  {
    var t := pre + head;
    assert t[|pre| + 5] == head[5] && Lower(head[5]) == BEARER[5];
    assert forall i | |pre| + |BEARER| <= i < |t| :: t[i] == head[i - |pre|];
  }

  lemma AtValueIsHead(boundary: bool, s: string)
    requires s != "" && AfterLast(boundary, s).AtValue?
    ensures Assignment(boundary, s).Some? && IsHead(Assignment(boundary, s).value, s)
    ensures AfterLast(boundary, s) == AtValue(Assignment(boundary, s).value == "authorization")
  {
    hide In, FirstKey, Leads, IsSeparator;
  }

  /** Behind the word "bearer" and blanks the scan is at no value's beginning. */
  lemma {:induction false} NoValueBegins(boundary: bool, s: string, n: int)
    requires Poised(s, n) && (n > 0 ==> n < |s| && Lower(s[n - 1]) == 'r')
    ensures !StandingAt(boundary, s).AtValue?
    decreases |s|
  {
    hide Step, AfterLast, IsHead, Boundary;
    if s != "" {
      var m := Step(boundary, s).1;
      if m < |s| {
        NoValueBegins(Boundary(s[m - 1]), s[m..], n - m);
      } else if AfterLast(boundary, s).AtValue? {
        AtValueIsHead(boundary, s);
        HeadEndsInSeparator(Assignment(boundary, s).value, s, n);
      }
    }
  }

  /** The last character of a head that is no blank is its separator. */
  lemma HeadEndsInSeparator(key: string, s: string, n: int)
    requires Poised(s, n) && IsHead(key, s)
    ensures n > 0 && IsSeparator(s[n - 1])
  {
    hide Leads, Skip;
    var e := Skip(s, |key|, Blanks);
    assert !Text.IsWhitespace(s[e]);
    assert forall i | e < i < |s| :: In(Blanks, s[i]) && Text.IsWhitespace(s[i]);
    assert n - 1 <= e;
  }

  ghost predicate TokensHidden(t: string, rest: string) {
    forall v, w | IsToken(v, rest) && IsToken(w, rest) :: Redacted(t + (v + rest)) == Redacted(t + (w + rest))
  }

  /** Bearer tokens, exactly. */
  lemma TokensHiddenExactly(pre: string, head: string, rest: string)
    requires IsBearerHead(head) && (rest != "" ==> Text.IsWhitespace(rest[0]))
    ensures TokensHidden(pre + head, rest) <==> Hides(StandingAt(true, pre + head), NonBlanks)
  {
    hide Poised, StandingAt, Hides, IsBearerHead, IsQuote, Redacted;
    var (t, n) := (pre + head, |pre| + |BEARER|);
    BearerPoised(pre, head);
    BearerHolds(head);
    NoValueBegins(true, t, n);
    if Hides(StandingAt(true, t), NonBlanks) {
      forall v, w | IsToken(v, rest) && IsToken(w, rest) ensures Redacted(t + (v + rest)) == Redacted(t + (w + rest)) {
        CoveredHidden(t, n, NonBlanks, v, w, rest);
      }
    } else {
      UncoveredShows(t, n, NonBlanks, rest);
      var y := Lead(StandingAt(true, t), NonBlanks);
      assert IsToken(y + "0", rest) && IsToken(y + "1", rest);
    }
  }

  lemma BearerHolds(head: string)
    requires IsBearerHead(head)
    ensures |BEARER| < |head|
  {
  }

  // ---- Quoted values ----

  /** At the beginning of a value a quotation is read to its end. */
  lemma {:induction false} QuotationsAlike(boundary: bool, s: string, n: int, quote: char, v: string, w: string, rest: string)
    requires Poised(s, n) && StandingAt(boundary, s).AtValue? && IsQuoted(quote, v, rest) && IsQuoted(quote, w, rest)
    ensures Scan(boundary, s + ([quote] + v + rest)) == Scan(boundary, s + ([quote] + w + rest))
    decreases |s|
  {
    hide Poised, Step, AfterLast, Boundary, Scan, Further;
    var (x, z) := ([quote] + v + rest, [quote] + w + rest);
    QuotesNotBlank(quote);
    var m := Step(boundary, s).1;
    if m < |s| {
      StepOn(boundary, s, x, n);
      StepOn(boundary, s, z, n);
      ScanUnfolds(boundary, s + x);
      ScanUnfolds(boundary, s + z);
      PoisedTail(s, n, m);
      assert (s + x)[m..] == s[m..] + x && (s + z)[m..] == s[m..] + z;
      QuotationsAlike(Boundary(s[m - 1]), s[m..], n - m, quote, v, w, rest);
    } else {
      QuotationWritten(boundary, s, n, quote, v, rest);
      QuotationWritten(boundary, s, n, quote, w, rest);
    }
  }

  lemma QuotesNotBlank(quote: char)
    requires IsQuote(quote)
    ensures !Text.IsWhitespace(quote)
  {
  }

  lemma QuotationWritten(boundary: bool, s: string, n: int, quote: char, v: string, rest: string)
    requires Poised(s, n) && s != "" && AfterLast(boundary, s).AtValue? && IsQuoted(quote, v, rest)
    ensures Scan(boundary, s + ([quote] + v + rest)) == s + [quote] + MARK + Closed(quote, rest)
  {
    hide *;
    var x := [quote] + v + rest;
    AtValueIsHead(boundary, s);
    WordsOn(boundary, s, x, n);
    var key := Assignment(boundary, s).value;
    QuotedDropped(key, s, quote, v, rest);
    StepIs(boundary, s + x);
    ScanUnfolds(boundary, s + x);
    QuotedTail(s, quote, v, rest);
  }

  /** What stands between the quote and the digit that shows. */
  function QuotedLead(at: Standing, quote: char): string {
    match at
    case AtToken => "0 "
    case Within(k) =>
      if k.Until? then (if k.quote == quote then "" else ['0', k.quote])
      else if k == Value(true) then "0\n" else "0 "
    case _ => ""
  }

  lemma QuotedLeadStops(at: Standing, quote: char, c: char, rest: string)
    requires Known(at) && !at.AtValue? && Digit(c) && IsQuote(quote)
    ensures var y := [quote] + QuotedLead(at, quote);
            var (more, k) := Further(at, y + ([c] + rest));
            && k <= |y| && (forall i | k <= i < |y| :: !Letter(y[i]))
            && more == Further(at, y + (['0'] + rest)).0 && k == Further(at, y + (['0'] + rest)).1
            && quote !in QuotedLead(at, quote) + [c]
  {
    hide Skip;
    DigitsArePlain(c);
    DigitsArePlain('0');
    var y := [quote] + QuotedLead(at, quote);
    if !at.Clear? {
      var k := Drops(at).value;
      var j := if k.Until? && k.quote == quote then 0 else 2;
      SkipTo(y + ([c] + rest), 0, j, k);
      SkipTo(y + (['0'] + rest), 0, j, k);
    }
  }

  ghost predicate QuotedHidden(t: string, quote: char, rest: string) {
    forall v, w | IsQuoted(quote, v, rest) && IsQuoted(quote, w, rest) ::
      Redacted(t + ([quote] + v + rest)) == Redacted(t + ([quote] + w + rest))
  }

  /** Quoted values, exactly: none shows if and only if the scan is at the beginning of a value. */
  lemma QuotedHiddenExactly(pre: string, key: string, head: string, quote: char, rest: string)
    requires IsHead(key, head) && IsQuote(quote) && (rest != "" ==> rest[0] == quote)
    ensures QuotedHidden(pre + head, quote, rest) <==> StandingAt(true, pre + head).AtValue?
  {
    hide Poised, StandingAt, IsHead, IsQuote, Scan, Skip, Letter, Further;
    KeyInHead(key, head);
    var (t, n) := (pre + head, |pre| + Skip(head, |key|, Blanks) + 1);
    var at := StandingAt(true, t);
    HeadPoised(pre, key, head);
    if at.AtValue? {
      forall v, w | IsQuoted(quote, v, rest) && IsQuoted(quote, w, rest)
        ensures Redacted(t + ([quote] + v + rest)) == Redacted(t + ([quote] + w + rest))
      {
        QuotationsAlike(true, t, n, quote, v, w, rest);
      }
    } else {
      var y := QuotedLead(at, quote);
      StandingKnown(true, t);
      DigitsHere();
      QuotesNotBlank(quote);
      QuotedLeadStops(at, quote, '0', rest);
      QuotedLeadStops(at, quote, '1', rest);
      TellTale(t, n, at, [quote] + y, rest);
      assert IsQuoted(quote, y + "0", rest) && IsQuoted(quote, y + "1", rest);
      assert [quote] + (y + "0") + rest == (([quote] + y) + "0") + rest;
      assert [quote] + (y + "1") + rest == (([quote] + y) + "1") + rest;
    }
  }

  // ---- An instance ----

  lemma TokenRead(v: string, rest: string)
    requires IsValue(false, v, rest)
    ensures var t := "token=" + (v + rest);
            && t != "" && Assignment(true, t) == Some("token") && Step(true, t).1 == 6 + |v|
            && (rest == "" ==> AfterAssignment("token", t) == Within(Value(false)))
  {
    hide In, Skip, FirstKey, KEYS, Leads;
    PasswordAndToken();
    var (head, t) := ("token=", "token=" + (v + rest));
    PlainHead("token");
    KeyRead("token", head, v + rest);
    HeadStart("token", head, v + rest);
    assert "token" != "authorization" by { assert "token"[0] != "authorization"[0]; }
    ValueDropped("token", head, v, rest);
    StepIs(true, t);
    assert t[6] == v[0];
  }

  lemma BlankStandsClear(boundary: bool)
    ensures StandingAt(boundary, " ") == Clear
  {
    hide FirstKey, Leads;
    NoLetterLeads(" ");
    NoWordStep(boundary, " ");
  }

  /**
   One blank decides: without it the password is still part of the first key's dropped value, with it
   the scan has come out of that value and the password shows.
   */
  lemma OneBlankDecides()
    ensures StandingAt(true, "token=x;password=") == Within(Value(false))
    ensures StandingAt(true, "token=x;password= ") == Clear
  {
    hide Step, FirstKey, Leads, AfterAssignment, Assigns;
    var v := "x;password=";
    assert v + "" == v && "token=" + v == "token=x;password=" && "token=" + (v + " ") == "token=x;password= ";
    SwallowedValue("");
    TokenRead(v, "");
    TokenRead(v, " ");
    assert "token=x;password= "[17..] == " ";
    BlankStandsClear(Boundary("token=x;password= "[16]));
  }
}
