/**
 The two parsing loops that turn Git output into a snapshot (src/gitops/snapshot.rs): the tree
 listing and the blob batch. Each is paired with the printer of the format it reads.
 */
module BatchParser {
  import opened Outcomes
  import opened Decimal
  import C = ComposeImage
  import Text

  type Byte = n: int | 0 <= n < 256
  type Bytes = seq<Byte>

  const MAX_FILES: nat := 4096
  const MAX_DATA: nat := 64 * 1024 * 1024
  const MAX_USIZE: nat := 0xFFFF_FFFF_FFFF_FFFF
  const NUL: Byte := 0
  const NEWLINE: Byte := 10

  datatype CaptureError = Unavailable | OutsideScope

  /** UTF-8, as a partial decoder and its inverse. */
  datatype Utf8 = Utf8(decode: Bytes -> Option<string>, encode: string -> Bytes)

  ghost predicate LawfulUtf8(u: Utf8) {
    && (forall s: string :: u.decode(u.encode(s)) == Some(s))
    && (forall b: Bytes :: u.decode(b).Some? ==> u.encode(u.decode(b).value) == b)
    && u.decode([]) == Some("")
    && (forall s: string :: '\0' !in s ==> NUL !in u.encode(s))
  }

  datatype Entry = Entry(name: string, executable: bool, oid: string)

  // ---- Splitting ----

  function IndexOf<T(==)>(s: seq<T>, x: T): (k: nat)
    ensures k <= |s| && x !in s[..k] && (k < |s| ==> s[k] == x)
  {
    if s == [] || s[0] == x then 0
    else
      var k := IndexOf(s[1..], x);
      assert s[..1 + k] == [s[0]] + s[1..][..k];
      1 + k
  }

  lemma IndexOfIs<T>(s: seq<T>, x: T, k: nat)
    requires k <= |s| && x !in s[..k] && (k < |s| ==> s[k] == x)
    ensures IndexOf(s, x) == k
  {
    var j := IndexOf(s, x);
    assert forall i | 0 <= i < k :: s[i] in s[..k];
    assert forall i | 0 <= i < j :: s[i] in s[..j];
  }

  function Split<T(==)>(s: seq<T>, x: T): (pieces: seq<seq<T>>)
    ensures pieces != []
  {
    var k := IndexOf(s, x);
    if k == |s| then [s] else [s[..k]] + Split(s[k + 1..], x)
  }

  lemma SplitFirst<T>(first: seq<T>, x: T, rest: seq<T>)
    requires x !in first
    ensures Split(first + [x] + rest, x) == [first] + Split(rest, x)
  {
    var s := first + [x] + rest;
    assert s[..|first|] == first;
    IndexOfIs(s, x, |first|);
    assert s[|first| + 1..] == rest;
  }

  lemma SplitNone<T>(s: seq<T>, x: T)
    requires x !in s
    ensures Split(s, x) == [s]
  {
    assert s[..|s|] == s;
    IndexOfIs(s, x, |s|);
  }

  /** Exactly three fields: the text is the three joined by the separator, none containing it. */
  lemma ThreeFields<T>(s: seq<T>, x: T, a: seq<T>, b: seq<T>, c: seq<T>)
    ensures Split(s, x) == [a, b, c] <==> s == a + [x] + (b + [x] + c) && x !in a && x !in b && x !in c
  {
    hide Split, IndexOf;
    if s == a + [x] + (b + [x] + c) && x !in a && x !in b && x !in c {
      SplitFirst(a, x, b + [x] + c);
      SplitFirst(b, x, c);
      SplitNone(c, x);
    }
    if Split(s, x) == [a, b, c] {
      var r := SplitMore(s, x);
      var q := SplitMore(r, x);
      SplitLast(q, x);
      assert Split(r, x) == [b, c] && Split(q, x) == [c];
    }
  }

  lemma SplitMore<T>(s: seq<T>, x: T) returns (rest: seq<T>)
    requires |Split(s, x)| > 1
    ensures s == Split(s, x)[0] + [x] + rest && x !in Split(s, x)[0] && Split(rest, x) == Split(s, x)[1..]
  {
    var k := IndexOf(s, x);
    rest := s[k + 1..];
    assert s == s[..k] + [s[k]] + rest;
  }

  lemma SplitLast<T>(s: seq<T>, x: T)
    requires |Split(s, x)| == 1
    ensures Split(s, x) == [s] && x !in s
  {
    assert s[..|s|] == s;
  }

  // ---- The tree listing ----

  predicate SafePath(u: Utf8, name: string) {
    && name != "" && |u.encode(name)| <= 512
    && (forall i | 0 <= i < |name| :: name[i] as int >= 32 && name[i] as int != 127 && name[i] != '\\')
    && (forall part | part in Split(name, '/') :: part !in ["", ".", "..", ".git"])
  }

  /** Where following a path's parts from a directory leads. */
  function Walk(directory: seq<string>, parts: seq<string>): seq<string>
    decreases |parts|
  {
    if parts == [] then directory
    else if parts[0] == "" || parts[0] == "." then Walk(directory, parts[1..])
    else if parts[0] == ".." then Walk(if directory == [] then [] else directory[..|directory| - 1], parts[1..])
    else Walk(directory + [parts[0]], parts[1..])
  }

  lemma {:induction false} WalkDown(directory: seq<string>, parts: seq<string>)
    requires forall i | 0 <= i < |parts| :: parts[i] !in ["", ".", ".."]
    ensures Walk(directory, parts) == directory + parts
    decreases |parts|
  {
    if parts != [] {
      WalkDown(directory + [parts[0]], parts[1..]);
      assert directory + [parts[0]] + parts[1..] == directory + parts;
    } else {
      assert directory + [] == directory;
    }
  }

  function Unsplit<T>(pieces: seq<seq<T>>, x: T): seq<T>
    requires pieces != []
  {
    if |pieces| == 1 then pieces[0] else pieces[0] + [x] + Unsplit(pieces[1..], x)
  }

  lemma {:induction false} UnsplitSplit<T>(s: seq<T>, x: T)
    ensures Unsplit(Split(s, x), x) == s
    decreases |s|
  {
    var k := IndexOf(s, x);
    if k < |s| {
      UnsplitSplit(s[k + 1..], x);
      assert ([s[..k]] + Split(s[k + 1..], x))[1..] == Split(s[k + 1..], x);
      assert s == s[..k] + [s[k]] + s[k + 1..];
    }
  }

  /** An accepted path leads strictly below the directory it is joined to, never into a `.git`. */
  lemma SafePathStaysBelow(u: Utf8, directory: seq<string>, name: string)
    requires SafePath(u, name)
    ensures var parts := Split(name, '/');
            parts != [] && Walk(directory, parts) == directory + parts && ".git" !in parts
  {
    var parts := Split(name, '/');
    forall i | 0 <= i < |parts| ensures parts[i] !in ["", ".", ".."] {
      assert parts[i] in parts;
    }
    WalkDown(directory, parts);
  }

  /** Different accepted paths lead to different files, so no file of a snapshot overwrites another's. */
  lemma SafePathsDistinct(u: Utf8, directory: seq<string>, a: string, b: string)
    requires SafePath(u, a) && SafePath(u, b) && a != b
    ensures Walk(directory, Split(a, '/')) != Walk(directory, Split(b, '/'))
  {
    hide Split, SafePath;
    SafePathStaysBelow(u, directory, a);
    SafePathStaysBelow(u, directory, b);
    UnsplitSplit(a, '/');
    UnsplitSplit(b, '/');
    assert (directory + Split(a, '/'))[|directory|..] == Split(a, '/');
    assert (directory + Split(b, '/'))[|directory|..] == Split(b, '/');
  }

  predicate ValidEntry(u: Utf8, e: Entry) {
    Text.ValidSha(e.oid) && SafePath(u, e.name)
  }

  /** A listing record, without its terminator. */
  function PrintEntry(e: Entry): string {
    Mode(e.executable) + [' '] + ("blob" + [' '] + e.oid) + ['\t'] + e.name
  }

  function Mode(executable: bool): string {
    if executable then "100755" else "100644"
  }

  function ReadRecord(u: Utf8, record: Bytes): Option<Entry> {
    match u.decode(record)
    case None => None
    case Some(text) =>
      var tab := IndexOf(text, '\t');
      if tab == |text| then None else
      var name := text[tab + 1..];
      var fields := Split(text[..tab], ' ');
      if |fields| != 3 || fields[0] !in ["100644", "100755"] || fields[1] != "blob" || !Text.ValidSha(fields[2]) || !SafePath(u, name)
      then None
      else Some(Entry(name, fields[0] == "100755", fields[2]))
  }

  /** The entries after reading `records` behind `entries`; empty records are skipped. */
  function ReadRecords(u: Utf8, records: seq<Bytes>, entries: seq<Entry>): Option<seq<Entry>> {
    if records == [] then Some(entries)
    else if records[0] == [] then ReadRecords(u, records[1..], entries)
    else
      match ReadRecord(u, records[0])
      case None => None
      case Some(e) => if |entries| >= MAX_FILES then None else ReadRecords(u, records[1..], entries + [e])
  }

  /** The `ls-tree` loop: entries in order, and the request for `cat-file`; any bad record is outside the scope. */
  method ReadListing(u: Utf8, tree: Bytes) returns (r: Option<seq<Entry>>, batch: string)
    ensures r == ReadRecords(u, Split(tree, NUL), [])
    ensures r.Some? ==> batch == Wanted(r.value)
  {
    hide *;
    var entries: seq<Entry> := [];
    batch := "";
    var pos, done := 0, false;
    assert tree[0..] == tree;
    WantedNone();
    while !done
      invariant pos <= |tree|
      invariant ReadRecords(u, Split(tree, NUL), []) == if done then Some(entries) else ReadRecords(u, Split(tree[pos..], NUL), entries)
      invariant batch == Wanted(entries)
      decreases |tree| - pos, !done
    {
      var k := IndexOf(tree[pos..], NUL);
      var record := tree[pos..][..k];
      ListingStep(u, tree, pos, entries);
      if record != [] {
        var e := ReadRecord(u, record);
        if e.None? || |entries| >= MAX_FILES {
          return None, batch;
        }
        WantedAppend(entries, e.value);
        entries := entries + [e.value];
        batch := batch + e.value.oid;
        batch := batch + "\n";
      }
      if pos + k == |tree| {
        done := true;
      } else {
        pos := pos + k + 1;
      }
    }
    return Some(entries), batch;
  }

  /** Reading on from `pos`: the record up to the next separator, then what follows it. */
  lemma ListingStep(u: Utf8, tree: Bytes, pos: nat, entries: seq<Entry>)
    requires pos <= |tree|
    ensures var k := IndexOf(tree[pos..], NUL);
            && k <= |tree| - pos
            && var record := tree[pos..][..k];
            var read := ReadRecord(u, record);
            ReadRecords(u, Split(tree[pos..], NUL), entries)
            == if record != [] && (read.None? || |entries| >= MAX_FILES) then None
            else
              var more := if record == [] then entries else entries + [read.value];
              if pos + k == |tree| then Some(more) else ReadRecords(u, Split(tree[pos + k + 1..], NUL), more)
  {
    hide ReadRecord, IndexOf, Split;
    var s := tree[pos..];
    var k := IndexOf(s, NUL);
    SplitStep(s, NUL);
    assert k < |s| ==> s[k + 1..] == tree[pos + k + 1..];
  }

  lemma WantedNone()
    ensures Wanted([]) == ""
  {
  }

  lemma SplitStep<T>(s: seq<T>, x: T)
    ensures var k := IndexOf(s, x);
            && k <= |s|
            && Split(s, x)[0] == s[..k]
            && Split(s, x)[1..] == if k == |s| then [] else Split(s[k + 1..], x)
  {
    hide *;
    var k := IndexOf(s, x);
    SplitUnfolds(s, x);
    if k == |s| {
      WholePrefix(s);
    } else {
      Drop1(s[..k], Split(s[k + 1..], x));
    }
  }

  lemma SplitUnfolds<T>(s: seq<T>, x: T)
    ensures var k := IndexOf(s, x);
            k <= |s| && Split(s, x) == if k == |s| then [s] else [s[..k]] + Split(s[k + 1..], x)
  {
    hide IndexOf;
  }

  lemma WholePrefix<T>(s: seq<T>)
    ensures s[..|s|] == s
  {
  }

  lemma Drop1<T>(first: T, rest: seq<T>)
    ensures ([first] + rest)[0] == first && ([first] + rest)[1..] == rest
  {
  }

  function Wanted(entries: seq<Entry>): string {
    if entries == [] then "" else Wanted(entries[..|entries| - 1]) + entries[|entries| - 1].oid + "\n"
  }

  lemma WantedAppend(entries: seq<Entry>, e: Entry)
    ensures Wanted(entries + [e]) == Wanted(entries) + e.oid + "\n"
  {
    assert (entries + [e])[..|entries|] == entries;
  }

  function Occupied(records: seq<Bytes>): seq<Bytes> {
    if records == [] then [] else (if records[0] == [] then [] else [records[0]]) + Occupied(records[1..])
  }

  function Encoded(u: Utf8, entries: seq<Entry>): seq<Bytes> {
    seq(|entries|, i requires 0 <= i < |entries| => u.encode(PrintEntry(entries[i])))
  }

  /** One record reads as an entry exactly when it is that entry printed and the entry is allowed. */
  lemma RecordExactly(u: Utf8, record: Bytes, e: Entry)
    requires LawfulUtf8(u)
    ensures ReadRecord(u, record) == Some(e) <==> record == u.encode(PrintEntry(e)) && ValidEntry(u, e)
  {
    hide Split, IndexOf, SafePath, Text.ValidSha;
    if record == u.encode(PrintEntry(e)) && ValidEntry(u, e) {
      PrintedEntryReads(e);
      assert u.decode(record) == Some(PrintEntry(e));
    }
    if ReadRecord(u, record) == Some(e) {
      ReadEntryPrinted(u.decode(record).value, e);
    }
  }

  lemma PrintedEntryReads(e: Entry)
    requires Text.ValidSha(e.oid)
    ensures var text := PrintEntry(e);
            var tab := IndexOf(text, '\t');
            tab < |text| && text[tab + 1..] == e.name && Split(text[..tab], ' ') == [Mode(e.executable), "blob", e.oid]
  {
    hide Split, IndexOf, Text.ValidSha, Mode;
    HeaderHasNoTab(e);
    var header := Mode(e.executable) + [' '] + ("blob" + [' '] + e.oid);
    var text := PrintEntry(e);
    assert text[..|header|] == header && text[|header| + 1..] == e.name;
    IndexOfIs(text, '\t', |header|);
    ThreeFields(header, ' ', Mode(e.executable), "blob", e.oid);
  }

  lemma ReadEntryPrinted(text: string, e: Entry)
    requires var tab := IndexOf(text, '\t');
             tab < |text| && text[tab + 1..] == e.name && Split(text[..tab], ' ') == [Mode(e.executable), "blob", e.oid]
    ensures text == PrintEntry(e)
  {
    hide *;
    var tab := IndexOf(text, '\t');
    ThreeFields(text[..tab], ' ', Mode(e.executable), "blob", e.oid);
    Rejoin(text, tab);
    FirstTab(text);
    PrintEntryIs(e);
  }

  lemma Rejoin<T>(s: seq<T>, k: nat)
    requires k < |s|
    ensures s == s[..k] + [s[k]] + s[k + 1..]
  {
  }

  lemma FirstTab(text: string)
    requires IndexOf(text, '\t') < |text|
    ensures text[IndexOf(text, '\t')] == '\t'
  {
  }

  lemma PrintEntryIs(e: Entry)
    ensures PrintEntry(e) == Mode(e.executable) + [' '] + ("blob" + [' '] + e.oid) + ['\t'] + e.name
  {
  }

  lemma HeaderHasNoTab(e: Entry)
    requires Text.ValidSha(e.oid)
    ensures '\t' !in Mode(e.executable) + [' '] + ("blob" + [' '] + e.oid)
    ensures ' ' !in Mode(e.executable) && ' ' !in e.oid && ' ' !in "blob"
  {
    assert '\t' !in Mode(e.executable) && '\t' !in "blob" && '\t' !in e.oid;
  }

  lemma EncodedHead(u: Utf8, entries: seq<Entry>)
    requires entries != []
    ensures Encoded(u, entries) == [u.encode(PrintEntry(entries[0]))] + Encoded(u, entries[1..])
  {
  }

  /** `r` is `entries` followed by the entries whose printed forms the nonempty records are. */
  ghost predicate Lists(u: Utf8, records: seq<Bytes>, entries: seq<Entry>, r: seq<Entry>) {
    && |entries| <= |r| <= MAX_FILES && r[..|entries|] == entries
    && Occupied(records) == Encoded(u, r[|entries|..])
    && forall i | |entries| <= i < |r| :: ValidEntry(u, r[i])
  }

  /**
   The listing is accepted exactly when its nonempty records are allowed entries printed one by
   one, at most 4096 of them; the result is those entries in order.
   */
  lemma {:induction false} ListingExactly(u: Utf8, records: seq<Bytes>, entries: seq<Entry>, r: seq<Entry>)
    requires LawfulUtf8(u) && |entries| <= MAX_FILES
    ensures ReadRecords(u, records, entries) == Some(r) <==> Lists(u, records, entries, r)
  {
    hide ReadRecord, ValidEntry, LawfulUtf8, PrintEntry, Lists;
    if records == [] {
      ListsNothing(u, entries, r);
    } else if records[0] == [] {
      ListsEmptyRecord(u, records, entries, r);
      ListingExactly(u, records[1..], entries, r);
    } else {
      ListsRecord(u, records, entries, r);
      var first := ReadRecord(u, records[0]);
      if first.Some? && |entries| < MAX_FILES {
        ListingExactly(u, records[1..], entries + [first.value], r);
      }
    }
  }

  lemma ListsNothing(u: Utf8, entries: seq<Entry>, r: seq<Entry>)
    requires |entries| <= MAX_FILES
    ensures Lists(u, [], entries, r) <==> r == entries
  {
    assert r[..|r|] == r;
    assert Lists(u, [], entries, r) ==> |Encoded(u, r[|entries|..])| == 0;
  }

  lemma ListsEmptyRecord(u: Utf8, records: seq<Bytes>, entries: seq<Entry>, r: seq<Entry>)
    requires records != [] && records[0] == []
    ensures Lists(u, records, entries, r) <==> Lists(u, records[1..], entries, r)
  {
    assert Occupied(records) == Occupied(records[1..]);
  }

  lemma ListsRecord(u: Utf8, records: seq<Bytes>, entries: seq<Entry>, r: seq<Entry>)
    requires LawfulUtf8(u) && records != [] && records[0] != [] && |entries| <= MAX_FILES
    ensures var first := ReadRecord(u, records[0]);
            Lists(u, records, entries, r) <==>
            first.Some? && |entries| < MAX_FILES && Lists(u, records[1..], entries + [first.value], r)
  {
    hide ReadRecord, ValidEntry, LawfulUtf8, PrintEntry, Encoded;
    var first, n := ReadRecord(u, records[0]), |entries|;
    var tail := Occupied(records[1..]);
    assert Occupied(records) == [records[0]] + tail;
    if Lists(u, records, entries, r) {
      EncodedLength(u, r[n..]);
      EncodedHead(u, r[n..]);
      RecordExactly(u, records[0], r[n]);
      assert r[n..][1..] == r[n + 1..];
      assert tail == ([records[0]] + tail)[1..];
      assert r[..n + 1] == r[..n] + [r[n]];
    }
    if first.Some? && n < MAX_FILES && Lists(u, records[1..], entries + [first.value], r) {
      RecordExactly(u, records[0], first.value);
      assert r[n] == r[..n + 1][n] == first.value;
      assert r[..n] == r[..n + 1][..n] == entries;
      assert r[n..][1..] == r[n + 1..];
      EncodedHead(u, r[n..]);
    }
  }

  lemma EncodedLength(u: Utf8, entries: seq<Entry>)
    ensures |Encoded(u, entries)| == |entries|
  {
  }

  function PrintListing(u: Utf8, entries: seq<Entry>): Bytes {
    if entries == [] then [] else u.encode(PrintEntry(entries[0])) + [NUL] + PrintListing(u, entries[1..])
  }

  lemma {:induction false} PrintedRecords(u: Utf8, entries: seq<Entry>)
    requires LawfulUtf8(u) && forall i | 0 <= i < |entries| :: ValidEntry(u, entries[i])
    ensures Occupied(Split(PrintListing(u, entries), NUL)) == Encoded(u, entries)
  {
    hide LawfulUtf8, ValidEntry, PrintEntry, Split;
    if entries == [] {
      SplitNone<Byte>([], NUL);
      assert Encoded(u, entries) == [];
    } else {
      var first, rest := u.encode(PrintEntry(entries[0])), PrintListing(u, entries[1..]);
      EntryHasNoNul(u, entries[0]);
      SplitFirst(first, NUL, rest);
      PrintedRecords(u, entries[1..]);
      EncodedHead(u, entries);
      assert ([first] + Split(rest, NUL))[1..] == Split(rest, NUL);
    }
  }

  lemma EntryHasNoNul(u: Utf8, e: Entry)
    requires LawfulUtf8(u) && ValidEntry(u, e)
    ensures var record := u.encode(PrintEntry(e)); NUL !in record && record != []
  {
    hide Split, IndexOf;
    var text := PrintEntry(e);
    assert '\0' !in e.name && '\0' !in e.oid && '\0' !in Mode(e.executable) && '\0' !in "blob";
    assert text != "" && u.decode(u.encode(text)) == Some(text);
  }

  /** Round trip: any list of at most 4096 allowed entries is read back from its listing, in order. */
  lemma ListingRoundTrip(u: Utf8, entries: seq<Entry>)
    requires LawfulUtf8(u) && |entries| <= MAX_FILES && forall i | 0 <= i < |entries| :: ValidEntry(u, entries[i])
    ensures ReadRecords(u, Split(PrintListing(u, entries), NUL), []) == Some(entries)
  {
    hide Split, PrintListing, ReadRecords, Occupied, Encoded, ValidEntry, LawfulUtf8;
    var records := Split(PrintListing(u, entries), NUL);
    PrintedRecords(u, entries);
    assert entries[..0] == [] && entries[0..] == entries;
    ListingExactly(u, records, [], entries);
  }

  // ---- The blob batch ----

  /** Bytes read as the characters of the same codes. */
  function Latin(b: Bytes): string {
    seq(|b|, i requires 0 <= i < |b| => b[i] as char)
  }

  predicate IsAscii(s: string) {
    forall i | 0 <= i < |s| :: s[i] as int < 128
  }

  function Ascii(s: string): Bytes {
    seq(|s|, i requires 0 <= i < |s| => if s[i] as int < 128 then s[i] as int else 63)
  }

  /** A block as the batch prints it, with any numeral for the length. */
  function Block(oid: string, numeral: string, contents: Bytes): Bytes {
    Ascii(Header(oid, numeral)) + [NEWLINE] + (contents + [NEWLINE])
  }

  function Header(oid: string, numeral: string): string {
    oid + [' '] + ("blob" + [' '] + numeral)
  }

  predicate Measures(numeral: string, contents: Bytes) {
    ParseUnsigned(numeral, MAX_USIZE) == Some(|contents|)
  }

  /**
   One block at `offset`: its contents and where the next begins. A header that is not UTF-8 has a
   byte above 127, so it fails the field comparisons as well.
   */
  function ParseBlock(data: Bytes, offset: nat, oid: string): Option<(Bytes, nat)> {
    if offset > |data| then None else
    var k := IndexOf(data[offset..], NEWLINE);
    var newline := offset + k;
    if newline == |data| then None else
    var fields := Split(Latin(data[offset..newline]), ' ');
    if |fields| != 3 || fields[0] != oid || fields[1] != "blob" then None else
    match ParseUnsigned(fields[2], MAX_USIZE)
    case None => None
    case Some(length) =>
      var start := newline + 1;
      var end := start + length;
      if end > MAX_USIZE || end >= |data| || data[end] != NEWLINE then None else Some((data[start..end], end + 1))
  }

  lemma NumeralPlain(numeral: string, max: nat)
    requires ParseUnsigned(numeral, max).Some?
    ensures IsAscii(numeral) && ' ' !in numeral && '\n' !in numeral
  {
    var digits := if numeral != "" && numeral[0] == '+' then numeral[1..] else numeral;
    assert AllDigits(digits);
    forall i | 0 <= i < |numeral| ensures numeral[i] == '+' || IsDigit(numeral[i]) {
      if digits == numeral[1..] && i > 0 {
        assert numeral[i] == digits[i - 1];
      }
    }
  }

  lemma HeaderPlain(oid: string, numeral: string)
    requires Text.ValidSha(oid) && ParseUnsigned(numeral, MAX_USIZE).Some?
    ensures var h := Header(oid, numeral); IsAscii(h) && '\n' !in h && Split(h, ' ') == [oid, "blob", numeral]
  {
    hide Split, ParseUnsigned;
    NumeralPlain(numeral, MAX_USIZE);
    var blob := "blob";
    assert IsAscii(oid) && '\n' !in oid && ' ' !in oid;
    assert IsAscii(blob) && '\n' !in blob && ' ' !in blob;
    ThreeFields(Header(oid, numeral), ' ', oid, blob, numeral);
  }

  lemma AsciiLatin(s: string)
    requires IsAscii(s)
    ensures Latin(Ascii(s)) == s && ('\n' !in s ==> NEWLINE !in Ascii(s))
  {
  }

  lemma LatinAscii(b: Bytes)
    requires IsAscii(Latin(b))
    ensures Ascii(Latin(b)) == b
  {
    assert forall i | 0 <= i < |b| :: Latin(b)[i] == b[i] as char;
  }

  /** Reading a block that lies at `offset`, whatever its contents and whatever follows. */
  lemma BlockReads(data: Bytes, offset: nat, oid: string, numeral: string, contents: Bytes, rest: Bytes)
    requires offset <= |data| <= MAX_DATA && Text.ValidSha(oid) && Measures(numeral, contents)
    requires data[offset..] == Block(oid, numeral, contents) + rest
    ensures var next := offset + |Block(oid, numeral, contents)|;
            ParseBlock(data, offset, oid) == Some((contents, next)) && next <= |data| && data[next..] == rest
  {
    hide Split, ParseUnsigned, Text.ValidSha, Header, Latin, Ascii;
    var h := Header(oid, numeral);
    var b, tail := Ascii(h), data[offset..];
    HeaderPlain(oid, numeral);
    AsciiLatin(h);
    assert tail == b + [NEWLINE] + (contents + [NEWLINE] + rest);
    IndexOfIs(tail, NEWLINE, |b|) by { assert tail[..|b|] == b; }
    assert data[offset..offset + |b|] == tail[..|b|] == b;
    var start := offset + |b| + 1;
    var end := start + |contents|;
    assert data[start..end] == tail[|b| + 1..|b| + 1 + |contents|] == contents;
    assert data[end] == tail[|b| + 1 + |contents|] == NEWLINE;
    assert data[end + 1..] == tail[|b| + |contents| + 2..] == rest;
  }

  /** Anything read as a block is one, with a numeral that parses to the contents' length. */
  lemma BlockRead(data: Bytes, offset: nat, oid: string) returns (numeral: string)
    requires ParseBlock(data, offset, oid).Some? && Text.ValidSha(oid)
    ensures var (contents, next) := ParseBlock(data, offset, oid).value;
            && offset <= next <= |data| && Measures(numeral, contents)
            && data[offset..] == Block(oid, numeral, contents) + data[next..]
  {
    hide Split, ParseUnsigned, Text.ValidSha, Latin, Ascii, IndexOf;
    var tail := data[offset..];
    var k := IndexOf(tail, NEWLINE);
    var header := data[offset..offset + k];
    var text := Latin(header);
    var fields := Split(text, ' ');
    numeral := fields[2];
    assert fields == [oid, "blob", numeral];
    ThreeFields(text, ' ', oid, "blob", numeral);
    HeaderPlain(oid, numeral);
    LatinAscii(header);
    var (contents, next) := ParseBlock(data, offset, oid).value;
    assert tail == header + [NEWLINE] + (contents + [NEWLINE] + data[next..]);
  }

  // ---- The whole capture ----

  datatype File = File(name: string, executable: bool, contents: Bytes)

  /** What a capture holds: the files written below the source directory, and the pilot texts. */
  datatype Snapshot = Snapshot(files: seq<File>, original: string, pilot: string)

  const EMPTY: Snapshot := Snapshot([], "", "")

  /** Writing one file; the pilot's contents are replaced by the rendered text. */
  function Install<V(==)>(u: Utf8, y: C.Yaml<V>, image: string, s: Snapshot, e: Entry, contents: Bytes): Result<Snapshot, CaptureError> {
    if e.name != C.PILOT_PATH then Ok(s.(files := s.files + [File(e.name, e.executable, contents)])) else
    if |contents| > C.MAX_SOURCE_BYTES then Err(OutsideScope) else
    match u.decode(contents)
    case None => Err(OutsideScope)
    case Some(original) =>
      match C.Rendered(y, original, image)
      case Err(_) => Err(OutsideScope)
      case Ok(pilot) => Ok(Snapshot(s.files + [File(e.name, e.executable, u.encode(pilot))], original, pilot))
  }

  function InstallAll<V(==)>(u: Utf8, y: C.Yaml<V>, image: string, s: Snapshot, entries: seq<Entry>, contents: seq<Bytes>): Result<Snapshot, CaptureError>
    requires |entries| == |contents|
    decreases |entries|
  {
    if entries == [] then Ok(s) else
    match Install(u, y, image, s, entries[0], contents[0])
    case Err(e) => Err(e)
    case Ok(next) => InstallAll(u, y, image, next, entries[1..], contents[1..])
  }

  function ReadBlobs<V(==)>(u: Utf8, y: C.Yaml<V>, image: string, data: Bytes, offset: nat, entries: seq<Entry>, s: Snapshot): Result<(Snapshot, nat), CaptureError>
    decreases |entries|
  {
    if entries == [] then Ok((s, offset)) else
    match ParseBlock(data, offset, entries[0].oid)
    case None => Err(Unavailable)
    case Some((contents, next)) =>
      match Install(u, y, image, s, entries[0], contents)
      case Err(e) => Err(e)
      case Ok(installed) => ReadBlobs(u, y, image, data, next, entries[1..], installed)
  }

  function Captured<V(==)>(u: Utf8, y: C.Yaml<V>, image: string, data: Bytes, entries: seq<Entry>): Result<Snapshot, CaptureError> {
    if |data| > MAX_DATA then Err(Unavailable) else
    match ReadBlobs(u, y, image, data, 0, entries, EMPTY)
    case Err(e) => Err(e)
    case Ok((s, end)) => if s.original == "" || end != |data| then Err(OutsideScope) else Ok(s)
  }

  /** `capture` from the batch output on: one block per entry, then nothing left over. */
  method Capture<V(==)>(u: Utf8, y: C.Yaml<V>, image: string, data: Bytes, entries: seq<Entry>) returns (r: Result<Snapshot, CaptureError>)
    ensures r == Captured(u, y, image, data, entries)
  {
    hide ParseBlock, Install;
    if |data| > MAX_DATA { return Err(Unavailable); }
    var s, offset := EMPTY, 0;
    for i := 0 to |entries|
      invariant ReadBlobs(u, y, image, data, 0, entries, EMPTY) == ReadBlobs(u, y, image, data, offset, entries[i..], s)
    {
      assert entries[i..][0] == entries[i] && entries[i..][1..] == entries[i + 1..];
      var block := ParseBlock(data, offset, entries[i].oid);
      if block.None? { return Err(Unavailable); }
      var installed := Install(u, y, image, s, entries[i], block.value.0);
      if installed.Err? { return Err(installed.error); }
      s, offset := installed.value, block.value.1;
    }
    if s.original == "" || offset != |data| { return Err(OutsideScope); }
    return Ok(s);
  }

  /** The batch Git prints for these blobs, each length written as the given numeral. */
  function Blocks(entries: seq<Entry>, numerals: seq<string>, contents: seq<Bytes>): Bytes
    requires |entries| == |numerals| == |contents|
  {
    if entries == [] then [] else Block(entries[0].oid, numerals[0], contents[0]) + Blocks(entries[1..], numerals[1..], contents[1..])
  }

  predicate AllMeasure(numerals: seq<string>, contents: seq<Bytes>) {
    |numerals| == |contents| && forall i | 0 <= i < |contents| :: Measures(numerals[i], contents[i])
  }

  predicate ValidOids(entries: seq<Entry>) {
    forall i | 0 <= i < |entries| :: Text.ValidSha(entries[i].oid)
  }

  /** What a snapshot of these contents is: every file as is, except the rendered pilot, which must exist. */
  function Intended<V(==)>(u: Utf8, y: C.Yaml<V>, image: string, entries: seq<Entry>, contents: seq<Bytes>): Result<Snapshot, CaptureError>
    requires |entries| == |contents|
  {
    match InstallAll(u, y, image, EMPTY, entries, contents)
    case Err(e) => Err(e)
    case Ok(s) => if s.original == "" then Err(OutsideScope) else Ok(s)
  }

  lemma {:induction false} BlobsRead<V>(u: Utf8, y: C.Yaml<V>, image: string, data: Bytes, offset: nat, entries: seq<Entry>,
                                        numerals: seq<string>, contents: seq<Bytes>, s: Snapshot)
    requires offset <= |data| <= MAX_DATA && ValidOids(entries) && |entries| == |contents| && AllMeasure(numerals, contents)
    requires data[offset..] == Blocks(entries, numerals, contents)
    ensures ReadBlobs(u, y, image, data, offset, entries, s)
            == match InstallAll(u, y, image, s, entries, contents) case Ok(t) => Ok((t, |data|)) case Err(e) => Err(e)
    decreases |entries|
  {
    hide ParseBlock, Install, Block, Text.ValidSha, Measures;
    if entries != [] {
      var rest := Blocks(entries[1..], numerals[1..], contents[1..]);
      BlockReads(data, offset, entries[0].oid, numerals[0], contents[0], rest);
      var installed := Install(u, y, image, s, entries[0], contents[0]);
      if installed.Ok? {
        var next := offset + |Block(entries[0].oid, numerals[0], contents[0])|;
        BlobsRead(u, y, image, data, next, entries[1..], numerals[1..], contents[1..], installed.value);
      }
    }
  }

  lemma {:induction false} BlobsAre<V>(u: Utf8, y: C.Yaml<V>, image: string, data: Bytes, offset: nat, entries: seq<Entry>, s: Snapshot)
    returns (numerals: seq<string>, contents: seq<Bytes>)
    requires offset <= |data| && ValidOids(entries)
    requires var r := ReadBlobs(u, y, image, data, offset, entries, s); r.Ok? && r.value.1 == |data|
    ensures |entries| == |contents| && AllMeasure(numerals, contents) && data[offset..] == Blocks(entries, numerals, contents)
    decreases |entries|
  {
    hide ParseBlock, Install, Block, Text.ValidSha, Measures;
    if entries == [] {
      numerals, contents := [], [];
    } else {
      var numeral := BlockRead(data, offset, entries[0].oid);
      var (c, next) := ParseBlock(data, offset, entries[0].oid).value;
      var ns, cs := BlobsAre(u, y, image, data, next, entries[1..], Install(u, y, image, s, entries[0], c).value);
      numerals, contents := [numeral] + ns, [c] + cs;
      assert numerals[1..] == ns && contents[1..] == cs;
    }
  }

  /**
   Round trip: the batch Git prints for any contents, of arbitrary bytes, is read back exactly. The
   capture is the snapshot those contents intend, or fails exactly as they do.
   */
  lemma BatchRoundTrip<V>(u: Utf8, y: C.Yaml<V>, image: string, entries: seq<Entry>, contents: seq<Bytes>)
    requires ValidOids(entries) && |entries| == |contents| && |Blocks(entries, Lengths(contents), contents)| <= MAX_DATA
    ensures Captured(u, y, image, Blocks(entries, Lengths(contents), contents), entries) == Intended(u, y, image, entries, contents)
  {
    hide Blocks, ReadBlobs, InstallAll, Print;
    var data := Blocks(entries, Lengths(contents), contents);
    assert data[0..] == data;
    LengthsMeasure(entries, contents);
    BlobsRead(u, y, image, data, 0, entries, Lengths(contents), contents, EMPTY);
  }

  function Lengths(contents: seq<Bytes>): seq<string> {
    seq(|contents|, i requires 0 <= i < |contents| => Print(|contents[i]|))
  }

  lemma LengthsMeasure(entries: seq<Entry>, contents: seq<Bytes>)
    requires |entries| == |contents| && |Blocks(entries, Lengths(contents), contents)| <= MAX_DATA
    ensures AllMeasure(Lengths(contents), contents)
  {
    hide Print, ParseUnsigned, Blocks;
    forall i | 0 <= i < |contents| ensures Measures(Lengths(contents)[i], contents[i]) {
      ContentsFit(entries, Lengths(contents), contents, i);
      ParsePrinted(|contents[i]|, MAX_USIZE);
    }
  }

  lemma {:induction false} ContentsFit(entries: seq<Entry>, numerals: seq<string>, contents: seq<Bytes>, i: nat)
    requires |entries| == |numerals| == |contents| && i < |contents|
    ensures |contents[i]| < |Blocks(entries, numerals, contents)|
    decreases |entries|
  {
    if i > 0 {
      ContentsFit(entries[1..], numerals[1..], contents[1..], i - 1);
    }
  }

  /** What a capture can be read from: blocks in entry order, nothing else, each numeral the length of its contents. */
  ghost predicate IsBatch(data: Bytes, entries: seq<Entry>, numerals: seq<string>, contents: seq<Bytes>) {
    |data| <= MAX_DATA && |entries| == |contents| && AllMeasure(numerals, contents) && data == Blocks(entries, numerals, contents)
  }

  /**
   The capture succeeds if and only if the data is the entries' blocks, in order and with nothing
   left over, and the contents make a snapshot; that snapshot is the result.
   */
  lemma BatchExactly<V>(u: Utf8, y: C.Yaml<V>, image: string, data: Bytes, entries: seq<Entry>, s: Snapshot)
    requires ValidOids(entries)
    ensures Captured(u, y, image, data, entries) == Ok(s) <==>
              exists numerals, contents :: IsBatch(data, entries, numerals, contents) && Intended(u, y, image, entries, contents) == Ok(s)
  {
    hide Blocks, ReadBlobs, InstallAll, AllMeasure, ValidOids;
    assert data[0..] == data;
    if Captured(u, y, image, data, entries) == Ok(s) {
      var numerals, contents := BlobsAre(u, y, image, data, 0, entries, EMPTY);
      BlobsRead(u, y, image, data, 0, entries, numerals, contents, EMPTY);
      assert IsBatch(data, entries, numerals, contents);
    }
    if exists numerals, contents :: IsBatch(data, entries, numerals, contents) && Intended(u, y, image, entries, contents) == Ok(s) {
      var numerals, contents :| IsBatch(data, entries, numerals, contents) && Intended(u, y, image, entries, contents) == Ok(s);
      BlobsRead(u, y, image, data, 0, entries, numerals, contents, EMPTY);
    }
  }

  // ---- What is allowed, and what is written, exactly ----

  /** The characters from `i` to `j` are this part of a path: no slash inside, and a slash or an end on either side. */
  ghost predicate PartAt(name: string, i: int, j: int, part: string) {
    && 0 <= i <= j <= |name| && name[i..j] == part && '/' !in part
    && (i == 0 || name[i - 1] == '/') && (j == |name| || name[j] == '/')
  }

  lemma {:induction false} PartsExactly(name: string, part: string)
    ensures part in Split(name, '/') <==> exists i, j :: PartAt(name, i, j, part)
    decreases |name|
  {
    hide IndexOf, Split, PartAt;
    var k := IndexOf(name, '/');
    SplitUnfolds(name, '/');
    FirstPart(name, part);
    assert name[..|name|] == name;
    if k < |name| {
      var rest := name[k + 1..];
      PartsExactly(rest, part);
      if i, j :| PartAt(rest, i, j, part) {
        PartShifts(name, k, i, j, part);
      }
      if i, j :| PartAt(name, i, j, part) {
        if i > 0 {
          LaterPart(name, k, i, j, part);
        } else {
          OnlyFirst(name, i, j, part);
        }
      }
    } else if i, j :| PartAt(name, i, j, part) {
      OnlyFirst(name, i, j, part);
    }
  }

  lemma FirstPart(name: string, part: string)
    ensures var k := IndexOf(name, '/');
            && k <= |name| && (k < |name| ==> name[k] == '/') && (forall i | 0 <= i < k :: name[i] != '/')
            && (name[..k] == part ==> PartAt(name, 0, k, part))
  {
    var k := IndexOf(name, '/');
    assert forall i | 0 <= i < k :: name[i] in name[..k];
    assert name[0..k] == name[..k];
  }

  /** A part that begins the path, or any part of a path without a slash, is the first one. */
  lemma OnlyFirst(name: string, i: int, j: int, part: string)
    requires PartAt(name, i, j, part) && (i <= 0 || IndexOf(name, '/') == |name|)
    ensures part == name[..IndexOf(name, '/')]
  {
    hide IndexOf;
    var k := IndexOf(name, '/');
    FirstPart(name, part);
    assert i == 0;
    assert forall m | 0 <= m < j :: part[m] == name[m] && name[m] != '/';
    assert j == k && name[0..k] == name[..k];
  }

  lemma PartShifts(name: string, k: nat, i: int, j: int, part: string)
    requires k < |name| && name[k] == '/' && PartAt(name[k + 1..], i, j, part)
    ensures PartAt(name, k + 1 + i, k + 1 + j, part)
  {
    assert name[k + 1 + i..k + 1 + j] == name[k + 1..][i..j];
  }

  lemma LaterPart(name: string, k: nat, i: int, j: int, part: string)
    requires k < |name| && name[k] == '/' && (forall m | 0 <= m < k :: name[m] != '/') && PartAt(name, i, j, part) && i > 0
    ensures PartAt(name[k + 1..], i - (k + 1), j - (k + 1), part)
  {
    assert name[k + 1..][i - (k + 1)..j - (k + 1)] == name[i..j];
  }

  /**
   A path is safe if and only if it is not empty, has at most 512 bytes, no control character and no
   backslash, and none of its parts between slashes is empty, a dot, two dots or `.git`.
   */
  lemma SafePathExactly(u: Utf8, name: string)
    ensures SafePath(u, name) <==>
              && name != "" && |u.encode(name)| <= 512
              && (forall i | 0 <= i < |name| :: name[i] > '\U{001F}' && name[i] != '\U{007F}' && name[i] != '\\')
              && (forall i, j, part | PartAt(name, i, j, part) :: Ordinary(part))
  {
    hide Split, PartAt;
    forall part: string ensures part in Split(name, '/') <==> exists i, j :: PartAt(name, i, j, part) {
      PartsExactly(name, part);
    }
    forall part: string ensures Ordinary(part) <==> part !in ["", ".", "..", ".git"] {
    }
    PlainExactly(name);
  }

  ghost predicate Ordinary(part: string) {
    part != "" && part != "." && part != ".." && part != ".git"
  }

  lemma PlainExactly(name: string)
    ensures (forall i | 0 <= i < |name| :: name[i] > '\U{001F}' && name[i] != '\U{007F}' && name[i] != '\\') <==>
            (forall i | 0 <= i < |name| :: name[i] as int >= 32 && name[i] as int != 127 && name[i] != '\\')
  {
  }

  /** An entry is allowed if and only if its object is 40 or 64 lower-case hexadecimal digits and its path is safe. */
  lemma EntryExactly(u: Utf8, e: Entry)
    ensures ValidEntry(u, e) <==>
              (|e.oid| == 40 || |e.oid| == 64) && (forall i | 0 <= i < |e.oid| :: e.oid[i] in "0123456789abcdef") && SafePath(u, e.name)
  {
    hide SafePath;
    Text.LowerHexExactly(e.oid);
  }

  /** The record of an entry, spelled out. */
  lemma RecordText(e: Entry)
    ensures PrintEntry(e) == (if e.executable then "100755" else "100644") + " blob " + e.oid + "\t" + e.name
  {
    assert [' '] + ("blob" + [' '] + e.oid) == " blob " + e.oid;
    assert (if e.executable then "100755" else "100644") + ([' '] + ("blob" + [' '] + e.oid)) + ['\t'] + e.name == PrintEntry(e);
  }

  /** The request asks for every entry's object, one to a line, in order. */
  lemma {:induction false} WantedInOrder(entries: seq<Entry>)
    ensures Wanted(entries) == if entries == [] then "" else entries[0].oid + "\n" + Wanted(entries[1..])
    decreases |entries|
  {
    if |entries| > 1 {
      var n := |entries| - 1;
      WantedInOrder(entries[..n]);
      assert entries[..n][1..] == entries[1..][..n - 1];
      assert Wanted(entries[1..]) == Wanted(entries[1..][..n - 1]) + entries[n].oid + "\n";
      assert Wanted(entries) == entries[0].oid + "\n" + (Wanted(entries[..n][1..]) + entries[n].oid + "\n");
    } else if |entries| == 1 {
      assert entries[..0] == [] && entries[1..] == [];
    }
  }

  /** The pilot's contents are a text the rewrite succeeds on; every other file may hold anything. */
  ghost predicate Fitting<V>(u: Utf8, y: C.Yaml<V>, image: string, e: Entry, contents: Bytes) {
    e.name == "stacks/utility/compose.yml" ==>
      |contents| <= 256 * 1024 && u.decode(contents).Some? && C.Rendered(y, u.decode(contents).value, image).Ok?
  }

  ghost function OriginalText(u: Utf8, contents: Bytes): string {
    if u.decode(contents).Some? then u.decode(contents).value else ""
  }

  ghost function PilotText<V>(u: Utf8, y: C.Yaml<V>, image: string, contents: Bytes): string {
    var rendered := C.Rendered(y, OriginalText(u, contents), image);
    if rendered.Ok? then rendered.value else ""
  }

  /** One file of the snapshot: its name and mode, and its contents as they are, or rendered if it is the pilot. */
  ghost predicate WrittenAs<V>(u: Utf8, y: C.Yaml<V>, image: string, e: Entry, contents: Bytes, f: File) {
    && f.name == e.name && f.executable == e.executable
    && f.contents == if e.name == "stacks/utility/compose.yml" then u.encode(PilotText(u, y, image, contents)) else contents
  }

  ghost predicate LastPilot(entries: seq<Entry>, k: int) {
    0 <= k < |entries| && entries[k].name == "stacks/utility/compose.yml"
    && forall i | k < i < |entries| :: entries[i].name != "stacks/utility/compose.yml"
  }

  /** The pilot texts are those of the last pilot entry; without one they stay. */
  ghost predicate PilotOf<V>(u: Utf8, y: C.Yaml<V>, image: string, entries: seq<Entry>, contents: seq<Bytes>, s: Snapshot, t: Snapshot)
    requires |entries| == |contents|
  {
    && (forall k | LastPilot(entries, k) :: t.original == OriginalText(u, contents[k]) && t.pilot == PilotText(u, y, image, contents[k]))
    && ((forall i | 0 <= i < |entries| :: entries[i].name != "stacks/utility/compose.yml") ==> t.original == s.original && t.pilot == s.pilot)
  }

  /**
   What a snapshot is: writing succeeds if and only if the rewrite does on every pilot entry, and then
   every entry is one file, in order, as it is or rendered, and the last pilot gives the two texts.
   */
  lemma {:induction false} InstallsExactly<V>(u: Utf8, y: C.Yaml<V>, image: string, s: Snapshot, entries: seq<Entry>, contents: seq<Bytes>)
    requires |entries| == |contents|
    ensures var r, n := InstallAll(u, y, image, s, entries, contents), |s.files|;
            && (r.Ok? <==> forall i | 0 <= i < |entries| :: Fitting(u, y, image, entries[i], contents[i]))
            && (r.Err? ==> r.error == OutsideScope)
            && (r.Ok? ==>
                  && |r.value.files| == n + |entries| && r.value.files[..n] == s.files
                  && (forall i | 0 <= i < |entries| :: WrittenAs(u, y, image, entries[i], contents[i], r.value.files[n + i]))
                  && PilotOf(u, y, image, entries, contents, s, r.value))
    decreases |entries|
  {
    hide Fitting, WrittenAs, PilotOf, Install;
    if entries == [] {
      NothingInstalled(u, y, image, s);
    } else {
      InstallExactly(u, y, image, s, entries[0], contents[0]);
      FittingBehind(u, y, image, entries, contents);
      var first := Install(u, y, image, s, entries[0], contents[0]);
      if first.Ok? {
        var r := InstallAll(u, y, image, first.value, entries[1..], contents[1..]);
        InstallsExactly(u, y, image, first.value, entries[1..], contents[1..]);
        if r.Ok? {
          WrittenBehind(u, y, image, entries, contents, s, first.value, r.value);
          PilotBehind(u, y, image, entries, contents, s, first.value, r.value);
        }
      }
    }
  }

  lemma NothingInstalled<V>(u: Utf8, y: C.Yaml<V>, image: string, s: Snapshot)
    ensures s.files[..|s.files|] == s.files && PilotOf(u, y, image, [], [], s, s)
  {
  }

  lemma FittingBehind<V>(u: Utf8, y: C.Yaml<V>, image: string, entries: seq<Entry>, contents: seq<Bytes>)
    requires |entries| == |contents| && entries != []
    ensures (forall i | 0 <= i < |entries| :: Fitting(u, y, image, entries[i], contents[i])) <==>
              && Fitting(u, y, image, entries[0], contents[0])
              && forall i | 0 <= i < |entries[1..]| :: Fitting(u, y, image, entries[1..][i], contents[1..][i])
  {
    hide Fitting;
    assert forall i | 0 < i < |entries| :: entries[i] == entries[1..][i - 1] && contents[i] == contents[1..][i - 1];
  }

  lemma WrittenBehind<V>(u: Utf8, y: C.Yaml<V>, image: string, entries: seq<Entry>, contents: seq<Bytes>, s: Snapshot, first: Snapshot, t: Snapshot)
    requires |entries| == |contents| && entries != []
    requires |first.files| == |s.files| + 1 && first.files[..|s.files|] == s.files
    requires WrittenAs(u, y, image, entries[0], contents[0], first.files[|s.files|])
    requires |t.files| == |first.files| + |entries| - 1 && t.files[..|first.files|] == first.files
    requires forall i | 0 <= i < |entries| - 1 :: WrittenAs(u, y, image, entries[1..][i], contents[1..][i], t.files[|first.files| + i])
    ensures t.files[..|s.files|] == s.files
    ensures forall i | 0 <= i < |entries| :: WrittenAs(u, y, image, entries[i], contents[i], t.files[|s.files| + i])
  {
    hide WrittenAs;
    assert t.files[..|s.files|] == t.files[..|first.files|][..|s.files|];
    forall i | 0 <= i < |entries| ensures WrittenAs(u, y, image, entries[i], contents[i], t.files[|s.files| + i]) {
      if i > 0 {
        assert entries[1..][i - 1] == entries[i] && contents[1..][i - 1] == contents[i];
        assert |first.files| + (i - 1) == |s.files| + i;
      } else {
        assert t.files[|s.files|] == t.files[..|first.files|][|s.files|];
      }
    }
  }

  lemma InstallExactly<V>(u: Utf8, y: C.Yaml<V>, image: string, s: Snapshot, e: Entry, contents: Bytes)
    ensures var r := Install(u, y, image, s, e, contents);
            && (r.Ok? <==> Fitting(u, y, image, e, contents)) && (r.Err? ==> r.error == OutsideScope)
            && (r.Ok? ==>
                  && |r.value.files| == |s.files| + 1 && r.value.files[..|s.files|] == s.files
                  && WrittenAs(u, y, image, e, contents, r.value.files[|s.files|])
                  && PilotOf(u, y, image, [e], [contents], s, r.value))
  {
    hide C.Rendered;
    assert LastPilot([e], 0) <==> e.name == "stacks/utility/compose.yml";
    assert forall k | LastPilot([e], k) :: k == 0;
    assert forall i | 0 <= i < 1 :: [e][i] == e;
  }

  lemma PilotBehind<V>(u: Utf8, y: C.Yaml<V>, image: string, entries: seq<Entry>, contents: seq<Bytes>, s: Snapshot, first: Snapshot, t: Snapshot)
    requires |entries| == |contents| && entries != []
    requires PilotOf(u, y, image, [entries[0]], [contents[0]], s, first) && PilotOf(u, y, image, entries[1..], contents[1..], first, t)
    ensures PilotOf(u, y, image, entries, contents, s, t)
  {
    hide OriginalText, PilotText;
    var rest := entries[1..];
    assert forall i | 0 <= i < |rest| :: rest[i] == entries[i + 1] && contents[1..][i] == contents[i + 1];
    assert forall i | 0 < i < |entries| :: entries[i] == rest[i - 1];
    forall k | LastPilot(entries, k) ensures t.original == OriginalText(u, contents[k]) && t.pilot == PilotText(u, y, image, contents[k]) {
      if k > 0 {
        assert LastPilot(rest, k - 1);
      } else {
        assert LastPilot([entries[0]], 0);
      }
    }
    if forall i | 0 <= i < |entries| :: entries[i].name != "stacks/utility/compose.yml" {
      assert forall i | 0 <= i < 1 :: [entries[0]][i] == entries[0];
    }
  }

  /** The entry whose block begins at `at` ends the capture: it cannot be read, or cannot be written. */
  ghost predicate EndsAt<V>(u: Utf8, y: C.Yaml<V>, image: string, data: Bytes, at: nat, e: Entry, t: Snapshot, error: CaptureError) {
    match ParseBlock(data, at, e.oid)
    case None => error == Unavailable
    case Some((contents, _)) => !Fitting(u, y, image, e, contents) && error == OutsideScope
  }

  /** A failed reading names the first entry that fails, behind those read, and whether its block or its contents do. */
  lemma {:induction false} FirstFailure<V>(u: Utf8, y: C.Yaml<V>, image: string, data: Bytes, offset: nat, entries: seq<Entry>, s: Snapshot)
    returns (k: nat, t: Snapshot, at: nat)
    requires ReadBlobs(u, y, image, data, offset, entries, s).Err?
    ensures k < |entries| && ReadBlobs(u, y, image, data, offset, entries[..k], s) == Ok((t, at))
    ensures EndsAt(u, y, image, data, at, entries[k], t, ReadBlobs(u, y, image, data, offset, entries, s).error)
    decreases |entries|
  {
    hide ParseBlock, Install, Fitting, WrittenAs, PilotOf;
    var block := ParseBlock(data, offset, entries[0].oid);
    if block.Some? { InstallExactly(u, y, image, s, entries[0], block.value.0); }
    if block.None? || Install(u, y, image, s, entries[0], block.value.0).Err? {
      k, t, at := 0, s, offset;
    } else {
      var next := Install(u, y, image, s, entries[0], block.value.0).value;
      k, t, at := FirstFailure(u, y, image, data, block.value.1, entries[1..], next);
      k := k + 1;
      assert entries[..k][1..] == entries[1..][..k - 1];
    }
  }

  /** Which error a capture ends with: too much data, the first failure of an entry, or no pilot and data left over. */
  lemma CaptureFailsExactly<V>(u: Utf8, y: C.Yaml<V>, image: string, data: Bytes, entries: seq<Entry>)
    ensures var r := Captured(u, y, image, data, entries);
            var read := ReadBlobs(u, y, image, data, 0, entries, EMPTY);
            && (|data| > 64 * 1024 * 1024 ==> r == Err(Unavailable))
            && (|data| <= 64 * 1024 * 1024 && read.Err? ==>
                  && r == Err(read.error)
                  && exists k, t, at :: && 0 <= k < |entries| && ReadBlobs(u, y, image, data, 0, entries[..k], EMPTY) == Ok((t, at))
                                        && EndsAt(u, y, image, data, at, entries[k], t, read.error))
            && (|data| <= 64 * 1024 * 1024 && read.Ok? ==>
                  r == if read.value.0.original != "" && read.value.1 == |data| then Ok(read.value.0) else Err(OutsideScope))
  {
    hide ReadBlobs, EndsAt;
    if ReadBlobs(u, y, image, data, 0, entries, EMPTY).Err? {
      var k, t, at := FirstFailure(u, y, image, data, 0, entries, EMPTY);
    }
  }
}
