/** Incident identifiers: how the dispatcher prints them and reads them back (src/reasoning/dispatcher.rs). */
module IncidentId {
  import opened Outcomes
  import opened Decimal
  import opened Text

  const PREFIX: string := "incident-"
  const SEPARATOR: string := "-episode-"
  const MAX_U64: nat := 0xffff_ffff_ffff_ffff

  /** The identifier of one episode of a correlation key. */
  function Id(key: string, episode: nat): string {
    if episode == 1 then PREFIX + key else PREFIX + key + SEPARATOR + Print(episode)
  }

  /** Where the last separator begins: what `rsplit_once` cuts at. */
  function LastSeparator(s: string, end: nat): (r: Option<nat>)
    requires end <= |s|
    ensures r.Some? ==> r.value < end && At(s, r.value, SEPARATOR)
    ensures forall j: nat | (r.Some? ==> r.value < j) && j < end :: !At(s, j, SEPARATOR)
  {
    if end == 0 then None
    else if At(s, end - 1, SEPARATOR) then Some(end - 1)
    else LastSeparator(s, end - 1)
  }

  function StripPrefix(s: string): string {
    if At(s, 0, PREFIX) then s[|PREFIX|..] else s
  }

  function CorrelationKey(id: string): string {
    match LastSeparator(id, |id|)
    case Some(i) => StripPrefix(id[..i])
    case None => StripPrefix(id)
  }

  function EpisodeNumber(id: string): nat {
    match LastSeparator(id, |id|)
    case Some(i) =>
      (match ParseUnsigned(id[i + |SEPARATOR|..], MAX_U64)
       case Some(n) => n
       case None => 1)
    case None => 1
  }

  /** Keys whose first identifier shows no separator, not even one begun by the prefix's own dash. */
  ghost predicate PlainKey(key: string) {
    !Contains("-" + key, SEPARATOR)
  }

  lemma LastSeparatorIs(s: string, i: nat)
    requires i < |s| && At(s, i, SEPARATOR) && forall j: nat | i < j < |s| :: !At(s, j, SEPARATOR)
    ensures LastSeparator(s, |s|) == Some(i)
  {
  }

  /** After the printed separator only digits follow, so it is the last one whatever the key holds. */
  lemma NoSeparatorInTail(key: string, episode: nat, j: nat)
    requires |PREFIX + key| < j
    ensures !At(PREFIX + key + SEPARATOR + Print(episode), j, SEPARATOR)
  {
    var s, base := PREFIX + key + SEPARATOR + Print(episode), |PREFIX + key|;
    assert forall i | base <= i < base + 9 :: s[i] == SEPARATOR[i - base];
    assert forall i | base + 9 <= i < |s| :: s[i] == Print(episode)[i - base - 9];
    assert j + 1 < |s| ==> s[j] != '-' || s[j + 1] != 'e';
    assert j + 9 <= |s| ==> s[j..j + 9][0] == s[j] && s[j..j + 9][1] == s[j + 1];
  }

  /** A numbered identifier gives back its key and episode, for every key. */
  lemma NumberedIdReads(key: string, episode: nat)
    requires episode != 1 && episode <= MAX_U64
    ensures CorrelationKey(Id(key, episode)) == key && EpisodeNumber(Id(key, episode)) == episode
  {
    var s := Id(key, episode);
    var i := |PREFIX + key|;
    assert s[i..i + |SEPARATOR|] == SEPARATOR;
    forall j: nat | i < j < |s| ensures !At(s, j, SEPARATOR) { NoSeparatorInTail(key, episode, j); }
    LastSeparatorIs(s, i);
    assert s[..i] == PREFIX + key && s[i + |SEPARATOR|..] == Print(episode);
    assert At(PREFIX + key, 0, PREFIX) && (PREFIX + key)[|PREFIX|..] == key;
    ParsePrinted(episode, MAX_U64);
  }

  lemma FirstIdSeparators(key: string, j: nat)
    ensures At(PREFIX + key, j, SEPARATOR) <==> j >= 8 && At("-" + key, j - 8, SEPARATOR)
  {
    var s := PREFIX + key;
    if j >= 8 {
      assert s[8..] == "-" + key;
      if j + 9 <= |s| { assert s[j..j + 9] == s[8..][j - 8..j - 8 + 9]; }
    } else {
      assert s[j] == PREFIX[j] && s[j] != '-';
      assert j + 9 <= |s| ==> s[j..j + 9][0] == s[j];
    }
  }

  /** An unnumbered identifier gives back its key exactly when the key is plain. */
  lemma FirstIdReads(key: string)
    ensures CorrelationKey(Id(key, 1)) == key <==> PlainKey(key)
    ensures PlainKey(key) ==> EpisodeNumber(Id(key, 1)) == 1
  {
    var s := PREFIX + key;
    forall j: nat ensures At(s, j, SEPARATOR) <==> j >= 8 && At("-" + key, j - 8, SEPARATOR) {
      FirstIdSeparators(key, j);
    }
    assert s[|PREFIX|..] == key && At(s, 0, PREFIX);
    match LastSeparator(s, |s|)
    case None =>
      assert forall j: nat :: At("-" + key, j, SEPARATOR) ==> At(s, j + 8, SEPARATOR);
    case Some(i) =>
      assert At("-" + key, i - 8, SEPARATOR);
      CutIdIsShorter(key, i);
  }

  /** Cutting an unnumbered identifier at a separator never leaves the key. */
  lemma CutIdIsShorter(key: string, i: nat)
    requires i >= 8 && At(PREFIX + key, i, SEPARATOR)
    ensures StripPrefix((PREFIX + key)[..i]) != key
  {
    var s := PREFIX + key;
    if i == 8 {
      assert s[8..17] == SEPARATOR;
      assert s[9] == SEPARATOR[1] && key[0] == 'e';
      assert s[..8][0] == 'i';
    } else {
      assert s[..i][..9] == PREFIX;
    }
  }

  /** For plain keys the format is undone by the two readers, so it is injective. */
  lemma IdReads(key: string, episode: nat)
    requires PlainKey(key) && 1 <= episode <= MAX_U64
    ensures CorrelationKey(Id(key, episode)) == key && EpisodeNumber(Id(key, episode)) == episode
  {
    if episode == 1 { FirstIdReads(key); } else { NumberedIdReads(key, episode); }
  }

  /** Any identifier is cut at its last separator; what follows counts if it is a 64-bit number, and else the episode is the first. */
  lemma ReadsExactly(id: string)
    ensures forall i: nat | i < |id| && At(id, i, "-episode-") && forall j: nat | i < j < |id| :: !At(id, j, "-episode-") ::
              && CorrelationKey(id) == (if At(id[..i], 0, "incident-") then id[..i][9..] else id[..i])
              && var n := ParseUnsigned(id[i + 9..], 0xffff_ffff_ffff_ffff); EpisodeNumber(id) == if n.Some? then n.value else 1
    ensures (forall j: nat | j < |id| :: !At(id, j, "-episode-")) ==>
              CorrelationKey(id) == (if At(id, 0, "incident-") then id[9..] else id) && EpisodeNumber(id) == 1
  {
    hide ParseUnsigned;
    forall i: nat | i < |id| && At(id, i, SEPARATOR) && forall j: nat | i < j < |id| :: !At(id, j, SEPARATOR)
      ensures LastSeparator(id, |id|) == Some(i)
    {
      LastSeparatorIs(id, i);
    }
  }
}
