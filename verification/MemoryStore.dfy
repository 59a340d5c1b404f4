/** The delimiter store of memory entries and the merge of imported ones into it. */
module MemoryStore {
  import opened Text

  /** A line holding only the section sign. */
  const DELIMITER := "\n\U{A7}\n"

  // ----- Writing and parsing -----

  function Write(entries: seq<string>): string {
    if entries == [] then "" else Join(entries, DELIMITER) + "\n"
  }

  /** Strip every piece and keep the ones that are not blank. */
  function Keep(pieces: seq<string>): seq<string> {
    if pieces == [] then []
    else (if Strip(pieces[0]) == "" then [] else [Strip(pieces[0])]) + Keep(pieces[1..])
  }

  function Parse(raw: string): seq<string> {
    if Strip(raw) == "" then [] else Keep(Split(raw, DELIMITER))
  }

  predicate Entry(e: string) {
    e != "" && Stripped(e)
  }

  predicate Entries(entries: seq<string>) {
    forall i | 0 <= i < |entries| :: Entry(entries[i])
  }

  /** No delimiter inside the entry, not even one that the line break written after it would complete. */
  predicate Safe(e: string) {
    !Contains(e + "\n", DELIMITER)
  }

  lemma NoDelimiterInside(e: string, rest: string)
    requires Safe(e)
    ensures forall i | 0 <= i < |e| :: !At(e + (DELIMITER + rest), i, DELIMITER)
    ensures forall i | 0 <= i < |e + "\n"| :: !At(e + "\n" + "", i, DELIMITER)
  {
    var whole := e + (DELIMITER + rest);
    forall i | 0 <= i < |e|
      ensures !At(whole, i, DELIMITER)
    {
      WindowInside(e, rest, i);
    }
    assert e + "\n" + "" == e + "\n";
    forall i | 0 <= i < |e + "\n"|
      ensures !At(e + "\n", i, DELIMITER)
    {
    }
  }

  /** Up to its next-to-last character an entry followed by a delimiter reads like the entry followed by a break. */
  lemma WindowInside(e: string, rest: string, i: nat)
    requires i < |e|
    ensures At(e + (DELIMITER + rest), i, DELIMITER) <==> At(e + "\n", i, DELIMITER)
  {
    var whole, short := e + (DELIMITER + rest), e + "\n";
    assert whole[..|e| + 1] == short;
    if i + 3 <= |e| + 1 {
      assert whole[i..i + 3] == short[i..i + 3];
    } else {
      assert whole[i + 1] == '\n' && DELIMITER[1] != '\n';
      assert i + 3 <= |whole| ==> whole[i..i + 3][1] == whole[i + 1];
    }
  }

  lemma SplitOneEntry(e: string, rest: string)
    requires Safe(e)
    ensures Split(e + DELIMITER + rest, DELIMITER) == [e] + Split(rest, DELIMITER)
    ensures Split(e + "\n", DELIMITER) == [e + "\n"]
  {
    NoDelimiterInside(e, rest);
    assert e + DELIMITER + rest == e + (DELIMITER + rest);
    ScanOver("", e, DELIMITER + rest, DELIMITER);
    assert "" + e == e;
    assert (DELIMITER + rest)[0..|DELIMITER|] == DELIMITER && (DELIMITER + rest)[|DELIMITER|..] == rest;
    ScanOver("", e + "\n", "", DELIMITER);
    assert e + "\n" + "" == e + "\n" && "" + (e + "\n") == e + "\n";
  }

  lemma WriteCons(entries: seq<string>)
    requires |entries| > 1
    ensures Write(entries) == entries[0] + DELIMITER + Write(entries[1..])
  {
    assert entries[0] + DELIMITER + Join(entries[1..], DELIMITER) + "\n" ==
           entries[0] + DELIMITER + (Join(entries[1..], DELIMITER) + "\n");
  }

  lemma KeepEntry(e: string, pieces: seq<string>)
    requires Entry(e)
    ensures Keep([e] + pieces) == [e] + Keep(pieces)
    ensures Keep([e + "\n"]) == [e]
  {
    StripOfStripped(e);
    StripNewline(e);
    assert ([e] + pieces)[1..] == pieces;
    assert [e + "\n"][1..] == [] && Keep([]) == [];
  }

  lemma SafeConsComesBack(e: string, text: string, back: seq<string>)
    requires Entry(e) && Safe(e) && Keep(Split(text, DELIMITER)) == back
    ensures Keep(Split(e + DELIMITER + text, DELIMITER)) == [e] + back
  {
    SplitOneEntry(e, text);
    KeepEntry(e, Split(text, DELIMITER));
  }

  lemma {:induction false} SafePiecesComeBack(entries: seq<string>)
    requires entries != [] && Entries(entries) && forall i | 0 <= i < |entries| :: Safe(entries[i])
    ensures Keep(Split(Write(entries), DELIMITER)) == entries
    decreases |entries|
  {
    var e, rest := entries[0], entries[1..];
    assert entries == [e] + rest;
    if rest == [] {
      assert Write(entries) == e + "\n";
      SplitOneEntry(e, "");
      KeepEntry(e, []);
    } else {
      SafePiecesComeBack(rest);
      WriteCons(entries);
      SafeConsComesBack(e, Write(rest), rest);
    }
  }

  lemma WriteIsNotBlank(entries: seq<string>)
    requires entries != [] && Entries(entries)
    ensures Strip(Write(entries)) != ""
  {
    assert Write(entries)[0] == entries[0][0];
    assert LStrip(Write(entries)) == Write(entries);
  }

  /** Where the delimiter first occurs in an unsafe entry, counting the break after it. */
  lemma FirstDelimiter(e: string) returns (i: nat)
    requires Entry(e) && !Safe(e)
    ensures 0 < i < |e| && At(e + "\n", i, DELIMITER)
    ensures forall j | 0 <= j < i :: !At(e + "\n", j, DELIMITER)
  {
    var k :| 0 <= k <= |e + "\n"| && At(e + "\n", k, DELIMITER);
    assert IsSpace('\n') && (e + "\n")[0] == e[0];
    i := 0;
    while !At(e + "\n", i, DELIMITER)
      invariant i <= k
      invariant forall j | 0 <= j < i :: !At(e + "\n", j, DELIMITER)
      decreases k - i
    {
      i := i + 1;
    }
    assert |DELIMITER| <= |e + "\n"| ==> (e + "\n")[0..|DELIMITER|][0] == e[0];
  }

  /** An unsafe entry comes back shorter, whatever follows it. */
  lemma UnsafeEntryIsCut(e: string, tail: string)
    requires Entry(e) && !Safe(e)
    requires tail == "\n" || exists rest :: tail == DELIMITER + rest
    ensures var kept := Keep(Split(e + tail, DELIMITER)); kept != [] && |kept[0]| < |e|
  {
    var i := FirstDelimiter(e);
    forall j | 0 <= j <= i
      ensures At(e + tail, j, DELIMITER) <==> At(e + "\n", j, DELIMITER)
    {
      if tail != "\n" {
        var rest :| tail == DELIMITER + rest;
        WindowInside(e, rest, j);
      }
    }
    var a, b := e[..i], (e + tail)[i..];
    assert a + b == e + tail;
    ScanOver("", a, b, DELIMITER);
    assert "" + a == a;
    assert At(e + tail, i, DELIMITER);
    assert b[0..|DELIMITER|] == (e + tail)[i..i + |DELIMITER|];
    assert At(b, 0, DELIMITER);
    StripPrefix(e, i);
  }

  lemma {:induction false} UnsafeEntryIsLost(entries: seq<string>)
    requires Entries(entries) && exists i :: 0 <= i < |entries| && !Safe(entries[i])
    ensures Keep(Split(Write(entries), DELIMITER)) != entries
    decreases |entries|
  {
    var e := entries[0];
    if |entries| > 1 {
      WriteCons(entries);
    }
    if !Safe(e) {
      if |entries| == 1 {
        UnsafeEntryIsCut(e, "\n");
      } else {
        assert Write(entries) == e + (DELIMITER + Write(entries[1..]));
        UnsafeEntryIsCut(e, DELIMITER + Write(entries[1..]));
      }
    } else {
      SplitOneEntry(e, Write(entries[1..]));
      StripOfStripped(e);
      UnsafeEntryIsLost(entries[1..]);
    }
  }

  /** The store round-trips a list of stripped entries exactly when every entry is safe. */
  lemma RoundTripIff(entries: seq<string>)
    requires Entries(entries)
    ensures Parse(Write(entries)) == entries <==> forall i | 0 <= i < |entries| :: Safe(entries[i])
  {
    if entries != [] {
      WriteIsNotBlank(entries);
      if forall i | 0 <= i < |entries| :: Safe(entries[i]) {
        SafePiecesComeBack(entries);
      } else {
        UnsafeEntryIsLost(entries);
      }
    }
  }

  /** In particular single-line entries come back, even one that is itself the section sign. */
  lemma OneLineRoundTrip(entries: seq<string>)
    requires Entries(entries) && forall i | 0 <= i < |entries| :: OneLine(entries[i])
    ensures Parse(Write(entries)) == entries
  {
    forall i | 0 <= i < |entries|
      ensures Safe(entries[i])
    {
      OneLineIsSafe(entries[i]);
    }
    RoundTripIff(entries);
  }

  lemma OneLineIsSafe(e: string)
    requires OneLine(e) && e != ""
    ensures Safe(e)
  {
    forall k | 0 <= k <= |e + "\n"|
      ensures !At(e + "\n", k, DELIMITER)
    {
      if k + 3 <= |e| + 1 {
        assert (e + "\n")[k..k + 3][0] == e[k];
        assert IsBreak('\n');
      }
    }
  }

  /** An entry that ends with the section sign on a line of its own is what a hand-edited store can contain, and it
      does not survive being written back. */
  lemma HandEditedEntryBreaks()
    ensures var raw := "x\n\U{A7}"; Parse(raw) == [raw] && Parse(Write([raw])) != [raw]
  {
    var raw := "x\n\U{A7}";
    assert Entry(raw);
    StripOfStripped(raw);
    forall i | 0 <= i < |raw|
      ensures !At(raw + "", i, DELIMITER)
    {
    }
    ScanOver("", raw, "", DELIMITER);
    assert raw + "" == raw && "" + raw == raw;
    assert Keep([raw]) == [raw] + Keep([]);
    assert (raw + "\n")[1..4] == DELIMITER;
    assert At(raw + "\n", 1, DELIMITER);
    RoundTripIff([raw]);
  }

  // ----- Merging -----

  /** What happens to one incoming entry. */
  datatype Verdict = Blank | Duplicate | Overflow | Added

  datatype Stats = Stats(existing: nat, added: nat, duplicates: nat, overflowed: nat)

  /** Normal forms of the entries listed so far. */
  function Seen(norm: string -> string, entries: seq<string>): set<string> {
    set i | 0 <= i < |entries| && norm(entries[i]) != "" :: norm(entries[i])
  }

  function JoinedLength(entries: seq<string>): nat {
    |Join(entries, DELIMITER)|
  }

  function CandidateLength(entries: seq<string>, entry: string): nat {
    if entries == [] then |entry| else JoinedLength(entries) + |DELIMITER| + |entry|
  }

  function Judge(norm: string -> string, entries: seq<string>, entry: string, limit: int): Verdict {
    if norm(entry) == "" then Blank
    else if norm(entry) in Seen(norm, entries) then Duplicate
    else if CandidateLength(entries, entry) > limit then Overflow
    else Added
  }

  /** The merged list after all incoming entries, and how often each verdict fell. */
  function MergeAll(norm: string -> string, existing: seq<string>, incoming: seq<string>, limit: int): seq<string> {
    if incoming == [] then existing
    else
      var before := MergeAll(norm, existing, incoming[..|incoming| - 1], limit);
      var last := incoming[|incoming| - 1];
      if Judge(norm, before, last, limit).Added? then before + [last] else before
  }

  function Verdicts(norm: string -> string, existing: seq<string>, incoming: seq<string>, limit: int, v: Verdict): nat {
    if incoming == [] then 0
    else
      var init := incoming[..|incoming| - 1];
      var before := MergeAll(norm, existing, init, limit);
      Verdicts(norm, existing, init, limit, v) +
      if Judge(norm, before, incoming[|incoming| - 1], limit) == v then 1 else 0
  }

  lemma {:induction false} JoinSnoc(entries: seq<string>, entry: string)
    ensures JoinedLength(entries + [entry]) == CandidateLength(entries, entry)
    decreases |entries|
  {
    if entries == [] {
      assert [] + [entry] == [entry];
    } else {
      assert (entries + [entry])[0] == entries[0] && (entries + [entry])[1..] == entries[1..] + [entry];
      JoinSnoc(entries[1..], entry);
    }
  }

  lemma SeenSnoc(norm: string -> string, entries: seq<string>, entry: string)
    ensures Seen(norm, entries + [entry]) == Seen(norm, entries) + if norm(entry) == "" then {} else {norm(entry)}
  {
    var all := entries + [entry];
    forall n | n in Seen(norm, entries)
      ensures n in Seen(norm, all)
    {
      var i :| 0 <= i < |entries| && norm(entries[i]) != "" && norm(entries[i]) == n;
      assert all[i] == entries[i];
    }
    assert all[|entries|] == entry;
  }

  /** `merge_entries`: the set of seen normal forms and the running length always describe the merged list. */
  method MergeEntries(norm: string -> string, existing: seq<string>, incoming: seq<string>, limit: int)
    returns (merged: seq<string>, stats: Stats)
    ensures merged == MergeAll(norm, existing, incoming, limit)
    ensures stats == Stats(|existing|, Verdicts(norm, existing, incoming, limit, Added),
                           Verdicts(norm, existing, incoming, limit, Duplicate),
                           Verdicts(norm, existing, incoming, limit, Overflow))
  {
    merged := existing;
    var seen := set i | 0 <= i < |existing| && norm(existing[i]) != "" :: norm(existing[i]);
    var added, duplicates, overflowed := 0, 0, 0;
    var currentLength := if merged == [] then 0 else JoinedLength(merged);
    for k := 0 to |incoming|
      invariant merged == MergeAll(norm, existing, incoming[..k], limit)
      invariant seen == Seen(norm, merged) && currentLength == JoinedLength(merged)
      invariant added == Verdicts(norm, existing, incoming[..k], limit, Added)
      invariant duplicates == Verdicts(norm, existing, incoming[..k], limit, Duplicate)
      invariant overflowed == Verdicts(norm, existing, incoming[..k], limit, Overflow)
    {
      var entry := incoming[k];
      assert incoming[..k + 1][..k] == incoming[..k];
      var normalized := norm(entry);
      if normalized == "" {
        continue;
      }
      if normalized in seen {
        duplicates := duplicates + 1;
        continue;
      }
      var candidate := if merged == [] then |entry| else currentLength + |DELIMITER| + |entry|;
      if candidate > limit {
        overflowed := overflowed + 1;
        continue;
      }
      JoinSnoc(merged, entry);
      SeenSnoc(norm, merged, entry);
      merged := merged + [entry];
      seen := seen + {normalized};
      currentLength := candidate;
      added := added + 1;
    }
    assert incoming[..|incoming|] == incoming;
    stats := Stats(|existing|, added, duplicates, overflowed);
  }

  /** Existing entries stay in front, the joined text respects the limit unless it was already longer, no added entry
      repeats a normal form, and every incoming entry is accounted for by exactly one verdict. */
  lemma {:induction false} MergeLaws(norm: string -> string, existing: seq<string>, incoming: seq<string>, limit: int)
    ensures var merged := MergeAll(norm, existing, incoming, limit);
            && existing <= merged
            && |merged| == |existing| + Verdicts(norm, existing, incoming, limit, Added)
            && JoinedLength(merged) <= (if JoinedLength(existing) >= limit then JoinedLength(existing) else limit)
            && (forall i | |existing| <= i < |merged| :: norm(merged[i]) != "" && merged[i] in incoming)
            && (forall i, j | 0 <= i < j < |merged| && |existing| <= j :: norm(merged[i]) != norm(merged[j]))
            && Verdicts(norm, existing, incoming, limit, Blank) + Verdicts(norm, existing, incoming, limit, Added)
               + Verdicts(norm, existing, incoming, limit, Duplicate)
               + Verdicts(norm, existing, incoming, limit, Overflow)
               == |incoming|
    decreases |incoming|
  {
    if incoming == [] {
    } else {
      var init, last := incoming[..|incoming| - 1], incoming[|incoming| - 1];
      MergeLaws(norm, existing, init, limit);
      var before := MergeAll(norm, existing, init, limit);
      if Judge(norm, before, last, limit).Added? {
        JoinSnoc(before, last);
        forall i | 0 <= i < |before|
          ensures norm(before[i]) != norm(last)
        {
          assert norm(before[i]) == "" || norm(before[i]) in Seen(norm, before);
        }
      }
    }
  }

  lemma {:induction false} MergeGrows(norm: string -> string, existing: seq<string>, incoming: seq<string>, limit: int,
                                      k: nat)
    requires k <= |incoming|
    ensures MergeAll(norm, existing, incoming[..k], limit) <= MergeAll(norm, existing, incoming, limit)
    decreases |incoming|
  {
    if k == |incoming| {
      assert incoming[..k] == incoming;
    } else {
      MergeGrows(norm, existing, incoming[..|incoming| - 1], limit, k);
      assert incoming[..|incoming| - 1][..k] == incoming[..k];
    }
  }

  lemma {:induction false} LongerListLongerText(a: seq<string>, b: seq<string>, entry: string)
    requires a <= b
    ensures CandidateLength(a, entry) <= CandidateLength(b, entry)
    decreases |b|
  {
    if |a| < |b| {
      var init := b[..|b| - 1];
      assert b == init + [b[|b| - 1]];
      JoinSnoc(init, b[|b| - 1]);
      LongerListLongerText(a, init, entry);
    } else {
      assert a == b;
    }
  }

  lemma SeenGrows(norm: string -> string, a: seq<string>, b: seq<string>)
    requires a <= b
    ensures Seen(norm, a) <= Seen(norm, b)
  {
    forall n | n in Seen(norm, a)
      ensures n in Seen(norm, b)
    {
      var i :| 0 <= i < |a| && norm(a[i]) != "" && norm(a[i]) == n;
      assert b[i] == a[i];
    }
  }

  /** An entry that was offered once is not added later: it is blank, listed by now, or still too long. */
  lemma OfferedOnceNeverAdded(norm: string -> string, existing: seq<string>, incoming: seq<string>, limit: int, k: nat)
    requires k < |incoming|
    ensures !Judge(norm, MergeAll(norm, existing, incoming, limit), incoming[k], limit).Added?
  {
    var before := MergeAll(norm, existing, incoming[..k], limit);
    var after := MergeAll(norm, existing, incoming[..k + 1], limit);
    var final := MergeAll(norm, existing, incoming, limit);
    assert incoming[..k + 1][..k] == incoming[..k];
    MergeGrows(norm, existing, incoming, limit, k);
    MergeGrows(norm, existing, incoming, limit, k + 1);
    SeenGrows(norm, before, final);
    SeenGrows(norm, after, final);
    SeenSnoc(norm, before, incoming[k]);
    LongerListLongerText(before, final, incoming[k]);
  }

  lemma {:induction false} SecondMergeAddsNothing(norm: string -> string, existing: seq<string>, incoming: seq<string>,
                                                  limit: int, k: nat)
    requires k <= |incoming|
    ensures var merged := MergeAll(norm, existing, incoming, limit);
            && MergeAll(norm, merged, incoming[..k], limit) == merged
            && Verdicts(norm, merged, incoming[..k], limit, Added) == 0
    decreases k
  {
    if k > 0 {
      SecondMergeAddsNothing(norm, existing, incoming, limit, k - 1);
      assert incoming[..k][..k - 1] == incoming[..k - 1];
      OfferedOnceNeverAdded(norm, existing, incoming, limit, k - 1);
    }
  }

  /** Importing the same entries again changes nothing, not even for those that overflowed the first time. */
  lemma MergeIsIdempotent(norm: string -> string, existing: seq<string>, incoming: seq<string>, limit: int)
    ensures var merged := MergeAll(norm, existing, incoming, limit);
            && MergeAll(norm, merged, incoming, limit) == merged
            && Verdicts(norm, merged, incoming, limit, Added) == 0
  {
    SecondMergeAddsNothing(norm, existing, incoming, limit, |incoming|);
    assert incoming[..|incoming|] == incoming;
  }
}
