/** Turning a markdown document into memory entries, and the whole import pipeline built on it. */
module Extractor {
  import opened Text
  import opened MemoryStore

  /** `lower` is Python's case folding for the normal form, `hidden` the test for headings that are file names. */
  datatype Rules = Rules(lower: string -> string, hidden: string -> bool)

  // ----- Normal forms -----

  /** `re.sub(r"\s+", " ", s)` */
  function Collapse(s: string): string {
    if s == "" then ""
    else if !IsSpace(s[0]) then [s[0]] + Collapse(s[1..])
    else if |s| > 1 && IsSpace(s[1]) then Collapse(s[1..])
    else " " + Collapse(s[1..])
  }

  function Normalize(rules: Rules, s: string): string {
    rules.lower(Collapse(Strip(s)))
  }

  lemma {:induction false} CollapseKeepsSomething(s: string)
    ensures Collapse(s) == "" <==> s == ""
    decreases |s|
  {
    if s != "" && IsSpace(s[0]) && |s| > 1 && IsSpace(s[1]) {
      CollapseKeepsSomething(s[1..]);
    }
  }

  /** Lower-casing maps nothing but the empty string to the empty string. */
  ghost predicate LowerOk(rules: Rules) {
    forall s :: rules.lower(s) == "" <==> s == ""
  }

  /** A normal form is empty exactly for blank text, so the merge's two blankness tests agree. */
  lemma NormalizeBlank(rules: Rules, s: string)
    requires LowerOk(rules)
    ensures Normalize(rules, s) == "" <==> Strip(s) == ""
  {
    CollapseKeepsSomething(Strip(s));
  }

  // ----- Lines -----

  /** `str.splitlines`; "\r\n" is one break, and a final break opens no new line. */
  function LinesFrom(line: string, s: string): seq<string>
    decreases |s|
  {
    if s == "" then (if line == "" then [] else [line])
    else if |s| > 1 && s[0] == '\r' && s[1] == '\n' then [line] + LinesFrom("", s[2..])
    else if IsBreak(s[0]) then [line] + LinesFrom("", s[1..])
    else LinesFrom(line + [s[0]], s[1..])
  }

  function SplitLines(s: string): seq<string> {
    LinesFrom("", s)
  }

  predicate AllOneLine(lines: seq<string>) {
    forall i | 0 <= i < |lines| :: OneLine(lines[i])
  }

  lemma {:induction false} LinesAreOneLine(line: string, s: string)
    requires OneLine(line)
    ensures AllOneLine(LinesFrom(line, s))
    decreases |s|
  {
    if s == "" {
    } else if |s| > 1 && s[0] == '\r' && s[1] == '\n' {
      LinesAreOneLine("", s[2..]);
    } else if IsBreak(s[0]) {
      LinesAreOneLine("", s[1..]);
    } else {
      LinesAreOneLine(line + [s[0]], s[1..]);
    }
  }

  // ----- What a line is -----

  datatype Line =
    | Fence | Heading(level: nat, title: string) | Bullet(content: string) | Empty | TableRow | Prose(words: string)

  function CountHashes(s: string): (n: nat)
    ensures n <= |s|
  {
    if s != "" && s[0] == '#' then 1 + CountHashes(s[1..]) else 0
  }

  function CountDigits(s: string): (n: nat)
    ensures n <= |s|
  {
    if s != "" && '0' <= s[0] <= '9' then 1 + CountDigits(s[1..]) else 0
  }

  /** Length of a list marker at the start of a line: a dash, a star, or digits and a dot. */
  function MarkerLength(s: string): (n: nat)
    ensures n <= |s|
  {
    if s != "" && (s[0] == '-' || s[0] == '*') then 1
    else
      var d := CountDigits(s);
      if 0 < d < |s| && s[d] == '.' then d + 1 else 0
  }

  function StartsWith(s: string, prefix: string): bool {
    |prefix| <= |s| && s[..|prefix|] == prefix
  }

  function HeadingOf(stripped: string): Line {
    var n := CountHashes(stripped);
    if 1 <= n <= 6 && n < |stripped| && IsSpace(stripped[n]) then Heading(n, Strip(stripped[n..])) else Empty
  }

  function BulletOf(stripped: string): Line {
    var n := MarkerLength(stripped);
    if 0 < n < |stripped| && IsSpace(stripped[n]) then Bullet(Strip(stripped[n..])) else Empty
  }

  /** The tests of the line loop in their order. */
  function Classify(stripped: string): Line {
    if StartsWith(stripped, "```") then Fence
    else if HeadingOf(stripped).Heading? then HeadingOf(stripped)
    else if BulletOf(stripped).Bullet? then BulletOf(stripped)
    else if stripped == "" then Empty
    else if stripped[0] == '|' && stripped[|stripped| - 1] == '|' then TableRow
    else Prose(stripped)
  }

  // ----- The line loop -----

  datatype State = State(entries: seq<string>, headings: seq<string>, paragraph: seq<string>, inCode: bool)

  const START := State([], [], [], false)

  function Visible(rules: Rules, headings: seq<string>): seq<string> {
    if headings == [] then []
    else
      var last := headings[|headings| - 1];
      Visible(rules, headings[..|headings| - 1]) + (if last != "" && !rules.hidden(last) then [last] else [])
  }

  function WithContext(rules: Rules, s: State, content: string): string {
    var prefix := Join(Visible(rules, s.headings), " > ");
    if prefix == "" then content else prefix + ": " + content
  }

  function Flush(rules: Rules, s: State): State {
    if s.paragraph == [] then s
    else
      var block := Strip(Join(s.paragraph, " "));
      s.(paragraph := [], entries := if block == "" then s.entries else s.entries + [WithContext(rules, s, block)])
  }

  /** One round of the line loop, once the line is classified. */
  function TakeLine(rules: Rules, s: State, line: Line): State {
    if line.Fence? then Flush(rules, s.(inCode := !s.inCode))
    else if s.inCode then s
    else if line.Prose? then s.(paragraph := s.paragraph + [line.words])
    else
      var f := Flush(rules, s);
      if line.Heading? then f.(headings := Above(f.headings, line.level) + [line.title])
      else if line.Bullet? then f.(entries := f.entries + [WithContext(rules, f, line.content)])
      else f
  }

  /** The headings a heading of this level stands under. */
  function Above(headings: seq<string>, level: nat): seq<string> {
    if 1 <= level <= |headings| then headings[..level - 1] else headings
  }

  function ReadLines(rules: Rules, lines: seq<string>): State {
    if lines == [] then START
    else TakeLine(rules, ReadLines(rules, lines[..|lines| - 1]), Classify(Strip(lines[|lines| - 1])))
  }

  /** The first entry of each normal form, blanks dropped. */
  function FirstOfEach(norm: string -> string, entries: seq<string>): seq<string> {
    if entries == [] then []
    else
      var init, last := entries[..|entries| - 1], entries[|entries| - 1];
      FirstOfEach(norm, init) + (if norm(last) == "" || norm(last) in NormalForms(norm, init) then [] else [last])
  }

  function NormalForms(norm: string -> string, entries: seq<string>): set<string> {
    set i | 0 <= i < |entries| :: norm(entries[i])
  }

  function StripAll(entries: seq<string>): seq<string> {
    seq(|entries|, i requires 0 <= i < |entries| => Strip(entries[i]))
  }

  function Norm(rules: Rules): string -> string {
    s => Normalize(rules, s)
  }

  function Extract(rules: Rules, text: string): seq<string> {
    StripAll(FirstOfEach(Norm(rules), Flush(rules, ReadLines(rules, SplitLines(text))).entries))
  }

  // ----- Every extracted entry fits the store -----

  lemma {:induction false} JoinOneLine(parts: seq<string>, separator: string)
    requires AllOneLine(parts) && OneLine(separator)
    ensures OneLine(Join(parts, separator))
    decreases |parts|
  {
    if |parts| > 1 {
      JoinOneLine(parts[1..], separator);
    }
  }

  lemma {:induction false} VisibleOneLine(rules: Rules, headings: seq<string>)
    requires AllOneLine(headings)
    ensures AllOneLine(Visible(rules, headings))
    decreases |headings|
  {
    if headings != [] {
      VisibleOneLine(rules, headings[..|headings| - 1]);
    }
  }

  ghost predicate StateOneLine(s: State) {
    AllOneLine(s.entries) && AllOneLine(s.headings) && AllOneLine(s.paragraph)
  }

  lemma ContextOneLine(rules: Rules, s: State, content: string)
    requires StateOneLine(s) && OneLine(content)
    ensures OneLine(WithContext(rules, s, content))
  {
    VisibleOneLine(rules, s.headings);
    JoinOneLine(Visible(rules, s.headings), " > ");
  }

  lemma AllOneLineSnoc(lines: seq<string>, line: string)
    requires AllOneLine(lines) && OneLine(line)
    ensures AllOneLine(lines + [line])
  {
  }

  lemma FlushBlockOneLine(rules: Rules, s: State, block: string)
    requires StateOneLine(s) && OneLine(block)
    ensures AllOneLine(if block == "" then s.entries else s.entries + [WithContext(rules, s, block)])
  {
    ContextOneLine(rules, s, block);
    AllOneLineSnoc(s.entries, WithContext(rules, s, block));
  }

  lemma FlushOneLine(rules: Rules, s: State)
    requires StateOneLine(s)
    ensures StateOneLine(Flush(rules, s))
  {
    if s.paragraph != [] {
      JoinOneLine(s.paragraph, " ");
      FlushBlockOneLine(rules, s, Strip(Join(s.paragraph, " ")));
    }
  }

  /** The text a line contributes. */
  function Words(line: Line): string {
    match line
    case Heading(_, title) => title
    case Bullet(content) => content
    case Prose(words) => words
    case _ => ""
  }

  lemma PartsOneLine(stripped: string)
    requires OneLine(stripped)
    ensures OneLine(Words(HeadingOf(stripped))) && OneLine(Words(BulletOf(stripped)))
  {
    assert OneLine(stripped[CountHashes(stripped)..]) && OneLine(stripped[MarkerLength(stripped)..]);
  }

  lemma ClassifyOneLine(stripped: string)
    requires OneLine(stripped)
    ensures OneLine(Words(Classify(stripped)))
  {
    PartsOneLine(stripped);
    var heading, bullet := HeadingOf(stripped), BulletOf(stripped);
    if StartsWith(stripped, "```") {
    } else if heading.Heading? {
    } else if bullet.Bullet? {
    }
  }

  lemma LineOneLine(rules: Rules, s: State, line: Line)
    requires StateOneLine(s) && OneLine(Words(line))
    ensures StateOneLine(TakeLine(rules, s, line))
  {
    if line.Fence? {
      FlushOneLine(rules, s.(inCode := !s.inCode));
    } else {
      FlushOneLine(rules, s);
      if line.Bullet? {
        ContextOneLine(rules, Flush(rules, s), line.content);
      }
    }
  }

  lemma {:induction false} ReadOneLine(rules: Rules, lines: seq<string>)
    requires AllOneLine(lines)
    ensures StateOneLine(ReadLines(rules, lines))
    decreases |lines|
  {
    if lines != [] {
      ReadOneLine(rules, lines[..|lines| - 1]);
      ClassifyOneLine(Strip(lines[|lines| - 1]));
      LineOneLine(rules, ReadLines(rules, lines[..|lines| - 1]), Classify(Strip(lines[|lines| - 1])));
    }
  }

  lemma {:induction false} KeptAreEntries(norm: string -> string, entries: seq<string>)
    ensures forall e | e in FirstOfEach(norm, entries) :: e in entries
    decreases |entries|
  {
    if entries == [] {
    } else {
      KeptAreEntries(norm, entries[..|entries| - 1]);
    }
  }

  /** Exactly the non-empty normal forms survive. */
  lemma {:induction false} KeptForms(norm: string -> string, entries: seq<string>)
    ensures NormalForms(norm, FirstOfEach(norm, entries)) == NormalForms(norm, entries) - {""}
    decreases |entries|
  {
    if entries == [] {
    } else {
      var init, last := entries[..|entries| - 1], entries[|entries| - 1];
      KeptForms(norm, init);
      assert init + [last] == entries;
      NormalFormsSnoc(norm, init, last);
      NormalFormsSnoc(norm, FirstOfEach(norm, init), last);
      assert FirstOfEach(norm, init) + [] == FirstOfEach(norm, init);
    }
  }

  /** And each of them once. */
  lemma {:induction false} KeptFormsDiffer(norm: string -> string, entries: seq<string>)
    ensures var kept := FirstOfEach(norm, entries); forall i, j | 0 <= i < j < |kept| :: norm(kept[i]) != norm(kept[j])
    decreases |entries|
  {
    if entries == [] {
    } else {
      var init, last := entries[..|entries| - 1], entries[|entries| - 1];
      KeptFormsDiffer(norm, init);
      KeptForms(norm, init);
      var before := FirstOfEach(norm, init);
      forall i | 0 <= i < |before|
        ensures norm(before[i]) in NormalForms(norm, init)
      {
        assert norm(before[i]) in NormalForms(norm, before);
      }
    }
  }

  lemma StripAllIsClean(rules: Rules, kept: seq<string>)
    requires LowerOk(rules) && AllOneLine(kept)
    requires forall i | 0 <= i < |kept| :: Norm(rules)(kept[i]) != ""
    ensures Entries(StripAll(kept)) && AllOneLine(StripAll(kept))
  {
    forall i | 0 <= i < |kept|
      ensures Entry(Strip(kept[i])) && OneLine(Strip(kept[i]))
    {
      assert Norm(rules)(kept[i]) == Normalize(rules, kept[i]);
      NormalizeBlank(rules, kept[i]);
      assert OneLine(kept[i]);
    }
  }

  /** Whatever the document, each entry is non-empty, stripped and on one line, which is what the store round-trips. */
  lemma ExtractFitsStore(rules: Rules, text: string)
    requires LowerOk(rules)
    ensures Entries(Extract(rules, text)) && AllOneLine(Extract(rules, text))
  {
    LinesAreOneLine("", text);
    ReadOneLine(rules, SplitLines(text));
    FlushOneLine(rules, ReadLines(rules, SplitLines(text)));
    var found := Flush(rules, ReadLines(rules, SplitLines(text))).entries;
    var kept := FirstOfEach(Norm(rules), found);
    KeptAreEntries(Norm(rules), found);
    KeptForms(Norm(rules), found);
    forall i | 0 <= i < |kept|
      ensures OneLine(kept[i]) && Norm(rules)(kept[i]) != ""
    {
      assert kept[i] in found;
      assert Norm(rules)(kept[i]) in NormalForms(Norm(rules), kept);
    }
    StripAllIsClean(rules, kept);
  }

  lemma NormalizeOfStripped(rules: Rules, s: string)
    ensures Normalize(rules, Strip(s)) == Normalize(rules, s)
  {
    StripOfStripped(Strip(s));
  }

  lemma SameForms(norm: string -> string, a: seq<string>, b: seq<string>)
    requires |a| == |b| && forall i | 0 <= i < |a| :: norm(a[i]) == norm(b[i])
    ensures NormalForms(norm, a) == NormalForms(norm, b)
  {
    forall i | 0 <= i < |a|
      ensures norm(a[i]) in NormalForms(norm, b) && norm(b[i]) in NormalForms(norm, a)
    {
    }
  }

  lemma StrippedForms(rules: Rules, kept: seq<string>)
    ensures forall i | 0 <= i < |kept| :: Norm(rules)(StripAll(kept)[i]) == Norm(rules)(kept[i])
  {
    forall i | 0 <= i < |kept|
      ensures Norm(rules)(StripAll(kept)[i]) == Norm(rules)(kept[i])
    {
      NormalizeOfStripped(rules, kept[i]);
    }
  }

  lemma DedupedForms(rules: Rules, found: seq<string>)
    ensures var entries := StripAll(FirstOfEach(Norm(rules), found));
            && (forall i, j | 0 <= i < j < |entries| :: Norm(rules)(entries[i]) != Norm(rules)(entries[j]))
            && NormalForms(Norm(rules), entries) == NormalForms(Norm(rules), found) - {""}
  {
    KeptFormsDiffer(Norm(rules), found);
    KeptForms(Norm(rules), found);
    var kept := FirstOfEach(Norm(rules), found);
    StrippedForms(rules, kept);
    SameForms(Norm(rules), StripAll(kept), kept);
  }

  /** No two extracted entries share a normal form, and none of the document's is lost: they are exactly the non-empty
      normal forms of all the entries found. */
  lemma ExtractedFormsDiffer(rules: Rules, text: string)
    ensures var entries := Extract(rules, text);
            && (forall i, j | 0 <= i < j < |entries| :: Norm(rules)(entries[i]) != Norm(rules)(entries[j]))
            && NormalForms(Norm(rules), entries) ==
               NormalForms(Norm(rules), Flush(rules, ReadLines(rules, SplitLines(text))).entries) - {""}
  {
    DedupedForms(rules, Flush(rules, ReadLines(rules, SplitLines(text))).entries);
  }

  // ----- The import as a whole -----

  lemma {:induction false} MergeKeepsEntries(norm: string -> string, existing: seq<string>, incoming: seq<string>,
                                             limit: int)
    requires Entries(existing) && Entries(incoming)
    requires forall i | 0 <= i < |existing| :: Safe(existing[i])
    requires forall i | 0 <= i < |incoming| :: Safe(incoming[i])
    ensures var merged := MergeAll(norm, existing, incoming, limit);
            Entries(merged) && forall i | 0 <= i < |merged| :: Safe(merged[i])
    decreases |incoming|
  {
    if incoming != [] {
      MergeKeepsEntries(norm, existing, incoming[..|incoming| - 1], limit);
    }
  }

  /** Importing a document into a store of safe entries writes a file that parses back to the merged entries, and
      importing it again would add nothing. */
  lemma ImportRoundTrip(rules: Rules, existing: seq<string>, text: string, limit: int)
    requires LowerOk(rules) && Entries(existing) && forall i | 0 <= i < |existing| :: Safe(existing[i])
    ensures var norm := Norm(rules);
            var merged := MergeAll(norm, existing, Extract(rules, text), limit);
            && Parse(Write(merged)) == merged
            && MergeAll(norm, Parse(Write(merged)), Extract(rules, text), limit) == merged
  {
    var norm := Norm(rules);
    var incoming := Extract(rules, text);
    ExtractFitsStore(rules, text);
    forall i | 0 <= i < |incoming|
      ensures Safe(incoming[i])
    {
      OneLineIsSafe(incoming[i]);
    }
    MergeKeepsEntries(norm, existing, incoming, limit);
    RoundTripIff(MergeAll(norm, existing, incoming, limit));
    MergeIsIdempotent(norm, existing, incoming, limit);
  }

  // ----- The function as it loops -----

  method ExtractMarkdownEntries(rules: Rules, text: string) returns (deduped: seq<string>)
    ensures deduped == Extract(rules, text)
  {
    var entries := ReadEntries(rules, SplitLines(text));
    deduped := DedupeEntries(Norm(rules), entries);
  }

  method ReadEntries(rules: Rules, lines: seq<string>) returns (entries: seq<string>)
    ensures entries == Flush(rules, ReadLines(rules, lines)).entries
  {
    var headings: seq<string>, paragraph: seq<string>, inCode := [], [], false;
    entries := [];
    for k := 0 to |lines|
      invariant State(entries, headings, paragraph, inCode) == ReadLines(rules, lines[..k])
    {
      assert lines[..k + 1][..k] == lines[..k];
      var line := Classify(Strip(lines[k]));
      entries, headings, paragraph, inCode := TakeOneLine(rules, entries, headings, paragraph, inCode, line);
    }
    assert lines[..|lines|] == lines;
    entries, paragraph := FlushParagraph(rules, entries, headings, paragraph, inCode);
  }

  method TakeOneLine(rules: Rules, entries: seq<string>, headings: seq<string>, paragraph: seq<string>, inCode: bool,
                     line: Line)
    returns (entries': seq<string>, headings': seq<string>, paragraph': seq<string>, inCode': bool)
    ensures State(entries', headings', paragraph', inCode') ==
            TakeLine(rules, State(entries, headings, paragraph, inCode), line)
  {
    entries', headings', paragraph', inCode' := entries, headings, paragraph, inCode;
    if line.Fence? {
      inCode' := !inCode;
      entries', paragraph' := FlushParagraph(rules, entries, headings, paragraph, inCode');
      return;
    }
    if inCode {
      return;
    }
    if line.Prose? {
      paragraph' := paragraph + [line.words];
      return;
    }
    entries', paragraph' := FlushParagraph(rules, entries, headings, paragraph, inCode);
    if line.Heading? {
      headings' := PopTo(headings, line.level);
      headings' := headings' + [line.title];
    } else if line.Bullet? {
      entries' := entries' + [WithContext(rules, State(entries', headings, paragraph', inCode), line.content)];
    }
  }

  method FlushParagraph(rules: Rules, entries: seq<string>, headings: seq<string>, paragraph: seq<string>, inCode: bool)
    returns (entries': seq<string>, paragraph': seq<string>)
    ensures State(entries', headings, paragraph', inCode) == Flush(rules, State(entries, headings, paragraph, inCode))
  {
    entries', paragraph' := entries, [];
    if paragraph == [] {
      return;
    }
    var block := Strip(Join(paragraph, " "));
    if block != "" {
      entries' := entries + [WithContext(rules, State(entries, headings, paragraph, inCode), block)];
    }
  }

  /** `while len(headings) >= level: headings.pop()` */
  method PopTo(headings: seq<string>, level: nat) returns (left: seq<string>)
    ensures left == Above(headings, level)
  {
    left := headings;
    while |left| >= level >= 1
      invariant left <= headings && (1 <= level <= |headings| ==> |left| >= level - 1)
      invariant !(1 <= level <= |headings|) ==> left == headings
      decreases |left|
    {
      left := left[..|left| - 1];
    }
  }

  method DedupeEntries(norm: string -> string, entries: seq<string>) returns (deduped: seq<string>)
    ensures deduped == StripAll(FirstOfEach(norm, entries))
  {
    deduped := [];
    var seen: set<string> := {};
    for k := 0 to |entries|
      invariant deduped == StripAll(FirstOfEach(norm, entries[..k]))
      invariant seen == NormalForms(norm, entries[..k]) - {""}
    {
      var normalized := norm(entries[k]);
      FirstOfEachSnoc(norm, entries[..k], entries[k]);
      assert entries[..k + 1] == entries[..k] + [entries[k]];
      if normalized != "" && normalized !in seen {
        seen := seen + {normalized};
        deduped := deduped + [Strip(entries[k])];
      }
    }
    assert entries[..|entries|] == entries;
  }

  lemma NormalFormsSnoc(norm: string -> string, entries: seq<string>, entry: string)
    ensures NormalForms(norm, entries + [entry]) == NormalForms(norm, entries) + {norm(entry)}
  {
    var all := entries + [entry];
    forall n | n in NormalForms(norm, entries)
      ensures n in NormalForms(norm, all)
    {
      var i :| 0 <= i < |entries| && norm(entries[i]) == n;
      assert all[i] == entries[i];
    }
    assert all[|entries|] == entry;
  }

  lemma FirstOfEachSnoc(norm: string -> string, entries: seq<string>, entry: string)
    ensures var all, before := FirstOfEach(norm, entries + [entry]), FirstOfEach(norm, entries);
            if norm(entry) == "" || norm(entry) in NormalForms(norm, entries) then all == before
            else StripAll(all) == StripAll(before) + [Strip(entry)]
    ensures NormalForms(norm, entries + [entry]) == NormalForms(norm, entries) + {norm(entry)}
  {
    var all := entries + [entry];
    assert all[..|all| - 1] == entries && all[|all| - 1] == entry;
    NormalFormsSnoc(norm, entries, entry);
    assert FirstOfEach(norm, entries) + [] == FirstOfEach(norm, entries);
    StripAllSnoc(FirstOfEach(norm, entries), entry);
  }

  lemma StripAllSnoc(entries: seq<string>, entry: string)
    ensures StripAll(entries + [entry]) == StripAll(entries) + [Strip(entry)]
  {
  }
}
