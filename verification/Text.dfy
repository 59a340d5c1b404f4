/** The string operations the memory store uses: stripping, splitting on a delimiter, joining. */
module Text {
  /** Characters for which `str.isspace` holds. */
  predicate IsSpace(c: char) {
    var n := c as int;
    9 <= n <= 13 || 28 <= n <= 32 || n == 0x85 || n == 0xA0 || n == 0x1680 || 0x2000 <= n <= 0x200A
    || n == 0x2028 || n == 0x2029 || n == 0x202F || n == 0x205F || n == 0x3000
  }

  /** Characters `str.splitlines` breaks at; all of them are spaces. */
  predicate IsBreak(c: char) {
    var n := c as int;
    10 <= n <= 13 || 28 <= n <= 30 || n == 0x85 || n == 0x2028 || n == 0x2029
  }

  predicate OneLine(s: string) {
    forall i | 0 <= i < |s| :: !IsBreak(s[i])
  }

  predicate Stripped(s: string) {
    s == "" || (!IsSpace(s[0]) && !IsSpace(s[|s| - 1]))
  }

  function LStrip(s: string): (r: string)
    ensures |r| <= |s| && r == s[|s| - |r|..]
    ensures r == "" || !IsSpace(r[0])
  {
    if s == "" || !IsSpace(s[0]) then s else LStrip(s[1..])
  }

  function RStrip(s: string): (r: string)
    ensures |r| <= |s| && r == s[..|r|]
    ensures r == "" || !IsSpace(r[|r| - 1])
    ensures s != "" && !IsSpace(s[0]) ==> r != ""
  {
    if s == "" || !IsSpace(s[|s| - 1]) then s else RStrip(s[..|s| - 1])
  }

  /** `str.strip`: a contiguous part of `s` without spaces at either end. */
  function Strip(s: string): (r: string)
    ensures Stripped(r) && |r| <= |s|
    ensures OneLine(s) ==> OneLine(r)
  {
    var l := LStrip(s);
    RStrip(l)
  }

  lemma StripOfStripped(s: string)
    requires Stripped(s)
    ensures Strip(s) == s
  {
  }

  /** One trailing line break is all that stripping takes off. */
  lemma StripNewline(s: string)
    requires Stripped(s) && s != ""
    ensures Strip(s + "\n") == s
  {
    assert (s + "\n")[0] == s[0] && LStrip(s + "\n") == s + "\n";
    assert (s + "\n")[..|s + "\n"| - 1] == s;
    assert IsSpace('\n');
    assert RStrip(s + "\n") == RStrip(s) == s;
  }

  /** A proper prefix that starts with a non-space does not strip to nothing, nor to something longer. */
  lemma StripPrefix(s: string, i: nat)
    requires s != "" && !IsSpace(s[0]) && 0 < i <= |s|
    ensures Strip(s[..i]) != "" && |Strip(s[..i])| <= i
  {
    assert LStrip(s[..i]) == s[..i];
  }

  function Join(parts: seq<string>, delimiter: string): string {
    if parts == [] then ""
    else if |parts| == 1 then parts[0]
    else parts[0] + delimiter + Join(parts[1..], delimiter)
  }

  predicate At(s: string, i: nat, delimiter: string) {
    i + |delimiter| <= |s| && s[i..i + |delimiter|] == delimiter
  }

  predicate Contains(s: string, delimiter: string) {
    exists i :: 0 <= i <= |s| && At(s, i, delimiter)
  }

  /** `str.split`: cut at the leftmost delimiter, again and again. `piece` is what the scan has passed over. */
  function SplitFrom(piece: string, s: string, delimiter: string): (r: seq<string>)
    requires delimiter != ""
    ensures r != []
    decreases |s|
  {
    if At(s, 0, delimiter) then [piece] + SplitFrom("", s[|delimiter|..], delimiter)
    else if s == "" then [piece]
    else SplitFrom(piece + [s[0]], s[1..], delimiter)
  }

  function Split(s: string, delimiter: string): seq<string>
    requires delimiter != ""
  {
    SplitFrom("", s, delimiter)
  }

  lemma AtShift(s: string, i: nat, delimiter: string)
    requires s != ""
    ensures At(s[1..], i, delimiter) <==> At(s, i + 1, delimiter)
  {
    if i + 1 + |delimiter| <= |s| {
      assert s[1..][i..i + |delimiter|] == s[i + 1..i + 1 + |delimiter|];
    }
  }

  /** Scanning over text in which no delimiter starts. */
  lemma {:induction false} ScanOver(piece: string, a: string, b: string, delimiter: string)
    requires delimiter != ""
    requires forall i | 0 <= i < |a| :: !At(a + b, i, delimiter)
    ensures SplitFrom(piece, a + b, delimiter) == SplitFrom(piece + a, b, delimiter)
    decreases |a|
  {
    if a == "" {
      assert a + b == b && piece + a == piece;
    } else {
      assert (a + b)[1..] == a[1..] + b;
      forall i | 0 <= i < |a[1..]|
        ensures !At(a[1..] + b, i, delimiter)
      {
        AtShift(a + b, i, delimiter);
      }
      assert !At(a + b, 0, delimiter);
      ScanOver(piece + [a[0]], a[1..], b, delimiter);
      assert piece + [a[0]] + a[1..] == piece + a;
    }
  }
}
