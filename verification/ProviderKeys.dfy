/** How a legacy custom provider gets its key: a slug of its name, then a number until nothing is overwritten. */
module ProviderKeys {
  import Text

  // ----- The slug -----

  function Lower(s: string): (r: string)
    ensures |r| == |s|
  {
    if s == "" then ""
    else [if 'A' <= s[0] <= 'Z' then s[0] - 'A' + 'a' else s[0]] + Lower(s[1..])
  }

  /** Spaces become hyphens, parentheses go. */
  function Hyphenate(s: string): (r: string)
    ensures forall c | c in r :: c !in " ()"
  {
    if s == "" then ""
    else if s[0] in "()" then Hyphenate(s[1..])
    else [if s[0] == ' ' then '-' else s[0]] + Hyphenate(s[1..])
  }

  /** `replace("--", "-")`: left to right, without overlap. */
  function ReplaceDoubles(s: string): (r: string)
    ensures |r| <= |s|
    ensures forall c | c in r :: c in s
  {
    if |s| >= 2 && s[0] == s[1] == '-' then "-" + ReplaceDoubles(s[2..])
    else if s == "" then ""
    else [s[0]] + ReplaceDoubles(s[1..])
  }

  predicate HasDouble(s: string) {
    exists i :: 0 <= i < |s| - 1 && s[i] == s[i + 1] == '-'
  }

  /** Every run of hyphens as one hyphen. */
  function Collapse(s: string): (r: string)
    ensures s == "" <==> r == ""
    ensures s != "" ==> r[0] == s[0]
    ensures forall c | c in r :: c in s
  {
    if s == "" then ""
    else if |s| >= 2 && s[0] == s[1] == '-' then Collapse(s[1..])
    else [s[0]] + Collapse(s[1..])
  }

  lemma SliceHasNoDouble(s: string, a: nat, b: nat)
    requires a <= b <= |s|
    ensures !HasDouble(s) ==> !HasDouble(s[a..b])
  {
    if HasDouble(s[a..b]) {
      var i :| 0 <= i < b - a - 1 && s[a..b][i] == s[a..b][i + 1] == '-';
      assert s[a + i] == s[a + i + 1] == '-';
    }
  }

  function LStripHyphens(s: string): (r: string)
    ensures r == "" || r[0] != '-'
    ensures forall c | c in r :: c in s
    ensures !HasDouble(s) ==> !HasDouble(r)
  {
    if s == "" || s[0] != '-' then s
    else
      SliceHasNoDouble(s, 1, |s|);
      LStripHyphens(s[1..])
  }

  function RStripHyphens(s: string): (r: string)
    ensures r <= s && (r == "" || r[|r| - 1] != '-')
    ensures forall c | c in r :: c in s
    ensures !HasDouble(s) ==> !HasDouble(r)
  {
    if s == "" || s[|s| - 1] != '-' then s
    else
      SliceHasNoDouble(s, 0, |s| - 1);
      RStripHyphens(s[..|s| - 1])
  }

  function StripHyphens(s: string): (r: string)
    ensures r == "" || (r[0] != '-' && r[|r| - 1] != '-')
    ensures forall c | c in r :: c in s
    ensures !HasDouble(s) ==> !HasDouble(r)
  {
    RStripHyphens(LStripHyphens(s))
  }

  function Slug(name: string): string {
    StripHyphens(Collapse(Hyphenate(Lower(Text.Strip(name)))))
  }

  lemma CollapseCongruent(c: char, a: string, b: string)
    requires Collapse(a) == Collapse(b)
    ensures Collapse([c] + a) == Collapse([c] + b)
  {
    assert ([c] + a)[1..] == a && ([c] + b)[1..] == b;
  }

  /** One pass of the replacement does not change what the runs collapse to. */
  lemma {:induction false} ReplaceKeepsCollapse(s: string)
    ensures Collapse(ReplaceDoubles(s)) == Collapse(s)
  {
    if |s| >= 2 && s[0] == s[1] == '-' {
      ReplaceKeepsCollapse(s[2..]);
      CollapseCongruent('-', ReplaceDoubles(s[2..]), s[2..]);
      assert s[1..] == "-" + s[2..];
    } else if s != "" {
      ReplaceKeepsCollapse(s[1..]);
      CollapseCongruent(s[0], ReplaceDoubles(s[1..]), s[1..]);
      assert s == [s[0]] + s[1..];
    }
  }

  lemma {:induction false} ReplaceShrinks(s: string, i: nat)
    requires i < |s| - 1 && s[i] == s[i + 1] == '-'
    ensures |ReplaceDoubles(s)| < |s|
  {
    if s[0] == s[1] == '-' {
    } else {
      ReplaceShrinks(s[1..], i - 1);
    }
  }

  lemma {:induction false} CollapseOfSingles(s: string)
    requires !HasDouble(s)
    ensures Collapse(s) == s
  {
    if s != "" {
      SliceHasNoDouble(s, 1, |s|);
      CollapseOfSingles(s[1..]);
      assert |s| >= 2 ==> !(s[0] == s[0 + 1] == '-');
    }
  }

  lemma {:induction false} CollapseHasNoDouble(s: string)
    ensures !HasDouble(Collapse(s))
  {
    if s != "" {
      CollapseHasNoDouble(s[1..]);
      var t := Collapse(s[1..]);
      forall i | 0 <= i < |Collapse(s)| - 1
        ensures !(Collapse(s)[i] == Collapse(s)[i + 1] == '-')
      {
        if !(|s| >= 2 && s[0] == s[1] == '-') && i > 0 {
          assert !(t[i - 1] == t[i - 1 + 1] == '-');
        }
      }
    }
  }

  /** A slug has no space or parenthesis, no two hyphens in a row and none at either end. */
  lemma SlugShape(name: string)
    ensures forall c | c in Slug(name) :: c !in " ()"
    ensures !HasDouble(Slug(name))
    ensures Slug(name) == "" || (Slug(name)[0] != '-' && Slug(name)[|Slug(name)| - 1] != '-')
  {
    var h := Hyphenate(Lower(Text.Strip(name)));
    CollapseHasNoDouble(h);
    forall c | c in Slug(name)
      ensures c !in " ()"
    {
      assert c in Collapse(h) && c in h;
    }
  }

  lemma ReplaceStep(s: string)
    requires HasDouble(s)
    ensures |ReplaceDoubles(s)| < |s| && Collapse(ReplaceDoubles(s)) == Collapse(s)
  {
    var i :| 0 <= i < |s| - 1 && s[i] == s[i + 1] == '-';
    ReplaceShrinks(s, i);
    ReplaceKeepsCollapse(s);
  }

  /** The replacement loop reaches the collapsed form. */
  method MakeSlug(name: string) returns (key: string)
    ensures key == Slug(name)
  {
    ghost var whole := Hyphenate(Lower(Text.Strip(name)));
    key := Hyphenate(Lower(Text.Strip(name)));
    while HasDouble(key)
      invariant Collapse(key) == Collapse(whole)
      decreases |key|
    {
      ReplaceStep(key);
      key := ReplaceDoubles(key);
    }
    CollapseOfSingles(key);
    key := StripHyphens(key);
  }

  // ----- The number -----

  function Digit(d: nat): char
    requires d < 10
  {
    '0' + d as char
  }

  function Decimal(n: nat): (s: string)
    ensures s != ""
  {
    if n < 10 then [Digit(n)] else Decimal(n / 10) + [Digit(n % 10)]
  }

  lemma {:induction false} DecimalInjective(a: nat, b: nat)
    requires Decimal(a) == Decimal(b)
    ensures a == b
  {
    var s, t := Decimal(a), Decimal(b);
    assert s[|s| - 1] == Digit(a % 10) && t[|t| - 1] == Digit(b % 10);
    assert (a < 10 <==> |s| == 1) && (b < 10 <==> |t| == 1);
    if a >= 10 {
      assert s[..|s| - 1] == Decimal(a / 10) && t[..|t| - 1] == Decimal(b / 10);
      DecimalInjective(a / 10, b / 10);
    }
  }

  function Numbered(root: string, n: nat): string {
    root + "-" + Decimal(n)
  }

  lemma NumberedInjective(root: string, a: nat, b: nat)
    requires Numbered(root, a) == Numbered(root, b)
    ensures a == b
  {
    assert Numbered(root, a)[|root| + 1..] == Decimal(a);
    assert Numbered(root, b)[|root| + 1..] == Decimal(b);
    DecimalInjective(a, b);
  }

  // ----- The fresh key -----

  /** The taken keys that the search has yet to meet when it stands at `key`. */
  ghost function Ahead(taken: set<string>, root: string, key: string, suffix: nat): set<string> {
    set k | k in taken && (k == key || exists n: nat :: n >= suffix && k == Numbered(root, n))
  }

  /** `key` is where the search starts, or a number before `suffix`. */
  ghost predicate Tried(root: string, key: string, suffix: nat) {
    key == root || exists m: nat :: m < suffix && key == Numbered(root, m)
  }

  lemma SearchAdvances(taken: set<string>, root: string, key: string, suffix: nat)
    requires key in taken && Tried(root, key, suffix)
    ensures Tried(root, Numbered(root, suffix), suffix + 1)
    ensures Ahead(taken, root, Numbered(root, suffix), suffix + 1) < Ahead(taken, root, key, suffix)
  {
    var next := Ahead(taken, root, Numbered(root, suffix), suffix + 1);
    forall n: nat | n >= suffix
      ensures key != Numbered(root, n)
    {
      if key == root {
        assert |Numbered(root, n)| > |root|;
      } else {
        var m: nat :| m < suffix && key == Numbered(root, m);
        if key == Numbered(root, n) {
          NumberedInjective(root, m, n);
        }
      }
    }
    assert key in Ahead(taken, root, key, suffix);
    assert key !in next;
  }

  /** The first free one of: root, root-suffix, root-(suffix+1), and so on. */
  function FreshKey(taken: set<string>, root: string, key: string, suffix: nat): (r: string)
    requires Tried(root, key, suffix)
    ensures r !in taken
    ensures r == key || exists n: nat :: n >= suffix && r == Numbered(root, n)
    decreases Ahead(taken, root, key, suffix)
  {
    if key !in taken then key
    else
      SearchAdvances(taken, root, key, suffix);
      FreshKey(taken, root, Numbered(root, suffix), suffix + 1)
  }

  /** Every candidate before the chosen one was taken. */
  lemma {:induction false} FreshKeyIsFirst(taken: set<string>, root: string, key: string, suffix: nat, n: nat)
    requires Tried(root, key, suffix)
    requires n >= suffix && FreshKey(taken, root, key, suffix) == Numbered(root, n) != key
    ensures key in taken
    ensures forall m: nat | suffix <= m < n :: Numbered(root, m) in taken
    decreases n - suffix
  {
    SearchAdvances(taken, root, key, suffix);
    if n > suffix {
      if Numbered(root, n) == Numbered(root, suffix) {
        NumberedInjective(root, n, suffix);
      }
      FreshKeyIsFirst(taken, root, Numbered(root, suffix), suffix + 1, n);
    }
  }

  /** The collision loop terminates and lands on the first free key. */
  method FindKey(taken: set<string>, root: string, start: nat) returns (key: string)
    ensures key == FreshKey(taken, root, root, start)
  {
    key := root;
    var suffix := start;
    while key in taken
      invariant suffix >= start && Tried(root, key, suffix)
      invariant FreshKey(taken, root, root, start) == FreshKey(taken, root, key, suffix)
      decreases Ahead(taken, root, key, suffix)
    {
      SearchAdvances(taken, root, key, suffix);
      key := Numbered(root, suffix);
      suffix := suffix + 1;
    }
  }
}
