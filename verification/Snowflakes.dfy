/** Paths that differ only in a snowflake, a run of at least fifteen digits anywhere, are reported the same: every pass
    either replaces the whole run or leaves it whole, and the last one replaces what is left. */
module Snowflakes {
  import opened Paths

  const LEAST: nat := 15

  ghost predicate IsSnowflake(d: string) {
    IsId(d) && |d| >= LEAST
  }

  /** The passes' shapes: no run needs more than fifteen characters, and two-run passes have a kind. */
  ghost predicate Usual(r: Rule) {
    WellFormed(r) && (r.tail.One? ==> r.tail.least <= LEAST) && (r.kind == "" ==> r.tail == One(Digit, LEAST))
  }

  // ---- spans and matches around a run of digits ----

  /** A span that reaches a run of digits goes on through all of it. */
  lemma {:induction false} SpanThrough(c: CharClass, z: string, d: string, y: string)
    requires IsId(d)
    ensures Span(c, z + d + y) ==
            if Span(c, z) < |z| then Span(c, z) else |z| + |d| + Span(c, y)
  {
    if z != "" {
      assert (z + d + y)[1..] == z[1..] + d + y;
      SpanThrough(c, z[1..], d, y);
    } else {
      assert z + d + y == d + y;
      SpanOver(c, d, y);
    }
  }

  lemma {:induction false} SpanOver(c: CharClass, d: string, y: string)
    requires forall i | 0 <= i < |d| :: Digit.Has(d[i])
    ensures Span(c, d + y) == |d| + Span(c, y)
  {
    if d == "" {
      assert d + y == y;
    } else {
      assert (d + y)[1..] == d[1..] + y && (d + y)[0] == d[0];
      SpanOver(c, d[1..], y);
    }
  }

  /** A match length around d: inside what stands before it, or beyond d by k characters. */
  datatype Reach = Before(n: nat) | Beyond(k: nat)

  function LengthOf(m: Reach, x: nat, d: nat): nat {
    match m
    case Before(n) => n
    case Beyond(k) => x + d + k
  }

  /** Two runs of which the first has taken the digits in. */
  function BeyondReach(a: CharClass, b: CharClass, y: string): Reach {
    var k := Span(a, y);
    if k == |y| || y[k] != '/' then Before(0)
    else
      var m := Span(b, y[k + 1..]);
      if m == 0 then Before(0) else Beyond(k + 1 + m)
  }

  /** Which of the two a tail's match is depends only on the text around the run. */
  function TailReach(t: Tail, z: string, y: string): Reach {
    match t
    case One(c, least) =>
      if Span(c, z) < |z| then Before(if Span(c, z) < least then 0 else Span(c, z)) else Beyond(Span(c, y))
    case Two(a, b) =>
      var n := Span(a, z);
      if n < |z| then
        if n == 0 || z[n] != '/' then Before(0)
        else
          var u := z[n + 1..];
          var m := Span(b, u);
          if m < |u| then Before(if m == 0 then 0 else n + 1 + m) else Beyond(Span(b, y))
      else BeyondReach(a, b, y)
  }

  lemma BeforeSlices(z: string, d: string, y: string, n: nat)
    requires n < |z|
    ensures (z + d + y)[n] == z[n] && (z + d + y)[n + 1..] == z[n + 1..] + d + y
  {
  }

  lemma BeyondSlices(z: string, d: string, y: string, k: nat)
    requires k < |y|
    ensures (z + d + y)[|z| + |d| + k] == y[k] && (z + d + y)[|z| + |d| + k + 1..] == y[k + 1..]
  {
  }

  lemma PairAt(a: CharClass, b: CharClass, s: string, n: nat, rest: string)
    requires n == Span(a, s) && 0 < n < |s| && s[n + 1..] == rest
    ensures TailLength(Two(a, b), s) == if s[n] != '/' || Span(b, rest) == 0 then 0 else n + 1 + Span(b, rest)
  {
  }

  /** The first run ends before the digits. */
  lemma PairBefore(a: CharClass, b: CharClass, z: string, d: string, y: string)
    requires IsId(d) && Span(a, z) < |z|
    ensures TailLength(Two(a, b), z + d + y) == LengthOf(TailReach(Two(a, b), z, y), |z|, |d|)
  {
    var n := Span(a, z);
    SpanThrough(a, z, d, y);
    BeforeSlices(z, d, y, n);
    SpanThrough(b, z[n + 1..], d, y);
    if n > 0 {
      PairAt(a, b, z + d + y, n, z[n + 1..] + d + y);
    }
  }

  lemma PairAtEnd(a: CharClass, b: CharClass, s: string)
    requires Span(a, s) == |s|
    ensures TailLength(Two(a, b), s) == 0
  {
  }

  lemma PairFromSpan(a: CharClass, b: CharClass, s: string, y: string, n: nat, k: nat)
    requires n == Span(a, s) && k == Span(a, y) < |y| && k <= n < |s| && n > 0
    requires s[n] == y[k] && s[n + 1..] == y[k + 1..]
    ensures TailLength(Two(a, b), s) == LengthOf(BeyondReach(a, b, y), n - k, 0)
  {
    PairAt(a, b, s, n, y[k + 1..]);
  }

  /** The first run takes the digits in. */
  lemma PairBeyond(a: CharClass, b: CharClass, z: string, d: string, y: string)
    requires IsId(d) && Span(a, z) == |z|
    ensures TailLength(Two(a, b), z + d + y) == LengthOf(BeyondReach(a, b, y), |z|, |d|)
  {
    var k := Span(a, y);
    SpanThrough(a, z, d, y);
    if k < |y| {
      BeyondSlices(z, d, y, k);
      PairFromSpan(a, b, z + d + y, y, |z| + |d| + k, k);
    } else {
      PairAtEnd(a, b, z + d + y);
    }
  }

  lemma TailReaches(t: Tail, z: string, d: string, y: string)
    requires IsSnowflake(d) && (t.One? ==> t.least <= LEAST)
    ensures TailLength(t, z + d + y) == LengthOf(TailReach(t, z, y), |z|, |d|)
  {
    match t
    case One(c, _) => SpanThrough(c, z, d, y);
    case Two(a, b) =>
      if Span(a, z) < |z| {
        PairBefore(a, b, z, d, y);
      } else {
        PairBeyond(a, b, z, d, y);
      }
  }

  function MatchReach(r: Rule, x: string, y: string): Reach {
    var p := r.Prefix();
    if p <= x then
      match TailReach(r.tail, x[|p|..], y)
      case Before(n) => Before(if n == 0 then 0 else |p| + n)
      case Beyond(k) => Beyond(k)
    else Before(0)
  }

  lemma MatchReaches(r: Rule, x: string, d: string, y: string)
    requires Usual(r) && IsSnowflake(d)
    ensures MatchLength(r, x + d + y) == LengthOf(MatchReach(r, x, y), |x|, |d|)
    ensures var m := MatchReach(r, x, y);
            (m.Before? ==> m.n <= |x|) && (m.Beyond? ==> m.k <= |y|)
  {
    var p, s := r.Prefix(), x + d + y;
    if p <= x {
      assert s[|p|..] == x[|p|..] + d + y;
      TailReaches(r.tail, x[|p|..], d, y);
    } else if |p| > |x| {
      assert s[|x|] == d[0];
      assert p[|x|] == r.Literal()[|x|] && r.Literal()[|x|] in r.Literal();
    } else {
      assert s[..|p|] == x[..|p|];
    }
  }

  // ---- one pass ----

  /** The two texts are the same, or differ only in one run of digits. */
  ghost predicate Twins(s: string, s': string, d: string, d': string) {
    s == s' || exists x, y :: TwinsAt(x, y, s, s', d, d')
  }

  ghost predicate TwinsAt(x: string, y: string, s: string, s': string, d: string, d': string) {
    s == x + d + y && s' == x + d' + y
  }

  lemma TwinsPrepend(w: string, s: string, s': string, d: string, d': string)
    requires Twins(s, s', d, d')
    ensures Twins(w + s, w + s', d, d')
  {
    if s != s' {
      var x, y :| TwinsAt(x, y, s, s', d, d');
      assert w + s == w + x + d + y && w + s' == w + x + d' + y;
      assert TwinsAt(w + x, y, w + s, w + s', d, d');
    }
  }

  /** A pass over a run of digits with nothing before it. */
  lemma PassAtRun(r: Rule, d: string, y: string)
    requires Usual(r) && IsSnowflake(d)
    ensures ReplaceAll(r, d + y) ==
            if r.kind == "" then r.Literal() + ReplaceAll(r, y[Span(Digit, y)..]) else d + ReplaceAll(r, y)
  {
    if r.kind == "" {
      SpanOver(Digit, d, y);
      assert (d + y)[0..] == d + y && (d + y)[|d| + Span(Digit, y)..] == y[Span(Digit, y)..];
    } else {
      forall i | 0 <= i < |d| ensures MatchLength(r, d[i..] + y) == 0 {
        assert (d[i..] + y)[0] == d[i] && r.Prefix()[0] == '/';
      }
      PassSkips(r, d, y);
    }
  }

  lemma TwinsAtStart(d: string, d': string, t: string)
    ensures Twins(d + t, d' + t, d, d')
  {
    assert [] + d == d && [] + d' == d';
    assert TwinsAt([], t, d + t, d' + t, d, d');
  }

  lemma TwinsAfterRun(r: Rule, d: string, d': string, y: string)
    requires Usual(r) && IsSnowflake(d) && IsSnowflake(d')
    ensures Twins(ReplaceAll(r, d + y), ReplaceAll(r, d' + y), d, d')
    ensures r.kind == "" ==> ReplaceAll(r, d + y) == ReplaceAll(r, d' + y)
  {
    PassAtRun(r, d, y);
    PassAtRun(r, d', y);
    TwinsAtStart(d, d', ReplaceAll(r, y));
  }

  /** One step of the pass, by where its match reaches. */
  function Stepped(r: Rule, x: string, d: string, y: string, m: Reach): string
    requires x != ""
  {
    if m.Beyond? then r.Literal() + ReplaceAll(r, if m.k <= |y| then y[m.k..] else "")
    else if 0 < m.n <= |x| then r.Literal() + ReplaceAll(r, x[m.n..] + d + y)
    else [x[0]] + ReplaceAll(r, x[1..] + d + y)
  }

  lemma StepOf(r: Rule, s: string, rest: string)
    requires s != "" && rest == s[if MatchLength(r, s) > 0 then MatchLength(r, s) else 1..]
    ensures ReplaceAll(r, s) == (if MatchLength(r, s) > 0 then r.Literal() else [s[0]]) + ReplaceAll(r, rest)
  {
  }

  lemma Slices(x: string, d: string, y: string, n: nat)
    ensures n <= |x| ==> (x + d + y)[n..] == x[n..] + d + y
    ensures n <= |y| ==> (x + d + y)[|x| + |d| + n..] == y[n..]
    ensures x != "" ==> (x + d + y)[0] == x[0]
  {
  }

  lemma StepAt(r: Rule, x: string, d: string, y: string)
    requires Usual(r) && IsSnowflake(d) && x != ""
    ensures ReplaceAll(r, x + d + y) == Stepped(r, x, d, y, MatchReach(r, x, y))
  {
    var m := MatchReach(r, x, y);
    MatchReaches(r, x, d, y);
    if m.Beyond? {
      Slices(x, d, y, m.k);
      StepOf(r, x + d + y, y[m.k..]);
    } else {
      var k := if m.n > 0 then m.n else 1;
      Slices(x, d, y, k);
      StepOf(r, x + d + y, x[k..] + d + y);
    }
  }

  /** A pass keeps twins twins, and the pass over bare runs makes them equal. */
  lemma {:induction false} PassKeepsTwins(r: Rule, x: string, d: string, d': string, y: string)
    requires Usual(r) && IsSnowflake(d) && IsSnowflake(d')
    ensures Twins(ReplaceAll(r, x + d + y), ReplaceAll(r, x + d' + y), d, d')
    ensures r.kind == "" ==> ReplaceAll(r, x + d + y) == ReplaceAll(r, x + d' + y)
    decreases |x|
  {
    if x == "" {
      assert x + d + y == d + y && x + d' + y == d' + y;
      TwinsAfterRun(r, d, d', y);
    } else {
      StepAt(r, x, d, y);
      StepAt(r, x, d', y);
      var m := MatchReach(r, x, y);
      if m.Before? {
        var k := if 0 < m.n <= |x| then m.n else 1;
        var w := if 0 < m.n <= |x| then r.Literal() else [x[0]];
        PassKeepsTwins(r, x[k..], d, d', y);
        TwinsPrepend(w, ReplaceAll(r, x[k..] + d + y), ReplaceAll(r, x[k..] + d' + y), d, d');
      }
    }
  }

  // ---- all passes ----

  ghost predicate UsualEntry(e: Entry) {
    GoodEntry(e) && e.least <= LEAST && (e.kind == "" ==> e.token == NoToken && e.first == Digit && e.least == LEAST)
  }

  lemma PassTwins(r: Rule, s: string, s': string, d: string, d': string)
    requires Usual(r) && IsSnowflake(d) && IsSnowflake(d') && Twins(s, s', d, d')
    ensures Twins(ReplaceAll(r, s), ReplaceAll(r, s'), d, d')
    ensures r.kind == "" ==> ReplaceAll(r, s) == ReplaceAll(r, s')
  {
    if s != s' {
      var x, y :| TwinsAt(x, y, s, s', d, d');
      PassKeepsTwins(r, x, d, d', y);
    }
  }

  lemma EntryTwins(e: Entry, s: string, s': string, d: string, d': string)
    requires UsualEntry(e) && IsSnowflake(d) && IsSnowflake(d') && Twins(s, s', d, d')
    ensures Twins(e.Apply(s), e.Apply(s'), d, d')
    ensures e.kind == "" ==> e.Apply(s) == e.Apply(s')
  {
    EntryRulesWellFormed(e);
    if e.token.Token? {
      PassTwins(e.PairRule(), s, s', d, d');
      PassTwins(e.SingleRule(), ReplaceAll(e.PairRule(), s), ReplaceAll(e.PairRule(), s'), d, d');
    } else {
      PassTwins(e.SingleRule(), s, s', d, d');
    }
  }

  lemma {:induction false} PassesTwins(entries: seq<Entry>, s: string, s': string, d: string, d': string)
    requires (forall e | e in entries :: UsualEntry(e)) && exists e | e in entries :: e.kind == ""
    requires IsSnowflake(d) && IsSnowflake(d') && Twins(s, s', d, d')
    ensures Passes(entries, s) == Passes(entries, s')
  {
    var e := entries[0];
    EntryTwins(e, s, s', d, d');
    if e.Apply(s) != e.Apply(s') {
      PassesTwins(entries[1..], e.Apply(s), e.Apply(s'), d, d');
    }
  }

  lemma EntriesUsual()
    ensures (forall e | e in ENTRIES :: UsualEntry(e)) && SNOWFLAKES in ENTRIES
  {
    assert ENTRIES[15] == SNOWFLAKES;
  }

  /** Requests that differ only in a snowflake share one metrics name, wherever it stands and whatever is around it. */
  lemma SnowflakesIndistinguishable(a: string, d: string, d': string, b: string)
    requires IsSnowflake(d) && IsSnowflake(d')
    ensures NormalizePath(a + d + b) == NormalizePath(a + d' + b)
  {
    assert TwinsAt(a, b, a + d + b, a + d' + b, d, d');
    EntriesUsual();
    PassesTwins(ENTRIES, a + d + b, a + d' + b, d, d');
  }

  lemma EntryKeepsRun(e: Entry, d: string)
    requires UsualEntry(e) && e.kind != "" && IsSnowflake(d)
    ensures e.Apply(d) == d
  {
    EntryRulesWellFormed(e);
    assert d + "" == d;
    if e.token.Token? {
      PassAtRun(e.PairRule(), d, "");
    }
    PassAtRun(e.SingleRule(), d, "");
  }

  lemma {:induction false} PassesKeepRun(entries: seq<Entry>, j: nat, d: string)
    requires j <= |entries| && IsSnowflake(d)
    requires forall i | 0 <= i < j :: UsualEntry(entries[i]) && entries[i].kind != ""
    ensures Passes(entries, d) == Passes(entries[j..], d)
    decreases j
  {
    if j > 0 {
      EntryKeepsRun(entries[0], d);
      PassesKeepRun(entries[1..], j - 1, d);
      assert entries[1..][j - 1..] == entries[j..];
    }
  }

  lemma BareEntryReplaces(e: Entry, d: string)
    requires UsualEntry(e) && e.kind == "" && IsSnowflake(d)
    ensures e.Apply(d) == "{" + e.label0 + "}"
  {
    EntryRulesWellFormed(e);
    PassAtRun(e.SingleRule(), d, "");
    assert d + "" == d;
    assert Braced([e.label0]) == "{" + e.label0 + "}";
  }

  lemma KindsBeforeLast(i: nat)
    requires i < 15
    ensures ENTRIES[i].kind != ""
  {
  }

  lemma ShortNumberIsNormal(d: string)
    requires IsId(d) && |d| < 15
    ensures NormalForm(d)
  {
    forall e | e in ENTRIES ensures Clean(e.kind, e.first, e.least, d) {
      forall i | 0 <= i <= |d| ensures !Hit(e.kind, e.first, e.least, d[i..]) {
        HitHead(e.kind, e.first, e.least, d[i..]);
        assert e.kind != "" || e == SNOWFLAKES;
      }
    }
  }

  /** A number alone is reported as a snowflake exactly from fifteen digits on; a shorter one is left as it is. */
  lemma NumberHidden(d: string)
    requires IsId(d)
    ensures NormalizePath(d) == if |d| >= 15 then "{" + "snowflake" + "}" else d
  {
    if |d| >= 15 {
      EntriesUsual();
      forall i | 0 <= i < 15 ensures UsualEntry(ENTRIES[i]) && ENTRIES[i].kind != "" {
        KindsBeforeLast(i);
      }
      PassesKeepRun(ENTRIES, 15, d);
      BareEntryReplaces(SNOWFLAKES, d);
      assert ENTRIES[15..] == [SNOWFLAKES] && [SNOWFLAKES][1..] == [];
    } else {
      ShortNumberIsNormal(d);
      UnchangedIffNormalForm(d);
    }
  }
}
