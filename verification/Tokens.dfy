/** What is reported of paths with two segments after their kind, "/webhooks/id/token", "/interactions/id/token" and
    "/reactions/emoji/user": both are replaced, so that paths which differ only in them are reported the same. */
module Tokens {
  import opened Paths

  /** "/kind/x/y". */
  function Pair(kind: string, x: string, y: string): string {
    "/" + kind + "/" + x + "/" + y
  }

  ghost predicate WholeSegments(b: string) {
    b == "" || b[0] == '/'
  }

  ghost predicate IsRun(c: CharClass, s: string) {
    s != "" && forall i | 0 <= i < |s| :: c.Has(s[i])
  }

  // ---- passes of other kinds leave the segments alone ----

  lemma OtherSegment(k: string, u: string, rest: string)
    requires '/' !in k && '/' !in u && k != "" && k != u
    ensures !(PrefixOf(k) <= "/" + u + "/" + rest)
  {
    var p, s := PrefixOf(k), "/" + u + "/" + rest;
    assert p[|k| + 1] == '/' && s[|u| + 1] == '/';
    assert forall i | 0 <= i < |k| :: p[i + 1] == k[i] && k[i] in k;
    assert forall i | 0 <= i < |u| :: s[i + 1] == u[i] && u[i] in u;
    if |k| == |u| {
      var i :| 0 <= i < |k| && k[i] != u[i];
      assert p[i + 1] != s[i + 1];
    } else if |k| < |u| {
      assert s[|k| + 1] != '/';
    } else {
      assert p[|u| + 1] != '/';
    }
  }

  lemma LastSegment(k: string, u: string)
    requires '/' !in k && '/' !in u && k != ""
    ensures !(PrefixOf(k) <= "/" + u)
  {
    var p, s := PrefixOf(k), "/" + u;
    assert p[|k| + 1] == '/' && forall i | 0 <= i < |u| :: s[i + 1] == u[i] && u[i] in u;
  }

  /** None of the segments is this kind, or only the last one is and nothing follows it. */
  ghost predicate NotAmong(k: string, kind: string, x: string, y: string, b: string) {
    k != kind && k != x && (k != y || b == "")
  }

  lemma NoMatchInPair(r: Rule, kind: string, x: string, y: string, b: string, i: nat)
    requires Plain(r.kind) && r.kind != "" && '/' !in kind && '/' !in x && '/' !in y && NotAmong(r.kind, kind, x, y, b)
    requires WholeSegments(b) && i < |Pair(kind, x, y)|
    ensures MatchLength(r, Pair(kind, x, y)[i..] + b) == 0
  {
    var z := Pair(kind, x, y);
    var s := z[i..] + b;
    assert s[0] == z[i] && r.Prefix()[0] == '/';
    if i == 0 {
      OtherSegment(r.kind, kind, x + "/" + y + b);
      assert s == "/" + kind + "/" + (x + "/" + y + b);
    } else if i <= |kind| {
      assert z[i] == kind[i - 1] && kind[i - 1] in kind;
    } else if i == |kind| + 1 {
      OtherSegment(r.kind, x, y + b);
      assert s == "/" + x + "/" + (y + b);
    } else if i <= |kind| + 1 + |x| {
      assert z[i] == x[i - |kind| - 2] && x[i - |kind| - 2] in x;
    } else if i == |kind| + 2 + |x| {
      if b == "" {
        LastSegment(r.kind, y);
        assert s == "/" + y;
      } else {
        OtherSegment(r.kind, y, b[1..]);
        assert s == "/" + y + "/" + b[1..];
      }
    } else {
      assert z[i] == y[i - |kind| - |x| - 3] && y[i - |kind| - |x| - 3] in y;
    }
  }

  lemma OtherPassKeepsPair(r: Rule, kind: string, x: string, y: string, b: string)
    requires Plain(r.kind) && r.kind != "" && '/' !in kind && '/' !in x && '/' !in y && NotAmong(r.kind, kind, x, y, b)
    requires WholeSegments(b)
    ensures ReplaceAll(r, Pair(kind, x, y) + b) == Pair(kind, x, y) + ReplaceAll(r, b)
  {
    forall i | 0 <= i < |Pair(kind, x, y)| ensures MatchLength(r, Pair(kind, x, y)[i..] + b) == 0 {
      NoMatchInPair(r, kind, x, y, b, i);
    }
    PassSkips(r, Pair(kind, x, y), b);
  }

  // ---- where a pass splits the text ----

  ghost predicate IsSuffix(w: string, s: string) {
    |w| <= |s| && s[|s| - |w|..] == w
  }

  ghost predicate EndsInKind(kind: string, a: string) {
    IsSuffix("/" + kind, a)
  }

  lemma SuffixOfSuffix(w: string, s: string, n: nat)
    requires n <= |s| && IsSuffix(w, s[n..])
    ensures IsSuffix(w, s)
  {
    assert s[n..][|s[n..]| - |w|..] == s[|s| - |w|..];
  }

  lemma WordMatchIsLocal(r: Rule, a: string, rest: string)
    requires WellFormed(r) && r.kind != "" && (r.tail == One(Word, 1) || r.tail == Two(Word, Digit))
    requires a != "" && Opens(rest)
    ensures a != "/" + r.kind ==> MatchLength(r, a + rest) == MatchLength(r, a)
  {
    var p, s := r.Prefix(), a + rest;
    if p <= a {
      var u := a[|p|..];
      var n := Span(Word, u);
      assert s[|p|..] == u + rest;
      RunStops(Word, u, rest);
      if r.tail.Two? && 0 < n < |u| {
        assert (u + rest)[n + 1..] == u[n + 1..] + rest;
        RunStops(Digit, u[n + 1..], rest);
      } else if r.tail.Two? && n == |u| {
        assert (u + rest)[n + 1..] == rest[1..];
      }
    } else if p <= s {
      PrefixEndsAtSlash(r.kind, a, rest);
      assert a == s[..|a|] == p[..|a|] == "/" + r.kind;
    }
  }

  /** A pass over a word run splits at a prefix, unless the text before it ends in the pass's own kind. */
  lemma {:induction false} WordPassSplits(r: Rule, a: string, rest: string)
    requires WellFormed(r) && r.kind != "" && (r.tail == One(Word, 1) || r.tail == Two(Word, Digit))
    requires Opens(rest) && !EndsInKind(r.kind, a)
    ensures ReplaceAll(r, a + rest) == ReplaceAll(r, a) + ReplaceAll(r, rest)
    decreases |a|
  {
    if a == "" {
      assert a + rest == rest;
    } else {
      var n := MatchLength(r, a);
      var k := if n > 0 then n else 1;
      if EndsInKind(r.kind, a[k..]) {
        SuffixOfSuffix("/" + r.kind, a, k);
      }
      WordPassSplits(r, a[k..], rest);
      WordMatchIsLocal(r, a, rest);
      SplitStep(r, a, rest);
    }
  }

  /** The rule's first run, and what keeps it from taking in what follows a. */
  ghost predicate SplitsAfter(r: Rule, a: string) {
    || r.tail == One(Digit, 1)
    || (r.tail.Two? && r.tail.first == Digit && !EndsInId(r.kind, a))
    || ((r.tail == One(Word, 1) || r.tail == Two(Word, Digit)) && !EndsInKind(r.kind, a))
  }

  lemma PassSplitsAfter(r: Rule, a: string, rest: string)
    requires WellFormed(r) && r.kind != "" && Opens(rest) && SplitsAfter(r, a)
    ensures ReplaceAll(r, a + rest) == ReplaceAll(r, a) + ReplaceAll(r, rest)
  {
    if r.tail == One(Digit, 1) {
      PassSplits(r, a, rest);
    } else if r.tail.Two? && r.tail.first == Digit {
      PairPassSplits(r, a, rest);
    } else {
      WordPassSplits(r, a, rest);
    }
  }

  // ---- what passes keep about the text around ----

  lemma {:induction false} BracedEnds(labels: seq<string>)
    requires labels != []
    ensures Braced(labels) != "" && Braced(labels)[|Braced(labels)| - 1] == '}'
  {
    if |labels| > 1 {
      BracedEnds(labels[1..]);
      assert Braced(labels) == ("{" + labels[0] + "}" + "/") + Braced(labels[1..]);
    }
  }

  lemma LiteralEnds(r: Rule)
    requires WellFormed(r)
    ensures r.Literal() != "" && r.Literal()[|r.Literal()| - 1] == '}'
  {
    assert r.labels != [];
    BracedEnds(r.labels);
  }

  lemma SuffixOfSum(w: string, y: string, rest: string)
    requires y != "" && IsSuffix(w, y + rest)
    ensures |w| <= |rest| ==> IsSuffix(w, rest)
    ensures |w| > |rest| ==> y[|y| - 1] in w && (|y| == 1 ==> w == y + rest)
  {
    var t := y + rest;
    if |w| <= |rest| {
      assert rest[|rest| - |w|..] == t[|t| - |w|..];
    } else {
      assert w[|w| - |rest| - 1] == t[|y| - 1];
    }
  }

  /** One step of the pass either leaves the end to the rest, or has copied the whole text. */
  lemma SuffixStep(r: Rule, s: string, w: string, k: nat)
    requires WellFormed(r) && '{' !in w && '}' !in w && IsSuffix(w, ReplaceAll(r, s)) && s != ""
    requires k == if MatchLength(r, s) > 0 then MatchLength(r, s) else 1
    ensures IsSuffix(w, ReplaceAll(r, s[k..])) || w == ReplaceAll(r, s)
  {
    LiteralEnds(r);
    SuffixOfSum(w, if MatchLength(r, s) > 0 then r.Literal() else [s[0]], ReplaceAll(r, s[k..]));
  }

  /** A brace-free end of the result was already the end of the input. */
  lemma {:induction false} SuffixSurvives(r: Rule, s: string, w: string)
    requires WellFormed(r) && '{' !in w && '}' !in w && IsSuffix(w, ReplaceAll(r, s))
    ensures IsSuffix(w, s)
    decreases |s|
  {
    if s != "" && w != ReplaceAll(r, s) {
      var k := if MatchLength(r, s) > 0 then MatchLength(r, s) else 1;
      SuffixStep(r, s, w, k);
      SuffixSurvives(r, s[k..], w);
      SuffixOfSuffix(w, s, k);
    } else {
      NoBraceUnchanged(r, s);
    }
  }

  lemma EntryKeepsKindEnd(e: Entry, kind: string, a: string)
    requires GoodEntry(e) && Lower(kind) && !EndsInKind(kind, a)
    ensures !EndsInKind(kind, e.Apply(a))
  {
    EntryRulesWellFormed(e);
    var w := "/" + kind;
    assert '{' !in w && '}' !in w;
    if EndsInKind(kind, e.Apply(a)) {
      if e.token.Token? {
        SuffixSurvives(e.SingleRule(), ReplaceAll(e.PairRule(), a), w);
        SuffixSurvives(e.PairRule(), a, w);
      } else {
        SuffixSurvives(e.SingleRule(), a, w);
      }
    }
  }

  lemma PassKeepsSegments(r: Rule, b: string)
    requires WellFormed(r) && r.kind != "" && WholeSegments(b)
    ensures WholeSegments(ReplaceAll(r, b))
  {
  }

  lemma EntryKeepsSegments(e: Entry, b: string)
    requires GoodEntry(e) && e.kind != "" && WholeSegments(b)
    ensures WholeSegments(e.Apply(b))
  {
    EntryRulesWellFormed(e);
    if e.token.Token? {
      PassKeepsSegments(e.PairRule(), b);
      PassKeepsSegments(e.SingleRule(), ReplaceAll(e.PairRule(), b));
    } else {
      PassKeepsSegments(e.SingleRule(), b);
    }
  }

  // ---- entries before the kind's own ----

  /** A kind followed by digits, or by a word that a number may follow. */
  ghost predicate ByRuns(e: Entry) {
    && GoodEntry(e) && e.kind != "" && e.least == 1
    && (e.first == Word && e.token.Token? ==> e.token.second == Digit)
  }

  /** The entry's passes do not take in what follows a. */
  ghost predicate Separate(e: Entry, a: string) {
    && (e.first == Digit && e.token.Token? ==> !EndsInId(e.kind, a))
    && (e.first == Word ==> !EndsInKind(e.kind, a))
  }

  lemma PairOpens(kind: string, x: string, y: string, b: string)
    requires Lower(kind) && kind != ""
    ensures Opens(Pair(kind, x, y) + b)
  {
    assert (Pair(kind, x, y) + b)[1] == kind[0];
  }

  lemma PassKeepsPair(r: Rule, a: string, kind: string, x: string, y: string, b: string)
    requires WellFormed(r) && r.kind != "" && SplitsAfter(r, a) && Lower(kind) && kind != ""
    requires '/' !in x && '/' !in y && NotAmong(r.kind, kind, x, y, b) && WholeSegments(b)
    ensures ReplaceAll(r, a + (Pair(kind, x, y) + b)) == ReplaceAll(r, a) + (Pair(kind, x, y) + ReplaceAll(r, b))
  {
    PairOpens(kind, x, y, b);
    PassSplitsAfter(r, a, Pair(kind, x, y) + b);
    OtherPassKeepsPair(r, kind, x, y, b);
  }

  lemma SingleStillSplits(e: Entry, a: string)
    requires ByRuns(e) && Separate(e, a) && e.token.Token?
    ensures WellFormed(e.PairRule()) && SplitsAfter(e.SingleRule(), ReplaceAll(e.PairRule(), a))
  {
    EntryRulesWellFormed(e);
    var w := "/" + e.kind;
    assert '{' !in w && '}' !in w;
    if EndsInKind(e.kind, ReplaceAll(e.PairRule(), a)) {
      SuffixSurvives(e.PairRule(), a, w);
    }
  }

  lemma EntryKeepsPair(e: Entry, a: string, kind: string, x: string, y: string, b: string)
    requires ByRuns(e) && Separate(e, a) && Lower(kind) && kind != ""
    requires '/' !in x && '/' !in y && NotAmong(e.kind, kind, x, y, b) && WholeSegments(b)
    ensures e.Apply(a + (Pair(kind, x, y) + b)) == e.Apply(a) + (Pair(kind, x, y) + e.Apply(b))
  {
    EntryRulesWellFormed(e);
    if e.token.Token? {
      PassKeepsPair(e.PairRule(), a, kind, x, y, b);
      SingleStillSplits(e, a);
      PassKeepsSegments(e.PairRule(), b);
      PassKeepsPair(e.SingleRule(), ReplaceAll(e.PairRule(), a), kind, x, y, ReplaceAll(e.PairRule(), b));
    } else {
      PassKeepsPair(e.SingleRule(), a, kind, x, y, b);
    }
  }

  lemma StaysSeparate(e: Entry, f: Entry, a: string)
    requires GoodEntry(e) && GoodEntry(f) && f.kind != "" && Separate(f, a)
    ensures Separate(f, e.Apply(a))
  {
    if f.first == Digit && f.token.Token? {
      EntryKeepsEnd(e, f.kind, a);
    }
    if f.first == Word {
      EntryKeepsKindEnd(e, f.kind, a);
    }
  }

  /** The first j entries leave the segments alone and a where their own kinds can go on. */
  ghost predicate Spares(entries: seq<Entry>, j: nat, a: string, kind: string, x: string, y: string, b: string)
    requires j <= |entries|
  {
    forall i | 0 <= i < j :: ByRuns(entries[i]) && Separate(entries[i], a) && NotAmong(entries[i].kind, kind, x, y, b)
  }

  lemma SparesRest(entries: seq<Entry>, j: nat, a: string, kind: string, x: string, y: string, b: string)
    requires 0 < j <= |entries| && Spares(entries, j, a, kind, x, y, b)
    ensures Spares(entries[1..], j - 1, entries[0].Apply(a), kind, x, y, entries[0].Apply(b))
  {
    forall i | 0 <= i < j - 1 ensures Separate(entries[1..][i], entries[0].Apply(a)) {
      StaysSeparate(entries[0], entries[i + 1], a);
    }
  }

  /** After the first j entries the text around has been normalised by itself, and e can go on. */
  lemma {:induction false} PassesReach(entries: seq<Entry>, j: nat, e: Entry, a: string, kind: string, x: string,
                                       y: string, b: string)
    requires j <= |entries| && Spares(entries, j, a, kind, x, y, b)
    requires Lower(kind) && kind != "" && '/' !in x && '/' !in y && WholeSegments(b)
    requires GoodEntry(e) && e.kind != "" && Separate(e, a)
    ensures Passes(entries, a + (Pair(kind, x, y) + b))
            == Passes(entries[j..], Passes(entries[..j], a) + (Pair(kind, x, y) + Passes(entries[..j], b)))
    ensures WholeSegments(Passes(entries[..j], b)) && Separate(e, Passes(entries[..j], a))
    decreases j
  {
    if j > 0 {
      var f := entries[0];
      SparesRest(entries, j, a, kind, x, y, b);
      EntryKeepsSegments(f, b);
      StaysSeparate(f, e, a);
      PassesReach(entries[1..], j - 1, e, f.Apply(a), kind, x, y, f.Apply(b));
      EntryKeepsPair(f, a, kind, x, y, b);
      assert entries[1..][j - 1..] == entries[j..] && entries[1..][..j - 1] == entries[..j][1..];
    }
  }

  // ---- the kind's own entry ----

  lemma SpanOfSegment(c: CharClass, x: string, v: string)
    requires IsRun(c, x) && (v == "" || v[0] == '/') && !c.Has('/')
    ensures Span(c, x + v) == |x|
  {
    RunStops(c, x, v);
    SpanOfRun(c, x, |x|);
  }

  lemma TailOfPair(first: CharClass, second: CharClass, x: string, y: string, b: string)
    requires IsRun(first, x) && IsRun(second, y) && WholeSegments(b)
    ensures TailLength(Two(first, second), x + ("/" + (y + b))) == |x| + 1 + |y|
  {
    var s := x + ("/" + (y + b));
    SpanOfSegment(first, x, "/" + (y + b));
    SpanOfSegment(second, y, b);
    assert s[|x|] == '/' && s[|x| + 1..] == y + b;
  }

  lemma MatchOfPair(e: Entry, x: string, y: string, b: string)
    requires GoodEntry(e) && e.kind != "" && e.token.Token?
    requires IsRun(e.first, x) && IsRun(e.token.second, y) && WholeSegments(b)
    ensures MatchLength(e.PairRule(), Pair(e.kind, x, y) + b) == |Pair(e.kind, x, y)|
  {
    var s, p := Pair(e.kind, x, y) + b, PrefixOf(e.kind);
    assert s == p + (x + ("/" + (y + b)));
    assert s[|p|..] == x + ("/" + (y + b));
    TailOfPair(e.first, e.token.second, x, y, b);
  }

  /** The pair pass replaces both segments. */
  lemma OwnPassCollapses(e: Entry, a: string, x: string, y: string, b: string)
    requires ByRuns(e) && e.token.Token? && Separate(e, a)
    requires IsRun(e.first, x) && IsRun(e.token.second, y) && WholeSegments(b)
    ensures ReplaceAll(e.PairRule(), a + (Pair(e.kind, x, y) + b))
            == ReplaceAll(e.PairRule(), a) + (e.PairRule().Literal() + ReplaceAll(e.PairRule(), b))
  {
    EntryRulesWellFormed(e);
    var z := Pair(e.kind, x, y);
    PairOpens(e.kind, x, y, b);
    PassSplitsAfter(e.PairRule(), a, z + b);
    MatchOfPair(e, x, y, b);
    assert (z + b)[|z|..] == b;
  }

  /** The kind stands behind others that spare the segments, and both segments are runs of its classes. */
  ghost predicate Replaceable(entries: seq<Entry>, j: nat, a: string, x: string, y: string, b: string)
    requires j < |entries|
  {
    var e := entries[j];
    && ByRuns(e) && e.token.Token? && Separate(e, a) && WholeSegments(b)
    && IsRun(e.first, x) && IsRun(e.token.second, y) && '/' !in x && '/' !in y
    && Spares(entries, j, a, e.kind, x, y, b)
  }

  lemma PassesCollapsePair(entries: seq<Entry>, j: nat, a: string, x: string, y: string, b: string)
    requires j < |entries| && Replaceable(entries, j, a, x, y, b)
    ensures var e, a', b' := entries[j], Passes(entries[..j], a), Passes(entries[..j], b);
            Passes(entries, a + (Pair(e.kind, x, y) + b))
            == Passes(entries[j + 1..],
                      ReplaceAll(e.SingleRule(), ReplaceAll(e.PairRule(), a')
                                                 + (e.PairRule().Literal() + ReplaceAll(e.PairRule(), b'))))
  {
    var e := entries[j];
    PassesReach(entries, j, e, a, e.kind, x, y, b);
    OwnPassCollapses(e, Passes(entries[..j], a), x, y, Passes(entries[..j], b));
    assert entries[j..][0] == e && entries[j..][1..] == entries[j + 1..];
  }

  lemma LiteralIsNormal(r: Rule)
    requires WellFormed(r)
    ensures NormalForm(r.Literal())
  {
    forall e | e in ENTRIES ensures Clean(e.kind, e.first, e.least, r.Literal()) {
      assert r.Literal() + "" == r.Literal();
      LiteralPrepend(r, e.kind, e.first, e.least, "");
    }
  }

  lemma {:induction false} PassesOfNothing(entries: seq<Entry>)
    ensures Passes(entries, "") == ""
  {
    if entries != [] {
      PassesOfNothing(entries[1..]);
    }
  }

  /** Nothing around the segments: the result is the literal. */
  lemma PairAloneCollapses(j: nat, x: string, y: string)
    requires j < |ENTRIES| && Replaceable(ENTRIES, j, "", x, y, "")
    ensures NormalizePath(Pair(ENTRIES[j].kind, x, y)) == ENTRIES[j].PairRule().Literal()
  {
    var e := ENTRIES[j];
    var l := e.PairRule().Literal();
    PassesOfNothing(ENTRIES[..j]);
    PassesCollapsePair(ENTRIES, j, "", x, y, "");
    assert "" + (Pair(e.kind, x, y) + "") == Pair(e.kind, x, y) && "" + (l + "") == l;
    EntryRulesWellFormed(e);
    LiteralIsNormal(e.PairRule());
    PassOnClean(e.SingleRule(), l);
    PassesOnSettled(ENTRIES[j + 1..], l);
  }

  /** In any context the result does not depend on the segments. */
  lemma PairsIndistinguishable(j: nat, a: string, x: string, y: string, x': string, y': string, b: string)
    requires j < |ENTRIES| && Replaceable(ENTRIES, j, a, x, y, b) && Replaceable(ENTRIES, j, a, x', y', b)
    ensures NormalizePath(a + (Pair(ENTRIES[j].kind, x, y) + b))
            == NormalizePath(a + (Pair(ENTRIES[j].kind, x', y') + b))
  {
    PassesCollapsePair(ENTRIES, j, a, x, y, b);
    PassesCollapsePair(ENTRIES, j, a, x', y', b);
  }

  // ---- webhooks, reactions and interactions ----

  lemma LastEntries()
    ensures ByRuns(ENTRIES[12]) && ByRuns(ENTRIES[13]) && ByRuns(ENTRIES[14])
    ensures ENTRIES[12].first == Word && ENTRIES[12].token.Token? && ENTRIES[13].first == Word
    ensures ENTRIES[13].token == NoToken && ENTRIES[14].first == Digit
  {
    assert ENTRIES[12] == REACTIONS && ENTRIES[13] == INVITES && ENTRIES[14] == INTERACTIONS;
  }

  lemma EarlierEntry(i: nat)
    requires i < 14
    ensures ByRuns(ENTRIES[i])
    ensures ENTRIES[i].first == Digit && ENTRIES[i].token.Token? ==> i == 3
    ensures ENTRIES[i].first == Word ==> i == 12 || i == 13
  {
    LastEntries();
    if i < 12 {
      DigitEntry(i);
    }
  }

  lemma LateKinds()
    ensures ENTRIES[12].kind[0] == 'r' && |ENTRIES[12].kind| == 9
    ensures ENTRIES[13].kind[0] == 'i' && |ENTRIES[13].kind| == 7
    ensures ENTRIES[14].kind[0] == 'i' && |ENTRIES[14].kind| == 12 && ENTRIES[14].kind[4] == 'r'
  {
  }

  lemma KindsDiffer(i: nat, j: nat)
    requires i < j < 15
    ensures ENTRIES[i].kind != ENTRIES[j].kind
  {
    LateKinds();
    if i < 12 {
      DigitEntry(i);
    }
    if j < 12 {
      DigitEntry(j);
      TellApart(i, j);
    } else if i == 10 {
      assert ENTRIES[10].kind[4] == 'g';
    }
  }

  /** The text in front does not end so that a pass takes the kind for its token or its word. */
  ghost predicate Inert(a: string, j: nat) {
    && !EndsInId(ENTRIES[3].kind, a)
    && (j >= 12 ==> !EndsInKind(ENTRIES[12].kind, a))
    && (j >= 14 ==> !EndsInKind(ENTRIES[13].kind, a) && !EndsInId(ENTRIES[14].kind, a))
  }

  /** Neither segment is a kind that is replaced earlier; the last one may be, when nothing follows it. */
  ghost predicate NoKinds(j: nat, x: string, y: string, b: string)
    requires j <= |ENTRIES|
  {
    forall i | 0 <= i < j :: ENTRIES[i].kind != x && (ENTRIES[i].kind != y || b == "")
  }

  lemma SegmentsReplaceable(j: nat, a: string, x: string, y: string, b: string)
    requires j in {3, 12, 14} && ENTRIES[j].token.Token? && ByRuns(ENTRIES[j]) && Inert(a, j) && NoKinds(j, x, y, b)
    requires ENTRIES[j].first == if j == 12 then Word else Digit
    requires IsRun(ENTRIES[j].first, x) && IsRun(ENTRIES[j].token.second, y) && '/' !in x && '/' !in y
    requires WholeSegments(b)
    ensures Replaceable(ENTRIES, j, a, x, y, b)
  {
    forall i | 0 <= i < j
      ensures ByRuns(ENTRIES[i]) && Separate(ENTRIES[i], a) && NotAmong(ENTRIES[i].kind, ENTRIES[j].kind, x, y, b)
    {
      EarlierEntry(i);
      KindsDiffer(i, j);
    }
  }

  lemma IdIsNoKind(i: nat, d: string)
    requires i < 14 && IsId(d)
    ensures ENTRIES[i].kind != d && '/' !in d
  {
    EarlierEntry(i);
    assert Lower(ENTRIES[i].kind) && Digit.Has(d[0]);
  }

  ghost predicate IsToken(t: string) {
    t != "" && '/' !in t
  }

  lemma WebhookReplaceable(a: string, d: string, t: string, b: string)
    requires IsId(d) && IsToken(t) && WholeSegments(b) && Inert(a, 3)
    requires b == "" || forall i | 0 <= i < 3 :: t != ENTRIES[i].kind
    ensures Replaceable(ENTRIES, 3, a, d, t, b)
  {
    DigitEntry(3);
    assert ENTRIES[3] == WEBHOOKS;
    forall i | 0 <= i < 3 ensures ENTRIES[i].kind != d {
      IdIsNoKind(i, d);
    }
    IdIsNoKind(0, d);
    SegmentsReplaceable(3, a, d, t, b);
  }

  lemma InteractionReplaceable(a: string, d: string, t: string, b: string)
    requires IsId(d) && IsToken(t) && '{' !in t && WholeSegments(b) && Inert(a, 14)
    requires b == "" || forall i | 0 <= i < 14 :: t != ENTRIES[i].kind
    ensures Replaceable(ENTRIES, 14, a, d, t, b)
  {
    LastEntries();
    assert ENTRIES[14] == INTERACTIONS;
    forall i | 0 <= i < 14 ensures ENTRIES[i].kind != d {
      IdIsNoKind(i, d);
    }
    IdIsNoKind(0, d);
    SegmentsReplaceable(14, a, d, t, b);
  }

  lemma ReactionReplaceable(a: string, emoji: string, d: string, b: string)
    requires IsId(d) && IsToken(emoji) && '{' !in emoji && WholeSegments(b) && Inert(a, 12)
    requires forall i | 0 <= i < 12 :: emoji != ENTRIES[i].kind
    ensures Replaceable(ENTRIES, 12, a, emoji, d, b)
  {
    LastEntries();
    assert ENTRIES[12] == REACTIONS;
    forall i | 0 <= i < 12 ensures ENTRIES[i].kind != d {
      IdIsNoKind(i, d);
    }
    IdIsNoKind(0, d);
    SegmentsReplaceable(12, a, emoji, d, b);
  }

  lemma NothingInFront(j: nat)
    requires j in {3, 12, 14}
    ensures Inert("", j)
  {
    LastEntries();
    DigitEntry(3);
    assert ENTRIES[14] == INTERACTIONS;
    assert forall kind: string :: kind != "" ==> !EndsInId(kind, "");
  }

  // ---- one segment ----

  lemma NoMatchInSegment(r: Rule, kind: string, x: string, i: nat)
    requires Plain(r.kind) && r.kind != "" && '/' !in kind && '/' !in x && i < |"/" + kind + "/" + x|
    ensures r.kind != kind || i > 0 ==> MatchLength(r, ("/" + kind + "/" + x)[i..]) == 0
  {
    var z := "/" + kind + "/" + x;
    assert z[i..][0] == z[i] && r.Prefix()[0] == '/';
    if i == 0 {
      if r.kind != kind {
        OtherSegment(r.kind, kind, x);
      }
    } else if i <= |kind| {
      assert z[i] == kind[i - 1] && kind[i - 1] in kind;
    } else if i == |kind| + 1 {
      LastSegment(r.kind, x);
      assert z[i..] == "/" + x;
    } else {
      assert z[i] == x[i - |kind| - 2] && x[i - |kind| - 2] in x;
    }
  }

  lemma PassKeepsSegment(r: Rule, kind: string, x: string)
    requires Plain(r.kind) && r.kind != "" && '/' !in kind && '/' !in x
    requires r.kind != kind || MatchLength(r, "/" + kind + "/" + x) == 0
    ensures ReplaceAll(r, "/" + kind + "/" + x) == "/" + kind + "/" + x
  {
    var z := "/" + kind + "/" + x;
    forall i | 0 <= i < |z| ensures MatchLength(r, z[i..] + "") == 0 {
      NoMatchInSegment(r, kind, x, i);
      assert z[i..] + "" == z[i..] && z[0..] == z;
    }
    PassSkips(r, z, "");
    assert z + "" == z;
  }

  lemma OtherEntryKeepsSegment(e: Entry, kind: string, x: string)
    requires GoodEntry(e) && e.kind != "" && e.kind != kind && '/' !in kind && '/' !in x
    ensures e.Apply("/" + kind + "/" + x) == "/" + kind + "/" + x
  {
    if e.token.Token? {
      PassKeepsSegment(e.PairRule(), kind, x);
    }
    PassKeepsSegment(e.SingleRule(), kind, x);
  }

  /** Without a second segment only the single-run pass matches. */
  lemma OwnEntryCollapsesSegment(e: Entry, x: string)
    requires GoodEntry(e) && e.kind != "" && e.least == 1 && IsRun(e.first, x) && '/' !in x
    ensures e.Apply("/" + e.kind + "/" + x) == e.SingleRule().Literal()
  {
    var z := "/" + e.kind + "/" + x;
    assert z[|PrefixOf(e.kind)|..] == x && PrefixOf(e.kind) <= z;
    SpanOfRun(e.first, x, |x|);
    if e.token.Token? {
      PassKeepsSegment(e.PairRule(), e.kind, x);
    }
    assert MatchLength(e.SingleRule(), z) == |z|;
    assert z[|z|..] == "" && ReplaceAll(e.SingleRule(), "") == "";
    assert ReplaceAll(e.SingleRule(), z) == e.SingleRule().Literal() + "" == e.SingleRule().Literal();
  }

  lemma {:induction false} PassesReachSegment(entries: seq<Entry>, j: nat, kind: string, x: string)
    requires j <= |entries| && '/' !in kind && '/' !in x
    requires forall i | 0 <= i < j :: GoodEntry(entries[i]) && entries[i].kind != "" && entries[i].kind != kind
    ensures Passes(entries, "/" + kind + "/" + x) == Passes(entries[j..], "/" + kind + "/" + x)
    decreases j
  {
    if j > 0 {
      OtherEntryKeepsSegment(entries[0], kind, x);
      PassesReachSegment(entries[1..], j - 1, kind, x);
      assert entries[1..][j - 1..] == entries[j..];
    }
  }

  lemma SegmentCollapses(j: nat, x: string)
    requires j < 15 && IsRun(ENTRIES[j].first, x) && '/' !in x
    ensures NormalizePath("/" + ENTRIES[j].kind + "/" + x) == ENTRIES[j].SingleRule().Literal()
  {
    LastEntries();
    if j < 14 {
      EarlierEntry(j);
    }
    var e := ENTRIES[j];
    forall i | 0 <= i < j ensures ENTRIES[i].kind != e.kind && ENTRIES[i].kind != "" {
      EarlierEntry(i);
      KindsDiffer(i, j);
    }
    PassesReachSegment(ENTRIES, j, e.kind, x);
    OwnEntryCollapsesSegment(e, x);
    assert ENTRIES[j..][0] == e && ENTRIES[j..][1..] == ENTRIES[j + 1..];
    EntryRulesWellFormed(e);
    LiteralIsNormal(e.SingleRule());
    PassesOnSettled(ENTRIES[j + 1..], e.SingleRule().Literal());
  }

  lemma LiteralOfOne(e: Entry)
    requires e.kind != ""
    ensures e.SingleRule().Literal() == "/" + e.kind + "/" + ("{" + e.label0 + "}")
  {
    assert Braced([e.label0]) == "{" + e.label0 + "}";
  }

  /** A kind followed by a run of its class and nothing else is reported as the kind and its label. */
  lemma SegmentHidden(j: nat, x: string)
    requires j < 15 && x != "" && '/' !in x
    requires forall i | 0 <= i < |x| :: if j == 12 || j == 13 then x[i] != '{' else '0' <= x[i] <= '9'
    ensures NormalizePath("/" + ENTRIES[j].kind + "/" + x)
            == "/" + ENTRIES[j].kind + "/" + ("{" + ENTRIES[j].label0 + "}")
  {
    LastEntries();
    if j < 14 {
      EarlierEntry(j);
    }
    SegmentCollapses(j, x);
    LiteralOfOne(ENTRIES[j]);
  }

  // ---- the names reported ----

  lemma LiteralOfTwo(e: Entry)
    requires e.token.Token? && e.kind != ""
    ensures e.PairRule().Literal() == "/" + e.kind + "/" + ("{" + e.label0 + "}/{" + e.token.label1 + "}")
  {
    var labels := [e.label0, e.token.label1];
    assert labels[1..] == [e.token.label1];
    assert Braced(labels[1..]) == "{" + e.token.label1 + "}";
  }

  lemma WebhookPrefix()
    ensures "/" + "webhooks" + "/" == "/webhooks/"
  {
  }

  lemma WebhookLabels()
    ensures "{" + "webhook_id" + "}/{" + "webhook_token" + "}" == "{webhook_id}/{webhook_token}"
  {
  }

  lemma WebhookLiteral()
    ensures WEBHOOKS.PairRule().Literal() == "/webhooks/" + "{webhook_id}/{webhook_token}"
  {
    WebhookLabels();
    LiteralOfTwo(WEBHOOKS);
    WebhookPrefix();
  }

  lemma WebhookPath(x: string, y: string)
    ensures Pair("webhooks", x, y) == "/webhooks/" + x + "/" + y
  {
    WebhookPrefix();
  }

  lemma InteractionPrefix()
    ensures "/" + "interactions" + "/" == "/interactions/"
  {
  }

  lemma InteractionLabels()
    ensures "{" + "interaction_id" + "}/{" + "interaction_token" + "}" == "{interaction_id}/{interaction_token}"
  {
  }

  lemma InteractionLiteral()
    ensures INTERACTIONS.PairRule().Literal() == "/interactions/" + "{interaction_id}/{interaction_token}"
  {
    InteractionLabels();
    LiteralOfTwo(INTERACTIONS);
    InteractionPrefix();
  }

  lemma InteractionPath(x: string, y: string)
    ensures Pair("interactions", x, y) == "/interactions/" + x + "/" + y
  {
    InteractionPrefix();
  }

  lemma ReactionPrefix()
    ensures "/" + "reactions" + "/" == "/reactions/"
  {
  }

  lemma ReactionLabels()
    ensures "{" + "emoji" + "}/{" + "user_id" + "}" == "{emoji}/{user_id}"
  {
  }

  lemma ReactionLiteral()
    ensures REACTIONS.PairRule().Literal() == "/reactions/" + "{emoji}/{user_id}"
  {
    ReactionLabels();
    LiteralOfTwo(REACTIONS);
    ReactionPrefix();
  }

  lemma ReactionPath(x: string, y: string)
    ensures Pair("reactions", x, y) == "/reactions/" + x + "/" + y
  {
    ReactionPrefix();
  }

  lemma WebhookAlone(d: string, t: string)
    requires IsId(d) && IsToken(t)
    ensures NormalizePath(Pair(WEBHOOKS.kind, d, t)) == WEBHOOKS.PairRule().Literal()
  {
    NothingInFront(3);
    WebhookReplaceable("", d, t, "");
    PairAloneCollapses(3, d, t);
    assert ENTRIES[3] == WEBHOOKS;
  }

  /** A webhook execution is reported without ID and token. */
  lemma WebhookTokenHidden(d: string, t: string)
    requires IsId(d) && IsToken(t)
    ensures NormalizePath("/webhooks/" + d + "/" + t) == "/webhooks/" + "{webhook_id}/{webhook_token}"
  {
    WebhookAlone(d, t);
    WebhookPath(d, t);
    WebhookLiteral();
  }

  /** So is an interaction's reply. */
  lemma InteractionTokenHidden(d: string, t: string)
    requires IsId(d) && IsToken(t) && '{' !in t
    ensures NormalizePath("/interactions/" + d + "/" + t) == "/interactions/" + "{interaction_id}/{interaction_token}"
  {
    NothingInFront(14);
    InteractionReplaceable("", d, t, "");
    PairAloneCollapses(14, d, t);
    InteractionPath(d, t);
    InteractionLiteral();
  }

  /** And a user's reaction, without emoji and user. */
  lemma ReactionHidden(emoji: string, d: string)
    requires IsId(d) && IsToken(emoji) && '{' !in emoji && forall i | 0 <= i < 12 :: emoji != ENTRIES[i].kind
    ensures NormalizePath("/reactions/" + emoji + "/" + d) == "/reactions/" + "{emoji}/{user_id}"
  {
    NothingInFront(12);
    ReactionReplaceable("", emoji, d, "");
    PairAloneCollapses(12, emoji, d);
    ReactionPath(emoji, d);
    ReactionLiteral();
  }

  /** Paths that differ only in a webhook's ID and token share one metrics name, in every context in which neither the
      webhook stands where another one's token would nor the token is one of the three kinds replaced before. */
  lemma WebhookTokensIndistinguishable(a: string, d: string, t: string, d': string, t': string, b: string)
    requires IsId(d) && IsId(d') && IsToken(t) && IsToken(t') && WholeSegments(b) && !EndsInId("webhooks", a)
    requires b == "" || forall i | 0 <= i < 3 :: t != ENTRIES[i].kind && t' != ENTRIES[i].kind
    ensures NormalizePath(a + (Pair("webhooks", d, t) + b)) == NormalizePath(a + (Pair("webhooks", d', t') + b))
  {
    assert ENTRIES[3] == WEBHOOKS;
    WebhookReplaceable(a, d, t, b);
    WebhookReplaceable(a, d', t', b);
    PairsIndistinguishable(3, a, d, t, d', t', b);
  }

  lemma InteractionTokensIndistinguishable(a: string, d: string, t: string, d': string, t': string, b: string)
    requires IsId(d) && IsId(d') && IsToken(t) && IsToken(t') && '{' !in t && '{' !in t' && WholeSegments(b)
    requires Inert(a, 14) && (b == "" || forall i | 0 <= i < 14 :: t != ENTRIES[i].kind && t' != ENTRIES[i].kind)
    ensures NormalizePath(a + (Pair("interactions", d, t) + b)) == NormalizePath(a + (Pair("interactions", d', t') + b))
  {
    InteractionReplaceable(a, d, t, b);
    InteractionReplaceable(a, d', t', b);
    assert ENTRIES[14] == INTERACTIONS;
    PairsIndistinguishable(14, a, d, t, d', t', b);
  }

  lemma ReactionsIndistinguishable(a: string, emoji: string, d: string, emoji': string, d': string, b: string)
    requires IsId(d) && IsId(d') && IsToken(emoji) && IsToken(emoji') && '{' !in emoji && '{' !in emoji'
    requires WholeSegments(b) && Inert(a, 12)
    requires forall i | 0 <= i < 12 :: emoji != ENTRIES[i].kind && emoji' != ENTRIES[i].kind
    ensures NormalizePath(a + (Pair("reactions", emoji, d) + b))
            == NormalizePath(a + (Pair("reactions", emoji', d') + b))
  {
    ReactionReplaceable(a, emoji, d, b);
    ReactionReplaceable(a, emoji', d', b);
    assert ENTRIES[12] == REACTIONS;
    PairsIndistinguishable(12, a, emoji, d, emoji', d', b);
  }
}
