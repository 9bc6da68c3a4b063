/** Request-path normalisation for metrics (bot/metrics/paths.go).

    A pass is one regular expression of the shape `/kind/<tail>`, or a bare digit run, replaced by a literal.
    A tail is one character-class run, or two runs around a slash. A slash is in no first run's class, so
    leftmost-greedy matching needs no backtracking and is written out directly. */
module Paths {

  /** `\d`, `[^{/]` and `[^/]`. */
  datatype CharClass = Digit | Word | Segment {
    predicate Has(c: char) {
      match this
      case Digit => '0' <= c <= '9'
      case Word => c != '{' && c != '/'
      case Segment => c != '/'
    }
  }

  /** One(c, least) is `c{least,}`; Two(a, b) is `a+/b+`. */
  datatype Tail = One(chars: CharClass, least: nat) | Two(first: CharClass, second: CharClass)

  /** "{a}" or "{a}/{b}". */
  function Braced(labels: seq<string>): string {
    if labels == [] then ""
    else "{" + labels[0] + "}" + if |labels| == 1 then "" else "/" + Braced(labels[1..])
  }

  function PrefixOf(kind: string): string {
    if kind == "" then "" else "/" + kind + "/"
  }

  datatype Rule = Rule(kind: string, tail: Tail, labels: seq<string>) {
    function Prefix(): string {
      PrefixOf(kind)
    }

    /** The replacement, for example "/channels/{channel_id}". */
    function Literal(): string {
      Prefix() + Braced(labels)
    }
  }

  // ---- shape of the rules ----

  /** Every slash in z is directly followed, within z, by an opening brace. */
  ghost predicate SlashesOpen(z: string) {
    forall i | 0 <= i < |z| && z[i] == '/' :: i + 1 < |z| && z[i + 1] == '{'
  }

  ghost predicate Plain(kind: string) {
    '/' !in kind && '{' !in kind
  }

  /** The literal repeats the prefix and continues with braced labels; it holds no digit. */
  ghost predicate WellFormed(r: Rule) {
    && Plain(r.kind)
    && r.Prefix() < r.Literal()
    && r.Literal()[|r.Prefix()|] == '{'
    && SlashesOpen(r.Literal()[|r.Prefix()|..])
    && (forall c | c in r.Literal() :: !Digit.Has(c))
    && (r.tail.One? ==> Searchable(r.kind, r.tail.chars, r.tail.least))
  }

  ghost predicate Searchable(kind: string, c: CharClass, least: nat) {
    && Plain(kind) && least > 0
    && (c == Digit || (c == Word && kind != ""))
  }

  ghost predicate Lower(s: string) {
    forall i | 0 <= i < |s| :: 'a' <= s[i] <= 'z' || s[i] == '_'
  }

  lemma {:induction false} BracedShape(labels: seq<string>)
    requires labels != [] && forall l | l in labels :: Lower(l)
    ensures Braced(labels) != "" && Braced(labels)[0] == '{'
    ensures SlashesOpen(Braced(labels))
    ensures forall c | c in Braced(labels) :: !Digit.Has(c)
  {
    var rest := labels[1..];
    assert Lower(labels[0]);
    if rest != [] {
      BracedShape(rest);
      assert Braced(labels) == "{" + labels[0] + "}/" + Braced(rest);
    } else {
      assert Braced(labels) == "{" + labels[0] + "}";
    }
  }

  lemma RuleShape(r: Rule)
    requires Lower(r.kind) && r.labels != [] && forall l | l in r.labels :: Lower(l)
    requires r.tail.One? ==> Searchable(r.kind, r.tail.chars, r.tail.least)
    ensures WellFormed(r)
  {
    BracedShape(r.labels);
    assert r.Literal()[|r.Prefix()|..] == Braced(r.labels);
  }

  /** Length of the longest prefix of s inside the class. */
  function Span(c: CharClass, s: string): (n: nat)
    ensures n <= |s|
    ensures forall i | 0 <= i < n :: c.Has(s[i])
    ensures n < |s| ==> !c.Has(s[n])
  {
    if s == "" || !c.Has(s[0]) then 0 else 1 + Span(c, s[1..])
  }

  /** Length of the tail's match at the start of s, 0 when it does not match. */
  function TailLength(t: Tail, s: string): (n: nat)
    ensures n <= |s|
  {
    match t
    case One(c, least) =>
      var n := Span(c, s);
      if n < least then 0 else n
    case Two(a, b) =>
      var n := Span(a, s);
      if n == 0 || n == |s| || s[n] != '/' then 0
      else
        var m := Span(b, s[n + 1..]);
        if m == 0 then 0 else n + 1 + m
  }

  /** Length of the rule's match at the start of s, 0 when it does not match. */
  function MatchLength(r: Rule, s: string): (n: nat)
    ensures n <= |s|
    ensures n > 0 ==> r.Prefix() <= s && |r.Prefix()| <= n
  {
    if r.Prefix() <= s then
      var n := TailLength(r.tail, s[|r.Prefix()|..]);
      if n == 0 then 0 else |r.Prefix()| + n
    else 0
  }

  /** Replaces every leftmost, non-overlapping match. */
  function ReplaceAll(r: Rule, s: string): string
    decreases |s|
  {
    if s == "" then ""
    else
      var n := MatchLength(r, s);
      if n > 0 then r.Literal() + ReplaceAll(r, s[n..]) else [s[0]] + ReplaceAll(r, s[1..])
  }

  /** The passes over one kind: the two-run pass, where there is one, right before the single-run pass. */
  datatype Entry = Entry(kind: string, first: CharClass, least: nat, label0: string, token: Token) {
    function SingleRule(): Rule {
      Rule(kind, One(first, least), [label0])
    }

    function PairRule(): Rule
      requires token.Token?
    {
      Rule(kind, Two(first, token.second), [label0, token.label1])
    }

    function Apply(path: string): string {
      ReplaceAll(SingleRule(), if token.Token? then ReplaceAll(PairRule(), path) else path)
    }
  }

  datatype Token = NoToken | Token(second: CharClass, label1: string)

  ghost predicate GoodEntry(e: Entry) {
    && Lower(e.kind) && Lower(e.label0) && (e.token.Token? ==> Lower(e.token.label1))
    && Searchable(e.kind, e.first, e.least)
    && (e.token.Token? ==> e.least == 1)
  }

  type PathEntry = e: Entry | GoodEntry(e) witness Entry("x", Digit, 1, "x", NoToken)

  const CHANNELS: PathEntry := Entry("channels", Digit, 1, "channel_id", NoToken)
  const MESSAGES: PathEntry := Entry("messages", Digit, 1, "message_id", NoToken)
  const MEMBERS: PathEntry := Entry("members", Digit, 1, "user_id", NoToken)
  const WEBHOOKS: PathEntry := Entry("webhooks", Digit, 1, "webhook_id", Token(Segment, "webhook_token"))
  const USERS: PathEntry := Entry("users", Digit, 1, "user_id", NoToken)
  const BANS: PathEntry := Entry("bans", Digit, 1, "user_id", NoToken)
  const ROLES: PathEntry := Entry("roles", Digit, 1, "role_id", NoToken)
  const PINS: PathEntry := Entry("pins", Digit, 1, "message_id", NoToken)
  const EMOJIS: PathEntry := Entry("emojis", Digit, 1, "emoji_id", NoToken)
  const GUILDS: PathEntry := Entry("guilds", Digit, 1, "guild_id", NoToken)
  const INTEGRATIONS: PathEntry := Entry("integrations", Digit, 1, "integration_id", NoToken)
  const PERMISSIONS: PathEntry := Entry("permissions", Digit, 1, "overwrite_id", NoToken)
  const REACTIONS: PathEntry := Entry("reactions", Word, 1, "emoji", Token(Digit, "user_id"))
  const INVITES: PathEntry := Entry("invites", Word, 1, "invite_code", NoToken)
  const INTERACTIONS: PathEntry := Entry("interactions", Digit, 1, "interaction_id", Token(Word, "interaction_token"))
  const SNOWFLAKES: PathEntry := Entry("", Digit, 15, "snowflake", NoToken)

  const ENTRIES: seq<PathEntry> := [
    CHANNELS, MESSAGES, MEMBERS, WEBHOOKS, USERS, BANS, ROLES, PINS, EMOJIS, GUILDS, INTEGRATIONS, PERMISSIONS,
    REACTIONS, INVITES, INTERACTIONS, SNOWFLAKES
  ]

  /** The passes in order. */
  function Passes(entries: seq<Entry>, path: string): string {
    if entries == [] then path else Passes(entries[1..], entries[0].Apply(path))
  }

  function NormalizePath(path: string): string {
    Passes(ENTRIES, path)
  }

  // ---- what a path without anything left to collapse looks like ----

  /** s starts with "/kind/" followed by at least `least` characters of the class. */
  ghost predicate Hit(kind: string, c: CharClass, least: nat, s: string) {
    var prefix := PrefixOf(kind);
    prefix <= s && Span(c, s[|prefix|..]) >= least
  }

  /** No position of s is such a start. */
  ghost predicate Clean(kind: string, c: CharClass, least: nat, s: string) {
    forall i | 0 <= i <= |s| :: !Hit(kind, c, least, s[i..])
  }

  ghost predicate Settled(entries: seq<Entry>, s: string) {
    forall e | e in entries :: Clean(e.kind, e.first, e.least, s)
  }

  /** Nothing is left to collapse: no "/kind/" followed by a character of the kind's class, no run of 15 digits. */
  ghost predicate NormalForm(s: string) {
    Settled(ENTRIES, s)
  }

  // ---- span and hit facts ----

  lemma SpanOfRun(c: CharClass, s: string, k: nat)
    requires k <= |s| && forall i | 0 <= i < k :: c.Has(s[i])
    ensures Span(c, s) >= k
  {
  }

  /** A hit is a brace-free prefix of fixed length. */
  function Witness(kind: string, least: nat, s: string): string
    requires |PrefixOf(kind)| + least <= |s|
  {
    s[..|PrefixOf(kind)| + least]
  }

  lemma WitnessOfHit(kind: string, c: CharClass, least: nat, s: string)
    requires Searchable(kind, c, least) && Hit(kind, c, least, s)
    ensures '{' !in Witness(kind, least, s)
  {
    var p, w := PrefixOf(kind), Witness(kind, least, s);
    forall i | 0 <= i < |w| ensures w[i] != '{' {
      if i < |p| {
        assert w[i] == p[i] && p[i] in p;
      } else {
        assert w[i] == s[|p|..][i - |p|];
      }
    }
  }

  lemma HitHead(kind: string, c: CharClass, least: nat, s: string)
    requires Searchable(kind, c, least)
    ensures Hit(kind, c, least, s) && kind == "" ==> s != "" && Digit.Has(s[0])
    ensures Hit(kind, c, least, s) && kind != "" ==>
              |s| > |kind| + 2 && s[0] == '/' && s[1] == kind[0] && s[|kind| + 1] == '/' && s[|kind| + 2] != '{' &&
              forall i | 0 <= i < |kind| :: s[i + 1] == kind[i]
  {
    var p := PrefixOf(kind);
    if Hit(kind, c, least, s) {
      assert s[|p|..][0] == s[|p|];
      assert kind != "" ==> p[0] == '/' && p[|kind| + 1] == '/' && forall i | 0 <= i < |kind| :: p[i + 1] == kind[i];
    }
  }

  lemma HitOfPrefix(kind: string, c: CharClass, least: nat, s: string, t: string)
    requires Searchable(kind, c, least) && Hit(kind, c, least, s)
    requires Witness(kind, least, s) <= t
    ensures Hit(kind, c, least, t)
  {
    var p, w := PrefixOf(kind), Witness(kind, least, s);
    assert p <= w;
    forall i | 0 <= i < least ensures c.Has(t[|p|..][i]) {
      assert t[|p|..][i] == w[|p| + i] == s[|p|..][i];
    }
    SpanOfRun(c, t[|p|..], least);
  }

  lemma CleanSuffix(kind: string, c: CharClass, least: nat, s: string, n: nat)
    requires n <= |s| && Clean(kind, c, least, s)
    ensures Clean(kind, c, least, s[n..])
  {
  }

  lemma CleanCons(kind: string, c: CharClass, least: nat, s: string)
    requires s != "" && !Hit(kind, c, least, s) && Clean(kind, c, least, s[1..])
    ensures Clean(kind, c, least, s)
  {
    forall i | 0 <= i <= |s| ensures !Hit(kind, c, least, s[i..]) {
      if i > 0 {
        assert s[i..] == s[1..][i - 1..];
      } else {
        assert s[i..] == s;
      }
    }
  }

  /** Text whose slashes all open braces, and which holds no digit, adds no hit in front of clean text. */
  lemma {:induction false} CleanPrepend(kind: string, c: CharClass, least: nat, z: string, x: string)
    requires Searchable(kind, c, least) && Clean(kind, c, least, x)
    requires SlashesOpen(z) && forall d | d in z :: !Digit.Has(d)
    ensures Clean(kind, c, least, z + x)
  {
    if z == "" {
      assert z + x == x;
    } else {
      forall i | 0 <= i < |z[1..]| && z[1..][i] == '/' ensures i + 1 < |z[1..]| && z[1..][i + 1] == '{' {
        assert z[i + 1] == '/';
      }
      CleanPrepend(kind, c, least, z[1..], x);
      assert (z + x)[1..] == z[1..] + x;
      HitHead(kind, c, least, z + x);
      CleanCons(kind, c, least, z + x);
    }
  }

  // ---- one pass ----

  lemma PlainPrefixOfLiteral(r: Rule, w: string, x: string)
    requires WellFormed(r) && '{' !in w && w <= r.Literal() + x
    ensures w <= r.Prefix()
  {
    var p := |r.Prefix()|;
    assert (r.Literal() + x)[p] == '{';
    assert forall i | 0 <= i < |w| :: w[i] == (r.Literal() + x)[i];
    assert w == (r.Literal() + x)[..|w|] == r.Prefix()[..|w|];
  }

  /** A brace-free prefix of the result was already a prefix of the input. */
  lemma {:induction false} PrefixSurvives(r: Rule, s: string, w: string)
    requires WellFormed(r) && '{' !in w && w <= ReplaceAll(r, s)
    ensures w <= s
    decreases |s|
  {
    if s != "" && w != "" {
      var n := MatchLength(r, s);
      if n > 0 {
        PlainPrefixOfLiteral(r, w, ReplaceAll(r, s[n..]));
      } else {
        assert w[1..] <= ReplaceAll(r, s[1..]) by {
          assert ReplaceAll(r, s)[1..] == ReplaceAll(r, s[1..]);
          assert w[1..] == ReplaceAll(r, s)[..|w|][1..] == ReplaceAll(r, s[1..])[..|w| - 1];
        }
        forall i | 0 <= i < |w[1..]| ensures w[1..][i] != '{' {
          assert w[i + 1] in w;
        }
        PrefixSurvives(r, s[1..], w[1..]);
        assert w == [s[0]] + w[1..] && s == [s[0]] + s[1..];
      }
    }
  }

  lemma HitSurvives(r: Rule, kind: string, c: CharClass, least: nat, s: string)
    requires WellFormed(r) && Searchable(kind, c, least)
    ensures Hit(kind, c, least, ReplaceAll(r, s)) ==> Hit(kind, c, least, s)
  {
    var t := ReplaceAll(r, s);
    if Hit(kind, c, least, t) {
      WitnessOfHit(kind, c, least, t);
      PrefixSurvives(r, s, Witness(kind, least, t));
      HitOfPrefix(kind, c, least, t, s);
    }
  }

  /** No hit starts at the first character of a replaced match. */
  lemma LiteralStartsNoHit(r: Rule, kind: string, c: CharClass, least: nat, x: string)
    requires WellFormed(r) && Searchable(kind, c, least)
    ensures !Hit(kind, c, least, r.Literal() + x)
  {
    var s := r.Literal() + x;
    HitHead(kind, c, least, s);
    assert s[0] == r.Literal()[0];
    assert s[|r.Prefix()|] == '{';
    assert forall i | 0 <= i < |r.kind| && r.kind != "" :: s[i + 1] == r.kind[i];
  }

  lemma LiteralTailOpens(r: Rule)
    requires WellFormed(r)
    ensures SlashesOpen(r.Literal()[1..])
  {
    var p := r.Prefix();
    var braced := Braced(r.labels);
    assert r.Literal()[|p|..] == braced;
    if r.kind == "" {
      assert r.Literal() == braced;
    } else {
      assert r.Literal()[1..] == r.kind + "/" + braced;
    }
  }

  lemma LiteralTailPrepend(r: Rule, kind: string, c: CharClass, least: nat, y: string)
    requires WellFormed(r) && Searchable(kind, c, least) && Clean(kind, c, least, y)
    ensures Clean(kind, c, least, r.Literal()[1..] + y)
  {
    LiteralTailOpens(r);
    forall d | d in r.Literal()[1..] ensures !Digit.Has(d) {
      assert d in r.Literal();
    }
    CleanPrepend(kind, c, least, r.Literal()[1..], y);
  }

  lemma LiteralPrepend(r: Rule, kind: string, c: CharClass, least: nat, y: string)
    requires WellFormed(r) && Searchable(kind, c, least) && Clean(kind, c, least, y)
    ensures Clean(kind, c, least, r.Literal() + y)
  {
    LiteralTailPrepend(r, kind, c, least, y);
    LiteralStartsNoHit(r, kind, c, least, y);
    assert (r.Literal() + y)[1..] == r.Literal()[1..] + y;
    CleanCons(kind, c, least, r.Literal() + y);
  }

  /** A pass creates no hit of any kind, and removes every hit of its own. */
  lemma {:induction false} PassKeepsClean(r: Rule, kind: string, c: CharClass, least: nat, s: string)
    requires WellFormed(r) && Searchable(kind, c, least)
    requires Clean(kind, c, least, s) || (r.kind == kind && r.tail == One(c, least))
    ensures Clean(kind, c, least, ReplaceAll(r, s))
    decreases |s|
  {
    if s == "" {
      forall i | 0 <= i <= |s| ensures !Hit(kind, c, least, s[i..]) {}
    } else {
      var n := MatchLength(r, s);
      if n > 0 {
        if Clean(kind, c, least, s) {
          CleanSuffix(kind, c, least, s, n);
        }
        PassKeepsClean(r, kind, c, least, s[n..]);
        LiteralPrepend(r, kind, c, least, ReplaceAll(r, s[n..]));
      } else {
        if Clean(kind, c, least, s) {
          CleanSuffix(kind, c, least, s, 1);
        }
        PassKeepsClean(r, kind, c, least, s[1..]);
        assert s[0..] == s;
        HitSurvives(r, kind, c, least, s);
        assert ReplaceAll(r, s)[1..] == ReplaceAll(r, s[1..]);
        CleanCons(kind, c, least, ReplaceAll(r, s));
      }
    }
  }

  /** A pass whose first run finds no start changes nothing. */
  lemma {:induction false} PassOnClean(r: Rule, s: string)
    requires match r.tail
             case One(c, least) => least > 0 && Clean(r.kind, c, least, s)
             case Two(a, _) => Clean(r.kind, a, 1, s)
    ensures ReplaceAll(r, s) == s
    decreases |s|
  {
    if s != "" {
      assert s[0..] == s;
      match r.tail {
        case One(c, least) => CleanSuffix(r.kind, c, least, s, 1);
        case Two(a, _) => CleanSuffix(r.kind, a, 1, s, 1);
      }
      PassOnClean(r, s[1..]);
    }
  }

  // ---- all passes ----

  lemma EntryRulesWellFormed(e: Entry)
    requires GoodEntry(e)
    ensures WellFormed(e.SingleRule())
    ensures e.token.Token? ==> WellFormed(e.PairRule())
  {
    RuleShape(e.SingleRule());
    if e.token.Token? {
      RuleShape(e.PairRule());
    }
  }

  lemma EntryKeepsClean(e: Entry, kind: string, c: CharClass, least: nat, s: string)
    requires GoodEntry(e) && Searchable(kind, c, least)
    requires Clean(kind, c, least, s) || (e.kind == kind && e.first == c && e.least == least)
    ensures Clean(kind, c, least, e.Apply(s))
  {
    EntryRulesWellFormed(e);
    var t := if e.token.Token? then ReplaceAll(e.PairRule(), s) else s;
    if Clean(kind, c, least, s) && e.token.Token? {
      PassKeepsClean(e.PairRule(), kind, c, least, s);
    }
    PassKeepsClean(e.SingleRule(), kind, c, least, t);
  }

  lemma {:induction false} PassesKeepClean(entries: seq<Entry>, kind: string, c: CharClass, least: nat, s: string)
    requires Searchable(kind, c, least) && forall e | e in entries :: GoodEntry(e)
    requires Clean(kind, c, least, s)
             || exists e | e in entries :: e.kind == kind && e.first == c && e.least == least
    ensures Clean(kind, c, least, Passes(entries, s))
  {
    if entries != [] {
      var e := entries[0];
      if Clean(kind, c, least, s) || (e.kind == kind && e.first == c && e.least == least) {
        EntryKeepsClean(e, kind, c, least, s);
      }
      PassesKeepClean(entries[1..], kind, c, least, e.Apply(s));
    }
  }

  lemma PassesSettle(entries: seq<Entry>, path: string)
    requires forall e | e in entries :: GoodEntry(e)
    ensures Settled(entries, Passes(entries, path))
  {
    forall e | e in entries ensures Clean(e.kind, e.first, e.least, Passes(entries, path)) {
      PassesKeepClean(entries, e.kind, e.first, e.least, path);
    }
  }

  lemma {:induction false} PassesOnSettled(entries: seq<Entry>, s: string)
    requires (forall e | e in entries :: GoodEntry(e)) && Settled(entries, s)
    ensures Passes(entries, s) == s
  {
    if entries != [] {
      var e := entries[0];
      assert Clean(e.kind, e.first, e.least, s);
      if e.token.Token? {
        PassOnClean(e.PairRule(), s);
      }
      PassOnClean(e.SingleRule(), s);
      PassesOnSettled(entries[1..], s);
    }
  }

  /** After all passes nothing is left that any pass would match. */
  lemma NormalizeReachesNormalForm(path: string)
    ensures NormalForm(NormalizePath(path))
  {
    PassesSettle(ENTRIES, path);
  }

  lemma NormalizeIdempotent(path: string)
    ensures NormalizePath(NormalizePath(path)) == NormalizePath(path)
  {
    NormalizeReachesNormalForm(path);
    PassesOnSettled(ENTRIES, NormalizePath(path));
  }

  /** The paths left alone are exactly the ones with nothing to collapse. */
  lemma UnchangedIffNormalForm(path: string)
    ensures NormalizePath(path) == path <==> NormalForm(path)
  {
    NormalizeReachesNormalForm(path);
    if NormalForm(path) {
      PassesOnSettled(ENTRIES, path);
    }
  }

  // ---- what one pass does to a path holding an ID ----

  ghost predicate IsId(d: string) {
    d != "" && forall i | 0 <= i < |d| :: Digit.Has(d[i])
  }

  ghost predicate StartsWithoutDigit(s: string) {
    s == "" || !Digit.Has(s[0])
  }

  lemma {:induction false} SpanStops(u: string, v: string)
    requires StartsWithoutDigit(v)
    ensures Span(Digit, u + v) == Span(Digit, u)
  {
    if u == "" {
      assert u + v == v;
    } else {
      assert (u + v)[1..] == u[1..] + v;
      SpanStops(u[1..], v);
    }
  }

  /** Starts like a kind's prefix: a slash and no digit. */
  ghost predicate Opens(rest: string) {
    |rest| > 1 && rest[0] == '/' && !Digit.Has(rest[1])
  }

  /** A prefix that reaches from a into rest ends at rest's slash. */
  lemma PrefixEndsAtSlash(kind: string, a: string, rest: string)
    requires Plain(kind) && kind != "" && a != "" && Opens(rest)
    requires PrefixOf(kind) <= a + rest && !(PrefixOf(kind) <= a)
    ensures |a| == |kind| + 1
  {
    var p, s := PrefixOf(kind), a + rest;
    assert p[0] == '/' && p[|kind| + 1] == '/' && forall i | 0 <= i < |kind| :: p[i + 1] == kind[i];
    assert s[|a|] == rest[0] == '/';
    assert p[|a|] == s[|a|];
  }

  lemma MatchIsLocal(r: Rule, a: string, rest: string)
    requires WellFormed(r) && r.kind != "" && r.tail == One(Digit, 1)
    requires a != "" && Opens(rest)
    ensures MatchLength(r, a + rest) == MatchLength(r, a)
  {
    var p := r.Prefix();
    var s := a + rest;
    if p <= a {
      assert s[|p|..] == a[|p|..] + rest;
      SpanStops(a[|p|..], rest);
    } else if p <= s {
      PrefixEndsAtSlash(r.kind, a, rest);
      assert s[|p|..][0] == s[|p|] == rest[1];
    }
  }

  lemma MatchOfId(r: Rule, d: string, b: string)
    requires r.tail == One(Digit, 1) && IsId(d) && StartsWithoutDigit(b)
    ensures MatchLength(r, r.Prefix() + d + b) == |r.Prefix()| + |d|
  {
    assert (r.Prefix() + d + b)[|r.Prefix()|..] == d + b;
    SpanStops(d, b);
    SpanOfRun(Digit, d, |d|);
  }

  /** One step of the pass over a + rest, when it is the step it takes over a. */
  lemma PassStep(r: Rule, a: string, rest: string)
    requires a != "" && MatchLength(r, a + rest) == MatchLength(r, a)
    ensures var n := MatchLength(r, a);
            var k := if n > 0 then n else 1;
            var y := if n > 0 then r.Literal() else a[..1];
            ReplaceAll(r, a + rest) == y + ReplaceAll(r, a[k..] + rest) && ReplaceAll(r, a) == y + ReplaceAll(r, a[k..])
  {
    var n := MatchLength(r, a);
    var k := if n > 0 then n else 1;
    assert (a + rest)[k..] == a[k..] + rest;
  }

  lemma SplitStep(r: Rule, a: string, rest: string)
    requires a != "" && MatchLength(r, a + rest) == MatchLength(r, a)
    requires var k := if MatchLength(r, a) > 0 then MatchLength(r, a) else 1;
             ReplaceAll(r, a[k..] + rest) == ReplaceAll(r, a[k..]) + ReplaceAll(r, rest)
    ensures ReplaceAll(r, a + rest) == ReplaceAll(r, a) + ReplaceAll(r, rest)
  {
    PassStep(r, a, rest);
  }

  /** No match reaches across the start of a prefix. */
  lemma {:induction false} PassSplits(r: Rule, a: string, rest: string)
    requires WellFormed(r) && r.kind != "" && r.tail == One(Digit, 1) && Opens(rest)
    ensures ReplaceAll(r, a + rest) == ReplaceAll(r, a) + ReplaceAll(r, rest)
    decreases |a|
  {
    if a == "" {
      assert a + rest == rest;
    } else {
      var n := MatchLength(r, a);
      PassSplits(r, a[if n > 0 then n else 1..], rest);
      MatchIsLocal(r, a, rest);
      SplitStep(r, a, rest);
    }
  }

  /** An ID after its kind is replaced by the literal in every context; the text around it is treated as if alone. */
  lemma PassCollapsesId(r: Rule, a: string, d: string, b: string)
    requires WellFormed(r) && r.kind != "" && r.tail == One(Digit, 1)
    requires IsId(d) && StartsWithoutDigit(b)
    ensures ReplaceAll(r, a + (r.Prefix() + d + b)) == ReplaceAll(r, a) + (r.Literal() + ReplaceAll(r, b))
  {
    var rest := r.Prefix() + d + b;
    assert r.Prefix()[1] == r.kind[0] == r.Literal()[1] && r.Literal()[1] in r.Literal();
    PassSplits(r, a, rest);
    MatchOfId(r, d, b);
    assert rest[|r.Prefix()| + |d|..] == b;
  }

  /** The kind is followed by an ID. */
  ghost predicate ByDigits(e: Entry) {
    GoodEntry(e) && e.kind != "" && e.first == Digit && e.least == 1
  }

  /** "/kind/id". */
  function IdAfter(kind: string, d: string): string {
    PrefixOf(kind) + d
  }

  lemma OtherPrefix(k1: string, k2: string, rest: string)
    requires Plain(k1) && Plain(k2) && k1 != k2
    requires k1 != "" && k2 != ""
    ensures !(PrefixOf(k1) <= PrefixOf(k2) + rest)
  {
    var p, s := PrefixOf(k1), PrefixOf(k2) + rest;
    assert p[|k1| + 1] == '/' && s[|k2| + 1] == '/';
    assert forall i | 0 <= i < |k1| :: p[i + 1] == k1[i] && k1[i] in k1;
    assert forall i | 0 <= i < |k2| :: s[i + 1] == k2[i] && k2[i] in k2;
    assert |k1| < |k2| ==> s[|k1| + 1] != '/';
    assert |k2| < |k1| ==> p[|k2| + 1] != '/';
    if |k1| == |k2| {
      var i :| 0 <= i < |k1| && k1[i] != k2[i];
      assert p[i + 1] != s[i + 1];
    }
  }

  lemma NoMatchInOther(r: Rule, kind: string, d: string, b: string, i: nat)
    requires Plain(r.kind) && r.kind != "" && !Digit.Has(r.kind[0]) && Plain(kind) && kind != "" && r.kind != kind
    requires IsId(d) && i < |IdAfter(kind, d)|
    ensures MatchLength(r, IdAfter(kind, d)[i..] + b) == 0
  {
    var p, z := r.Prefix(), IdAfter(kind, d);
    var s := z[i..] + b;
    assert p[0] == '/' && p[1] == r.kind[0] && s[0] == z[i];
    if i == 0 {
      OtherPrefix(r.kind, kind, d + b);
      assert s == PrefixOf(kind) + (d + b);
    } else if i == |kind| + 1 {
      assert s[1] == d[0];
    } else if i <= |kind| {
      assert z[i] == kind[i - 1] && kind[i - 1] in kind;
    } else {
      assert z[i] == d[i - |kind| - 2];
    }
  }

  /** Where nothing starts to match, nothing is replaced. */
  lemma {:induction false} PassSkips(r: Rule, z: string, b: string)
    requires forall i | 0 <= i < |z| :: MatchLength(r, z[i..] + b) == 0
    ensures ReplaceAll(r, z + b) == z + ReplaceAll(r, b)
  {
    if z == "" {
      assert z + b == b;
    } else {
      assert z[0..] == z && (z + b)[1..] == z[1..] + b;
      forall i | 0 <= i < |z[1..]| ensures MatchLength(r, z[1..][i..] + b) == 0 {
        assert z[1..][i..] == z[i + 1..];
      }
      PassSkips(r, z[1..], b);
    }
  }

  /** Another kind's pass leaves the segment alone. */
  lemma OtherPassKeepsId(r: Rule, kind: string, d: string, b: string)
    requires Plain(r.kind) && r.kind != "" && !Digit.Has(r.kind[0]) && Plain(kind) && kind != "" && r.kind != kind
    requires IsId(d)
    ensures ReplaceAll(r, IdAfter(kind, d) + b) == IdAfter(kind, d) + ReplaceAll(r, b)
  {
    forall i | 0 <= i < |IdAfter(kind, d)| ensures MatchLength(r, IdAfter(kind, d)[i..] + b) == 0 {
      NoMatchInOther(r, kind, d, b, i);
    }
    PassSkips(r, IdAfter(kind, d), b);
  }

  /** The text is "/kind/" and an ID. */
  ghost predicate IsIdAfter(kind: string, x: string) {
    PrefixOf(kind) <= x && IsId(x[|PrefixOf(kind)|..])
  }

  ghost predicate EndsInId(kind: string, a: string) {
    exists i :: 0 <= i <= |a| && IsIdAfter(kind, a[i..])
  }

  lemma EndsInIdOfSuffix(kind: string, a: string, n: nat)
    requires n <= |a| && !EndsInId(kind, a)
    ensures !EndsInId(kind, a[n..])
  {
    forall i | 0 <= i <= |a[n..]| ensures !IsIdAfter(kind, a[n..][i..]) {
      assert a[n..][i..] == a[n + i..];
    }
  }

  lemma {:induction false} RunStops(c: CharClass, u: string, v: string)
    requires v == "" || !c.Has(v[0])
    ensures Span(c, u + v) == Span(c, u)
  {
    if u == "" {
      assert u + v == v;
    } else {
      assert (u + v)[1..] == u[1..] + v;
      RunStops(c, u[1..], v);
    }
  }

  lemma PairMatchIsLocal(r: Rule, a: string, rest: string)
    requires WellFormed(r) && r.kind != "" && r.tail.Two? && r.tail.first == Digit
    requires a != "" && Opens(rest) && !IsIdAfter(r.kind, a)
    ensures MatchLength(r, a + rest) == MatchLength(r, a)
  {
    var p := r.Prefix();
    var s := a + rest;
    if p <= a {
      var z := a[|p|..];
      var n := Span(Digit, z);
      assert s[|p|..] == z + rest;
      SpanStops(z, rest);
      if 0 < n < |z| {
        assert (z + rest)[n + 1..] == z[n + 1..] + rest;
        RunStops(r.tail.second, z[n + 1..], rest);
      }
    } else if p <= s {
      PrefixEndsAtSlash(r.kind, a, rest);
      assert s[|p|..][0] == s[|p|] == rest[1];
    }
  }

  /** A token pass splits at a prefix, unless the text before it ends in an ID, of which the kind would be the token. */
  lemma {:induction false} PairPassSplits(r: Rule, a: string, rest: string)
    requires WellFormed(r) && r.kind != "" && r.tail.Two? && r.tail.first == Digit
    requires Opens(rest) && !EndsInId(r.kind, a)
    ensures ReplaceAll(r, a + rest) == ReplaceAll(r, a) + ReplaceAll(r, rest)
    decreases |a|
  {
    if a == "" {
      assert a + rest == rest;
    } else {
      var n := MatchLength(r, a);
      var k := if n > 0 then n else 1;
      EndsInIdOfSuffix(r.kind, a, k);
      PairPassSplits(r, a[k..], rest);
      assert a[0..] == a;
      PairMatchIsLocal(r, a, rest);
      SplitStep(r, a, rest);
    }
  }

  lemma {:induction false} NoBraceUnchanged(r: Rule, s: string)
    requires WellFormed(r)
    ensures '{' !in ReplaceAll(r, s) ==> ReplaceAll(r, s) == s
    decreases |s|
  {
    if s != "" {
      var n := MatchLength(r, s);
      if n > 0 {
        assert r.Literal()[|r.Prefix()|] == '{' && r.Literal()[|r.Prefix()|] in ReplaceAll(r, s);
      } else {
        NoBraceUnchanged(r, s[1..]);
        assert ReplaceAll(r, s)[1..] == ReplaceAll(r, s[1..]);
        assert forall x | x in ReplaceAll(r, s[1..]) :: x in ReplaceAll(r, s);
      }
    }
  }

  lemma IdHasNoBrace(kind: string, x: string)
    requires Plain(kind) && IsIdAfter(kind, x)
    ensures x[0] == (if kind == "" then x[0] else '/') && '{' !in x
  {
    var p := PrefixOf(kind);
    forall i | 0 <= i < |x| ensures x[i] != '{' {
      if i < |p| {
        assert x[i] == p[i] && p[i] in p;
      } else {
        assert x[i] == x[|p|..][i - |p|];
      }
    }
  }

  lemma LiteralSlashOpens(r: Rule, i: nat)
    requires WellFormed(r) && i < |r.Literal()| && r.Literal()[i] == '/'
    ensures '{' in r.Literal()[i..]
  {
    var l, p := r.Literal(), r.Prefix();
    if i < |p| {
      assert l[i..][|p| - i] == '{';
    } else {
      assert l[|p|..][i - |p|] == '/';
      assert l[i..][1] == l[|p|..][i - |p| + 1] == '{';
    }
  }

  lemma NotInLiteral(r: Rule, kind: string, i: nat, rest: string)
    requires WellFormed(r) && Plain(kind) && kind != "" && i < |r.Literal()|
    ensures !IsIdAfter(kind, (r.Literal() + rest)[i..])
  {
    var x := (r.Literal() + rest)[i..];
    assert x == r.Literal()[i..] + rest && x[0] == r.Literal()[i];
    if r.Literal()[i] == '/' {
      LiteralSlashOpens(r, i);
      assert '{' in x;
    }
    if IsIdAfter(kind, x) {
      IdHasNoBrace(kind, x);
    }
  }

  /** What a pass leaves is no ID of its own unless it was one before. */
  lemma NoNewId(r: Rule, kind: string, s: string)
    requires WellFormed(r) && Plain(kind) && kind != "" && !EndsInId(kind, s)
    ensures !IsIdAfter(kind, ReplaceAll(r, s))
  {
    var t := ReplaceAll(r, s);
    assert s[0..] == s;
    NoBraceUnchanged(r, s);
    if IsIdAfter(kind, t) {
      IdHasNoBrace(kind, t);
    }
  }

  lemma EndsInIdAppend(kind: string, y: string, rest: string)
    requires !EndsInId(kind, rest) && forall i | 0 <= i < |y| :: !IsIdAfter(kind, (y + rest)[i..])
    ensures !EndsInId(kind, y + rest)
  {
    forall i | 0 <= i <= |y + rest| ensures !IsIdAfter(kind, (y + rest)[i..]) {
      if i >= |y| {
        assert (y + rest)[i..] == rest[i - |y|..];
      }
    }
  }

  /** A pass brings no ID to the end. */
  lemma {:induction false} PassKeepsEnd(r: Rule, kind: string, s: string)
    requires WellFormed(r) && Plain(kind) && kind != "" && !EndsInId(kind, s)
    ensures !EndsInId(kind, ReplaceAll(r, s))
    decreases |s|
  {
    if s != "" {
      var n := MatchLength(r, s);
      if n > 0 {
        EndsInIdOfSuffix(kind, s, n);
        PassKeepsEnd(r, kind, s[n..]);
        forall i | 0 <= i < |r.Literal()| ensures !IsIdAfter(kind, (r.Literal() + ReplaceAll(r, s[n..]))[i..]) {
          NotInLiteral(r, kind, i, ReplaceAll(r, s[n..]));
        }
        EndsInIdAppend(kind, r.Literal(), ReplaceAll(r, s[n..]));
      } else {
        EndsInIdOfSuffix(kind, s, 1);
        PassKeepsEnd(r, kind, s[1..]);
        NoNewId(r, kind, s);
        var y := [s[0]];
        assert (y + ReplaceAll(r, s[1..]))[0..] == ReplaceAll(r, s);
        EndsInIdAppend(kind, y, ReplaceAll(r, s[1..]));
      }
    }
  }

  lemma StillWithoutDigit(r: Rule, b: string)
    requires WellFormed(r) && StartsWithoutDigit(b)
    ensures StartsWithoutDigit(ReplaceAll(r, b))
  {
    if b != "" {
      assert MatchLength(r, b) > 0 ==> r.Literal()[0] in r.Literal();
    }
  }

  lemma SegmentOpens(kind: string, d: string, b: string)
    requires Lower(kind) && kind != ""
    ensures Opens(IdAfter(kind, d) + b)
  {
    assert (IdAfter(kind, d) + b)[1] == kind[0];
  }

  lemma OtherPass(r: Rule, kind: string, a: string, d: string, b: string)
    requires WellFormed(r) && Lower(r.kind) && r.kind != "" && Lower(kind) && kind != "" && r.kind != kind && IsId(d)
    requires r.tail == One(Digit, 1) || (r.tail.Two? && r.tail.first == Digit && !EndsInId(r.kind, a))
    ensures ReplaceAll(r, a + (IdAfter(kind, d) + b)) == ReplaceAll(r, a) + (IdAfter(kind, d) + ReplaceAll(r, b))
  {
    SegmentOpens(kind, d, b);
    OtherPassKeepsId(r, kind, d, b);
    if r.tail.One? {
      PassSplits(r, a, IdAfter(kind, d) + b);
    } else {
      PairPassSplits(r, a, IdAfter(kind, d) + b);
    }
  }

  /** The passes before the kind's own leave the segment alone, the kind's own collapses it. */
  ghost predicate Undisturbed(entries: seq<Entry>, j: nat, a: string)
    requires j < |entries|
  {
    && (forall i | 0 <= i <= j :: ByDigits(entries[i]))
    && (forall i | 0 <= i < j :: entries[i].kind != entries[j].kind)
    && (forall i | 0 <= i < j && entries[i].token.Token? :: !EndsInId(entries[i].kind, a))
    && entries[j].token == NoToken
  }

  lemma OtherEntry(e: Entry, kind: string, a: string, d: string, b: string)
    requires ByDigits(e) && Lower(kind) && kind != "" && e.kind != kind && IsId(d)
    requires e.token.Token? ==> !EndsInId(e.kind, a)
    ensures e.Apply(a + (IdAfter(kind, d) + b)) == e.Apply(a) + (IdAfter(kind, d) + e.Apply(b))
  {
    EntryRulesWellFormed(e);
    if e.token.Token? {
      OtherPass(e.PairRule(), kind, a, d, b);
      OtherPass(e.SingleRule(), kind, ReplaceAll(e.PairRule(), a), d, ReplaceAll(e.PairRule(), b));
    } else {
      OtherPass(e.SingleRule(), kind, a, d, b);
    }
  }

  lemma EntryKeepsStart(e: Entry, b: string)
    requires ByDigits(e) && StartsWithoutDigit(b)
    ensures StartsWithoutDigit(e.Apply(b))
  {
    EntryRulesWellFormed(e);
    if e.token.Token? {
      StillWithoutDigit(e.PairRule(), b);
      StillWithoutDigit(e.SingleRule(), ReplaceAll(e.PairRule(), b));
    } else {
      StillWithoutDigit(e.SingleRule(), b);
    }
  }

  lemma UndisturbedFirst(entries: seq<Entry>, j: nat, a: string)
    requires j < |entries| && Undisturbed(entries, j, a)
    ensures var e, kind := entries[0], entries[j].kind;
            && ByDigits(e) && Lower(kind) && kind != ""
            && (j == 0 ==> e.token == NoToken)
            && (j > 0 ==> e.kind != kind && (e.token.Token? ==> !EndsInId(e.kind, a)))
  {
    assert ByDigits(entries[j]);
  }

  lemma EntryKeepsEnd(e: Entry, kind: string, a: string)
    requires GoodEntry(e) && Plain(kind) && kind != "" && !EndsInId(kind, a)
    ensures !EndsInId(kind, e.Apply(a))
  {
    EntryRulesWellFormed(e);
    if e.token.Token? {
      PassKeepsEnd(e.PairRule(), kind, a);
      PassKeepsEnd(e.SingleRule(), kind, ReplaceAll(e.PairRule(), a));
    } else {
      PassKeepsEnd(e.SingleRule(), kind, a);
    }
  }

  lemma UndisturbedRest(entries: seq<Entry>, j: nat, a: string)
    requires 0 < j < |entries| && Undisturbed(entries, j, a)
    ensures Undisturbed(entries[1..], j - 1, entries[0].Apply(a))
  {
    forall i | 0 <= i < j - 1 && entries[1..][i].token.Token?
      ensures !EndsInId(entries[1..][i].kind, entries[0].Apply(a))
    {
      EntryKeepsEnd(entries[0], entries[i + 1].kind, a);
    }
  }

  lemma OwnEntry(e: Entry, a: string, d: string, d': string, b: string)
    requires ByDigits(e) && e.token == NoToken && IsId(d) && IsId(d') && StartsWithoutDigit(b)
    ensures e.Apply(a + (IdAfter(e.kind, d) + b)) == e.Apply(a + (IdAfter(e.kind, d') + b))
  {
    EntryRulesWellFormed(e);
    PassCollapsesId(e.SingleRule(), a, d, b);
    PassCollapsesId(e.SingleRule(), a, d', b);
  }

  /** The entry keeps the two segments, and what follows it collapses them. */
  lemma OtherEntryFirst(entries: seq<Entry>, kind: string, a: string, d: string, d': string, b: string)
    requires entries != [] && ByDigits(entries[0]) && Lower(kind) && kind != "" && entries[0].kind != kind
    requires IsId(d) && IsId(d') && (entries[0].token.Token? ==> !EndsInId(entries[0].kind, a))
    requires var e := entries[0];
             Passes(entries[1..], e.Apply(a) + (IdAfter(kind, d) + e.Apply(b)))
             == Passes(entries[1..], e.Apply(a) + (IdAfter(kind, d') + e.Apply(b)))
    ensures Passes(entries, a + (IdAfter(kind, d) + b)) == Passes(entries, a + (IdAfter(kind, d') + b))
  {
    OtherEntry(entries[0], kind, a, d, b);
    OtherEntry(entries[0], kind, a, d', b);
  }

  lemma {:induction false} PassesCollapseId(entries: seq<Entry>, j: nat, a: string, d: string, d': string, b: string)
    requires j < |entries| && Undisturbed(entries, j, a)
    requires IsId(d) && IsId(d') && StartsWithoutDigit(b)
    ensures Passes(entries, a + (IdAfter(entries[j].kind, d) + b))
            == Passes(entries, a + (IdAfter(entries[j].kind, d') + b))
    decreases j
  {
    var e, kind := entries[0], entries[j].kind;
    UndisturbedFirst(entries, j, a);
    if j == 0 {
      OwnEntry(e, a, d, d', b);
    } else {
      EntryKeepsStart(e, b);
      UndisturbedRest(entries, j, a);
      PassesCollapseId(entries[1..], j - 1, e.Apply(a), d, d', e.Apply(b));
      OtherEntryFirst(entries, kind, a, d, d', b);
    }
  }

  /** First letter and length, which tell the first twelve kinds apart. */
  const INITIALS: string := "cmmwubrpegip"
  const LENGTHS: seq<nat> := [8, 8, 7, 8, 5, 4, 5, 4, 6, 6, 12, 11]

  lemma DigitEntry(i: nat)
    requires i < 12
    ensures ByDigits(ENTRIES[i]) && (ENTRIES[i].token.Token? <==> i == 3)
    ensures ENTRIES[i].kind[0] == INITIALS[i] && |ENTRIES[i].kind| == LENGTHS[i]
  {
    if i < 6 {
      assert ENTRIES[i] in [CHANNELS, MESSAGES, MEMBERS, WEBHOOKS, USERS, BANS];
    } else {
      assert ENTRIES[i] in [ROLES, PINS, EMOJIS, GUILDS, INTEGRATIONS, PERMISSIONS];
    }
  }

  lemma TellApart(i: nat, j: nat)
    requires i < j < 12
    ensures INITIALS[i] != INITIALS[j] || LENGTHS[i] != LENGTHS[j]
  {
  }

  lemma EntriesUndisturbed(j: nat, a: string)
    requires j < 12 && j != 3 && (j > 3 ==> !EndsInId(ENTRIES[3].kind, a))
    ensures Undisturbed(ENTRIES, j, a)
  {
    forall i | 0 <= i <= j
      ensures ByDigits(ENTRIES[i]) && (ENTRIES[i].token.Token? <==> i == 3)
      ensures i < j ==> ENTRIES[i].kind != ENTRIES[j].kind
    {
      DigitEntry(i);
      if i < j {
        DigitEntry(j);
        TellApart(i, j);
      }
    }
    assert ENTRIES[j].token == NoToken;
  }

  /** Requests that differ only in an ID after one of the eleven kinds that take no token share one metrics name; after
      the kinds behind webhooks, as long as what stands in front does not end in a webhook ID, whose token the kind
      itself would be. */
  lemma IdsIndistinguishable(j: nat, a: string, d: string, d': string, b: string)
    requires j < 12 && j != 3 && (j > 3 ==> !EndsInId(ENTRIES[3].kind, a))
    requires IsId(d) && IsId(d') && StartsWithoutDigit(b)
    ensures NormalizePath(a + (IdAfter(ENTRIES[j].kind, d) + b))
            == NormalizePath(a + (IdAfter(ENTRIES[j].kind, d') + b))
  {
    EntriesUndisturbed(j, a);
    PassesCollapseId(ENTRIES, j, a, d, d', b);
  }

  lemma ChannelSegment(d: string)
    ensures IdAfter(ENTRIES[0].kind, d) == "/channels/" + d
  {
    assert PrefixOf(CHANNELS.kind) == "/channels/";
  }

  /** Requests that differ only in a channel ID share one metrics name. */
  lemma ChannelIdsIndistinguishable(a: string, d: string, d': string, b: string)
    requires IsId(d) && IsId(d') && StartsWithoutDigit(b)
    ensures NormalizePath(a + ("/channels/" + d + b)) == NormalizePath(a + ("/channels/" + d' + b))
  {
    ChannelSegment(d);
    ChannelSegment(d');
    IdsIndistinguishable(0, a, d, d', b);
  }
}
