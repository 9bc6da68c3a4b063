/** Metric counters and their periodic submission (bot/metrics/metrics.go).

    Every counter is a uint32 behind its own lock, and several submissions can run at once, each taking the locks one
    after another. */
module Metrics {
  import opened Common

  const WRAP: nat := 0x1_0000_0000

  type U32 = n: nat | n < WRAP

  /** uint32 addition. */
  function Plus(a: U32, b: U32): U32 {
    (a + b) % WRAP
  }

  function Inc(n: U32): U32 {
    Plus(n, 1)
  }

  type Table = map<string, U32>

  function Lookup(t: Table, k: string): U32 {
    if k in t then t[k] else 0
  }

  function Zeroed(t: Table): Table {
    map k | k in t :: 0
  }

  lemma WrapAdd(a: nat, b: nat)
    ensures (a % WRAP + b) % WRAP == (a + b) % WRAP
  {
  }

  lemma WrapShift(a: nat, q: nat)
    ensures (a + q * WRAP) % WRAP == a % WRAP
  {
  }

  ghost function SumValues(t: Table): nat
    decreases |t|
  {
    if t == map[] then 0
    else
      var k :| k in t;
      t[k] + SumValues(t - {k})
  }

  lemma {:induction false} SumRemove(t: Table, k: string)
    requires k in t
    ensures SumValues(t) == t[k] + SumValues(t - {k})
    decreases |t|
  {
    var p :| p in t && SumValues(t) == t[p] + SumValues(t - {p});
    if p != k {
      SumRemove(t - {p}, k);
      SumRemove(t - {k}, p);
      assert t - {p} - {k} == t - {k} - {p};
    }
  }

  // ---- one counter per name ----

  datatype Name = Event(event: string) | Request(endpoint: string) | Queries | Commands

  datatype Counters = Counters(queries: U32, cmds: U32, events: Table, reqs: Table) {
    function Current(n: Name): U32 {
      match n
      case Event(k) => Lookup(events, k)
      case Request(k) => Lookup(reqs, k)
      case Queries => queries
      case Commands => cmds
    }

    function Increment(n: Name): Counters {
      match n
      case Event(k) => this.(events := events[k := Inc(Lookup(events, k))])
      case Request(k) => this.(reqs := reqs[k := Inc(Lookup(reqs, k))])
      case Queries => this.(queries := Inc(queries))
      case Commands => this.(cmds := Inc(cmds))
    }
  }

  datatype Point =
    | EventsPoint(values: Table)
    | RequestsPoint(values: Table)
    | StatsPoint(queries: U32, events: U32, commands: U32)
  {
    function Reports(n: Name): nat {
      match this
      case EventsPoint(t) => if n.Event? then Lookup(t, n.event) else 0
      case RequestsPoint(t) => if n.Request? then Lookup(t, n.endpoint) else 0
      case StatsPoint(q, _, c) => if n == Queries then q else if n == Commands then c else 0
    }
  }

  /** Where a submission stands, with the values it has taken but not yet written. */
  datatype Submission =
    | AtQueries
    | AtCommands(queries: U32)
    | AtEvents(queries: U32, cmds: U32)
    | WritingEvents(queries: U32, cmds: U32, events: Table, total: U32)
    | AtRequests(queries: U32, cmds: U32, events: Table, total: U32)
    | WritingRequests(queries: U32, cmds: U32, events: Table, total: U32, reqs: Table)
    | WritingStats(queries: U32, cmds: U32, events: Table, total: U32)
    | Finished(events: Table)
  {
    function Holds(n: Name): nat {
      match n
      case Event(k) => if WritingEvents? then Lookup(events, k) else 0
      case Request(k) => if WritingRequests? then Lookup(reqs, k) else 0
      case Queries => if AtQueries? || Finished? then 0 else queries
      case Commands => if AtQueries? || AtCommands? || Finished? then 0 else cmds
    }
  }

  /** One critical section or one write of a submission. */
  ghost function Advance(c: Counters, s: Submission): (Counters, Submission, seq<Point>) {
    match s
    case AtQueries => (c.(queries := 0), AtCommands(c.queries), [])
    case AtCommands(q) => (c.(cmds := 0), AtEvents(q, c.cmds), [])
    case AtEvents(q, k) =>
      (c.(events := Zeroed(c.events)), WritingEvents(q, k, c.events, SumValues(c.events) % WRAP), [])
    case WritingEvents(q, k, e, t) => (c, AtRequests(q, k, e, t), [EventsPoint(e)])
    case AtRequests(q, k, e, t) => (c.(reqs := Zeroed(c.reqs)), WritingRequests(q, k, e, t, c.reqs), [])
    case WritingRequests(q, k, e, t, r) => (c, WritingStats(q, k, e, t), [RequestsPoint(r)])
    case WritingStats(q, k, e, t) => (c, Finished(e), [StatsPoint(q, t, k)])
    case Finished(_) => (c, s, [])
  }

  // ---- the client ----

  class Client {
    var queries: U32
    var cmds: U32
    var m: Table
    var reqs: Table
    /** The points handed to the write API, oldest first. */
    var written: seq<Point>

    ghost function State(): Counters
      reads this
    {
      Counters(queries, cmds, m, reqs)
    }

    constructor ()
      ensures State() == Counters(0, 0, map[], map[]) && written == []
    {
      queries, cmds, m, reqs, written := 0, 0, map[], map[], [];
    }

    method RegisterEvent(name: string)
      modifies this
      ensures State() == old(State()).Increment(Event(name)) && written == old(written)
    {
      m := m[name := Inc(Lookup(m, name))];
    }

    method IncRequests(endpoint: string)
      modifies this
      ensures State() == old(State()).Increment(Request(endpoint)) && written == old(written)
    {
      reqs := reqs[endpoint := Inc(Lookup(reqs, endpoint))];
    }

    method IncQuery()
      modifies this
      ensures State() == old(State()).Increment(Queries) && written == old(written)
    {
      queries := Inc(queries);
    }

    method IncCommand()
      modifies this
      ensures State() == old(State()).Increment(Commands) && written == old(written)
    {
      cmds := Inc(cmds);
    }

    /** The section under the events lock: copy, total and reset every counter. */
    method DrainEvents() returns (im: Table, totalEvents: U32)
      modifies this`m
      ensures m == Zeroed(old(m))
      ensures im == old(m) && totalEvents == SumValues(old(m)) % WRAP
    {
      im, totalEvents := map[], 0;
      ghost var all := m;
      var rest := m.Keys;
      Undrained(all);
      while rest != {}
        invariant rest <= all.Keys && im == all - rest && m == HalfZeroed(all, rest)
        invariant totalEvents == SumValues(all - rest) % WRAP
        decreases |rest|
      {
        var k := Element(rest);
        DrainStep(all, rest, k, totalEvents);
        var v := m[k];
        totalEvents := Plus(totalEvents, v);
        im := im[k := v];
        m := m[k := 0];
        rest := rest - {k};
      }
      Drained(all);
    }

    method DrainRequests() returns (rm: Table)
      modifies this`reqs
      ensures reqs == Zeroed(old(reqs))
      ensures rm == old(reqs)
    {
      rm := map[];
      ghost var all := reqs;
      var rest := reqs.Keys;
      Undrained(all);
      while rest != {}
        invariant rest <= all.Keys && rm == all - rest && reqs == HalfZeroed(all, rest)
        decreases |rest|
      {
        var k := Element(rest);
        DrainStep(all, rest, k, SumValues(all - rest) % WRAP);
        rm := rm[k := reqs[k]];
        reqs := reqs[k := 0];
        rest := rest - {k};
      }
      Drained(all);
    }

    /** A submission that nothing interrupts takes every counter and writes its three points. */
    method SubmitInner()
      modifies this
      ensures State() == AllZeroed(old(State()))
      ensures written == old(written) + PointsOf(old(State()))
    {
      var q := queries;
      queries := 0;
      var k := cmds;
      cmds := 0;
      var im, total := DrainEvents();
      written := written + [EventsPoint(im)];
      var rm := DrainRequests();
      written := written + [RequestsPoint(rm)];
      written := written + [StatsPoint(q, total, k)];
    }
  }

  function AllZeroed(c: Counters): Counters {
    Counters(0, 0, Zeroed(c.events), Zeroed(c.reqs))
  }

  ghost function PointsOf(c: Counters): seq<Point> {
    [EventsPoint(c.events), RequestsPoint(c.reqs), StatsPoint(c.queries, SumValues(c.events) % WRAP, c.cmds)]
  }

  /** A table whose entries outside rest have been reset. */
  ghost function HalfZeroed(t: Table, rest: set<string>): Table {
    map k | k in t :: if k in rest then t[k] else 0
  }

  lemma Undrained(t: Table)
    ensures t - t.Keys == map[] && HalfZeroed(t, t.Keys) == t
  {
  }

  lemma Drained(t: Table)
    ensures t - {} == t && HalfZeroed(t, {}) == Zeroed(t)
  {
  }

  lemma DrainStep(t: Table, rest: set<string>, k: string, total: U32)
    requires rest <= t.Keys && k in rest && total == SumValues(t - rest) % WRAP
    ensures (t - rest)[k := t[k]] == t - (rest - {k})
    ensures HalfZeroed(t, rest)[k] == t[k] && HalfZeroed(t, rest)[k := 0] == HalfZeroed(t, rest - {k})
    ensures Plus(total, t[k]) == SumValues(t - (rest - {k})) % WRAP
  {
    var next := t - (rest - {k});
    SumRemove(next, k);
    assert next - {k} == t - rest;
    WrapAdd(SumValues(t - rest), t[k]);
  }

  function StepsLeft(s: Submission): nat {
    match s
    case AtQueries => 7
    case AtCommands(_) => 6
    case AtEvents(_, _) => 5
    case WritingEvents(_, _, _, _) => 4
    case AtRequests(_, _, _, _) => 3
    case WritingRequests(_, _, _, _, _) => 2
    case WritingStats(_, _, _, _) => 1
    case Finished(_) => 0
  }

  ghost function RunAlone(c: Counters, s: Submission): (Counters, Submission, seq<Point>)
    decreases StepsLeft(s)
  {
    if s.Finished? then (c, s, [])
    else
      var (c', s', ps) := Advance(c, s);
      var (c'', s'', qs) := RunAlone(c', s');
      (c'', s'', ps + qs)
  }

  /** Run without interruption, the sections of a submission do what SubmitInner does. */
  lemma SectionsAreSubmitInner(c: Counters)
    ensures RunAlone(c, AtQueries) == (AllZeroed(c), Finished(c.events), PointsOf(c))
  {
    var total: U32 := SumValues(c.events) % WRAP;
    var c3 := Counters(0, 0, Zeroed(c.events), c.reqs);
    var q, k, e, r := c.queries, c.cmds, c.events, c.reqs;
    var stats, reqs := [StatsPoint(q, total, k)], [RequestsPoint(r)];
    assert RunAlone(AllZeroed(c), Finished(e)).2 == [] && stats + [] == stats;
    assert RunAlone(AllZeroed(c), WritingStats(q, k, e, total)) == (AllZeroed(c), Finished(e), stats);
    assert RunAlone(AllZeroed(c), WritingRequests(q, k, e, total, r)) == (AllZeroed(c), Finished(e), reqs + stats);
    var tail := [EventsPoint(e)] + (reqs + stats);
    assert RunAlone(c3, AtRequests(q, k, e, total)) == (AllZeroed(c), Finished(e), [] + (reqs + stats));
    assert [] + (reqs + stats) == reqs + stats;
    assert RunAlone(c3, WritingEvents(q, k, e, total)) == (AllZeroed(c), Finished(e), tail);
    assert [] + tail == tail;
    assert RunAlone(Counters(0, 0, e, r), AtEvents(q, k)) == (AllZeroed(c), Finished(e), tail);
    assert RunAlone(Counters(0, k, e, r), AtCommands(q)) == (AllZeroed(c), Finished(e), tail);
    assert tail == PointsOf(c);
  }

  // ---- increments and submissions interleaved ----

  datatype Label = Increment(name: Name) | Start | Step(id: nat)

  /** Points carry the index of the submission that wrote them. */
  datatype System = System(counters: Counters, subs: seq<Submission>, written: seq<(nat, Point)>)

  const INITIAL: System := System(Counters(0, 0, map[], map[]), [], [])

  ghost function Next(s: System, l: Label): System {
    match l
    case Increment(n) => s.(counters := s.counters.Increment(n))
    case Start => s.(subs := s.subs + [AtQueries])
    case Step(i) =>
      if i >= |s.subs| then s
      else
        var (c, sub, ps) := Advance(s.counters, s.subs[i]);
        System(c, s.subs[i := sub], s.written + seq(|ps|, j requires 0 <= j < |ps| => (i, ps[j])))
  }

  ghost function Run(ls: seq<Label>): System {
    if ls == [] then INITIAL else Next(Run(ls[..|ls| - 1]), ls[|ls| - 1])
  }

  function Increments(ls: seq<Label>, n: Name): nat {
    if ls == [] then 0
    else Increments(ls[..|ls| - 1], n) + if ls[|ls| - 1] == Increment(n) then 1 else 0
  }

  function Written(ps: seq<(nat, Point)>, n: Name): nat {
    if ps == [] then 0 else Written(ps[..|ps| - 1], n) + ps[|ps| - 1].1.Reports(n)
  }

  function InFlight(subs: seq<Submission>, n: Name): nat {
    if subs == [] then 0 else subs[0].Holds(n) + InFlight(subs[1..], n)
  }

  lemma {:induction false} InFlightUpdate(subs: seq<Submission>, i: nat, s: Submission, n: Name)
    requires i < |subs|
    ensures InFlight(subs[i := s], n) == InFlight(subs, n) - subs[i].Holds(n) + s.Holds(n)
  {
    if i == 0 {
      assert subs[i := s][1..] == subs[1..];
    } else {
      assert subs[i := s][1..] == subs[1..][i - 1 := s];
      InFlightUpdate(subs[1..], i - 1, s, n);
    }
  }

  lemma {:induction false} InFlightStart(subs: seq<Submission>, n: Name)
    ensures InFlight(subs + [AtQueries], n) == InFlight(subs, n)
  {
    if subs != [] {
      assert (subs + [AtQueries])[1..] == subs[1..] + [AtQueries];
      InFlightStart(subs[1..], n);
    }
  }

  /** A step moves a value from the counter to the submission, or from the submission to the written points. */
  lemma AdvanceConserves(c: Counters, s: Submission, n: Name)
    ensures var (c', s', ps) := Advance(c, s);
            && |ps| <= 1
            && c.Current(n) + s.Holds(n) == c'.Current(n) + s'.Holds(n) + if ps == [] then 0 else ps[0].Reports(n)
  {
  }

  /** Everything counted so far under a name: written, in flight, and still in the counter. */
  ghost function Accounted(s: System, n: Name): nat {
    Written(s.written, n) + InFlight(s.subs, n) + s.counters.Current(n)
  }

  lemma StepConserves(s: System, i: nat, n: Name)
    requires i < |s.subs|
    ensures Accounted(Next(s, Step(i)), n) == Accounted(s, n)
  {
    var (c, sub, ps) := Advance(s.counters, s.subs[i]);
    AdvanceConserves(s.counters, s.subs[i], n);
    InFlightUpdate(s.subs, i, sub, n);
    var tagged := seq(|ps|, j requires 0 <= j < |ps| => (i, ps[j]));
    if ps == [] {
      assert s.written + tagged == s.written;
    } else {
      assert tagged == [(i, ps[0])];
      assert (s.written + tagged)[..|s.written|] == s.written;
    }
  }

  lemma IncrementCounts(s: System, n: Name, name: Name)
    ensures var now, next := Accounted(s, n), Accounted(Next(s, Increment(name)), n);
            next == now + (if name == n then 1 else 0) || (name == n && next + WRAP == now + 1)
  {
  }

  lemma IncrementConserves(s: System, n: Name, name: Name, count: nat)
    requires Accounted(s, n) % WRAP == count % WRAP
    ensures Accounted(Next(s, Increment(name)), n) % WRAP == (count + if name == n then 1 else 0) % WRAP
  {
    IncrementCounts(s, n, name);
    WrapAdd(Accounted(s, n), 1);
    WrapAdd(count, 1);
    WrapShift(Accounted(Next(s, Increment(name)), n), 1);
  }

  /** Nothing counted is lost or counted twice: written, in flight and current values add up to the increments. */
  lemma {:induction false} CountersConserved(ls: seq<Label>, n: Name)
    ensures Accounted(Run(ls), n) % WRAP == Increments(ls, n) % WRAP
  {
    if ls != [] {
      var init, l := ls[..|ls| - 1], ls[|ls| - 1];
      CountersConserved(init, n);
      match l
      case Increment(name) => IncrementConserves(Run(init), n, name, Increments(init, n));
      case Start => InFlightStart(Run(init).subs, n);
      case Step(i) =>
        if i < |Run(init).subs| {
          StepConserves(Run(init), i, n);
        }
    }
  }

  lemma {:induction false} NothingInFlight(subs: seq<Submission>, n: Name)
    requires forall i | 0 <= i < |subs| :: subs[i].Finished?
    ensures InFlight(subs, n) == 0
  {
    if subs != [] {
      NothingInFlight(subs[1..], n);
    }
  }

  /** Once every submission has finished, the written values and the counters alone account for every increment. */
  lemma SettledCountersConserved(ls: seq<Label>, n: Name)
    requires forall i | 0 <= i < |Run(ls).subs| :: Run(ls).subs[i].Finished?
    ensures (Written(Run(ls).written, n) + Run(ls).counters.Current(n)) % WRAP == Increments(ls, n) % WRAP
  {
    CountersConserved(ls, n);
    NothingInFlight(Run(ls).subs, n);
  }

  // ---- reported totals ----

  ghost predicate TotalsAgree(s: System) {
    && (forall i | 0 <= i < |s.subs| && (s.subs[i].WritingEvents? || s.subs[i].AtRequests? || s.subs[i].WritingRequests?
                                         || s.subs[i].WritingStats?) ::
          s.subs[i].total == SumValues(s.subs[i].events) % WRAP)
    && (forall i | 0 <= i < |s.subs| && (s.subs[i].AtRequests? || s.subs[i].WritingRequests? || s.subs[i].WritingStats?
                                         || s.subs[i].Finished?) :: (i, EventsPoint(s.subs[i].events)) in s.written)
    && (forall p | p in s.written && p.1.StatsPoint? ::
          exists e :: (p.0, EventsPoint(e)) in s.written && p.1.events == SumValues(e) % WRAP)
  }

  lemma TotalsStep(s: System, l: Label)
    requires TotalsAgree(s)
    ensures TotalsAgree(Next(s, l))
  {
    if l.Step? && l.id < |s.subs| {
      var (c, sub, ps) := Advance(s.counters, s.subs[l.id]);
      var t := Next(s, l);
      assert forall p | p in s.written :: p in t.written;
      if s.subs[l.id].WritingEvents? {
        assert t.written[|s.written|] == (l.id, EventsPoint(s.subs[l.id].events));
      }
      forall p | p in t.written && p.1.StatsPoint?
        ensures exists e :: (p.0, EventsPoint(e)) in t.written && p.1.events == SumValues(e) % WRAP
      {
        if p !in s.written {
          assert (l.id, EventsPoint(s.subs[l.id].events)) in t.written;
        }
      }
    }
  }

  /** Every reported event total is the sum, modulo 2^32, of the values in the same submission's events point. */
  lemma {:induction false} ReportedTotalsAgree(ls: seq<Label>)
    ensures TotalsAgree(Run(ls))
  {
    if ls != [] {
      ReportedTotalsAgree(ls[..|ls| - 1]);
      TotalsStep(Run(ls[..|ls| - 1]), ls[|ls| - 1]);
    }
  }
}
