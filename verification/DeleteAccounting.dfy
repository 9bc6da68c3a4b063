/** Delete logs against inserts, over every interleaving: a log is paid for by the insert of the row it shows, as long
    as no two deletes of a message are between fetching the row and finishing at once. */
module DeleteAccounting {
  import opened Common
  import opened MessageTable
  import opened Lifecycle

  function CountInserts(ss: seq<Statement>, id: MessageId): nat {
    if ss == [] then 0
    else CountInserts(ss[..|ss| - 1], id) + if ss[|ss| - 1].Insert? && ss[|ss| - 1].m.id == id then 1 else 0
  }

  function CountDeleteLogs(logs: seq<DeleteLog>, id: MessageId): nat {
    if logs == [] then 0
    else CountDeleteLogs(logs[..|logs| - 1], id) + if logs[|logs| - 1].id == id then 1 else 0
  }

  function Present(t: Table, id: MessageId): nat {
    if id in t then 1 else 0
  }

  /** Delete logs less inserts. */
  function Overdraft(w: World, id: MessageId): int {
    CountDeleteLogs(w.deleteLogs, id) - CountInserts(w.statements, id)
  }

  /** Delete logs and the row itself, less the inserts. */
  function Balance(w: World, id: MessageId): int {
    Overdraft(w, id) + Present(w.table, id)
  }

  predicate DeletesFinish(h: Handler) {
    h.OnDelete? ==> h.del.finishUp
  }

  predicate Deciding(h: Handler, id: MessageId) {
    h.OnDelete? && h.del.id == id && h.dpc.Decide?
  }

  /** The delete has logged and not yet deleted the row. */
  predicate Finishing(h: Handler, id: MessageId) {
    h.OnDelete? && h.del.id == id && h.dpc == Finish(true)
  }

  predicate Late(h: Handler, id: MessageId) {
    Deciding(h, id) || Finishing(h, id)
  }

  /** The next step sends a delete log of this message. */
  predicate Logs(h: Handler, id: MessageId) {
    Deciding(h, id) && h.del.Target(h.dpc.row) != None
  }

  // ---- one step ----

  /** A statement pays for the row it brings back. */
  lemma ExecPaid(w: World, w': World, s: Statement, id: MessageId)
    requires w'.table == Exec(w, s).table && w'.statements == Exec(w, s).statements && w'.deleteLogs == w.deleteLogs
    ensures Balance(w', id) <= Balance(w, id) && Overdraft(w', id) <= Overdraft(w, id)
    ensures s == Delete(id) ==> id !in w'.table
  {
  }

  lemma LoggingPaid(w: World, w': World, log: DeleteLog, id: MessageId)
    requires w'.statements == w.statements && w'.deleteLogs == w.deleteLogs + [log]
    ensures Overdraft(w', id) == Overdraft(w, id) + if log.id == id then 1 else 0
  {
  }

  /** A step either logs, and changes nothing else, or executes its statement and logs nothing of this message. */
  lemma StepLogs(w: World, h: Handler, id: MessageId)
    ensures Logs(h, id) ==>
              Step(w, h) == (w.(deleteLogs := w.deleteLogs + [h.del.LogOf(h.dpc.row)]), h.(dpc := Finish(true)))
    ensures !Logs(h, id) ==> CountDeleteLogs(Step(w, h).0.deleteLogs, id) == CountDeleteLogs(w.deleteLogs, id)
  {
  }

  /** How a step leaves the two counts. */
  lemma StepCounts(w: World, h: Handler, id: MessageId)
    ensures Logs(h, id) ==> Overdraft(Step(w, h).0, id) == Overdraft(w, id) + 1 && Step(w, h).0.table == w.table
    ensures !Logs(h, id) ==>
              Overdraft(Step(w, h).0, id) <= Overdraft(w, id) && Balance(Step(w, h).0, id) <= Balance(w, id)
    ensures StatementOf(h) == Delete(id) ==> id !in Step(w, h).0.table
  {
    StepLogs(w, h, id);
    if Logs(h, id) {
      LoggingPaid(w, Step(w, h).0, h.del.LogOf(h.dpc.row), id);
    } else {
      StepExecutes(w, h);
      ExecPaid(w, w.(table := Step(w, h).0.table, statements := Step(w, h).0.statements), StatementOf(h), id);
    }
  }

  /** How a step moves a delete between the phases. */
  lemma StepPhases(w: World, h: Handler, id: MessageId)
    ensures var (w', h') := Step(w, h);
            && (Deciding(h', id) ==> !Late(h, id) && id in w.table && w' == w)
            && (Finishing(h', id) <==> Logs(h, id))
            && (Finishing(h, id) && DeletesFinish(h) ==> StatementOf(h) == Delete(id))
            && (DeletesFinish(h) ==> DeletesFinish(h'))
  {
  }

  // ---- one delete at a time ----

  /** At most one delete of the message is between fetching the row and finishing. */
  ghost predicate Exclusive(s: System, id: MessageId) {
    forall c, d | c in s.handlers && d in s.handlers && Late(s.handlers[c], id) && Late(s.handlers[d], id) :: c == d
  }

  ghost predicate AllFinish(s: System) {
    forall d | d in s.handlers :: DeletesFinish(s.handlers[d])
  }

  /** What a handler's phase says about the counts. */
  ghost predicate Afford(w: World, h: Handler, id: MessageId) {
    (Deciding(h, id) ==> Overdraft(w, id) < 0) && (Finishing(h, id) ==> Overdraft(w, id) <= 0)
  }

  ghost predicate NoneLate(s: System, id: MessageId) {
    forall d | d in s.handlers :: !Late(s.handlers[d], id)
  }

  /** A deciding delete has its log still to pay for, a finishing one has the row; otherwise the row is paid for too. */
  ghost predicate Accounted(s: System, id: MessageId) {
    && (forall d | d in s.handlers :: Afford(s.w, s.handlers[d], id))
    && (NoneLate(s, id) ==> Balance(s.w, id) <= 0)
  }

  /** The step of handler d leaves every handler able to pay. */
  lemma GoAffords(s: System, d: HandlerId, id: MessageId)
    requires d in s.handlers && Accounted(s, id) && AllFinish(s) && Exclusive(s, id) && Exclusive(Next(s, Go(d)), id)
    ensures forall c | c in s.handlers :: Afford(Next(s, Go(d)).w, Next(s, Go(d)).handlers[c], id)
  {
    var t, h := Next(s, Go(d)), s.handlers[d];
    StepCounts(s.w, h, id);
    StepPhases(s.w, h, id);
    forall c | c in s.handlers ensures Afford(t.w, t.handlers[c], id) {
      assert Afford(s.w, s.handlers[c], id) && Afford(s.w, h, id);
      if c != d {
        assert t.handlers[c] == s.handlers[c];
      } else if Deciding(t.handlers[d], id) {
        forall b | b in s.handlers ensures !Late(s.handlers[b], id) {
          assert b != d ==> t.handlers[b] == s.handlers[b];
        }
      }
    }
  }

  /** When no delete is left in between, the row is paid for. */
  lemma GoBalances(s: System, d: HandlerId, id: MessageId)
    requires d in s.handlers && Accounted(s, id) && AllFinish(s) && Exclusive(s, id)
    requires NoneLate(Next(s, Go(d)), id)
    ensures Balance(Next(s, Go(d)).w, id) <= 0
  {
    var t, h := Next(s, Go(d)), s.handlers[d];
    StepCounts(s.w, h, id);
    StepPhases(s.w, h, id);
    assert Afford(s.w, h, id) && DeletesFinish(h) && !Late(t.handlers[d], id);
    if !Late(h, id) {
      forall b | b in s.handlers ensures !Late(s.handlers[b], id) {
        assert b != d ==> t.handlers[b] == s.handlers[b];
      }
    }
  }

  lemma StepAccounted(s: System, l: Label, id: MessageId)
    requires Accounted(s, id) && AllFinish(s) && Exclusive(s, id) && Exclusive(Next(s, l), id)
    ensures Accounted(Next(s, l), id)
  {
    var t := Next(s, l);
    if l.Go? && l.id in s.handlers {
      GoAffords(s, l.id, id);
      if NoneLate(t, id) {
        GoBalances(s, l.id, id);
      }
    } else if l.Spawn? && t != s {
      forall d | d in t.handlers ensures Afford(t.w, t.handlers[d], id) {
        assert d in s.handlers ==> Afford(s.w, s.handlers[d], id);
      }
      if NoneLate(t, id) {
        forall d | d in s.handlers ensures !Late(s.handlers[d], id) {
          assert t.handlers[d] == s.handlers[d];
        }
      }
    }
  }

  lemma FinishBefore(s: System, l: Label)
    requires AllFinish(Next(s, l))
    ensures AllFinish(s)
  {
    forall d | d in s.handlers ensures DeletesFinish(s.handlers[d]) {
      assert d in Next(s, l).handlers && DeletesFinish(Next(s, l).handlers[d]);
    }
  }

  lemma AccountedBalance(s: System, id: MessageId)
    requires Accounted(s, id)
    ensures Overdraft(s.w, id) <= 0
    ensures Balance(s.w, id) <= if exists d :: d in s.handlers && Finishing(s.handlers[d], id) then 1 else 0
  {
    if !NoneLate(s, id) {
      var d :| d in s.handlers && Late(s.handlers[d], id);
      assert Afford(s.w, s.handlers[d], id);
      assert Finishing(s.handlers[d], id) ==> exists c :: c in s.handlers && Finishing(s.handlers[c], id);
    }
  }

  /** In every interleaving whose deletes finish and take turns, delete logs plus the row never exceed the inserts, but
      for the one log whose delete has still to finish; and delete logs alone never do. */
  lemma {:induction false} InterleavingsAccounted(ls: seq<Label>, id: MessageId)
    requires AllFinish(Run(ls)) && forall n | 0 <= n <= |ls| :: Exclusive(Run(ls[..n]), id)
    ensures Accounted(Run(ls), id) && Overdraft(Run(ls).w, id) <= 0
    ensures Balance(Run(ls).w, id)
            <= if exists d :: d in Run(ls).handlers && Finishing(Run(ls).handlers[d], id) then 1 else 0
  {
    assert ls[..|ls|] == ls;
    if ls != [] {
      var p, l := ls[..|ls| - 1], ls[|ls| - 1];
      FinishBefore(Run(p), l);
      forall n | 0 <= n <= |p| ensures Exclusive(Run(p[..n]), id) {
        assert p[..n] == ls[..n];
      }
      InterleavingsAccounted(p, id);
      assert Exclusive(Run(ls[..|p|]), id) && Exclusive(Run(ls[..|ls|]), id);
      StepAccounted(Run(p), l, id);
    }
    AccountedBalance(Run(ls), id);
  }

  // ---- exactly when logs can come to exceed inserts ----

  /** The deletes that have fetched the row and will log it. */
  ghost function Committed(s: System, id: MessageId): set<HandlerId> {
    set d | d in s.handlers && Logs(s.handlers[d], id)
  }

  /** What the delete logs exceed the inserts by once every committed delete has logged. */
  ghost function Risk(s: System, id: MessageId): int {
    Overdraft(s.w, id) + |Committed(s, id)|
  }

  /** The label has a delete of the message fetch its row. */
  predicate Fetches(s: System, l: Label, id: MessageId) {
    && l.Go? && l.id in s.handlers && s.handlers[l.id].OnDelete? && s.handlers[l.id].del.id == id
    && s.handlers[l.id].dpc == Fetch
  }

  lemma StepRisk(s: System, l: Label, id: MessageId)
    requires !Fetches(s, l, id)
    ensures Risk(Next(s, l), id) <= Risk(s, id)
    ensures l.Go? && l.id in Committed(s, id) ==>
              Risk(Next(s, l), id) == Risk(s, id) && Committed(Next(s, l), id) == Committed(s, id) - {l.id}
  {
    var t := Next(s, l);
    if l.Go? && l.id in s.handlers {
      var h := s.handlers[l.id];
      StepCounts(s.w, h, id);
      StepPhases(s.w, h, id);
      assert !Deciding(Step(s.w, h).1, id);
      assert Committed(t, id) == Committed(s, id) - {l.id};
    } else if l.Spawn? && t != s {
      assert Committed(t, id) == Committed(s, id);
    }
  }

  /** After ls, no delete of the message fetches its row in rest. */
  ghost predicate NoFetch(ls: seq<Label>, rest: seq<Label>, id: MessageId)
    decreases rest
  {
    rest == [] || (!Fetches(Run(ls), rest[0], id) && NoFetch(ls + [rest[0]], rest[1..], id))
  }

  lemma {:induction false} RiskFalls(ls: seq<Label>, rest: seq<Label>, id: MessageId)
    requires NoFetch(ls, rest, id)
    ensures Risk(Run(ls + rest), id) <= Risk(Run(ls), id)
    decreases rest
  {
    if rest == [] {
      assert ls + rest == ls;
    } else {
      AppendCons(ls, rest[0], rest[1..]);
      assert rest == [rest[0]] + rest[1..];
      RiskFalls(ls + [rest[0]], rest[1..], id);
      RunSnoc(ls, rest[0]);
      StepRisk(Run(ls), rest[0], id);
    }
  }

  lemma CommittedStep(ls: seq<Label>, d: HandlerId, id: MessageId)
    requires d in Committed(Run(ls), id)
    ensures !Fetches(Run(ls), Go(d), id) && Risk(Run(ls + [Go(d)]), id) == Risk(Run(ls), id)
    ensures Committed(Run(ls + [Go(d)]), id) == Committed(Run(ls), id) - {d}
  {
    StepRisk(Run(ls), Go(d), id);
    RunSnoc(ls, Go(d));
  }

  /** The committed deletes log, one after the other. */
  lemma {:induction false} CommittedLog(ls: seq<Label>, id: MessageId) returns (rest: seq<Label>)
    ensures NoFetch(ls, rest, id) && Overdraft(Run(ls + rest).w, id) == Risk(Run(ls), id)
    decreases Committed(Run(ls), id)
  {
    if Committed(Run(ls), id) == {} {
      rest := [];
      assert ls + rest == ls;
    } else {
      var d :| d in Committed(Run(ls), id);
      CommittedStep(ls, d, id);
      var later := CommittedLog(ls + [Go(d)], id);
      rest := [Go(d)] + later;
      AppendCons(ls, Go(d), later);
    }
  }

  /** A continuation in which no delete of the message fetches its row any more can bring its delete logs above its
      inserts exactly when more deletes are committed to log than the logs are behind. */
  lemma OverdrawnIff(ls: seq<Label>, id: MessageId)
    ensures (exists rest :: NoFetch(ls, rest, id) && Overdraft(Run(ls + rest).w, id) > 0)
            <==> |Committed(Run(ls), id)| > -Overdraft(Run(ls).w, id)
  {
    if Risk(Run(ls), id) > 0 {
      var rest := CommittedLog(ls, id);
      assert NoFetch(ls, rest, id) && Overdraft(Run(ls + rest).w, id) > 0;
    } else {
      forall rest | NoFetch(ls, rest, id) ensures Overdraft(Run(ls + rest).w, id) <= 0 {
        RiskFalls(ls, rest, id);
      }
    }
  }

  /** In particular two deletes committed at once overdraw a balanced account. */
  lemma TwoCommittedOverdraw(ls: seq<Label>, id: MessageId, c: HandlerId, d: HandlerId) returns (rest: seq<Label>)
    requires c in Committed(Run(ls), id) && d in Committed(Run(ls), id) && c != d && Balance(Run(ls).w, id) == 0
    ensures Balance(Run(ls + rest).w, id) > 0
  {
    SubsetSize({c, d}, Committed(Run(ls), id));
    rest := CommittedLog(ls, id);
  }
}
