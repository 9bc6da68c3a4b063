/** Which deletes are logged, over every interleaving of the handlers: what a logged delete went through, and why the
    deletes of proxy triggers are not logged. */
module ProxyTriggers {
  import opened Common
  import opened MessageTable
  import opened Routing
  import opened Lifecycle

  // ---- a logged delete went through every check ----

  ghost function W(ls: seq<Label>, i: nat): World
    requires i <= |ls|
  {
    Run(ls[..i]).w
  }

  /** Label i is a step of this delete handler, which stands at pc. */
  ghost predicate At(ls: seq<Label>, i: nat, d: HandlerId, e: DeleteEnv, pc: DeletePc) {
    && i < |ls| && ls[i] == Go(d)
    && d in Run(ls[..i]).handlers && Run(ls[..i]).handlers[d] == OnDelete(e, pc)
  }

  ghost predicate FoundUnmarked(ls: seq<Label>, i: nat, d: HandlerId, e: DeleteEnv) {
    At(ls, i, d, e, CheckMark) && IsValid(e.guild) && e.id !in W(ls, i).marks
  }

  /** PluralKit was not asked, failed or named the same ID, and delete logs are on. */
  ghost predicate NotProxied(ls: seq<Label>, i: nat, d: HandlerId, e: DeleteEnv) {
    At(ls, i, d, e, AskPK) && !e.Proxied(W(ls, i).table) && e.LogsDeletes() && e.shouldLog
  }

  ghost predicate RowFetched(ls: seq<Label>, i: nat, d: HandlerId, e: DeleteEnv, row: Row) {
    At(ls, i, d, e, Fetch) && e.id in W(ls, i).table && W(ls, i).table[e.id] == row
  }

  /** Nothing is ignored, and the log goes where the channels redirect it. */
  ghost predicate LogSent(ls: seq<Label>, i: nat, d: HandlerId, e: DeleteEnv, row: Row) {
    && At(ls, i, d, e, Decide(row)) && e.LogsDeletes()
    && var cfg, root := e.config.value, RootChannel(e.tree, row.channel);
    && root.Some? && !Ignored(cfg, row.channel, root.value, row.user)
    && var dest := LogChannel(cfg, cfg.deleteLog, row.channel, root.value);
    && IsValid(dest) && W(ls, i + 1).deleteLogs == W(ls, i).deleteLogs + [e.LogOf(row)]
    && e.LogOf(row) == DeleteLog(e.id, row, dest)
  }

  /** Where in a run a delete handler passed its checks. */
  datatype Trail = Trail(checked: nat, asked: nat, fetched: nat, sent: nat, row: Row)

  datatype Stage = Start | Unmarked | Unproxied | Fetched(row: Row) | Sent

  function StageOf(pc: DeletePc): Stage {
    match pc
    case AskPK => Unmarked
    case SavePK(_) => Unmarked
    case DropTrigger => Unmarked
    case Fetch => Unproxied
    case Decide(row) => Fetched(row)
    case Finish(logged) => if logged then Sent else Start
    case Deleted(logged) => if logged then Sent else Start
    case _ => Start
  }

  /** The trail shows every check needed to come to the stage. */
  ghost predicate Shows(t: Trail, ls: seq<Label>, d: HandlerId, e: DeleteEnv, stage: Stage) {
    && (stage != Start ==> FoundUnmarked(ls, t.checked, d, e))
    && (stage != Start && stage != Unmarked ==> t.checked < t.asked && NotProxied(ls, t.asked, d, e))
    && (stage.Fetched? || stage.Sent? ==> t.asked < t.fetched && RowFetched(ls, t.fetched, d, e, t.row))
    && (stage.Fetched? ==> t.row == stage.row)
    && (stage.Sent? ==> t.fetched < t.sent && LogSent(ls, t.sent, d, e, t.row))
  }

  lemma ShowsLonger(t: Trail, ls: seq<Label>, l: Label, d: HandlerId, e: DeleteEnv, stage: Stage)
    requires Shows(t, ls, d, e, stage)
    ensures Shows(t, ls + [l], d, e, stage)
    ensures stage != Start ==> t.checked < |ls|
    ensures stage != Start && stage != Unmarked ==> t.asked < |ls|
    ensures stage.Fetched? || stage.Sent? ==> t.fetched < |ls|
  {
    forall i: nat | i <= |ls| ensures (ls + [l])[..i] == ls[..i] {
    }
  }

  lemma SendStep(ls: seq<Label>, d: HandlerId, e: DeleteEnv, row: Row)
    requires At(ls + [Go(d)], |ls|, d, e, Decide(row)) && e.Target(row).Some? && e.LogsDeletes()
    ensures LogSent(ls + [Go(d)], |ls|, d, e, row)
  {
    var longer := ls + [Go(d)];
    assert longer[..|ls|] == ls && longer[..|ls| + 1] == longer;
  }

  /** What a step found out, by the stage it comes to. */
  predicate Learns(w: World, e: DeleteEnv, pc: DeletePc, stage: Stage) {
    match pc
    case CheckMark => stage == Start || (stage == Unmarked && IsValid(e.guild) && e.id !in w.marks)
    case AskPK =>
      stage == Start || stage == Unmarked
      || (stage == Unproxied && !e.Proxied(w.table) && e.LogsDeletes() && e.shouldLog)
    case Fetch => stage == Start || (e.id in w.table && stage == Fetched(w.table[e.id]))
    case Decide(row) => stage == Start || (stage == Sent && e.Target(row).Some?)
    case _ => stage == Start || stage == StageOf(pc)
  }

  lemma StepLearns(w: World, e: DeleteEnv, pc: DeletePc)
    ensures Learns(w, e, pc, StageOf(StepDelete(w, e, pc).1))
  {
  }

  lemma LearnedShows(ls: seq<Label>, d: HandlerId, e: DeleteEnv, pc: DeletePc, t: Trail, stage: Stage)
    returns (t': Trail)
    requires At(ls + [Go(d)], |ls|, d, e, pc) && Shows(t, ls, d, e, StageOf(pc)) && Learns(Run(ls).w, e, pc, stage)
    ensures Shows(t', ls + [Go(d)], d, e, stage)
    ensures pc.Decide? ==> t'.sent == |ls|
  {
    ShowsLonger(t, ls, Go(d), d, e, StageOf(pc));
    assert (ls + [Go(d)])[..|ls|] == ls;
    t' := t;
    match pc {
      case CheckMark => t' := t.(checked := |ls|);
      case AskPK => t' := t.(asked := |ls|);
      case Fetch => t' := t.(fetched := |ls|, row := if stage.Fetched? then stage.row else t.row);
      case Decide(row) =>
        t' := t.(sent := |ls|);
        if stage == Sent {
          SendStep(ls, d, e, row);
        }
      case _ =>
    }
  }

  /** One step extends the trail. */
  lemma TrailStep(ls: seq<Label>, d: HandlerId, e: DeleteEnv, pc: DeletePc, t: Trail) returns (t': Trail)
    requires At(ls + [Go(d)], |ls|, d, e, pc) && Shows(t, ls, d, e, StageOf(pc))
    ensures Shows(t', ls + [Go(d)], d, e, StageOf(StepDelete(Run(ls).w, e, pc).1))
    ensures pc.Decide? ==> t'.sent == |ls|
  {
    StepLearns(Run(ls).w, e, pc);
    t' := LearnedShows(ls, d, e, pc, t, StageOf(StepDelete(Run(ls).w, e, pc).1));
  }

  lemma {:induction false} TrailOf(ls: seq<Label>, d: HandlerId) returns (t: Trail)
    requires d in Run(ls).handlers && Run(ls).handlers[d].OnDelete?
    ensures var h := Run(ls).handlers[d]; Shows(t, ls, d, h.del, StageOf(h.dpc))
  {
    var p, l := ls[..|ls| - 1], ls[|ls| - 1];
    assert ls == p + [l];
    if d in Run(p).handlers {
      var h := Run(p).handlers[d];
      t := TrailOf(p, d);
      if l == Go(d) {
        t := TrailStep(p, d, h.del, h.dpc, t);
      } else {
        ShowsLonger(t, p, l, d, h.del, StageOf(h.dpc));
      }
    } else {
      t := Trail(0, 0, 0, 0, Row(None, 0, 0, 0, "", "", None, None, None));
    }
  }

  /** A step sends a delete log only from a delete handler that has decided to. */
  lemma LogsGrow(s: System, l: Label)
    ensures s.w.deleteLogs <= Next(s, l).w.deleteLogs
    ensures Next(s, l).w.deleteLogs != s.w.deleteLogs ==>
              && l.Go? && l.id in s.handlers && s.handlers[l.id].OnDelete? && s.handlers[l.id].dpc.Decide?
              && s.handlers[l.id].del.Target(s.handlers[l.id].dpc.row).Some?
              && |Next(s, l).w.deleteLogs| == |s.w.deleteLogs| + 1
              && Next(s, l).w.deleteLogs[|s.w.deleteLogs|].id == s.handlers[l.id].del.id
  {
  }

  lemma NewestSender(p: seq<Label>, l: Label) returns (d: HandlerId, e: DeleteEnv, t: Trail)
    requires Next(Run(p), l).w.deleteLogs != Run(p).w.deleteLogs
    ensures Shows(t, p + [l], d, e, Sent) && t.sent == |p|
    ensures Next(Run(p), l).w.deleteLogs == Run(p).w.deleteLogs + [e.LogOf(t.row)]
    ensures Next(Run(p), l).handlers == Run(p).handlers[d := OnDelete(e, Finish(true))]
  {
    LogsGrow(Run(p), l);
    d := l.id;
    var pc := Run(p).handlers[d].dpc;
    e := Run(p).handlers[d].del;
    t := TrailOf(p, d);
    assert (p + [l])[..|p|] == p;
    t := TrailStep(p, d, e, pc, t);
  }

  ghost predicate HasLogged(s: System, d: HandlerId, e: DeleteEnv) {
    d in s.handlers && (s.handlers[d] == OnDelete(e, Finish(true)) || s.handlers[d] == OnDelete(e, Deleted(true)))
  }

  lemma LoggedStays(s: System, l: Label, d: HandlerId, e: DeleteEnv)
    requires HasLogged(s, d, e)
    ensures HasLogged(Next(s, l), d, e)
  {
  }

  lemma {:induction false} SenderOf(ls: seq<Label>, k: nat) returns (d: HandlerId, e: DeleteEnv, t: Trail)
    requires k < |Run(ls).w.deleteLogs|
    ensures Shows(t, ls, d, e, Sent) && t.sent < |ls|
    ensures Run(ls).w.deleteLogs[k] == e.LogOf(t.row)
    ensures HasLogged(Run(ls), d, e)
  {
    var p, l := ls[..|ls| - 1], ls[|ls| - 1];
    assert ls == p + [l];
    LogsGrow(Run(p), l);
    if k < |Run(p).w.deleteLogs| {
      d, e, t := SenderOf(p, k);
      ShowsLonger(t, p, l, d, e, Sent);
      LoggedStays(Run(p), l, d, e);
    } else {
      d, e, t := NewestSender(p, l);
    }
  }

  /** Every delete log was sent by a handler that, one after the other, found the ID unmarked, was not told by PluralKit
      of another message, read the row it logs from the table, and found nothing about it ignored. */
  lemma LoggedDeleteChain(ls: seq<Label>, k: nat) returns (d: HandlerId, e: DeleteEnv, t: Trail)
    requires k < |Run(ls).w.deleteLogs|
    ensures t.checked < t.asked < t.fetched < t.sent < |ls|
    ensures FoundUnmarked(ls, t.checked, d, e) && NotProxied(ls, t.asked, d, e)
    ensures RowFetched(ls, t.fetched, d, e, t.row) && LogSent(ls, t.sent, d, e, t.row)
    ensures Run(ls).w.deleteLogs[k] ==
            DeleteLog(e.id, t.row, LogChannel(e.config.value, e.config.value.deleteLog, t.row.channel,
                                              RootChannel(e.tree, t.row.channel).value))
  {
    d, e, t := SenderOf(ls, k);
  }

  /** So on a layered tree no delete log comes from below anything ignored, and each went to the first redirect above.
      */
  lemma LoggedDeletesFollowTree(ls: seq<Label>, k: nat) returns (d: HandlerId, e: DeleteEnv, t: Trail)
    requires k < |Run(ls).w.deleteLogs|
    ensures RowFetched(ls, t.fetched, d, e, t.row) && LogSent(ls, t.sent, d, e, t.row)
    ensures Layered(e.tree) ==>
              var path := Ancestors(e.tree, t.row.channel);
              && !SuppressedOn(e.config.value, path, t.row.user)
              && Run(ls).w.deleteLogs[k].dest == FirstRedirect(e.config.value, e.config.value.deleteLog, path)
  {
    d, e, t := LoggedDeleteChain(ls, k);
    if Layered(e.tree) {
      HandlersFollowTree(e.config.value, e.config.value.deleteLog, e.tree, t.row.channel, t.row.user);
    }
  }

  // ---- proxy triggers ----

  /** The handler deletes o and has fetched its row or logged it. */
  predicate HoldsRow(h: Handler, o: MessageId) {
    h.OnDelete? && h.del.id == o && (h.dpc.Decide? || h.dpc == Finish(true) || h.dpc == Deleted(true))
  }

  /** A message of which no handler holds the row has no delete log. */
  lemma NoneHeldNoneLogged(ls: seq<Label>, o: MessageId)
    requires forall d | d in Run(ls).handlers :: !HoldsRow(Run(ls).handlers[d], o)
    ensures forall k | 0 <= k < |Run(ls).w.deleteLogs| :: Run(ls).w.deleteLogs[k].id != o
  {
    forall k | 0 <= k < |Run(ls).w.deleteLogs| ensures Run(ls).w.deleteLogs[k].id != o {
      var d, e, t := SenderOf(ls, k);
      assert !HoldsRow(Run(ls).handlers[d], o);
    }
  }

  /** The delete handler saw the mark. */
  predicate SawMark(h: Handler) {
    h.OnDelete? && (h.dpc == RemoveMark || h.dpc == Deleted(false))
  }

  /** A delete handler that sees the mark never logs. */
  lemma {:induction false} SeenMarkNeverLogs(ls: seq<Label>, i: nat, d: HandlerId, e: DeleteEnv)
    requires At(ls, i, d, e, CheckMark) && e.id in W(ls, i).marks
    ensures d in Run(ls).handlers && Run(ls).handlers[d].OnDelete? && Run(ls).handlers[d].del == e
    ensures SawMark(Run(ls).handlers[d])
    decreases |ls|
  {
    var p, l := ls[..|ls| - 1], ls[|ls| - 1];
    assert ls == p + [l] && p[..|p|] == p;
    if i < |p| {
      assert p[..i] == ls[..i];
      SeenMarkNeverLogs(p, i, d, e);
    }
  }

  /** From label n on, no statement inserts o. */
  ghost predicate NotReinserted(ls: seq<Label>, n: nat, o: MessageId)
    requires n <= |ls|
  {
    forall s | s in Since(ls, n) :: !(s.Insert? && s.m.id == o)
  }

  /** The row of o is gone, and no delete handler of o has fetched it, but for those listed. */
  ghost predicate Silent(s: System, o: MessageId, but: set<HandlerId>) {
    && o !in s.w.table
    && forall d | d in s.handlers && d !in but :: !HoldsRow(s.handlers[d], o)
  }

  lemma StepHoldsNothing(w: World, h: Handler, o: MessageId)
    requires o !in w.table && !HoldsRow(h, o)
    ensures !HoldsRow(Step(w, h).1, o)
  {
  }

  lemma StepSilent(s: System, l: Label, o: MessageId, but: set<HandlerId>)
    requires Silent(s, o, but)
    requires l.Go? && l.id in s.handlers ==>
               !(StatementOf(s.handlers[l.id]).Insert? && StatementOf(s.handlers[l.id]).m.id == o)
    ensures Silent(Next(s, l), o, but)
  {
    if l.Go? && l.id in s.handlers {
      var h := s.handlers[l.id];
      StepExecutes(s.w, h);
      if l.id !in but {
        StepHoldsNothing(s.w, h, o);
      }
    }
  }

  lemma StatementRecorded(ls: seq<Label>, n: nat)
    requires n < |ls|
    ensures var s, l := Run(ls[..|ls| - 1]), ls[|ls| - 1];
            l.Go? && l.id in s.handlers && StatementOf(s.handlers[l.id]) != Nothing ==>
              StatementOf(s.handlers[l.id]) in Since(ls, n)
  {
    var p, l := ls[..|ls| - 1], ls[|ls| - 1];
    var s := Run(p);
    StatementsGrow(ls, n);
    assert p[..n] == ls[..n];
    StatementsGrow(p, n);
    if l.Go? && l.id in s.handlers && StatementOf(s.handlers[l.id]) != Nothing {
      StepExecutes(s.w, s.handlers[l.id]);
      var a := Run(ls).w.statements;
      assert a[|a| - 1] == StatementOf(s.handlers[l.id]);
      assert Since(ls, n)[|Since(ls, n)| - 1] == a[|a| - 1];
    }
  }

  lemma {:induction false} RunSilent(ls: seq<Label>, n: nat, o: MessageId, but: set<HandlerId>)
    requires n <= |ls| && Silent(Run(ls[..n]), o, but) && NotReinserted(ls, n, o)
    ensures Silent(Run(ls), o, but)
    decreases |ls|
  {
    if n == |ls| {
      assert ls[..n] == ls;
    } else {
      var p := ls[..|ls| - 1];
      assert p[..n] == ls[..n];
      StatementsGrow(ls, n);
      RunSilent(p, n, o, but);
      StatementRecorded(ls, n);
      StepSilent(Run(p), ls[|ls| - 1], o, but);
    }
  }

  /** Label i is a step of this handler of PluralKit's log message, which stands at pc. */
  ghost predicate LogAt(ls: seq<Label>, i: nat, p: HandlerId, q: PKLogEnv, pc: PKLogPc) {
    && i < |ls| && ls[i] == Go(p)
    && p in Run(ls[..i]).handlers && Run(ls[..i]).handlers[p] == OnPKLog(q, pc)
  }

  lemma DropRemovesRow(ls: seq<Label>, n: nat, p: HandlerId, q: PKLogEnv)
    requires LogAt(ls, n, p, q, Dropping) && q.dropUp
    ensures q.info.original !in Run(ls[..n + 1]).w.table
  {
    assert ls[..n + 1] == ls[..n] + [ls[n]];
    RunSnoc(ls[..n], ls[n]);
  }

  /** Once the trigger's row is dropped and not inserted again, no delete handler that had not fetched it ever logs. */
  lemma DroppedNeverLogged(ls: seq<Label>, n: nat, p: HandlerId, q: PKLogEnv, d: HandlerId)
    requires LogAt(ls, n, p, q, Dropping) && q.dropUp && NotReinserted(ls, n + 1, q.info.original)
    requires d in Run(ls[..n + 1]).handlers ==> !HoldsRow(Run(ls[..n + 1]).handlers[d], q.info.original)
    requires d in Run(ls).handlers
    ensures !HoldsRow(Run(ls).handlers[d], q.info.original)
  {
    var o, s := q.info.original, Run(ls[..n + 1]);
    var but := set x | x in s.handlers && HoldsRow(s.handlers[x], o);
    DropRemovesRow(ls, n, p, q);
    RunSilent(ls, n + 1, o, but);
  }

  /** Between m and i, no delete handler of o takes its mark away. */
  ghost predicate Unconsumed(ls: seq<Label>, m: nat, i: nat, o: MessageId)
    requires i <= |ls|
  {
    forall k, d, e | m < k < i :: At(ls, k, d, e, RemoveMark) ==> e.id != o
  }

  lemma StepKeepsMark(s: System, l: Label, o: MessageId)
    requires o in s.w.marks
    requires l.Go? && l.id in s.handlers && s.handlers[l.id].OnDelete? && s.handlers[l.id].dpc == RemoveMark ==>
               s.handlers[l.id].del.id != o
    ensures o in Next(s, l).w.marks
  {
  }

  lemma {:induction false} MarkStays(ls: seq<Label>, m: nat, i: nat, o: MessageId)
    requires m < i <= |ls| && o in W(ls, m + 1).marks && Unconsumed(ls, m, i, o)
    ensures o in W(ls, i).marks
    decreases i
  {
    if i > m + 1 {
      var k := i - 1;
      MarkStays(ls, m, k, o);
      assert ls[..i] == ls[..k] + [ls[k]];
      RunSnoc(ls[..k], ls[k]);
      var s, l := Run(ls[..k]), ls[k];
      if l.Go? && l.id in s.handlers && s.handlers[l.id].OnDelete? {
        assert At(ls, k, l.id, s.handlers[l.id].del, s.handlers[l.id].dpc);
      }
      StepKeepsMark(s, l, o);
    }
  }

  lemma {:induction false} StillThere(ls: seq<Label>, i: nat, d: HandlerId)
    requires i <= |ls| && d in Run(ls[..i]).handlers
    ensures d in Run(ls).handlers
    decreases |ls|
  {
    if i == |ls| {
      assert ls[..i] == ls;
    } else {
      var p := ls[..|ls| - 1];
      assert p[..i] == ls[..i];
      StillThere(p, i, d);
    }
  }

  // ---- exactly when a delete can be logged ----

  lemma SuffixSplit<T>(a: seq<T>, b: seq<T>, c: seq<T>, x: seq<T>, y: seq<T>, z: seq<T>)
    requires b == a + x && c == b + y && c == a + z
    ensures z == x + y
  {
    assert z == c[|a|..] && x == b[|a|..] && y == c[|b|..];
  }

  lemma SinceSplit(ls: seq<Label>, n: nat, i: nat)
    requires n <= i <= |ls|
    ensures Since(ls, n) == Since(ls[..i], n) + Since(ls, i)
  {
    assert ls[..i][..n] == ls[..n];
    StatementsGrow(ls, n);
    StatementsGrow(ls, i);
    StatementsGrow(ls[..i], n);
    SuffixSplit(Run(ls[..n]).w.statements, Run(ls[..i]).w.statements, Run(ls).w.statements,
                Since(ls[..i], n), Since(ls, i), Since(ls, n));
  }

  /** A delete whose check finds the mark, or finds no row and none is inserted again, is never logged. */
  lemma CheckNeverLogs(ls: seq<Label>, i: nat, d: HandlerId, e: DeleteEnv)
    requires At(ls, i, d, e, CheckMark)
    requires e.id in W(ls, i).marks || (e.id !in W(ls, i).table && NotReinserted(ls, i, e.id))
    ensures d in Run(ls).handlers && !HoldsRow(Run(ls).handlers[d], e.id)
  {
    if e.id in W(ls, i).marks {
      SeenMarkNeverLogs(ls, i, d, e);
    } else {
      var s := Run(ls[..i]);
      RunSilent(ls, i, e.id, set x | x in s.handlers && HoldsRow(s.handlers[x], e.id));
      StillThere(ls, i, d);
    }
  }

  /** Apart from mark and row, nothing keeps the handler from logging: the guild is valid, PluralKit does not name
      another message, delete logs are on, the row can be read and nothing about it is ignored. */
  predicate WouldLog(e: DeleteEnv, t: Table) {
    && IsValid(e.guild) && !e.Proxied(t) && e.LogsDeletes() && e.shouldLog && e.getUp
    && (e.id in t ==> e.Target(t[e.id]).Some?)
  }

  /** Three steps in a row bring the handler to decide about its row. */
  lemma ComesToDecide(ls: seq<Label>, d: HandlerId, e: DeleteEnv)
    requires d in Run(ls).handlers && Run(ls).handlers[d] == OnDelete(e, CheckMark)
    requires WouldLog(e, Run(ls).w.table) && e.id !in Run(ls).w.marks && e.id in Run(ls).w.table
    ensures var s := Run(ls);
            Run(ls + [Go(d)] + [Go(d)] + [Go(d)])
            == System(s.w, s.handlers[d := OnDelete(e, Decide(s.w.table[e.id]))])
  {
    var s := Run(ls);
    var ls1 := ls + [Go(d)];
    RunSnoc(ls, Go(d));
    assert Run(ls1) == System(s.w, s.handlers[d := OnDelete(e, AskPK)]);
    var ls2 := ls1 + [Go(d)];
    RunSnoc(ls1, Go(d));
    assert Run(ls2) == System(s.w, s.handlers[d := OnDelete(e, Fetch)]);
    RunSnoc(ls2, Go(d));
  }

  lemma DecideLogs(ls: seq<Label>, d: HandlerId, e: DeleteEnv, row: Row)
    requires d in Run(ls).handlers && Run(ls).handlers[d] == OnDelete(e, Decide(row)) && e.Target(row).Some?
    ensures var s := Run(ls);
            Run(ls + [Go(d)]) == System(s.w.(deleteLogs := s.w.deleteLogs + [e.LogOf(row)]),
                                        s.handlers[d := OnDelete(e, Finish(true))])
  {
    RunSnoc(ls, Go(d));
  }

  /** The rest of the handler, uninterrupted. */
  lemma LogsAtOnce(ls: seq<Label>, d: HandlerId, e: DeleteEnv)
    requires d in Run(ls).handlers && Run(ls).handlers[d] == OnDelete(e, CheckMark)
    requires WouldLog(e, Run(ls).w.table) && e.id !in Run(ls).w.marks && e.id in Run(ls).w.table
    ensures var s := Run(ls);
            Run(ls + [Go(d)] + [Go(d)] + [Go(d)] + [Go(d)])
            == System(s.w.(deleteLogs := s.w.deleteLogs + [e.LogOf(s.w.table[e.id])]),
                      s.handlers[d := OnDelete(e, Finish(true))])
  {
    ComesToDecide(ls, d, e);
    DecideLogs(ls + [Go(d)] + [Go(d)] + [Go(d)], d, e, Run(ls).w.table[e.id]);
  }

  /** The run continues with the delete's check, later has the delete logged, and does not insert the message again. */
  ghost predicate ContinuesToLog(ls: seq<Label>, d: HandlerId, e: DeleteEnv, rest: seq<Label>) {
    NotReinserted(ls + [Go(d)] + rest, |ls|, e.id) && HasLogged(Run(ls + [Go(d)] + rest), d, e)
  }

  /** A delete about to check that would log its row can still be logged without the message being inserted again
      exactly when its ID is not marked and its row is there. */
  lemma ReadyDeleteCanLogIff(ls: seq<Label>, d: HandlerId, e: DeleteEnv)
    requires d in Run(ls).handlers && Run(ls).handlers[d] == OnDelete(e, CheckMark)
    requires WouldLog(e, Run(ls).w.table)
    ensures (exists rest :: ContinuesToLog(ls, d, e, rest)) <==> e.id !in Run(ls).w.marks && e.id in Run(ls).w.table
  {
    if e.id !in Run(ls).w.marks && e.id in Run(ls).w.table {
      var rest := [Go(d), Go(d), Go(d)];
      LogsAtOnce(ls, d, e);
      assert ls + [Go(d)] + rest == ls + [Go(d)] + [Go(d)] + [Go(d)] + [Go(d)];
      assert (ls + [Go(d)] + rest)[..|ls|] == ls;
      assert ContinuesToLog(ls, d, e, rest);
    } else {
      forall rest ensures !ContinuesToLog(ls, d, e, rest) {
        var run := ls + [Go(d)] + rest;
        assert run[..|ls|] == ls;
        if NotReinserted(run, |ls|, e.id) {
          CheckNeverLogs(run, |ls|, d, e);
        }
      }
    }
  }

  /** The same read off the environment: the guild is valid, delete logs are on, the row can be read and has a receiver,
      and PluralKit is not asked, fails or names the same ID. */
  ghost predicate Unobstructed(e: DeleteEnv, t: Table)
    requires Layered(e.tree)
  {
    && IsValid(e.guild) && e.config.Some? && IsValid(e.config.value.deleteLog) && e.shouldLog && e.getUp
    && ((e.hasUp && HasPK(t, e.id)) || !e.recent || e.reply.NoReply? || e.reply.id == e.id)
    && var cfg := e.config.value;
    (e.id in t ==> Receiver(cfg, cfg.deleteLog, e.tree, t[e.id].channel, t[e.id].user).Some?)
  }

  lemma UnobstructedWouldLog(e: DeleteEnv, t: Table)
    requires Layered(e.tree)
    ensures Unobstructed(e, t) <==> WouldLog(e, t)
  {
    if e.config.Some? && e.id in t {
      DestinationFollowsTree(e.config.value, e.config.value.deleteLog, e.tree, t[e.id].channel, t[e.id].user);
    }
  }

  /** So on a layered tree an unobstructed delete can still be logged exactly when its ID is not marked and its row is
      there. */
  lemma DeleteCanLogIff(ls: seq<Label>, d: HandlerId, e: DeleteEnv)
    requires d in Run(ls).handlers && Run(ls).handlers[d] == OnDelete(e, CheckMark)
    requires Layered(e.tree) && Unobstructed(e, Run(ls).w.table)
    ensures (exists rest :: ContinuesToLog(ls, d, e, rest)) <==> e.id !in Run(ls).w.marks && e.id in Run(ls).w.table
  {
    UnobstructedWouldLog(e, Run(ls).w.table);
    ReadyDeleteCanLogIff(ls, d, e);
  }

  // ---- so proxy triggers are not logged ----

  /** PluralKit's log message dropped the row before i, and no statement inserts it again. */
  ghost predicate DroppedBefore(ls: seq<Label>, p: HandlerId, q: PKLogEnv, i: nat) {
    exists n: nat :: n < i && LogAt(ls, n, p, q, Dropping) && q.dropUp && NotReinserted(ls, n + 1, q.info.original)
  }

  /** A check at i is after the mark was set at m; the mark is still there, or the row is gone for good. */
  ghost predicate Covered(ls: seq<Label>, m: nat, p: HandlerId, q: PKLogEnv, i: nat) {
    && LogAt(ls, m, p, q, Marking) && m < i <= |ls|
    && (Unconsumed(ls, m, i, q.info.original) || DroppedBefore(ls, p, q, i))
  }

  lemma DroppedAtIsGone(ls: seq<Label>, p: HandlerId, q: PKLogEnv, n: nat, i: nat)
    requires n < i <= |ls| && LogAt(ls, n, p, q, Dropping) && q.dropUp && NotReinserted(ls, n + 1, q.info.original)
    ensures q.info.original !in W(ls, i).table && NotReinserted(ls, i, q.info.original)
  {
    var o, s := q.info.original, Run(ls[..n + 1]);
    DropRemovesRow(ls, n, p, q);
    SinceSplit(ls, n + 1, i);
    assert ls[..i][..n + 1] == ls[..n + 1];
    RunSilent(ls[..i], n + 1, o, set x | x in s.handlers && HoldsRow(s.handlers[x], o));
  }

  lemma DroppedIsGone(ls: seq<Label>, p: HandlerId, q: PKLogEnv, i: nat)
    requires i <= |ls| && DroppedBefore(ls, p, q, i)
    ensures q.info.original !in W(ls, i).table && NotReinserted(ls, i, q.info.original)
  {
    var n: nat :| n < i && LogAt(ls, n, p, q, Dropping) && q.dropUp && NotReinserted(ls, n + 1, q.info.original);
    DroppedAtIsGone(ls, p, q, n, i);
  }

  /** In every interleaving, a proxy trigger's delete whose check comes after PluralKit's log message set the mark is
      never logged: it sees the mark, or if the mark was consumed before, finds the row gone. */
  lemma TriggerNeverLogged(ls: seq<Label>, m: nat, p: HandlerId, q: PKLogEnv, i: nat, d: HandlerId, e: DeleteEnv)
    requires At(ls, i, d, e, CheckMark) && e.id == q.info.original && Covered(ls, m, p, q, i)
    ensures d in Run(ls).handlers && !HoldsRow(Run(ls).handlers[d], e.id)
  {
    if Unconsumed(ls, m, i, e.id) {
      assert ls[..m + 1] == ls[..m] + [ls[m]];
      RunSnoc(ls[..m], ls[m]);
      MarkStays(ls, m, i, e.id);
    } else {
      DroppedIsGone(ls, p, q, i);
    }
    CheckNeverLogs(ls, i, d, e);
  }

  /** The handler is no delete of the trigger, has not checked yet, or its check was covered. */
  ghost predicate Excused(ls: seq<Label>, m: nat, p: HandlerId, q: PKLogEnv, d: HandlerId, h: Handler) {
    h.OnDelete? && h.del.id == q.info.original && h.dpc != CheckMark ==>
      exists i: nat :: At(ls, i, d, h.del, CheckMark) && Covered(ls, m, p, q, i)
  }

  /** So when every delete of the trigger checks after the mark, there is no delete log of it at all. */
  lemma TriggerHasNoDeleteLog(ls: seq<Label>, m: nat, p: HandlerId, q: PKLogEnv)
    requires forall d | d in Run(ls).handlers :: Excused(ls, m, p, q, d, Run(ls).handlers[d])
    ensures forall k | 0 <= k < |Run(ls).w.deleteLogs| :: Run(ls).w.deleteLogs[k].id != q.info.original
  {
    forall d | d in Run(ls).handlers ensures !HoldsRow(Run(ls).handlers[d], q.info.original) {
      var h := Run(ls).handlers[d];
      assert Excused(ls, m, p, q, d, h);
      if h.OnDelete? && h.del.id == q.info.original && h.dpc != CheckMark {
        var i: nat :| At(ls, i, d, h.del, CheckMark) && Covered(ls, m, p, q, i);
        TriggerNeverLogged(ls, m, p, q, i, d, h.del);
      }
    }
    NoneHeldNoneLogged(ls, q.info.original);
  }
}
