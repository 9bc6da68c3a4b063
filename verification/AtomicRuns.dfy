/** Handlers that run one after the other: what delete logs and edit logs then amount to. */
module AtomicRuns {
  import opened MessageTable
  import opened Lifecycle
  import opened DeleteAccounting

  /** How many steps a handler may still take. */
  function StepsLeft(h: Handler): nat {
    match h
    case OnCreate(_, pc) => if pc == Saving then 2 else if pc == Checking then 1 else 0
    case OnPKLog(_, pc) =>
      if pc == Marking then 4 else if pc == Attributing then 3 else if pc == Dropping then 2
      else if pc == Handling then 1 else 0
    case OnDelete(_, pc) => (
      match pc
      case CheckMark => 5
      case AskPK => 4
      case Fetch => 3
      case SavePK(_) => 2
      case Decide(_) => 2
      case Deleted(_) => 0
      case _ => 1)
    case OnUpdate(_, pc) => (
      match pc
      case Gates => 4
      case Read => 3
      case Compare(_) => 2
      case Store(_) => 1
      case Updated(_) => 0)
  }

  /** The handler runs to its end, alone. */
  function Complete(w: World, h: Handler): World
    decreases StepsLeft(h)
  {
    if StepsLeft(h) == 0 then w else Complete(Step(w, h).0, Step(w, h).1)
  }

  function RunAtomic(hs: seq<Handler>): World {
    if hs == [] then EMPTY else Complete(RunAtomic(hs[..|hs| - 1]), hs[|hs| - 1])
  }

  lemma StepShortens(w: World, h: Handler)
    ensures StepsLeft(h) > 0 ==> StepsLeft(Step(w, h).1) < StepsLeft(h)
  {
  }

  // ---- such runs are interleavings ----

  /** Every handler but this one has ended. */
  ghost predicate OthersEnded(s: System, id: HandlerId) {
    forall d | d in s.handlers && d != id :: StepsLeft(s.handlers[d]) == 0
  }

  ghost predicate AtMostOneLeft(s: System) {
    exists id :: OthersEnded(s, id)
  }

  /** In every state of the run at most one handler has steps left. */
  ghost predicate OneAtATime(ls: seq<Label>) {
    forall n | 0 <= n <= |ls| :: AtMostOneLeft(Run(ls[..n]))
  }

  lemma OneMore(ls: seq<Label>, l: Label, id: HandlerId)
    requires OneAtATime(ls) && OthersEnded(Run(ls + [l]), id)
    ensures OneAtATime(ls + [l])
  {
    var longer := ls + [l];
    forall n | 0 <= n <= |longer| ensures AtMostOneLeft(Run(longer[..n])) {
      if n <= |ls| {
        assert longer[..n] == ls[..n];
      } else {
        assert longer[..n] == longer && OthersEnded(Run(longer[..n]), id);
      }
    }
  }

  /** The handler is one of those given, further on. */
  predicate FromHandlers(h: Handler, hs: seq<Handler>) {
    h.OnDelete? ==> exists g :: g in hs && g.OnDelete? && g.del == h.del
  }

  lemma {:induction false} FinishAlone(ls: seq<Label>, id: HandlerId, hs: seq<Handler>) returns (ls': seq<Label>)
    requires id in Run(ls).handlers && OthersEnded(Run(ls), id) && OneAtATime(ls)
    requires forall d | d in Run(ls).handlers :: FromHandlers(Run(ls).handlers[d], hs)
    ensures Run(ls').w == Complete(Run(ls).w, Run(ls).handlers[id])
    ensures Run(ls').handlers.Keys == Run(ls).handlers.Keys
    ensures OneAtATime(ls') && OthersEnded(Run(ls'), id) && StepsLeft(Run(ls').handlers[id]) == 0
    ensures forall d | d in Run(ls').handlers :: FromHandlers(Run(ls').handlers[d], hs)
    decreases StepsLeft(Run(ls).handlers[id])
  {
    var s := Run(ls);
    if StepsLeft(s.handlers[id]) == 0 {
      ls' := ls;
    } else {
      RunSnoc(ls, Go(id));
      StepShortens(s.w, s.handlers[id]);
      OneMore(ls, Go(id), id);
      ls' := FinishAlone(ls + [Go(id)], id, hs);
    }
  }

  /** Handlers one after the other are one of the interleavings, in which at most one has steps left at any time. */
  lemma {:induction false} AtomicRunIsARun(hs: seq<Handler>) returns (ls: seq<Label>)
    requires forall h | h in hs :: Initial(h)
    ensures Run(ls).w == RunAtomic(hs) && OneAtATime(ls)
    ensures forall d | d in Run(ls).handlers ::
              d < |hs| && StepsLeft(Run(ls).handlers[d]) == 0 && FromHandlers(Run(ls).handlers[d], hs)
  {
    if hs == [] {
      ls := [];
      forall n | 0 <= n <= |ls| ensures AtMostOneLeft(Run(ls[..n])) {
        assert OthersEnded(Run(ls[..n]), 0);
      }
    } else {
      var id := |hs| - 1;
      ls := AtomicRunIsARun(hs[..id]);
      var spawn := Spawn(id, hs[id]);
      RunSnoc(ls, spawn);
      OneMore(ls, spawn, id);
      forall d | d in Run(ls + [spawn]).handlers ensures FromHandlers(Run(ls + [spawn]).handlers[d], hs) {
        assert d in Run(ls).handlers ==> FromHandlers(Run(ls).handlers[d], hs[..id]);
      }
      ls := FinishAlone(ls + [spawn], id, hs);
    }
  }

  // ---- delete logs are paid for by inserts ----

  lemma OneAtATimeExclusive(ls: seq<Label>, n: nat, id: MessageId)
    requires OneAtATime(ls) && n <= |ls|
    ensures Exclusive(Run(ls[..n]), id)
  {
    assert AtMostOneLeft(Run(ls[..n]));
  }

  /** Handlers one after the other: delete logs of a message, and one more while its row is there, never exceed the
      inserts of that message. */
  lemma DeleteLogsAccounted(hs: seq<Handler>, id: MessageId)
    requires forall h | h in hs :: Initial(h) && DeletesFinish(h)
    ensures CountDeleteLogs(RunAtomic(hs).deleteLogs, id) + Present(RunAtomic(hs).table, id)
            <= CountInserts(RunAtomic(hs).statements, id)
  {
    var ls := AtomicRunIsARun(hs);
    forall n | 0 <= n <= |ls| ensures Exclusive(Run(ls[..n]), id) {
      OneAtATimeExclusive(ls, n, id);
    }
    forall d | d in Run(ls).handlers ensures DeletesFinish(Run(ls).handlers[d]) {
      assert FromHandlers(Run(ls).handlers[d], hs);
    }
    InterleavingsAccounted(ls, id);
  }
}
