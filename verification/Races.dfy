/** Schedules that show why the theorems about delete logs and edit logs ask for what they ask. */
module Races {
  import opened Common
  import opened MessageTable
  import opened Routing
  import opened Lifecycle
  import opened ProxyTriggers
  import opened EditLogs
  import opened InterleavedEdits
  import DeleteAccounting

  const ID: MessageId := 7
  const CONFIG: Config := Config(1, 1, 1, map[], {}, {}, map[])
  const TREE: Tree := map[5 := Channel(5, Plain, 0)]
  const MESSAGE: Message := Message(ID, 3, 5, 4, "a", "b", None)
  const ROW: Row := Row(None, 3, 5, 4, "a", "b", None, None, None)

  /** A create, a PluralKit log message and a delete for which everything succeeds. */
  const CREATE: CreateEnv := CreateEnv(MESSAGE, Some(CONFIG), true, false)
  const PKLOG: PKLogEnv := PKLogEnv(PKInfo(8, ID, 3, "s", "m"), true, true)
  const DELETE: DeleteEnv := DeleteEnv(ID, 4, true, true, NoReply, true, true, Some(CONFIG), true, true, TREE, true)

  lemma CreateFirst() returns (ls: seq<Label>)
    ensures Run(ls) == System(EMPTY.(table := map[ID := ROW], statements := [Insert(MESSAGE)]),
                              map[0 := OnCreate(CREATE, Created)])
  {
    ls := [];
    RunSnoc(ls, Spawn(0, OnCreate(CREATE, Saving)));
    ls := ls + [Spawn(0, OnCreate(CREATE, Saving))];
    RunSnoc(ls, Go(0));
    ls := ls + [Go(0)];
  }

  lemma DeleteTarget()
    ensures DELETE.Target(ROW) == Some(1)
  {
    assert RootChannel(TREE, 5) == Some(Channel(5, Plain, 0));
  }

  /** Started while the row is there and no mark is, the delete comes as far as deciding what to log. */
  lemma ReachesDecide(ls: seq<Label>, d: HandlerId) returns (ls': seq<Label>)
    requires d !in Run(ls).handlers && Run(ls).w.table == map[ID := ROW] && ID !in Run(ls).w.marks
    ensures Run(ls') == System(Run(ls).w, Run(ls).handlers[d := OnDelete(DELETE, Decide(ROW))])
  {
    DeleteTarget();
    RunSnoc(ls, Spawn(d, OnDelete(DELETE, CheckMark)));
    ls' := ls + [Spawn(d, OnDelete(DELETE, CheckMark))];
    ComesToDecide(ls', d, DELETE);
    ls' := ls' + [Go(d)] + [Go(d)] + [Go(d)];
  }

  lemma Decides(ls: seq<Label>, d: HandlerId)
    requires d in Run(ls).handlers && Run(ls).handlers[d] == OnDelete(DELETE, Decide(ROW))
    ensures var s := Run(ls);
            Run(ls + [Go(d)]) == System(s.w.(deleteLogs := s.w.deleteLogs + [DeleteLog(ID, ROW, 1)]),
                                        s.handlers[d := OnDelete(DELETE, Finish(true))])
  {
    DeleteTarget();
    DecideLogs(ls, d, DELETE, ROW);
  }

  lemma OneInsertTwoLogs(w: World)
    requires w.statements == [Insert(MESSAGE)] && w.deleteLogs == [DeleteLog(ID, ROW, 1), DeleteLog(ID, ROW, 1)]
    ensures DeleteAccounting.CountDeleteLogs(w.deleteLogs, ID) == 2
    ensures DeleteAccounting.CountInserts(w.statements, ID) == 1
  {
    assert w.deleteLogs[..1][..0] == [] && w.statements[..0] == [];
    assert DeleteAccounting.CountDeleteLogs(w.deleteLogs[..1], ID) == 1;
  }

  /** Two deletes of one message at the same time both log it: the accounting needs handlers one after the other. */
  lemma ConcurrentDeletesBothLog() returns (ls: seq<Label>)
    ensures DeleteAccounting.CountDeleteLogs(Run(ls).w.deleteLogs, ID) == 2
    ensures DeleteAccounting.CountInserts(Run(ls).w.statements, ID) == 1
    ensures forall d | d in Run(ls).handlers :: DeleteAccounting.DeletesFinish(Run(ls).handlers[d])
  {
    ls := CreateFirst();
    ls := ReachesDecide(ls, 1);
    ls := ReachesDecide(ls, 2);
    Decides(ls, 1);
    ls := ls + [Go(1)];
    Decides(ls, 2);
    ls := ls + [Go(2)];
    OneInsertTwoLogs(Run(ls).w);
  }

  lemma ConsumesMark(ls: seq<Label>, d: HandlerId) returns (ls': seq<Label>)
    requires d !in Run(ls).handlers && ID in Run(ls).w.marks
    ensures Run(ls') == System(Run(ls).w.(marks := Run(ls).w.marks - {ID}),
                               Run(ls).handlers[d := OnDelete(DELETE, Deleted(false))])
  {
    var s := Run(ls);
    RunSnoc(ls, Spawn(d, OnDelete(DELETE, CheckMark)));
    ls' := ls + [Spawn(d, OnDelete(DELETE, CheckMark))];
    RunSnoc(ls', Go(d));
    ls' := ls' + [Go(d)];
    assert Run(ls') == System(s.w, s.handlers[d := OnDelete(DELETE, RemoveMark)]);
    RunSnoc(ls', Go(d));
    ls' := ls' + [Go(d)];
  }

  /** A mark serves one delete: a second delete of the trigger before its row is dropped is logged. */
  lemma SecondDeleteLogs() returns (ls: seq<Label>)
    ensures Run(ls).handlers.Keys == {0, 1, 2, 3}
    ensures Run(ls).handlers[1] == OnPKLog(PKLOG, Attributing)
    ensures Run(ls).handlers[2] == OnDelete(DELETE, Deleted(false))
    ensures Run(ls).w.deleteLogs == [DeleteLog(ID, ROW, 1)] && PKLOG.info.original == ID
  {
    ls := CreateFirst();
    var s := Run(ls);
    var marked := s.w.(marks := {ID});
    RunSnoc(ls, Spawn(1, OnPKLog(PKLOG, Marking)));
    ls := ls + [Spawn(1, OnPKLog(PKLOG, Marking))];
    RunSnoc(ls, Go(1));
    ls := ls + [Go(1)];
    assert Run(ls) == System(marked, s.handlers[1 := OnPKLog(PKLOG, Attributing)]);
    ls := ConsumesMark(ls, 2);
    ls := ReachesDecide(ls, 3);
    Decides(ls, 3);
    ls := ls + [Go(3)];
  }

  // ---- concurrent edits ----

  function UpdateTo(content: string): UpdateEnv {
    UpdateEnv(MESSAGE.(content := content), false, Some(CONFIG), TREE, true, true, true, [])
  }

  lemma UpdatePasses(content: string)
    requires content != ""
    ensures UpdateTo(content).Passes() && UpdateTo(content).Target() == Some(1)
  {
    assert RootChannel(TREE, 5) == Some(Channel(5, Plain, 0));
  }

  /** Started while the row is there, the update comes as far as comparing with it. */
  lemma ReachesCompare(ls: seq<Label>, d: HandlerId, content: string) returns (ls': seq<Label>)
    requires d !in Run(ls).handlers && Run(ls).w.table == map[ID := ROW] && content != ""
    ensures Run(ls') == System(Run(ls).w, Run(ls).handlers[d := OnUpdate(UpdateTo(content), Compare(ROW))])
  {
    var s := Run(ls);
    UpdatePasses(content);
    RunSnoc(ls, Spawn(d, OnUpdate(UpdateTo(content), Gates)));
    ls' := ls + [Spawn(d, OnUpdate(UpdateTo(content), Gates))];
    RunSnoc(ls', Go(d));
    ls' := ls' + [Go(d)];
    assert Run(ls') == System(s.w, s.handlers[d := OnUpdate(UpdateTo(content), Read)]);
    RunSnoc(ls', Go(d));
    ls' := ls' + [Go(d)];
  }

  /** Two updates at once: both read "a", and the logs go from "a" to "x" and from "a" to "y". */
  lemma ConcurrentUpdatesFork() returns (ls: seq<Label>)
    ensures Changes(Run(ls).w.updateLogs, ID) == [("a", "x"), ("a", "y")]
  {
    ls := CreateFirst();
    assert Changes([], ID) == [];
    ls := ReachesCompare(ls, 1, "x");
    ls := ReachesCompare(ls, 2, "y");
    UpdatePasses("x");
    UpdatePasses("y");
    TwoOpenFork(ls, ID, 1, 2);
    ls := ls + [Go(1)] + [Go(2)];
  }
}
