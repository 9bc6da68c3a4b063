/** The edit logs of a message over every interleaving in which, while one update of the message is between reading and
    storing, no other handler reads the message for an update, stores it or deletes it. */
module InterleavedEdits {
  import opened Common
  import opened MessageTable
  import opened Lifecycle
  import opened EditLogs

  /** The update has read the message, or found no row, and has still to store it. */
  predicate Open(h: Handler, id: MessageId) {
    h.OnUpdate? && h.upd.message.id == id && (h.upc.Compare? || (h.upc.Store? && h.upd.shouldLog))
  }

  /** The next step reads the message for an update, or is about to store or to delete it. */
  predicate Accesses(h: Handler, id: MessageId) {
    match h
    case OnCreate(e, pc) => e.message.id == id && pc == Saving
    case OnUpdate(e, pc) => e.message.id == id && (pc == Read || pc.Store?)
    case _ => StatementOf(h) == Delete(id)
  }

  /** The label has a handler access the message while another one's update is open. */
  ghost predicate Interferes(s: System, l: Label, id: MessageId) {
    && l.Go? && l.id in s.handlers && Accesses(s.handlers[l.id], id)
    && exists d :: d in s.handlers && d != l.id && Open(s.handlers[d], id)
  }

  /** The create or update that the handler's next step completes. */
  function EditNow(h: Handler, id: MessageId): Option<Edit> {
    if (h.OnCreate? && h.cpc == Saving) || (h.OnUpdate? && h.upc.Store?) then EditOf(h, id) else None
  }

  function EditAt(s: System, l: Label, id: MessageId): Option<Edit> {
    if l.Go? && l.id in s.handlers then EditNow(s.handlers[l.id], id) else None
  }

  /** The creates and updates completed from label n on, in that order. */
  ghost function EditsSince(ls: seq<Label>, n: nat, id: MessageId): seq<Edit>
    requires n <= |ls|
    decreases |ls|
  {
    if n == |ls| then []
    else
      var p := ls[..|ls| - 1];
      var e := EditAt(Run(p), ls[|ls| - 1], id);
      EditsSince(p, n, id) + if e == None then [] else [e.value]
  }

  // ---- one handler ----

  /** An update past its checks has passed them, logs only where logging is on, and compares only what it could read. */
  predicate Proper(h: Handler) {
    h.OnUpdate? && h.upc != Gates && !h.upc.Updated? ==>
      && h.upd.Passes() && (h.upd.shouldLog || h.upc == Store(false)) && (h.upc.Compare? ==> h.upd.getUp)
  }

  lemma StepProper(w: World, h: Handler)
    requires Proper(h)
    ensures Proper(Step(w, h).1)
  {
  }

  /** A log would be sent for this edit of the current content. */
  predicate Announces(e: Edit, current: Option<string>) {
    e.announced && current.Some? && current.value != e.content
  }

  /** What an open update knows about the current content. */
  predicate Fits(h: Handler, id: MessageId, current: Option<string>) {
    Open(h, id) ==>
      match h.upc
      case Compare(before) => current == Some(before.content)
      case Store(logged) => EditOf(h, id).Some? && logged == Announces(EditOf(h, id).value, current)
      case _ => true
  }

  /** The update has sent its log and not yet stored its content. */
  predicate Logged(h: Handler, id: MessageId) {
    Open(h, id) && h.upc == Store(true)
  }

  /** The next step sends an edit log of this message. */
  predicate LogsNow(h: Handler, id: MessageId) {
    && h.OnUpdate? && h.upd.message.id == id && h.upc.Compare?
    && h.upc.before.content != h.upd.message.content && h.upd.Target().Some?
  }

  /** Only completed edits change the stored content, as long as the row is not deleted. */
  lemma StepStored(w: World, h: Handler, id: MessageId)
    requires Proper(h) && (id in w.table ==> id in Step(w, h).0.table)
    ensures var e := EditNow(h, id);
            Stored(Step(w, h).0.table, id) ==
            if e.Some? && e.value.stored then Some(e.value.content) else Stored(w.table, id)
  {
    StepExecutes(w, h);
  }

  lemma StepUpdateLogs(w: World, h: Handler)
    requires h.OnUpdate?
    ensures LogsNow(h, h.upd.message.id) ==>
              Step(w, h).0.updateLogs == w.updateLogs + [h.upd.LogOf(h.upc.before.content, h.upd.Target().value)]
    ensures !LogsNow(h, h.upd.message.id) ==> Step(w, h).0.updateLogs == w.updateLogs
  {
  }

  lemma OthersKeepUpdateLogs(w: World, h: Handler)
    requires !h.OnUpdate?
    ensures Step(w, h).0.updateLogs == w.updateLogs
  {
  }

  lemma StepChanges(w: World, h: Handler, id: MessageId)
    ensures Changes(Step(w, h).0.updateLogs, id) ==
            Changes(w.updateLogs, id)
            + if LogsNow(h, id) then [(h.upc.before.content, h.upd.message.content)] else []
  {
    if !h.OnUpdate? {
      OthersKeepUpdateLogs(w, h);
    } else {
      StepUpdateLogs(w, h);
      if LogsNow(h, h.upd.message.id) {
        ChangesAppend(w.updateLogs, h.upd.LogOf(h.upc.before.content, h.upd.Target().value), id);
      }
    }
  }

  /** An update opens by reading, knowing the stored content, and closes by storing. */
  lemma StepFits(w: World, h: Handler, id: MessageId)
    requires Proper(h) && Fits(h, id, Stored(w.table, id))
    ensures var h' := Step(w, h).1;
            && (Open(h', id) ==> Open(h, id) || Accesses(h, id))
            && (Open(h', id) ==> EditNow(h, id) == None && Fits(h', id, Stored(w.table, id)))
            && (Logged(h', id) <==> LogsNow(h, id))
  {
  }

  lemma EditIsAccess(h: Handler, id: MessageId)
    ensures EditNow(h, id).Some? ==> Accesses(h, id)
    ensures LogsNow(h, id) ==> Open(h, id) && !Accesses(h, id)
  {
  }

  // ---- the whole system ----

  ghost predicate AllProper(s: System) {
    forall d | d in s.handlers :: Proper(s.handlers[d])
  }

  /** Every open update knows the current content, and at most one is open. */
  ghost predicate OpenFits(s: System, id: MessageId) {
    && (forall d | d in s.handlers :: Fits(s.handlers[d], id, Stored(s.w.table, id)))
    && (forall c, d | c in s.handlers && d in s.handlers && Open(s.handlers[c], id) && Open(s.handlers[d], id) ::
          c == d)
  }

  ghost predicate NoneLogged(s: System, id: MessageId) {
    forall d | d in s.handlers :: !Logged(s.handlers[d], id)
  }

  /** The log whose content has still to be stored, of handler d if it has logged. */
  ghost function Ahead(s: System, d: HandlerId, id: MessageId): seq<(string, string)>
    requires d in s.handlers
  {
    if Logged(s.handlers[d], id) && id in s.w.table then
      [(s.w.table[id].content, s.handlers[d].upd.message.content)]
    else []
  }

  /** The table holds what the story tells, and the logs are the story's changes, with at most one log ahead of it. */
  ghost predicate Telling(s: System, id: MessageId, told: Story) {
    && told.current == Stored(s.w.table, id)
    && (NoneLogged(s, id) ==> Changes(s.w.updateLogs, id) == told.changes)
    && (forall d | d in s.handlers && Logged(s.handlers[d], id) ::
          Changes(s.w.updateLogs, id) == told.changes + Ahead(s, d, id))
  }

  ghost function After(told: Story, e: Option<Edit>): Story {
    if e == None then told else Tell(told, e.value)
  }

  ghost predicate Invariant(s: System, id: MessageId, told: Story) {
    AllProper(s) && OpenFits(s, id) && Telling(s, id, told)
  }

  lemma GoFits(s: System, d: HandlerId, id: MessageId)
    requires d in s.handlers && AllProper(s) && OpenFits(s, id) && !Interferes(s, Go(d), id)
    requires id in s.w.table ==> id in Next(s, Go(d)).w.table
    ensures AllProper(Next(s, Go(d))) && OpenFits(Next(s, Go(d)), id)
  {
    var t, h := Next(s, Go(d)), s.handlers[d];
    assert Proper(h) && Fits(h, id, Stored(s.w.table, id));
    StepProper(s.w, h);
    StepStored(s.w, h, id);
    StepFits(s.w, h, id);
    EditIsAccess(h, id);
    forall c | c in t.handlers ensures Proper(t.handlers[c]) && Fits(t.handlers[c], id, Stored(t.w.table, id)) {
      assert Proper(s.handlers[c]) && Fits(s.handlers[c], id, Stored(s.w.table, id));
    }
  }

  /** A log comes when nothing is ahead, of the current content. */
  lemma LogTells(s: System, d: HandlerId, id: MessageId, told: Story)
    requires d in s.handlers && Invariant(s, id, told) && LogsNow(s.handlers[d], id)
    requires id in s.w.table ==> id in Next(s, Go(d)).w.table
    ensures Telling(Next(s, Go(d)), id, told) && EditNow(s.handlers[d], id) == None
  {
    var t, h := Next(s, Go(d)), s.handlers[d];
    assert Proper(h) && Fits(h, id, Stored(s.w.table, id)) && !Logged(h, id);
    forall c | c in s.handlers ensures !Logged(s.handlers[c], id) {
    }
    StepStored(s.w, h, id);
    StepChanges(s.w, h, id);
    StepFits(s.w, h, id);
    assert Logged(t.handlers[d], id) && Stored(s.w.table, id) == Some(h.upc.before.content);
    assert Ahead(t, d, id) == [(h.upc.before.content, h.upd.message.content)];
    assert forall c | c in t.handlers && c != d :: t.handlers[c] == s.handlers[c];
  }

  /** An edit is completed when nothing but its own log is ahead. */
  lemma EditTells(s: System, d: HandlerId, id: MessageId, told: Story)
    requires d in s.handlers && Invariant(s, id, told) && !Interferes(s, Go(d), id)
    requires EditNow(s.handlers[d], id).Some?
    requires id in s.w.table ==> id in Next(s, Go(d)).w.table
    ensures Telling(Next(s, Go(d)), id, Tell(told, EditNow(s.handlers[d], id).value))
  {
    var t, h := Next(s, Go(d)), s.handlers[d];
    var e := EditNow(h, id).value;
    assert Proper(h) && Fits(h, id, Stored(s.w.table, id));
    EditIsAccess(h, id);
    StepStored(s.w, h, id);
    StepChanges(s.w, h, id);
    StepFits(s.w, h, id);
    assert Logged(h, id) <==> Announces(e, told.current);
    forall c | c in t.handlers ensures !Logged(t.handlers[c], id) {
      assert c != d ==> t.handlers[c] == s.handlers[c];
    }
    if !Logged(h, id) {
      forall c | c in s.handlers ensures !Logged(s.handlers[c], id) {
      }
    }
  }

  /** Any other step leaves contents, logs and what is ahead. */
  lemma QuietTells(s: System, d: HandlerId, id: MessageId, told: Story)
    requires d in s.handlers && Invariant(s, id, told)
    requires EditNow(s.handlers[d], id) == None && !LogsNow(s.handlers[d], id)
    requires id in s.w.table ==> id in Next(s, Go(d)).w.table
    ensures Telling(Next(s, Go(d)), id, told)
  {
    var t, h := Next(s, Go(d)), s.handlers[d];
    assert Proper(h) && Fits(h, id, Stored(s.w.table, id));
    StepStored(s.w, h, id);
    StepChanges(s.w, h, id);
    StepFits(s.w, h, id);
    assert !Logged(h, id) && !Logged(t.handlers[d], id);
    assert forall c | c in t.handlers && c != d :: t.handlers[c] == s.handlers[c];
    if NoneLogged(t, id) {
      forall c | c in s.handlers ensures !Logged(s.handlers[c], id) {
        assert c != d ==> t.handlers[c] == s.handlers[c];
      }
    }
    forall c | c in t.handlers && Logged(t.handlers[c], id)
      ensures Changes(t.w.updateLogs, id) == told.changes + Ahead(t, c, id)
    {
      assert Changes(s.w.updateLogs, id) == told.changes + Ahead(s, c, id);
    }
  }

  lemma SpawnTells(s: System, l: Label, id: MessageId, told: Story)
    requires Invariant(s, id, told) && l.Spawn? && Next(s, l) != s
    ensures Invariant(Next(s, l), id, told)
  {
    var t := Next(s, l);
    assert !Open(l.h, id) && Proper(l.h);
    assert forall c | c in t.handlers :: t.handlers[c] == if c == l.id then l.h else s.handlers[c];
    forall c | c in t.handlers ensures Proper(t.handlers[c]) && Fits(t.handlers[c], id, Stored(t.w.table, id)) {
      assert c != l.id ==> Proper(s.handlers[c]) && Fits(s.handlers[c], id, Stored(s.w.table, id));
    }
    if NoneLogged(t, id) {
      forall c | c in s.handlers ensures !Logged(s.handlers[c], id) {
        assert t.handlers[c] == s.handlers[c];
      }
    }
    forall c | c in t.handlers && Logged(t.handlers[c], id)
      ensures Changes(t.w.updateLogs, id) == told.changes + Ahead(t, c, id)
    {
      assert Changes(s.w.updateLogs, id) == told.changes + Ahead(s, c, id);
    }
  }

  lemma StepTells(s: System, l: Label, id: MessageId, told: Story)
    requires Invariant(s, id, told) && !Interferes(s, l, id)
    requires id in s.w.table ==> id in Next(s, l).w.table
    ensures Invariant(Next(s, l), id, After(told, EditAt(s, l, id)))
  {
    var t := Next(s, l);
    if l.Go? && l.id in s.handlers {
      GoFits(s, l.id, id);
      if LogsNow(s.handlers[l.id], id) {
        LogTells(s, l.id, id, told);
      } else if EditNow(s.handlers[l.id], id).Some? {
        EditTells(s, l.id, id, told);
      } else {
        QuietTells(s, l.id, id, told);
      }
    } else if t != s {
      SpawnTells(s, l, id, told);
    }
  }

  // ---- whole runs ----

  /** From label n on, no handler accesses the message while another one's update of it is open. */
  ghost predicate TakeTurns(ls: seq<Label>, n: nat, id: MessageId)
    requires n <= |ls|
    decreases |ls|
  {
    n < |ls| ==> TakeTurns(ls[..|ls| - 1], n, id) && !Interferes(Run(ls[..|ls| - 1]), ls[|ls| - 1], id)
  }

  /** From label n on, no handler deletes a stored row of the message. */
  ghost predicate KeepsRow(ls: seq<Label>, n: nat, id: MessageId)
    requires n <= |ls|
    decreases |ls|
  {
    n < |ls| ==>
      && KeepsRow(ls[..|ls| - 1], n, id)
      && (id in Run(ls[..|ls| - 1]).w.table ==> id in Run(ls).w.table)
  }

  ghost predicate NoneOpen(s: System, id: MessageId) {
    forall d | d in s.handlers :: !Open(s.handlers[d], id)
  }

  lemma {:induction false} RunProper(ls: seq<Label>)
    ensures AllProper(Run(ls))
  {
    if ls != [] {
      var s, l := Run(ls[..|ls| - 1]), ls[|ls| - 1];
      RunProper(ls[..|ls| - 1]);
      if l.Go? && l.id in s.handlers {
        StepProper(s.w, s.handlers[l.id]);
      }
    }
  }

  lemma {:induction false} RunTells(ls: seq<Label>, n: nat, id: MessageId)
    requires n <= |ls| && NoneOpen(Run(ls[..n]), id) && TakeTurns(ls, n, id) && KeepsRow(ls, n, id)
    ensures Invariant(Run(ls), id, Told(StoryOf(Run(ls[..n]).w, id), EditsSince(ls, n, id)))
    decreases |ls|
  {
    if n == |ls| {
      assert ls[..n] == ls;
      RunProper(ls);
    } else {
      var p, l := ls[..|ls| - 1], ls[|ls| - 1];
      var start := StoryOf(Run(ls[..n]).w, id);
      assert p[..n] == ls[..n];
      RunTells(p, n, id);
      StepTells(Run(p), l, id, Told(start, EditsSince(p, n, id)));
      var e := EditAt(Run(p), l, id);
      assert e.Some? ==> (EditsSince(p, n, id) + [e.value])[..|EditsSince(p, n, id)|] == EditsSince(p, n, id);
      assert EditsSince(p, n, id) + [] == EditsSince(p, n, id);
    }
  }

  /** In every interleaving that takes turns, between deletions, the stored content is what the simple model tells of
      the creates and updates completed so far, and so are the edit logs, but for at most one log whose content is about
      to be stored. */
  lemma InterleavedEditsTell(ls: seq<Label>, n: nat, id: MessageId)
    requires n <= |ls| && NoneOpen(Run(ls[..n]), id) && TakeTurns(ls, n, id) && KeepsRow(ls, n, id)
    ensures var told := Told(StoryOf(Run(ls[..n]).w, id), EditsSince(ls, n, id));
            && Stored(Run(ls).w.table, id) == told.current
            && (NoneLogged(Run(ls), id) ==> StoryOf(Run(ls).w, id) == told)
            && (forall d | d in Run(ls).handlers && Logged(Run(ls).handlers[d], id) ::
                  Changes(Run(ls).w.updateLogs, id) == told.changes + Ahead(Run(ls), d, id))
  {
    RunTells(ls, n, id);
  }

  /** So, while no update is between its log and its store, the logs since a message was stored form a chain from that
      content to the content stored now, if every update completed since succeeds and may be announced, and no create of
      the message completes again. */
  lemma InterleavedEditsFormChain(ls: seq<Label>, n: nat, id: MessageId)
    requires n <= |ls| && NoneOpen(Run(ls[..n]), id) && TakeTurns(ls, n, id) && KeepsRow(ls, n, id)
    requires id in Run(ls[..n]).w.table && NoneLogged(Run(ls), id)
    requires forall e | e in EditsSince(ls, n, id) :: e.announced && e.stored
    ensures id in Run(ls).w.table
    ensures var before, after := Run(ls[..n]).w, Run(ls).w;
            var start, logged := Changes(before.updateLogs, id), Changes(after.updateLogs, id);
            var es := EditsSince(ls, n, id);
            && start <= logged && Linked(before.table[id].content, logged[|start|..], after.table[id].content)
            && (es != [] ==> after.table[id].content == es[|es| - 1].content)
  {
    InterleavedEditsTell(ls, n, id);
    var before := Run(ls[..n]).w;
    ToldIsLinked(before.table[id].content, Changes(before.updateLogs, id), EditsSince(ls, n, id));
  }

  // ---- what happens without turns ----

  lemma LoggingStep(ls: seq<Label>, d: HandlerId, id: MessageId)
    requires d in Run(ls).handlers && LogsNow(Run(ls).handlers[d], id)
    ensures var h := Run(ls).handlers[d];
            && Changes(Run(ls + [Go(d)]).w.updateLogs, id)
               == Changes(Run(ls).w.updateLogs, id) + [(h.upc.before.content, h.upd.message.content)]
            && forall c | c in Run(ls).handlers && c != d ::
                 c in Run(ls + [Go(d)]).handlers && Run(ls + [Go(d)]).handlers[c] == Run(ls).handlers[c]
  {
    RunSnoc(ls, Go(d));
    StepChanges(Run(ls).w, Run(ls).handlers[d], id);
  }

  /** Whatever the interleaving, a log about to be sent continues the chain of the message's logs exactly when the
      content its handler read is the one at which the last log ended. */
  lemma LogLinksIff(ls: seq<Label>, d: HandlerId, id: MessageId, from: string, to: string)
    requires d in Run(ls).handlers && LogsNow(Run(ls).handlers[d], id)
    requires Changes(Run(ls).w.updateLogs, id) != [] && Linked(from, Changes(Run(ls).w.updateLogs, id), to)
    ensures var h := Run(ls).handlers[d];
            Linked(from, Changes(Run(ls + [Go(d)]).w.updateLogs, id), h.upd.message.content)
            <==> h.upc.before.content == to
  {
    var h, logged := Run(ls).handlers[d], Changes(Run(ls).w.updateLogs, id);
    LoggingStep(ls, d, id);
    var longer := logged + [(h.upc.before.content, h.upd.message.content)];
    assert longer[|logged| - 1] == logged[|logged| - 1] && longer[0] == logged[0];
    assert forall i | 0 <= i < |logged| :: longer[i] == logged[i];
  }

  /** Two updates that have read the same content and will both log it fork the chain: the second log starts where the
      first started, not where it ended. */
  lemma TwoOpenFork(ls: seq<Label>, id: MessageId, c: HandlerId, d: HandlerId)
    requires c in Run(ls).handlers && d in Run(ls).handlers && c != d
    requires LogsNow(Run(ls).handlers[c], id) && LogsNow(Run(ls).handlers[d], id)
    requires Run(ls).handlers[c].upc.before.content == Run(ls).handlers[d].upc.before.content
    ensures var from := Run(ls).handlers[c].upc.before.content;
            var fork := [(from, Run(ls).handlers[c].upd.message.content),
                         (from, Run(ls).handlers[d].upd.message.content)];
            && Changes(Run(ls + [Go(c)] + [Go(d)]).w.updateLogs, id) == Changes(Run(ls).w.updateLogs, id) + fork
            && forall start, to :: !Linked(start, fork, to)
  {
    LoggingStep(ls, c, id);
    LoggingStep(ls + [Go(c)], d, id);
  }
}
