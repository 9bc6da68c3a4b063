/** What the edit logs of a message tell: with handlers that run one after the other, they are the changes of its stored
    content, in order. */
module EditLogs {
  import opened Common
  import opened MessageTable
  import opened Routing
  import opened Lifecycle
  import opened AtomicRuns
  import ContentSplit

  // ---- the simple model ----

  /** A create or update that reaches the table; announced when a log would be sent for a change. */
  datatype Edit = Edit(content: string, announced: bool, stored: bool)

  datatype Story = Story(current: Option<string>, changes: seq<(string, string)>)

  function Tell(s: Story, e: Edit): Story {
    Story(
      if e.stored then Some(e.content) else s.current,
      if e.announced && s.current.Some? && s.current.value != e.content then s.changes + [(s.current.value, e.content)]
      else s.changes)
  }

  function Told(s: Story, es: seq<Edit>): Story {
    if es == [] then s else Tell(Told(s, es[..|es| - 1]), es[|es| - 1])
  }

  function EditOf(h: Handler, id: MessageId): Option<Edit> {
    match h
    case OnCreate(e, _) =>
      if e.message.id == id && e.Saves() then Some(Edit(OrNone(e.message.content), false, e.insertUp)) else None
    case OnUpdate(e, _) =>
      if e.message.id == id && e.Passes() then
        Some(Edit(e.message.content, e.shouldLog && e.getUp && e.Target().Some?, e.insertUp))
      else None
    case _ => None
  }

  /** Read off the environment: an edit counts when guild, author and content are there, edit logs are on and its
      channel is placed with nothing on the path ignored; it is announced when it has a receiver and its old content can
      be read. */
  lemma UpdateEditOnTree(e: UpdateEnv, pc: UpdatePc, id: MessageId)
    requires Layered(e.tree)
    ensures EditOf(OnUpdate(e, pc), id) ==
            if && e.message.id == id && IsValid(e.message.guild) && IsValid(e.message.user) && e.message.content != ""
               && !e.ignored && e.config.Some? && IsValid(e.config.value.updateLog)
               && Placed(e.tree, e.message.channel)
               && !SuppressedOn(e.config.value, Ancestors(e.tree, e.message.channel), e.message.user)
            then
              var path := Ancestors(e.tree, e.message.channel);
              Some(Edit(e.message.content,
                        && e.shouldLog && e.getUp
                        && IsValid(FirstRedirect(e.config.value, e.config.value.updateLog, path)),
                        e.insertUp))
            else None
  {
    if e.config.Some? {
      var cfg := e.config.value;
      DestinationFollowsTree(cfg, cfg.updateLog, e.tree, e.message.channel, e.message.user);
      if RootChannel(e.tree, e.message.channel).Some? {
        HandlersFollowTree(cfg, cfg.updateLog, e.tree, e.message.channel, e.message.user);
      }
    }
  }

  /** A new message counts when its guild is valid and any kind of message log is on. */
  lemma CreateEdit(e: CreateEnv, pc: CreatePc, id: MessageId)
    ensures EditOf(OnCreate(e, pc), id) ==
            if && e.message.id == id && IsValid(e.message.guild) && e.config.Some?
               && !(!IsValid(e.config.value.updateLog) && !IsValid(e.config.value.deleteLog)
                    && !IsValid(e.config.value.bulkDeleteLog))
            then Some(Edit(if e.message.content == "" then "None" else e.message.content, false, e.insertUp))
            else None
  {
  }

  function Edits(hs: seq<Handler>, id: MessageId): seq<Edit> {
    if hs == [] then []
    else
      var e := EditOf(hs[|hs| - 1], id);
      Edits(hs[..|hs| - 1], id) + if e.Some? then [e.value] else []
  }

  // ---- the same, read off the handlers' world ----

  function Changes(logs: seq<UpdateLog>, id: MessageId): seq<(string, string)> {
    if logs == [] then []
    else
      var l := logs[|logs| - 1];
      Changes(logs[..|logs| - 1], id) + if l.id == id then [(l.before, l.after)] else []
  }

  function Stored(t: Table, id: MessageId): Option<string> {
    if id in t then Some(t[id].content) else None
  }

  function StoryOf(w: World, id: MessageId): Story {
    Story(Stored(w.table, id), Changes(w.updateLogs, id))
  }

  lemma ChangesAppend(logs: seq<UpdateLog>, l: UpdateLog, id: MessageId)
    ensures Changes(logs + [l], id) == Changes(logs, id) + if l.id == id then [(l.before, l.after)] else []
  {
  }

  // ---- one handler, run to its end ----

  lemma CompleteCreate(w: World, e: CreateEnv)
    ensures Complete(w, OnCreate(e, Saving)) ==
            if e.Saves() && e.insertUp then
              var w' := Exec(w, Insert(e.message));
              if e.proxied then w'.(handled := w'.handled - {e.message.id}) else w'
            else w
  {
    var (w1, h1) := Step(w, OnCreate(e, Saving));
    if h1 == OnCreate(e, Checking) {
      assert Complete(w1, h1) == Complete(Step(w1, h1).0, Step(w1, h1).1);
    }
  }

  lemma CompleteStore(w: World, e: UpdateEnv, logged: bool)
    ensures Complete(w, OnUpdate(e, Store(logged))) == Exec(w, if e.insertUp then Insert(e.message) else Nothing)
  {
    var (w1, h1) := Step(w, OnUpdate(e, Store(logged)));
    assert Complete(w1, h1) == w1;
  }

  /** The log an update sends, run alone. */
  function LogSentBy(w: World, e: UpdateEnv): seq<UpdateLog> {
    var id := e.message.id;
    if && e.shouldLog && e.getUp && id in w.table && w.table[id].content != e.message.content && e.Target().Some?
    then [e.LogOf(w.table[id].content, e.Target().value)]
    else []
  }

  lemma CompleteRead(w: World, e: UpdateEnv)
    requires e.shouldLog
    ensures Complete(w, OnUpdate(e, Read)) ==
            Exec(w.(updateLogs := w.updateLogs + LogSentBy(w, e)), if e.insertUp then Insert(e.message) else Nothing)
  {
    assert w.updateLogs + [] == w.updateLogs;
    var h := OnUpdate(e, Read);
    var (w1, h1) := Step(w, h);
    assert Complete(w, h) == Complete(w1, h1);
    if h1.upc.Compare? {
      var (w2, h2) := Step(w1, h1);
      assert Complete(w1, h1) == Complete(w2, h2);
      CompleteStore(w2, e, h2.upc.logged);
    } else {
      CompleteStore(w1, e, h1.upc.logged);
    }
  }

  lemma CompleteUpdate(w: World, e: UpdateEnv)
    ensures Complete(w, OnUpdate(e, Gates)) ==
            if e.Passes() then
              Exec(w.(updateLogs := w.updateLogs + LogSentBy(w, e)), if e.insertUp then Insert(e.message) else Nothing)
            else w
  {
    assert w.updateLogs + [] == w.updateLogs;
    var h := OnUpdate(e, Gates);
    var (w1, h1) := Step(w, h);
    assert Complete(w, h) == Complete(w1, h1);
    if h1.upc == Read {
      CompleteRead(w1, e);
    } else if h1.upc.Store? {
      CompleteStore(w1, e, false);
    }
  }

  /** Delete and PluralKit handlers send no edit log and only remove rows, or change them but for the content. */
  lemma StepKeepsContent(w: World, h: Handler, id: MessageId)
    requires h.OnDelete? || h.OnPKLog?
    ensures Step(w, h).0.updateLogs == w.updateLogs
    ensures id in Step(w, h).0.table ==> id in w.table && Step(w, h).0.table[id].content == w.table[id].content
    ensures Step(w, h).1.OnDelete? || Step(w, h).1.OnPKLog?
  {
  }

  lemma {:induction false} CompleteKeepsContent(w: World, h: Handler, id: MessageId)
    requires h.OnDelete? || h.OnPKLog?
    ensures Complete(w, h).updateLogs == w.updateLogs
    ensures id in Complete(w, h).table ==> id in w.table && Complete(w, h).table[id].content == w.table[id].content
    decreases StepsLeft(h)
  {
    if StepsLeft(h) > 0 {
      StepKeepsContent(w, h, id);
      StepShortens(w, h);
      CompleteKeepsContent(Step(w, h).0, Step(w, h).1, id);
    }
  }

  lemma UpdateTells(w: World, e: UpdateEnv, id: MessageId)
    ensures StoryOf(Complete(w, OnUpdate(e, Gates)), id) ==
            var edit := EditOf(OnUpdate(e, Gates), id);
            if edit == None then StoryOf(w, id) else Tell(StoryOf(w, id), edit.value)
  {
    CompleteUpdate(w, e);
    var logs := LogSentBy(w, e);
    if logs == [] {
      assert w.updateLogs + logs == w.updateLogs;
    } else {
      ChangesAppend(w.updateLogs, logs[0], id);
    }
  }

  /** One handler tells its edit and nothing else, unless it deletes the row. */
  lemma HandlerTells(w: World, h: Handler, id: MessageId)
    requires Initial(h) && (id in w.table ==> id in Complete(w, h).table)
    ensures StoryOf(Complete(w, h), id) ==
            var edit := EditOf(h, id); if edit == None then StoryOf(w, id) else Tell(StoryOf(w, id), edit.value)
  {
    match h {
      case OnCreate(e, _) => CompleteCreate(w, e);
      case OnUpdate(e, _) => UpdateTells(w, e, id);
      case _ => CompleteKeepsContent(w, h, id);
    }
  }

  // ---- whole runs ----

  /** From n on, no handler deletes a stored row of this message. */
  ghost predicate NotDeleted(hs: seq<Handler>, n: nat, id: MessageId)
    requires n <= |hs|
  {
    forall k | n <= k < |hs| :: id in RunAtomic(hs[..k]).table ==> id in RunAtomic(hs[..k + 1]).table
  }

  lemma NotDeletedBefore(hs: seq<Handler>, n: nat, id: MessageId)
    requires n < |hs| && NotDeleted(hs, n, id)
    ensures NotDeleted(hs[..|hs| - 1], n, id)
    ensures id in RunAtomic(hs[..|hs| - 1]).table ==> id in RunAtomic(hs).table
  {
    var p := hs[..|hs| - 1];
    assert hs[..|hs|] == hs;
    forall k | n <= k < |p|
      ensures id in RunAtomic(p[..k]).table ==> id in RunAtomic(p[..k + 1]).table
    {
      assert p[..k] == hs[..k] && p[..k + 1] == hs[..k + 1];
    }
  }

  lemma EditsSnoc(hs: seq<Handler>, n: nat, id: MessageId)
    requires n < |hs|
    ensures var p, e := hs[..|hs| - 1], EditOf(hs[|hs| - 1], id);
            forall s :: Told(s, Edits(hs[n..], id)) ==
                        if e == None then Told(s, Edits(p[n..], id)) else Tell(Told(s, Edits(p[n..], id)), e.value)
  {
    var p := hs[..|hs| - 1];
    assert hs[n..][..|hs| - n - 1] == p[n..];
    var es := Edits(p[n..], id);
    forall e: Edit ensures (es + [e])[..|es|] == es {
    }
    assert es + [] == es;
  }

  /** Between deletions, the edit logs of a message and its stored content are exactly what the simple model tells of
      its creates and updates: a log for each announced change, none for an edit that changes nothing. */
  lemma {:induction false} EditLogsTellChanges(hs: seq<Handler>, n: nat, id: MessageId)
    requires n <= |hs| && (forall h | h in hs :: Initial(h)) && NotDeleted(hs, n, id)
    ensures StoryOf(RunAtomic(hs), id) == Told(StoryOf(RunAtomic(hs[..n]), id), Edits(hs[n..], id))
    decreases |hs|
  {
    if n == |hs| {
      assert hs[..n] == hs && hs[n..] == [];
    } else {
      var p, h := hs[..|hs| - 1], hs[|hs| - 1];
      forall k | n <= k < |hs| ensures p[..k] == hs[..k] {
      }
      NotDeletedBefore(hs, n, id);
      EditLogsTellChanges(p, n, id);
      assert p == hs[..|hs| - 1] && hs[..|hs|] == hs;
      HandlerTells(RunAtomic(p), h, id);
      EditsSnoc(hs, n, id);
    }
  }

  /** Each change starts where the one before ended, and really is one. */
  ghost predicate Linked(from: string, changes: seq<(string, string)>, to: string) {
    && (changes == [] ==> from == to)
    && (changes != [] ==> changes[0].0 == from && changes[|changes| - 1].1 == to)
    && (forall i | 0 <= i < |changes| :: changes[i].0 != changes[i].1)
    && (forall i | 0 < i < |changes| :: changes[i].0 == changes[i - 1].1)
  }

  lemma LinkOneMore(from: string, changes: seq<(string, string)>, to: string, next: string)
    requires Linked(from, changes, to) && to != next
    ensures Linked(from, changes + [(to, next)], next)
  {
  }

  lemma {:induction false} ToldIsLinked(c: string, before: seq<(string, string)>, es: seq<Edit>)
    requires forall e | e in es :: e.announced && e.stored
    ensures var s := Told(Story(Some(c), before), es);
            && s.current == Some(if es == [] then c else es[|es| - 1].content)
            && before <= s.changes && Linked(c, s.changes[|before|..], s.current.value)
  {
    if es != [] {
      var e := es[|es| - 1];
      ToldIsLinked(c, before, es[..|es| - 1]);
      var s := Told(Story(Some(c), before), es[..|es| - 1]);
      assert e in es;
      if s.current.value != e.content {
        LinkOneMore(c, s.changes[|before|..], s.current.value, e.content);
      }
      assert s.current.value != e.content ==>
          (s.changes + [(s.current.value, e.content)])[|before|..]
          == s.changes[|before|..] + [(s.current.value, e.content)];
    }
  }

  /** A stored message that is not deleted and whose every later edit succeeds and may be announced has a chain of logs:
      the first starts at the content stored then, each next one where the last ended, and the last ends at the content
      that is stored now, which is the last edit's. */
  lemma EditLogsFormChain(hs: seq<Handler>, n: nat, id: MessageId)
    requires n <= |hs| && (forall h | h in hs :: Initial(h)) && NotDeleted(hs, n, id)
    requires id in RunAtomic(hs[..n]).table
    requires forall e | e in Edits(hs[n..], id) :: e.announced && e.stored
    ensures id in RunAtomic(hs).table
    ensures var before, after := RunAtomic(hs[..n]), RunAtomic(hs);
            var logged, es := Changes(after.updateLogs, id), Edits(hs[n..], id);
            var start := Changes(before.updateLogs, id);
            && start <= logged
            && Linked(before.table[id].content, logged[|start|..], after.table[id].content)
            && (es != [] ==> after.table[id].content == es[|es| - 1].content)
  {
    EditLogsTellChanges(hs, n, id);
    var before := RunAtomic(hs[..n]);
    ToldIsLinked(before.table[id].content, Changes(before.updateLogs, id), Edits(hs[n..], id));
  }

  // ---- what an edit log shows, in any interleaving ----

  /** The log is one an update sends after its checks, about a changed content and to a valid channel. */
  ghost predicate Honest(l: UpdateLog, e: UpdateEnv) {
    && e.Passes() && e.shouldLog && e.Target().Some?
    && l.before != l.after && l == e.LogOf(l.before, e.Target().value)
  }

  predicate PastGates(h: Handler) {
    h.OnUpdate? && (h.upc.Read? || h.upc.Compare?)
  }

  /** Handlers past the checks have passed them. */
  ghost predicate Checked(s: System) {
    forall d | d in s.handlers && PastGates(s.handlers[d]) ::
      s.handlers[d].upd.Passes() && s.handlers[d].upd.shouldLog
  }

  lemma StepChecked(w: World, h: Handler)
    requires PastGates(h) ==> h.upd.Passes() && h.upd.shouldLog
    ensures var h' := Step(w, h).1; PastGates(h') ==> h'.upd.Passes() && h'.upd.shouldLog
  {
  }

  /** Only an update that has found the stored content to differ sends an edit log, of that content. */
  lemma StepHonest(w: World, h: Handler)
    requires PastGates(h) ==> h.upd.Passes() && h.upd.shouldLog
    ensures var logs := Step(w, h).0.updateLogs;
            logs == w.updateLogs
            || (|logs| == |w.updateLogs| + 1 && logs[..|w.updateLogs|] == w.updateLogs
                && h.OnUpdate? && h.upc.Compare? && Honest(logs[|w.updateLogs|], h.upd)
                && logs[|w.updateLogs|].before == h.upc.before.content)
  {
  }

  lemma {:induction false} RunChecked(ls: seq<Label>)
    ensures Checked(Run(ls))
  {
    if ls != [] {
      var s, l := Run(ls[..|ls| - 1]), ls[|ls| - 1];
      RunChecked(ls[..|ls| - 1]);
      if l.Go? && l.id in s.handlers {
        StepChecked(s.w, s.handlers[l.id]);
      }
    }
  }

  /** Label i is the step in which this update reads the row from the table. */
  ghost predicate ReadAt(ls: seq<Label>, i: nat, d: HandlerId, e: UpdateEnv, row: Row) {
    && i < |ls| && ls[i] == Go(d)
    && var s := Run(ls[..i]);
    && d in s.handlers && s.handlers[d] == OnUpdate(e, Read)
    && e.message.id in s.w.table && s.w.table[e.message.id] == row
  }

  lemma ReadAtLonger(ls: seq<Label>, l: Label, i: nat, d: HandlerId, e: UpdateEnv, row: Row)
    requires ReadAt(ls, i, d, e, row)
    ensures ReadAt(ls + [l], i, d, e, row)
  {
    assert (ls + [l])[..i] == ls[..i];
  }

  lemma NewlyRead(ls: seq<Label>, d: HandlerId, e: UpdateEnv)
    requires d in Run(ls).handlers && Run(ls).handlers[d] == OnUpdate(e, Read) && e.message.id in Run(ls).w.table
    ensures ReadAt(ls + [Go(d)], |ls|, d, e, Run(ls).w.table[e.message.id])
  {
    assert (ls + [Go(d)])[..|ls|] == ls;
  }

  /** An update that compares has read what it compares with. */
  lemma {:induction false} ReadOf(ls: seq<Label>, d: HandlerId) returns (i: nat)
    requires d in Run(ls).handlers && Run(ls).handlers[d].OnUpdate? && Run(ls).handlers[d].upc.Compare?
    ensures ReadAt(ls, i, d, Run(ls).handlers[d].upd, Run(ls).handlers[d].upc.before)
  {
    var h := Run(ls).handlers[d];
    var p, l := ls[..|ls| - 1], ls[|ls| - 1];
    assert ls == p + [l];
    if d in Run(p).handlers && Run(p).handlers[d] == h {
      i := ReadOf(p, d);
      ReadAtLonger(p, l, i, d, h.upd, h.upc.before);
    } else {
      i := |p|;
      NewlyRead(p, d, h.upd);
    }
  }

  lemma {:induction false} RunHonest(ls: seq<Label>, k: nat) returns (d: HandlerId, e: UpdateEnv, i: nat, row: Row)
    requires k < |Run(ls).w.updateLogs|
    ensures Honest(Run(ls).w.updateLogs[k], e)
    ensures ReadAt(ls, i, d, e, row) && row.content == Run(ls).w.updateLogs[k].before
  {
    var p, l := ls[..|ls| - 1], ls[|ls| - 1];
    assert ls == p + [l];
    var s := Run(p);
    RunChecked(p);
    if l.Go? && l.id in s.handlers {
      StepHonest(s.w, s.handlers[l.id]);
    }
    if k < |s.w.updateLogs| {
      d, e, i, row := RunHonest(p, k);
    } else {
      d := l.id;
      e, row := s.handlers[d].upd, s.handlers[d].upc.before;
      i := ReadOf(p, d);
    }
    ReadAtLonger(p, l, i, d, e, row);
  }

  /** An edit log carries files exactly when one of its texts has 2000 characters or more, and then both in full. */
  lemma LogsCarryFilesIff(ls: seq<Label>, k: nat)
    requires k < |Run(ls).w.updateLogs|
    ensures var l := Run(ls).w.updateLogs[k];
            && (l.files == [] <==> |l.before| < 2000 && |l.after| < 2000)
            && (l.files != [] ==> |l.files| == 2 && l.files[0].content == l.before && l.files[1].content == l.after)
  {
    var d, e, i, row := RunHonest(ls, k);
  }

  /** Every edit log, in any interleaving, is about a real change: its old text is the content its handler read from the
      table, and its new text, the event's, is another. Fields and files determine both texts exactly; on a layered tree
      nothing above its channel is ignored, and it went to the first redirect above. */
  lemma EditLogsAreFaithful(ls: seq<Label>, k: nat) returns (d: HandlerId, e: UpdateEnv, i: nat, row: Row)
    requires k < |Run(ls).w.updateLogs|
    ensures ReadAt(ls, i, d, e, row)
    ensures var l := Run(ls).w.updateLogs[k];
            && l.id == e.message.id && l.before == row.content && l.after == e.message.content && l.before != l.after
            && (ContentSplit.Others(e.rest) ==> ContentSplit.Decode(l.fields, l.files) == (l.before, l.after))
    ensures e.config.Some?
    ensures Layered(e.tree) ==>
              var path := Ancestors(e.tree, e.message.channel);
              && !SuppressedOn(e.config.value, path, e.message.user)
              && Run(ls).w.updateLogs[k].dest == FirstRedirect(e.config.value, e.config.value.updateLog, path)
  {
    d, e, i, row := RunHonest(ls, k);
    var l := Run(ls).w.updateLogs[k];
    if ContentSplit.Others(e.rest) {
      ContentSplit.SplitIsLossless(l.before, l.after, e.rest);
    }
    if Layered(e.tree) {
      HandlersFollowTree(e.config.value, e.config.value.updateLog, e.tree, e.message.channel, e.message.user);
    }
  }
}
