/** The message handlers (logging/messages) as steps over the shared table and sets: each step touches shared state
    once, and any interleaving of steps is a run. Everything a handler learns from elsewhere is part of its environment.
    */
module Lifecycle {
  import opened Common
  import opened MessageTable
  import opened Routing
  import Embeds
  import ContentSplit

  datatype DeleteLog = DeleteLog(id: MessageId, row: Row, dest: ChannelId)

  datatype UpdateLog = UpdateLog(id: MessageId, before: string, after: string, dest: ChannelId,
                                 fields: seq<Embeds.Field>, files: seq<Embeds.File>)

  /** What the handlers share, with the statements executed and the logs sent so far. */
  datatype World = World(table: Table, statements: seq<Statement>, marks: set<MessageId>, handled: set<MessageId>,
                         deleteLogs: seq<DeleteLog>, updateLogs: seq<UpdateLog>)

  const EMPTY: World := World(map[], [], {}, {}, [], [])

  function Exec(w: World, s: Statement): World {
    if s == Nothing then w else w.(table := Execute(w.table, s), statements := w.statements + [s])
  }

  function Destination(cfg: Config, default: ChannelId, tree: Tree, channel: ChannelId, user: UserId)
    : Option<ChannelId>
  {
    var root := RootChannel(tree, channel);
    if root == None || Ignored(cfg, channel, root.value, user) then None
    else
      var dest := LogChannel(cfg, default, channel, root.value);
      if IsValid(dest) then Some(dest) else None
  }

  /** A log is sent exactly when the simple rule finds a receiver, and to that one. */
  lemma DestinationFollowsTree(cfg: Config, default: ChannelId, tree: Tree, channel: ChannelId, user: UserId)
    requires Layered(tree)
    ensures Destination(cfg, default, tree, channel, user) == Receiver(cfg, default, tree, channel, user)
    ensures RootChannel(tree, channel).Some? <==> Placed(tree, channel)
  {
    if RootChannel(tree, channel).Some? {
      HandlersFollowTree(cfg, default, tree, channel, user);
    }
  }

  // ---- message create ----

  datatype CreateEnv = CreateEnv(message: Message, config: Option<Config>, insertUp: bool, proxied: bool)
  {
    predicate Saves() {
      && IsValid(message.guild) && config.Some?
      && (IsValid(config.value.updateLog) || IsValid(config.value.deleteLog) || IsValid(config.value.bulkDeleteLog))
    }
  }

  datatype CreatePc = Saving | Checking | Created

  function StepCreate(w: World, e: CreateEnv, pc: CreatePc): (World, CreatePc) {
    match pc
    case Saving =>
      if e.Saves() && e.insertUp then (Exec(w, Insert(e.message)), if e.proxied then Checking else Created)
      else (w, Created)
    case Checking => (w.(handled := w.handled - {e.message.id}), Created)
    case Created => (w, pc)
  }

  // ---- PluralKit's own log message ----

  datatype PKLogEnv = PKLogEnv(info: PKInfo, saveUp: bool, dropUp: bool)

  datatype PKLogPc = Marking | Attributing | Dropping | Handling | Handled

  function StepPKLog(w: World, e: PKLogEnv, pc: PKLogPc): (World, PKLogPc) {
    match pc
    case Marking => (w.(marks := w.marks + {e.info.original}), Attributing)
    case Attributing => (Exec(w, if e.saveUp then UpdatePK(e.info) else Nothing), Dropping)
    case Dropping => (Exec(w, if e.dropUp then Delete(e.info.original) else Nothing), Handling)
    case Handling => (w.(handled := w.handled + {e.info.msg}), Handled)
    case Handled => (w, pc)
  }

  // ---- message delete ----

  datatype PKReply = NoReply | Reply(id: MessageId, sender: UserId, system: Option<string>, member: Option<string>)

  datatype DeleteEnv = DeleteEnv(id: MessageId, guild: GuildId, hasUp: bool, recent: bool, reply: PKReply, saveUp: bool,
                                 dropUp: bool, config: Option<Config>, shouldLog: bool, getUp: bool, tree: Tree,
                                 finishUp: bool)
  {
    /** PluralKit is asked, and knows the message as the trigger of another one. */
    predicate Proxied(t: Table) {
      !(hasUp && HasPK(t, id)) && recent && reply.Reply? && reply.id != id
    }

    predicate LogsDeletes() {
      config.Some? && IsValid(config.value.deleteLog)
    }

    function Target(row: Row): Option<ChannelId> {
      if config == None then None
      else Destination(config.value, config.value.deleteLog, tree, row.channel, row.user)
    }

    function LogOf(row: Row): DeleteLog {
      DeleteLog(id, row, if Target(row).Some? then Target(row).value else 0)
    }
  }

  datatype DeletePc = CheckMark | RemoveMark | AskPK | SavePK(info: PKInfo) | DropTrigger | Fetch | Decide(row: Row)
                    | Finish(logged: bool) | Deleted(logged: bool)

  function StepDelete(w: World, e: DeleteEnv, pc: DeletePc): (World, DeletePc) {
    match pc
    case CheckMark =>
      (w, if !IsValid(e.guild) then Deleted(false) else if e.id in w.marks then RemoveMark else AskPK)
    case RemoveMark => (w.(marks := w.marks - {e.id}), Deleted(false))
    case AskPK =>
      if e.Proxied(w.table) then
        if e.reply.system == None || e.reply.member == None then (w, Deleted(false))
        else (w, SavePK(PKInfo(e.reply.id, e.id, e.reply.sender, e.reply.system.value, e.reply.member.value)))
      else if !e.LogsDeletes() then (w, Deleted(false))
      else if !e.shouldLog then (w, Finish(false))
      else (w, Fetch)
    case SavePK(info) => (Exec(w, if e.saveUp then UpdatePK(info) else Nothing), DropTrigger)
    case DropTrigger => (Exec(w, if e.dropUp then Delete(e.id) else Nothing), Deleted(false))
    case Fetch => (w, if e.getUp && e.id in w.table then Decide(w.table[e.id]) else Finish(false))
    case Decide(row) =>
      if e.Target(row) == None then (w, Finish(false))
      else (w.(deleteLogs := w.deleteLogs + [e.LogOf(row)]), Finish(true))
    case Finish(logged) => (Exec(w, if e.finishUp then Delete(e.id) else Nothing), Deleted(logged))
    case Deleted(_) => (w, pc)
  }

  // ---- message update ----

  datatype UpdateEnv = UpdateEnv(message: Message, ignored: bool, config: Option<Config>, tree: Tree, shouldLog: bool,
                                 getUp: bool, insertUp: bool, rest: seq<Embeds.Field>)
  {
    /** The checks before the message is stored. */
    predicate Passes() {
      && IsValid(message.guild) && IsValid(message.user) && message.content != "" && !ignored
      && config.Some? && IsValid(config.value.updateLog)
      && RootChannel(tree, message.channel).Some?
      && !Ignored(config.value, message.channel, RootChannel(tree, message.channel).value, message.user)
    }

    function Target(): Option<ChannelId> {
      if config == None then None
      else Destination(config.value, config.value.updateLog, tree, message.channel, message.user)
    }

    function LogOf(before: string, dest: ChannelId): UpdateLog {
      UpdateLog(message.id, before, message.content, dest, ContentSplit.ContentFields(before, message.content) + rest,
                ContentSplit.FilesFor(before, message.content))
    }
  }

  datatype UpdatePc = Gates | Read | Compare(before: Row) | Store(logged: bool) | Updated(logged: bool)

  function StepUpdate(w: World, e: UpdateEnv, pc: UpdatePc): (World, UpdatePc) {
    match pc
    case Gates => (w, if !e.Passes() then Updated(false) else if !e.shouldLog then Store(false) else Read)
    case Read => (w, if e.getUp && e.message.id in w.table then Compare(w.table[e.message.id]) else Store(false))
    case Compare(before) =>
      var target := e.Target();
      if before.content == e.message.content || target == None then (w, Store(false))
      else (w.(updateLogs := w.updateLogs + [e.LogOf(before.content, target.value)]), Store(true))
    case Store(logged) => (Exec(w, if e.insertUp then Insert(e.message) else Nothing), Updated(logged))
    case Updated(_) => (w, pc)
  }

  // ---- handlers, and any interleaving of them ----

  datatype Handler =
    | OnCreate(create: CreateEnv, cpc: CreatePc)
    | OnPKLog(log: PKLogEnv, lpc: PKLogPc)
    | OnDelete(del: DeleteEnv, dpc: DeletePc)
    | OnUpdate(upd: UpdateEnv, upc: UpdatePc)

  predicate Initial(h: Handler) {
    match h
    case OnCreate(_, pc) => pc == Saving
    case OnPKLog(_, pc) => pc == Marking
    case OnDelete(_, pc) => pc == CheckMark
    case OnUpdate(_, pc) => pc == Gates
  }

  function Step(w: World, h: Handler): (World, Handler) {
    match h
    case OnCreate(e, pc) => var (w', pc') := StepCreate(w, e, pc); (w', OnCreate(e, pc'))
    case OnPKLog(e, pc) => var (w', pc') := StepPKLog(w, e, pc); (w', OnPKLog(e, pc'))
    case OnDelete(e, pc) => var (w', pc') := StepDelete(w, e, pc); (w', OnDelete(e, pc'))
    case OnUpdate(e, pc) => var (w', pc') := StepUpdate(w, e, pc); (w', OnUpdate(e, pc'))
  }

  type HandlerId = nat

  datatype System = System(w: World, handlers: map<HandlerId, Handler>)

  datatype Label = Spawn(id: HandlerId, h: Handler) | Go(id: HandlerId)

  function Next(s: System, l: Label): System {
    match l
    case Spawn(id, h) => if id in s.handlers || !Initial(h) then s else s.(handlers := s.handlers[id := h])
    case Go(id) =>
      if id !in s.handlers then s
      else var (w, h) := Step(s.w, s.handlers[id]); System(w, s.handlers[id := h])
  }

  /** The state after any schedule, from an empty table. */
  function Run(ls: seq<Label>): System {
    if ls == [] then System(EMPTY, map[]) else Next(Run(ls[..|ls| - 1]), ls[|ls| - 1])
  }

  lemma RunSnoc(ls: seq<Label>, l: Label)
    ensures Run(ls + [l]) == Next(Run(ls), l)
  {
    assert (ls + [l])[..|ls|] == ls;
  }

  // ---- attribution, in every interleaving ----

  /** The table is what the executed statements made of an empty one. */
  ghost predicate Replayed(w: World) {
    w.table == Replay(map[], w.statements)
  }

  /** The statement a handler's next step executes. */
  function StatementOf(h: Handler): Statement {
    match h
    case OnCreate(e, pc) => if pc == Saving && e.Saves() && e.insertUp then Insert(e.message) else Nothing
    case OnPKLog(e, pc) =>
      if pc == Attributing && e.saveUp then UpdatePK(e.info)
      else if pc == Dropping && e.dropUp then Delete(e.info.original)
      else Nothing
    case OnDelete(e, pc) =>
      if pc.SavePK? && e.saveUp then UpdatePK(pc.info)
      else if (pc.DropTrigger? && e.dropUp) || (pc.Finish? && e.finishUp) then Delete(e.id)
      else Nothing
    case OnUpdate(e, pc) => if pc.Store? && e.insertUp then Insert(e.message) else Nothing
  }

  lemma StepExecutes(w: World, h: Handler)
    ensures Step(w, h).0.table == Exec(w, StatementOf(h)).table
    ensures Step(w, h).0.statements == Exec(w, StatementOf(h)).statements
  {
    match h {
      case OnCreate(_, _) =>
      case OnPKLog(_, _) =>
      case OnDelete(_, _) =>
      case OnUpdate(_, _) =>
    }
  }

  lemma {:induction false} StepReplayed(w: World, h: Handler)
    requires Replayed(w)
    ensures Replayed(Step(w, h).0)
    ensures w.statements <= Step(w, h).0.statements
  {
    StepExecutes(w, h);
    var s := StatementOf(h);
    assert (w.statements + [s])[..|w.statements|] == w.statements;
  }

  lemma {:induction false} RunReplayed(ls: seq<Label>)
    ensures Replayed(Run(ls).w)
  {
    if ls != [] {
      var s := Run(ls[..|ls| - 1]);
      RunReplayed(ls[..|ls| - 1]);
      var l := ls[|ls| - 1];
      if l.Go? && l.id in s.handlers {
        StepReplayed(s.w, s.handlers[l.id]);
      }
    }
  }

  /** The statements executed by the labels from n on. */
  ghost function Since(ls: seq<Label>, n: nat): seq<Statement>
    requires n <= |ls|
  {
    var before, after := Run(ls[..n]).w.statements, Run(ls).w.statements;
    if |before| <= |after| then after[|before|..] else []
  }

  lemma {:induction false} StatementsGrow(ls: seq<Label>, n: nat)
    requires n <= |ls|
    ensures Run(ls[..n]).w.statements <= Run(ls).w.statements
    ensures Run(ls).w.statements == Run(ls[..n]).w.statements + Since(ls, n)
    ensures n < |ls| ==> Since(ls[..|ls| - 1], n) <= Since(ls, n)
    decreases |ls|
  {
    if n == |ls| {
      assert ls[..n] == ls;
    } else {
      var p := ls[..|ls| - 1];
      assert p[..n] == ls[..n];
      StatementsGrow(p, n);
      var s, l := Run(p), ls[|ls| - 1];
      RunReplayed(p);
      if l.Go? && l.id in s.handlers {
        StepReplayed(s.w, s.handlers[l.id]);
      }
    }
  }

  /** In every interleaving every row names both system and member or neither. */
  lemma {:induction false} PairedInEveryRun(ls: seq<Label>)
    ensures Paired(Run(ls).w.table)
  {
    RunReplayed(ls);
    ReplayKeepsPaired(map[], Run(ls).w.statements);
  }

  /** In every interleaving a row keeps its user, original, system and member until its PluralKit data is updated or it
      is deleted; creates and edits of the same message never touch them. */
  lemma AttributionIsStable(ls: seq<Label>, n: nat, id: MessageId)
    requires n <= |ls| && id in Run(ls[..n]).w.table
    requires forall s | s in Since(ls, n) :: Leaves(s, id)
    ensures id in Run(ls).w.table
    ensures AttributionOf(Run(ls).w.table[id]) == AttributionOf(Run(ls[..n]).w.table[id])
  {
    StatementsGrow(ls, n);
    RunReplayed(ls);
    RunReplayed(ls[..n]);
    ReplayAppend(map[], Run(ls[..n]).w.statements, Since(ls, n));
    ReplayKeepsAttribution(Run(ls[..n]).w.table, Since(ls, n), id);
  }
}
