/** The handlers' code (logging/messages), each call uninterrupted: methods on the bot's sets and table, proved to do
    what the steps of Lifecycle do when the handler runs alone. */
module Handlers {
  import opened Common
  import opened MessageTable
  import opened Routing
  import opened Lifecycle
  import opened AtomicRuns
  import opened EditLogs
  import opened ProxyTriggers
  import ContentSplit

  // ---- a delete, run alone ----

  /** The log a delete sends, run alone and past the proxy checks. */
  function DeleteLogSentBy(w: World, e: DeleteEnv): seq<DeleteLog> {
    if e.shouldLog && e.getUp && e.id in w.table && e.Target(w.table[e.id]).Some? then [e.LogOf(w.table[e.id])] else []
  }

  ghost function DeleteAlone(w: World, e: DeleteEnv): World {
    if !IsValid(e.guild) then w
    else if e.id in w.marks then w.(marks := w.marks - {e.id})
    else if e.Proxied(w.table) then
      if e.reply.system == None || e.reply.member == None then w
      else
        var info := PKInfo(e.reply.id, e.id, e.reply.sender, e.reply.system.value, e.reply.member.value);
        Exec(Exec(w, if e.saveUp then UpdatePK(info) else Nothing), if e.dropUp then Delete(e.id) else Nothing)
    else if !e.LogsDeletes() then w
    else Exec(w.(deleteLogs := w.deleteLogs + DeleteLogSentBy(w, e)), if e.finishUp then Delete(e.id) else Nothing)
  }

  lemma Unfold(w: World, h: Handler)
    requires StepsLeft(h) > 0
    ensures Complete(w, h) == Complete(Step(w, h).0, Step(w, h).1)
  {
  }

  lemma CompleteFetch(w: World, e: DeleteEnv)
    requires e.shouldLog
    ensures Complete(w, OnDelete(e, Fetch)) ==
            Exec(w.(deleteLogs := w.deleteLogs + DeleteLogSentBy(w, e)), if e.finishUp then Delete(e.id) else Nothing)
  {
    assert w.deleteLogs + [] == w.deleteLogs;
    Unfold(w, OnDelete(e, Fetch));
    if e.getUp && e.id in w.table {
      Unfold(w, OnDelete(e, Decide(w.table[e.id])));
    }
  }

  lemma CompleteProxied(w: World, e: DeleteEnv, info: PKInfo)
    ensures Complete(w, OnDelete(e, SavePK(info))) ==
            Exec(Exec(w, if e.saveUp then UpdatePK(info) else Nothing), if e.dropUp then Delete(e.id) else Nothing)
  {
    Unfold(w, OnDelete(e, SavePK(info)));
  }

  lemma CompleteAsk(w: World, e: DeleteEnv)
    requires IsValid(e.guild) && e.id !in w.marks
    ensures Complete(w, OnDelete(e, AskPK)) == DeleteAlone(w, e)
  {
    assert w.deleteLogs + [] == w.deleteLogs;
    var h := OnDelete(e, AskPK);
    Unfold(w, h);
    match Step(w, h).1.dpc {
      case SavePK(info) => CompleteProxied(w, e, info);
      case Fetch => CompleteFetch(w, e);
      case _ =>
    }
  }

  lemma CompleteDelete(w: World, e: DeleteEnv)
    ensures Complete(w, OnDelete(e, CheckMark)) == DeleteAlone(w, e)
  {
    Unfold(w, OnDelete(e, CheckMark));
    if IsValid(e.guild) && e.id !in w.marks {
      CompleteAsk(w, e);
    }
  }

  lemma CompletePKLog(w: World, e: PKLogEnv)
    ensures Complete(w, OnPKLog(e, Marking)) ==
            var w1 := w.(marks := w.marks + {e.info.original});
            var w2 := Exec(w1, if e.saveUp then UpdatePK(e.info) else Nothing);
            var w3 := Exec(w2, if e.dropUp then Delete(e.info.original) else Nothing);
            w3.(handled := w3.handled + {e.info.msg})
  {
    var (w1, h1) := Step(w, OnPKLog(e, Marking));
    var (w2, h2) := Step(w1, h1);
    Unfold(w1, h1);
    Unfold(w2, h2);
  }

  // ---- what a handler run alone does ----

  /** A delete alone logs its row, and that to the receiver of the simple rule, exactly when it is unobstructed, its ID
      is not marked and its row is there. */
  lemma DeleteAloneLogs(w: World, e: DeleteEnv)
    requires Layered(e.tree)
    ensures Complete(w, OnDelete(e, CheckMark)).deleteLogs == w.deleteLogs +
            if Unobstructed(e, w.table) && e.id !in w.marks && e.id in w.table then
              var cfg, row := e.config.value, w.table[e.id];
              [DeleteLog(e.id, row, Receiver(cfg, cfg.deleteLog, e.tree, row.channel, row.user).value)]
            else []
  {
    CompleteDelete(w, e);
    UnobstructedWouldLog(e, w.table);
    assert w.deleteLogs + [] == w.deleteLogs;
    if e.config.Some? && e.id in w.table {
      var cfg, row := e.config.value, w.table[e.id];
      DestinationFollowsTree(cfg, cfg.deleteLog, e.tree, row.channel, row.user);
    }
  }

  /** A delete alone takes its mark away. Unless it found it, or PluralKit names another message, it removes the row
      wherever delete logs are on, logged or not; an answer of PluralKit without system or member changes nothing. */
  lemma DeleteAloneRemoves(w: World, e: DeleteEnv)
    ensures var v := Complete(w, OnDelete(e, CheckMark));
            && v.marks == (if IsValid(e.guild) then w.marks - {e.id} else w.marks)
            && (!IsValid(e.guild) || e.id in w.marks ==> v.table == w.table)
            && (&& IsValid(e.guild) && e.id !in w.marks && e.config.Some?
                && ((e.hasUp && HasPK(w.table, e.id)) || !e.recent || e.reply.NoReply? || e.reply.id == e.id) ==>
                  v.table == if IsValid(e.config.value.deleteLog) && e.finishUp then w.table - {e.id} else w.table)
            && (&& IsValid(e.guild) && e.id !in w.marks && e.Proxied(w.table)
                && (e.reply.system == None || e.reply.member == None) ==>
                  v == w)
  {
    CompleteDelete(w, e);
  }

  /** A delete of a message that PluralKit names as the trigger of a stored one attributes the stored one, removes the
      trigger and logs nothing. */
  lemma ProxiedDeleteAttributes(w: World, e: DeleteEnv)
    requires IsValid(e.guild) && e.id !in w.marks && e.recent && !(e.hasUp && HasPK(w.table, e.id))
    requires e.reply.Reply? && e.reply.id != e.id && e.reply.system.Some? && e.reply.member.Some?
    requires e.saveUp && e.dropUp && e.reply.id in w.table
    ensures var v := Complete(w, OnDelete(e, CheckMark));
            && v.table.Keys == w.table.Keys - {e.id}
            && AttributionOf(v.table[e.reply.id])
               == Attribution(e.reply.sender, Some(e.id), e.reply.system, e.reply.member)
            && v.deleteLogs == w.deleteLogs && v.updateLogs == w.updateLogs
  {
    CompleteDelete(w, e);
  }

  /** PluralKit's log message attributes the stored message, removes and marks its trigger, and is remembered until the
      create handler of the proxied message has seen it. */
  lemma LoggedProxyAttributes(w: World, q: PKLogEnv)
    requires q.saveUp && q.dropUp && q.info.msg in w.table && q.info.original != q.info.msg
    ensures var v := Complete(w, OnPKLog(q, Marking));
            && v.table.Keys == w.table.Keys - {q.info.original}
            && AttributionOf(v.table[q.info.msg])
               == Attribution(q.info.user, Some(q.info.original), Some(q.info.system), Some(q.info.member))
            && v.marks == w.marks + {q.info.original} && v.handled == w.handled + {q.info.msg}
  {
    CompletePKLog(w, q);
  }

  /** A create handler stores the message when its guild is valid and any kind of message log is on, and then forgets a
      proxied message that was remembered. */
  lemma CreateAloneStores(w: World, e: CreateEnv)
    ensures var v := Complete(w, OnCreate(e, Saving));
            if && IsValid(e.message.guild) && e.config.Some? && e.insertUp
               && !(!IsValid(e.config.value.updateLog) && !IsValid(e.config.value.deleteLog)
                    && !IsValid(e.config.value.bulkDeleteLog))
            then
              && v.table == Execute(w.table, Insert(e.message))
              && v.handled == (if e.proxied then w.handled - {e.message.id} else w.handled)
            else v == w
  {
    CompleteCreate(w, e);
  }

  /** The edit counts and is announced, and the row is there with another content. */
  predicate AnnouncesAlone(w: World, e: UpdateEnv) {
    var edit := EditOf(OnUpdate(e, Gates), e.message.id);
    && edit.Some? && edit.value.announced
    && e.message.id in w.table && w.table[e.message.id].content != e.message.content
  }

  /** An update alone stores the message exactly when its edit counts, and logs exactly an announced change: to the
      first redirect, with files exactly when one of the texts has 2000 characters or more. */
  lemma UpdateAloneLogs(w: World, e: UpdateEnv)
    requires Layered(e.tree)
    ensures Complete(w, OnUpdate(e, Gates)).table ==
            if EditOf(OnUpdate(e, Gates), e.message.id).Some? && e.insertUp then Execute(w.table, Insert(e.message))
            else w.table
    ensures !AnnouncesAlone(w, e) ==> Complete(w, OnUpdate(e, Gates)).updateLogs == w.updateLogs
    ensures AnnouncesAlone(w, e) ==>
              var logs := Complete(w, OnUpdate(e, Gates)).updateLogs;
              && |logs| == |w.updateLogs| + 1 && w.updateLogs <= logs && e.config.Some?
              && var cfg, l := e.config.value, logs[|w.updateLogs|];
              && l.id == e.message.id && l.before == w.table[e.message.id].content && l.after == e.message.content
              && l.dest == FirstRedirect(cfg, cfg.updateLog, Ancestors(e.tree, e.message.channel))
              && l.fields == ContentSplit.ContentFields(l.before, l.after) + e.rest
              && (l.files == [] <==> |l.before| < 2000 && |l.after| < 2000)
  {
    CompleteUpdate(w, e);
    UpdateEditOnTree(e, Gates, e.message.id);
    if e.config.Some? {
      DestinationFollowsTree(e.config.value, e.config.value.updateLog, e.tree, e.message.channel, e.message.user);
    }
  }

  // ---- the code ----

  class MessageBot {
    const db: DB
    var proxyTriggers: set<MessageId>
    var handledMessages: set<MessageId>
    var deleteLogs: seq<DeleteLog>
    var updateLogs: seq<UpdateLog>
    ghost var statements: seq<Statement>

    constructor (db: DB)
      ensures this.db == db
      ensures proxyTriggers == {} && handledMessages == {} && deleteLogs == [] && updateLogs == [] && statements == []
    {
      this.db := db;
      proxyTriggers, handledMessages, deleteLogs, updateLogs, statements := {}, {}, [], [], [];
    }

    ghost function State(): World
      reads this, db
    {
      World(db.rows, statements, proxyTriggers, handledMessages, deleteLogs, updateLogs)
    }

    // The database calls, recorded.

    method InsertMessage(m: Message, up: bool)
      modifies this`statements, db
      ensures State() == Exec(old(State()), if up then Insert(m) else Nothing)
    {
      db.InsertMessage(m, up);
      statements := if up then statements + [Insert(m)] else statements;
    }

    method UpdatePKInfo(info: PKInfo, up: bool)
      modifies this`statements, db
      ensures State() == Exec(old(State()), if up then UpdatePK(info) else Nothing)
    {
      db.UpdatePKInfo(info, up);
      statements := if up then statements + [UpdatePK(info)] else statements;
    }

    method DeleteMessage(id: MessageId, up: bool)
      modifies this`statements, db
      ensures State() == Exec(old(State()), if up then Delete(id) else Nothing)
    {
      db.DeleteMessage(id, up);
      statements := if up then statements + [Delete(id)] else statements;
    }

    method MessageCreate(e: CreateEnv)
      modifies this, db
      ensures State() == Complete(old(State()), OnCreate(e, Saving))
    {
      CompleteCreate(State(), e);
      if !IsValid(e.message.guild) || e.config == None {
        return;
      }
      var channels := e.config.value;
      if !IsValid(channels.updateLog) && !IsValid(channels.deleteLog) && !IsValid(channels.bulkDeleteLog) {
        return;
      }
      InsertMessage(e.message, e.insertUp);
      if !e.insertUp || !e.proxied {
        return;
      }
      if e.message.id in handledMessages {
        handledMessages := handledMessages - {e.message.id};
      }
    }

    method PKMessageCreate(e: PKLogEnv)
      modifies this, db
      ensures State() == Complete(old(State()), OnPKLog(e, Marking))
    {
      CompletePKLog(State(), e);
      proxyTriggers := proxyTriggers + {e.info.original};
      UpdatePKInfo(e.info, e.saveUp);
      DeleteMessage(e.info.original, e.dropUp);
      handledMessages := handledMessages + {e.info.msg};
    }

    method MessageDelete(e: DeleteEnv)
      modifies this, db
      ensures State() == Complete(old(State()), OnDelete(e, CheckMark))
    {
      CompleteDelete(State(), e);
      if !IsValid(e.guild) {
        return;
      }
      if e.id in proxyTriggers {
        proxyTriggers := proxyTriggers - {e.id};
        return;
      }
      var known := db.HasPKInfo(e.id, e.hasUp);
      if !known && e.recent {
        if e.reply.Reply? && e.reply.id != e.id {
          if e.reply.system == None || e.reply.member == None {
            return;
          }
          UpdatePKInfo(PKInfo(e.reply.id, e.id, e.reply.sender, e.reply.system.value, e.reply.member.value), e.saveUp);
          DeleteMessage(e.id, e.dropUp);
          return;
        }
      }
      if e.config == None || !IsValid(e.config.value.deleteLog) {
        return;
      }
      LogDelete(e, e.config.value);
      DeleteMessage(e.id, e.finishUp);
    }

    /** What messageDelete does between deferring the delete and returning. */
    method LogDelete(e: DeleteEnv, lc: Config)
      requires e.config == Some(lc)
      modifies this`deleteLogs
      ensures deleteLogs == old(deleteLogs) + DeleteLogSentBy(old(State()), e)
    {
      if !e.shouldLog {
        return;
      }
      var fetched := db.GetMessage(e.id, e.getUp);
      if fetched == None {
        return;
      }
      var m := fetched.value;
      if m.channel in lc.globalChannels {
        return;
      }
      var root := RootChannel(e.tree, m.channel);
      if root == None {
        return;
      }
      var rootChannel := root.value;
      if rootChannel.id in lc.globalChannels
         || (IsValid(rootChannel.parent) && rootChannel.parent in lc.globalChannels) {
        return;
      }
      if m.user in lc.globalUsers {
        return;
      }
      if lc.IgnoresUserIn(m.channel, m.user) || lc.IgnoresUserIn(rootChannel.id, m.user)
         || (IsValid(rootChannel.parent) && lc.IgnoresUserIn(rootChannel.parent, m.user)) {
        return;
      }
      var logChannel := lc.deleteLog;
      if m.channel in lc.redirects {
        logChannel := lc.redirects[m.channel];
      } else if rootChannel.id in lc.redirects {
        logChannel := lc.redirects[rootChannel.id];
      } else if rootChannel.parent in lc.redirects && IsValid(rootChannel.parent) {
        logChannel := lc.redirects[rootChannel.parent];
      }
      if !IsValid(logChannel) {
        return;
      }
      deleteLogs := deleteLogs + [DeleteLog(e.id, m, logChannel)];
    }

    method MessageUpdate(e: UpdateEnv)
      modifies this, db
      ensures State() == Complete(old(State()), OnUpdate(e, Gates))
    {
      CompleteUpdate(State(), e);
      if !IsValid(e.message.guild) || !IsValid(e.message.user) || e.message.content == "" || e.ignored {
        return;
      }
      if e.config == None || !IsValid(e.config.value.updateLog) {
        return;
      }
      var lc := e.config.value;
      if e.message.channel in lc.globalChannels {
        return;
      }
      var root := RootChannel(e.tree, e.message.channel);
      if root == None {
        return;
      }
      var rootChannel := root.value;
      if rootChannel.id in lc.globalChannels
         || (IsValid(rootChannel.parent) && rootChannel.parent in lc.globalChannels) {
        return;
      }
      if e.message.user in lc.globalUsers {
        return;
      }
      if lc.IgnoresUserIn(e.message.channel, e.message.user) || lc.IgnoresUserIn(rootChannel.id, e.message.user)
         || (IsValid(rootChannel.parent) && lc.IgnoresUserIn(rootChannel.parent, e.message.user)) {
        return;
      }
      LogUpdate(e, lc, rootChannel);
      InsertMessage(e.message, e.insertUp);
    }

    /** What messageUpdate does between deferring the insert and returning. */
    method LogUpdate(e: UpdateEnv, lc: Config, rootChannel: Channel)
      requires e.config == Some(lc) && RootChannel(e.tree, e.message.channel) == Some(rootChannel)
      requires !Ignored(lc, e.message.channel, rootChannel, e.message.user)
      modifies this`updateLogs
      ensures updateLogs == old(updateLogs) + LogSentBy(old(State()), e)
    {
      if !e.shouldLog {
        return;
      }
      var fetched := db.GetMessage(e.message.id, e.getUp);
      if fetched == None {
        return;
      }
      var before := fetched.value;
      if before.content == e.message.content {
        return;
      }
      var fields := ContentSplit.UpdateFields(before.content, e.message.content, e.rest);
      var logChannel := lc.updateLog;
      if e.message.channel in lc.redirects {
        logChannel := lc.redirects[e.message.channel];
      } else if rootChannel.id in lc.redirects {
        logChannel := lc.redirects[rootChannel.id];
      } else if rootChannel.parent in lc.redirects && IsValid(rootChannel.parent) {
        logChannel := lc.redirects[rootChannel.parent];
      }
      if !IsValid(logChannel) {
        return;
      }
      var files := ContentSplit.AttachedFiles(before.content, e.message.content);
      updateLogs := updateLogs
        + [UpdateLog(e.message.id, before.content, e.message.content, logChannel, fields, files)];
    }
  }
}
