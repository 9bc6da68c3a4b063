/** The queue code itself (bot/queue.go): queue objects mutated by Send and by timer callbacks, proved to take the steps
    of EmbedQueue. */
module QueueBot {
  import opened Common
  import opened Embeds
  import opened EmbedQueue
  import ContentSplit
  import EditLogs
  import Lifecycle

  class QueueObject {
    var queue: seq<Embed>
    var timer: Option<TimerId>

    constructor ()
      ensures queue == [] && timer == None
    {
      queue, timer := [], None;
    }

    method TotalLength() returns (length: nat)
      ensures length == Embeds.TotalLength(queue)
    {
      length := 0;
      for i := 0 to |queue|
        invariant length == Embeds.TotalLength(queue[..i])
      {
        assert queue[..i + 1][..i] == queue[..i];
        length := length + Length(queue[i]);
      }
      assert queue[..|queue|] == queue;
    }
  }

  /** The event types whose logs are sent in bulk. */
  const SHOULD_QUEUE: set<string> := {
    "GuildMemberUpdateEvent", "MessageDeleteEvent", "MessageUpdateEvent", "GuildMemberAddEvent",
    "GuildMemberRemoveEvent", "GuildBanAddEvent", "GuildBanRemoveEvent", "ChannelCreateEvent", "ChannelDeleteEvent",
    "ChannelUpdateEvent", "InviteCreateEvent", "InviteDeleteEvent", "ReadyEvent", "GuildCreateEvent",
    "GuildDeleteEvent"
  }

  predicate GoesToQueue(event: string, embeds: seq<Embed>, files: seq<File>) {
    event in SHOULD_QUEUE && |embeds| == 1 && |files| == 0
  }

  // ---- the uninterrupted call, without its lock ----

  ghost function LookedUp(s: System, wh: WebhookId): System {
    if wh in s.queues then s else s.(queues := s.queues[wh := Queue([], None, None)])
  }

  ghost function HandedOff(s: System, wh: WebhookId): System
    requires wh in s.queues
  {
    var q := s.queues[wh];
    s.(queues := s.queues[wh := Queue([], None, None)], callbacks := Stop(s.callbacks, q.timer),
       cuts := s.cuts + [(wh, q.buffer)], sent := s.sent + [(|s.cuts|, q.buffer)])
  }

  ghost function AfterCut(s: System, wh: WebhookId, e: Embed): System
    requires wh in s.queues
  {
    if Overfull(s.queues[wh].buffer, e) then HandedOff(s, wh) else s
  }

  ghost function AfterAppend(s: System, wh: WebhookId, e: Embed): System
    requires wh in s.queues
  {
    var q := s.queues[wh];
    if q.timer == None then
      s.(queues := s.queues[wh := Queue(q.buffer + [e], Some(s.nextTimer), None)],
         callbacks := s.callbacks[s.nextTimer := Armed(wh, s.now + DELAY)], nextTimer := s.nextTimer + 1)
    else s.(queues := s.queues[wh := Queue(q.buffer + [e], q.timer, None)])
  }

  ghost function EnqueueAlone(s: System, wh: WebhookId, e: Embed): System {
    AfterAppend(AfterCut(LookedUp(s, wh), wh, e), wh, e)
  }

  ghost function CallbackAlone(s: System, t: TimerId): System
    requires t in s.callbacks && s.callbacks[t].wh in s.queues
  {
    var wh := s.callbacks[t].wh;
    var batch := s.queues[wh].buffer;
    var r := s.(queues := s.queues[wh := Queue([], None, None)], callbacks := s.callbacks - {t});
    if batch == [] then r else r.(cuts := s.cuts + [(wh, batch)], sent := s.sent + [(|s.cuts|, batch)])
  }

  lemma CheckIsAfterCut(s: System, wh: WebhookId, e: Embed)
    requires wh in s.queues && s.queues[wh].lock == None
    ensures var c := AfterCut(s, wh, e);
            wh in c.queues && Next(s.(procs := map[0 := AtLock(wh, e)]), Check(0))
            == c.(procs := map[0 := Holding(wh, e)], queues := c.queues[wh := c.queues[wh].(lock := Some(0))])
  {
    assert map[0 := AtLock(wh, e)][0 := Holding(wh, e)] == map[0 := Holding(wh, e)];
  }

  lemma AppendIsAfterAppend(s: System, wh: WebhookId, e: Embed)
    requires wh in s.queues && s.queues[wh].lock == None && s.procs == map[]
    ensures Next(s.(procs := map[0 := Holding(wh, e)], queues := s.queues[wh := s.queues[wh].(lock := Some(0))]),
                 Append(0))
         == AfterAppend(s, wh, e)
  {
    assert map[0 := Holding(wh, e)] - {0} == map[];
  }

  /** The uninterrupted call is the run Arrive, Check, Append. */
  lemma EnqueueIsThreeSteps(s: System, wh: WebhookId, e: Embed)
    requires s.procs == map[] && (wh in s.queues ==> s.queues[wh].lock == None)
    ensures EnqueueAlone(s, wh, e) == Next(Next(Next(s, Arrive(0, wh, e)), Check(0)), Append(0))
  {
    var s1 := LookedUp(s, wh);
    assert Next(s, Arrive(0, wh, e)) == s1.(procs := map[0 := AtLock(wh, e)]);
    CheckIsAfterCut(s1, wh, e);
    AppendIsAfterAppend(AfterCut(s1, wh, e), wh, e);
  }

  /** The uninterrupted callback is the run Fire, Deliver. */
  lemma CallbackIsTwoSteps(s: System, t: TimerId)
    requires t in s.callbacks && s.callbacks[t].Waiting?
    requires s.callbacks[t].wh in s.queues && s.queues[s.callbacks[t].wh].lock == None
    ensures CallbackAlone(s, t) == Next(Next(s, Fire(t)), Deliver(t))
  {
    var wh := s.callbacks[t].wh;
    var s1 := Next(s, Fire(t));
    if s.queues[wh].buffer != [] {
      assert s1.callbacks - {t} == s.callbacks - {t};
    }
  }

  /** What is cut and buffered for the webhook grows by these embeds, for every other webhook it stays. */
  ghost predicate TakesIn(s: System, t: System, wh: WebhookId, embeds: seq<Embed>) {
    forall v :: Taken(t, v) == Taken(s, v) + if v == wh then embeds else []
  }

  lemma EnqueueTakesIn(s: System, wh: WebhookId, e: Embed)
    requires s.procs == map[] && (wh in s.queues ==> s.queues[wh].lock == None)
    ensures TakesIn(s, EnqueueAlone(s, wh, e), wh, [e])
  {
    var s1 := Next(s, Arrive(0, wh, e));
    var s2 := Next(s1, Check(0));
    EnqueueIsThreeSteps(s, wh, e);
    forall v ensures Taken(Next(s2, Append(0)), v) == Taken(s, v) + if v == wh then [e] else [] {
      StepConserves(s, Arrive(0, wh, e), v);
      StepConserves(s1, Check(0), v);
      StepConserves(s2, Append(0), v);
    }
  }

  class Bot {
    var queues: map<WebhookId, QueueObject>
    /** The timer runtime. */
    var now: nat
    var nextTimer: TimerId
    var callbacks: map<TimerId, Callback>
    /** Batches in the order they were cut, and the executed ones. */
    var cuts: seq<Cut>
    var sent: seq<(nat, seq<Embed>)>
    /** Executions that bypass the queue. */
    var immediate: seq<(WebhookId, seq<Embed>, seq<File>)>
    ghost var view: map<WebhookId, Queue>
    ghost var repr: set<QueueObject>

    ghost predicate Records(wh: WebhookId)
      requires wh in queues && wh in view
      reads this, repr
    {
      queues[wh] in repr && view[wh] == Queue(queues[wh].queue, queues[wh].timer, None)
    }

    /** Each webhook has a queue object of its own, whose contents view records. */
    ghost predicate Valid()
      reads this, repr
    {
      && view.Keys == queues.Keys
      && (forall wh | wh in queues :: Records(wh))
      && (forall v, w | v in queues && w in queues && v != w :: queues[v] != queues[w])
    }

    ghost function State(): System
      reads this
    {
      System(now, nextTimer, view, callbacks, map[], cuts, sent)
    }

    constructor ()
      ensures Valid() && State() == INITIAL && immediate == [] && fresh(repr)
    {
      queues, now, nextTimer, callbacks, cuts, sent, immediate := map[], 0, 0, map[], [], [], [];
      view, repr := map[], {};
    }

    /** The map lookup under queuesMu. */
    method LookUp(wh: WebhookId) returns (q: QueueObject)
      requires Valid()
      modifies this`queues, this`view, this`repr
      ensures Valid() && wh in queues && queues[wh] == q && fresh(repr - old(repr))
      ensures view == if wh in old(view) then old(view) else old(view)[wh := Queue([], None, None)]
    {
      if wh !in queues {
        var created := new QueueObject();
        queues := queues[wh := created];
        view := view[wh := Queue([], None, None)];
        repr := repr + {created};
      }
      q := queues[wh];
    }

    /** Takes the buffer, stops the timer and executes the batch, all under the lock. */
    method HandOff(wh: WebhookId, q: QueueObject)
      requires Valid() && wh in queues && queues[wh] == q
      modifies q, this`view, this`callbacks, this`cuts, this`sent
      ensures Valid() && State() == HandedOff(old(State()), wh)
    {
      assert Records(wh);
      var embeds := q.queue;
      q.queue := [];
      if q.timer.Some? {
        callbacks := Stop(callbacks, q.timer);
        q.timer := None;
      }
      sent := sent + [(|cuts|, embeds)];
      cuts := cuts + [(wh, embeds)];
      view := view[wh := Queue([], None, None)];
      forall w | w in queues ensures Records(w) {
        assert old(Records(w));
      }
    }

    /** Hands the buffer off when the embed does not fit beside it. */
    method CutIfFull(wh: WebhookId, q: QueueObject, embed: Embed)
      requires Valid() && wh in queues && queues[wh] == q
      modifies q, this`view, this`callbacks, this`cuts, this`sent
      ensures Valid() && State() == AfterCut(old(State()), wh, embed)
      ensures var b := old(q.queue);
              cuts == old(cuts) + if |b + [embed]| > 5 || Embeds.TotalLength(b + [embed]) >= 6000 then [(wh, b)] else []
    {
      assert Records(wh);
      ghost var b := q.queue;
      assert (b + [embed])[..|b|] == b;
      var total := q.TotalLength();
      if total + Length(embed) >= 6000 || |q.queue| >= 5 {
        HandOff(wh, q);
      }
    }

    method AppendAndArm(wh: WebhookId, q: QueueObject, embed: Embed)
      requires Valid() && wh in queues && queues[wh] == q
      modifies q, this`view, this`callbacks, this`nextTimer
      ensures Valid() && State() == AfterAppend(old(State()), wh, embed)
    {
      q.queue := q.queue + [embed];
      if q.timer == None {
        q.timer := Some(nextTimer);
        callbacks := callbacks[nextTimer := Armed(wh, now + DELAY)];
        nextTimer := nextTimer + 1;
      }
      view := view[wh := Queue(q.queue, q.timer, None)];
    }

    /** A call of queue that nothing interrupts. */
    method Enqueue(wh: WebhookId, embed: Embed)
      requires Valid()
      modifies this, repr
      ensures Valid() && fresh(repr - old(repr)) && immediate == old(immediate)
      ensures State() == EnqueueAlone(old(State()), wh, embed)
    {
      ghost var s := State();
      var q := LookUp(wh);
      assert State() == LookedUp(s, wh);
      CutIfFull(wh, q, embed);
      assert State() == AfterCut(LookedUp(s, wh), wh, embed);
      AppendAndArm(wh, q, embed);
    }

    /** A started callback that nothing interrupts. */
    method TimerCallback(t: TimerId)
      requires Valid() && t in callbacks && callbacks[t].Waiting? && callbacks[t].wh in queues
      modifies this, repr
      ensures Valid() && repr == old(repr) && immediate == old(immediate)
      ensures State() == CallbackAlone(old(State()), t)
    {
      var wh := callbacks[t].wh;
      var q := queues[wh];
      q.timer := None;
      var embeds := q.queue;
      q.queue := [];
      view := view[wh := Queue([], None, None)];
      callbacks := callbacks - {t};
      if |embeds| == 0 {
        return;
      }
      sent := sent + [(|cuts|, embeds)];
      cuts := cuts + [(wh, embeds)];
    }

    /** wh is None when no log channel or webhook could be found. */
    method Send(event: string, wh: Option<WebhookId>, embeds: seq<Embed>, files: seq<File>)
      requires Valid()
      modifies this, repr
      ensures Valid() && fresh(repr - old(repr))
      ensures embeds == [] || wh == None ==> State() == old(State()) && immediate == old(immediate)
      ensures embeds != [] && wh != None && GoesToQueue(event, embeds, files) ==>
                immediate == old(immediate) &&
                State() == EnqueueAlone(old(State()), wh.value, embeds[0])
      ensures embeds != [] && wh != None && !GoesToQueue(event, embeds, files) ==>
                State() == old(State()) && immediate == old(immediate) + [(wh.value, embeds, files)]
      ensures embeds != [] && wh != None ==>
                || (State() == old(State()) && immediate == old(immediate) + [(wh.value, embeds, files)])
                || (files == [] && immediate == old(immediate) && TakesIn(old(State()), State(), wh.value, embeds))
      ensures wh != None && |embeds| == 1 && event in ["MessageUpdateEvent", "MessageDeleteEvent"] ==>
                (immediate == old(immediate) <==> files == [])
    {
      if |embeds| == 0 || wh == None {
        return;
      }
      if event in SHOULD_QUEUE && |embeds| == 1 && |files| == 0 {
        assert wh.value in queues ==> Records(wh.value);
        EnqueueTakesIn(State(), wh.value, embeds[0]);
        Enqueue(wh.value, embeds[0]);
        return;
      }
      immediate := immediate + [(wh.value, embeds, files)];
    }
  }

  /** The text of an embed apart from its first fields. */
  function OtherText(e: Embed, content: nat): nat
    requires content <= |e.fields|
  {
    |e.title| + |e.description| + |e.author| + |e.footer| + FieldsLength(e.fields[content..])
  }

  /** An edit log of short texts is under the batch limit, so it never makes the queue hand off an empty batch. */
  lemma QueuedUpdateUnderLimit(e: Embed, before: string, after: string)
    requires ContentSplit.ContentFields(before, after) <= e.fields
    requires OtherText(e, |ContentSplit.ContentFields(before, after)|) <= 1935
    requires |before| < 2000 && |after| < 2000
    ensures Length(e) == FieldsLength(ContentSplit.ContentFields(before, after))
                         + |e.title| + |e.description| + |e.author| + |e.footer|
                         + FieldsLength(e.fields[|ContentSplit.ContentFields(before, after)|..])
    ensures Length(e) < 6000 && !Overfull([], e)
  {
    var content := ContentSplit.ContentFields(before, after);
    assert e.fields == content + e.fields[|content|..];
    FieldsLengthAppend(content, e.fields[|content|..]);
    ContentSplit.ShortContentLength(before, after);
  }

  /** In every interleaving of the handlers, an edit log is queued exactly when both its texts are shorter than 2000
      characters. */
  lemma EditLogsQueuedIff(ls: seq<Lifecycle.Label>, k: nat, e: Embed)
    requires k < |Lifecycle.Run(ls).w.updateLogs|
    ensures var l := Lifecycle.Run(ls).w.updateLogs[k];
            GoesToQueue("MessageUpdateEvent", [e], l.files) <==> |l.before| < 2000 && |l.after| < 2000
  {
    EditLogs.LogsCarryFilesIff(ls, k);
  }
}
