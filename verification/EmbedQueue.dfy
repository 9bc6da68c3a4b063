/** The webhook embed queues (bot/queue.go) as a step system: enqueuers and timer callbacks interleave at every lock and
    unlock, timers expire at any moment after their deadline, and a stopped timer's callback may already be running. */
module EmbedQueue {
  import opened Common
  import opened Embeds

  type WebhookId = Snowflake
  type TimerId = nat
  type Proc = nat

  /** Milliseconds between arming a timer and its expiry. */
  const DELAY: nat := 5000

  /** A queue; lock names the enqueuer inside the critical section. */
  datatype Queue = Queue(buffer: seq<Embed>, timer: Option<TimerId>, lock: Option<Proc>)

  /** A timer callback: not yet started, started and waiting for the lock, or sending its batch after unlocking. */
  datatype Callback =
    | Armed(wh: WebhookId, deadline: nat)
    | Waiting(wh: WebhookId, deadline: nat)
    | Sending(wh: WebhookId, batch: seq<Embed>, index: nat)

  /** A call of queue: before taking the lock, or holding it with the full buffer already cut. */
  datatype Enqueuer = AtLock(wh: WebhookId, embed: Embed) | Holding(wh: WebhookId, embed: Embed)

  type Cut = (WebhookId, seq<Embed>)

  /** cuts lists the batches taken out of buffers, in lock order; sent lists the executions attempted, with their cut
      index. An execution that fails is logged and not repeated. */
  datatype System = System(now: nat, nextTimer: TimerId, queues: map<WebhookId, Queue>,
                           callbacks: map<TimerId, Callback>, procs: map<Proc, Enqueuer>,
                           cuts: seq<Cut>, sent: seq<(nat, seq<Embed>)>)

  const INITIAL: System := System(0, 0, map[], map[], map[], [], [])

  datatype Event =
    | Arrive(p: Proc, wh: WebhookId, embed: Embed)  // look up or create the queue
    | Check(p: Proc)                                // take the lock; cut and send a full buffer
    | Append(p: Proc)                               // append, arm a timer if there is none, unlock
    | Expire(t: TimerId)                            // the runtime starts the callback
    | Fire(t: TimerId)                              // the callback's locked section
    | Deliver(t: TimerId)                           // the callback's send
    | Tick(ms: nat)

  predicate Overfull(buffer: seq<Embed>, e: Embed) {
    TotalLength(buffer) + Length(e) >= TOTAL_LIMIT || |buffer| >= 5
  }

  /** Stop removes a callback that has not started; it does not wait for one that has. */
  function Stop(callbacks: map<TimerId, Callback>, timer: Option<TimerId>): map<TimerId, Callback> {
    if timer.Some? && timer.value in callbacks && callbacks[timer.value].Armed? then callbacks - {timer.value}
    else callbacks
  }

  predicate Enabled(s: System, ev: Event) {
    match ev
    case Arrive(p, _, _) => p !in s.procs
    case Check(p) =>
      p in s.procs && s.procs[p].AtLock? && s.procs[p].wh in s.queues && s.queues[s.procs[p].wh].lock == None
    case Append(p) =>
      p in s.procs && s.procs[p].Holding? && s.procs[p].wh in s.queues && s.queues[s.procs[p].wh].lock == Some(p)
    case Expire(t) => t in s.callbacks && s.callbacks[t].Armed? && s.callbacks[t].deadline <= s.now
    case Fire(t) =>
      t in s.callbacks && s.callbacks[t].Waiting? && s.callbacks[t].wh in s.queues
      && s.queues[s.callbacks[t].wh].lock == None
    case Deliver(t) => t in s.callbacks && s.callbacks[t].Sending?
    case Tick(_) => true
  }

  function Step(s: System, ev: Event): System
    requires Enabled(s, ev)
  {
    match ev
    case Arrive(p, wh, e) =>
      s.(queues := if wh in s.queues then s.queues else s.queues[wh := Queue([], None, None)],
         procs := s.procs[p := AtLock(wh, e)])
    case Check(p) =>
      var AtLock(wh, e) := s.procs[p];
      var q := s.queues[wh];
      var t := s.(procs := s.procs[p := Holding(wh, e)]);
      if Overfull(q.buffer, e) then
        t.(queues := s.queues[wh := Queue([], None, Some(p))], callbacks := Stop(s.callbacks, q.timer),
           cuts := s.cuts + [(wh, q.buffer)], sent := s.sent + [(|s.cuts|, q.buffer)])
      else t.(queues := s.queues[wh := q.(lock := Some(p))])
    case Append(p) =>
      var Holding(wh, e) := s.procs[p];
      var q := s.queues[wh];
      var buffer := q.buffer + [e];
      var t := s.(procs := s.procs - {p});
      if q.timer == None then
        t.(queues := s.queues[wh := Queue(buffer, Some(s.nextTimer), None)],
           callbacks := s.callbacks[s.nextTimer := Armed(wh, s.now + DELAY)], nextTimer := s.nextTimer + 1)
      else t.(queues := s.queues[wh := Queue(buffer, q.timer, None)])
    case Expire(t) => s.(callbacks := s.callbacks[t := Waiting(s.callbacks[t].wh, s.callbacks[t].deadline)])
    case Fire(t) =>
      var wh := s.callbacks[t].wh;
      var batch := s.queues[wh].buffer;
      var r := s.(queues := s.queues[wh := Queue([], None, None)]);
      if batch == [] then r.(callbacks := s.callbacks - {t})
      else r.(callbacks := s.callbacks[t := Sending(wh, batch, |s.cuts|)], cuts := s.cuts + [(wh, batch)])
    case Deliver(t) =>
      s.(callbacks := s.callbacks - {t}, sent := s.sent + [(s.callbacks[t].index, s.callbacks[t].batch)])
    case Tick(ms) => s.(now := s.now + ms)
  }

  /** An event that is not enabled changes nothing, so every event sequence is a run. */
  function Next(s: System, ev: Event): System {
    if Enabled(s, ev) then Step(s, ev) else s
  }

  function Run(evs: seq<Event>): System {
    if evs == [] then INITIAL else Next(Run(evs[..|evs| - 1]), evs[|evs| - 1])
  }

  function Buffer(s: System, wh: WebhookId): seq<Embed> {
    if wh in s.queues then s.queues[wh].buffer else []
  }

  // ---- nothing lost, duplicated or reordered ----

  /** The embeds whose appends have happened, in that order. */
  function Accepted(evs: seq<Event>, wh: WebhookId): seq<Embed> {
    if evs == [] then []
    else
      var s, ev := Run(evs[..|evs| - 1]), evs[|evs| - 1];
      Accepted(evs[..|evs| - 1], wh)
      + if ev.Append? && Enabled(s, ev) && s.procs[ev.p].wh == wh then [s.procs[ev.p].embed] else []
  }

  /** The embeds of the batches cut for a webhook, in cutting order. */
  function CutEmbeds(cuts: seq<Cut>, wh: WebhookId): seq<Embed> {
    if cuts == [] then []
    else CutEmbeds(cuts[..|cuts| - 1], wh) + if cuts[|cuts| - 1].0 == wh then cuts[|cuts| - 1].1 else []
  }

  lemma CutEmbedsSnoc(cuts: seq<Cut>, c: Cut, wh: WebhookId)
    ensures CutEmbeds(cuts + [c], wh) == CutEmbeds(cuts, wh) + if c.0 == wh then c.1 else []
  {
  }

  /** Everything taken in for a webhook so far: what was cut, then what is buffered. */
  function Taken(s: System, wh: WebhookId): seq<Embed> {
    CutEmbeds(s.cuts, wh) + Buffer(s, wh)
  }

  lemma CutConserves(s: System, t: System, c: Cut, wh: WebhookId)
    requires t.cuts == s.cuts + [c] && c.1 == Buffer(s, c.0) && Buffer(t, c.0) == []
    requires c.0 != wh ==> Buffer(t, wh) == Buffer(s, wh)
    ensures Taken(t, wh) == Taken(s, wh)
  {
  }

  lemma StepConserves(s: System, ev: Event, wh: WebhookId)
    requires Enabled(s, ev)
    ensures Taken(Step(s, ev), wh)
            == Taken(s, wh) + if ev.Append? && s.procs[ev.p].wh == wh then [s.procs[ev.p].embed] else []
  {
    var t := Step(s, ev);
    match ev
    case Check(p) =>
      var w := s.procs[p].wh;
      if Overfull(s.queues[w].buffer, s.procs[p].embed) {
        CutConserves(s, t, (w, s.queues[w].buffer), wh);
      } else {
        assert Buffer(t, wh) == Buffer(s, wh);
      }
    case Append(p) =>
      assert s.procs[p].wh == wh ==> Buffer(t, wh) == Buffer(s, wh) + [s.procs[p].embed];
      assert s.procs[p].wh != wh ==> Buffer(t, wh) == Buffer(s, wh);
    case Fire(id) =>
      var w := s.callbacks[id].wh;
      if s.queues[w].buffer != [] {
        CutConserves(s, t, (w, s.queues[w].buffer), wh);
      } else {
        assert Buffer(t, wh) == Buffer(s, wh);
      }
    case _ => assert Buffer(t, wh) == Buffer(s, wh);
  }

  /** In every run the batches cut so far, followed by the buffer, are exactly the embeds accepted so far. */
  lemma {:induction false} NothingLostOrReordered(evs: seq<Event>, wh: WebhookId)
    ensures Taken(Run(evs), wh) == Accepted(evs, wh)
  {
    if evs != [] {
      var s, ev := Run(evs[..|evs| - 1]), evs[|evs| - 1];
      NothingLostOrReordered(evs[..|evs| - 1], wh);
      if Enabled(s, ev) {
        StepConserves(s, ev, wh);
      }
    }
  }

  /** The webhook an event acts on. */
  function Target(s: System, ev: Event): Option<WebhookId> {
    match ev
    case Arrive(_, wh, _) => Some(wh)
    case Check(p) => if p in s.procs then Some(s.procs[p].wh) else None
    case Append(p) => if p in s.procs then Some(s.procs[p].wh) else None
    case Expire(t) => if t in s.callbacks then Some(s.callbacks[t].wh) else None
    case Fire(t) => if t in s.callbacks then Some(s.callbacks[t].wh) else None
    case Deliver(t) => if t in s.callbacks then Some(s.callbacks[t].wh) else None
    case Tick(_) => None
  }

  lemma OtherCutsUntouched(s: System, ev: Event, wh: WebhookId)
    requires Enabled(s, ev) && Target(s, ev) != Some(wh)
    ensures CutEmbeds(Step(s, ev).cuts, wh) == CutEmbeds(s.cuts, wh)
  {
    match ev
    case Check(p) => CutEmbedsSnoc(s.cuts, (s.procs[p].wh, s.queues[s.procs[p].wh].buffer), wh);
    case Fire(t) => CutEmbedsSnoc(s.cuts, (s.callbacks[t].wh, s.queues[s.callbacks[t].wh].buffer), wh);
    case _ =>
  }

  /** A step on one webhook changes no other webhook's queue and cuts none of its embeds. */
  lemma OtherQueuesUntouched(s: System, ev: Event, wh: WebhookId)
    requires Target(s, ev) != Some(wh)
    ensures wh in Next(s, ev).queues <==> wh in s.queues
    ensures wh in s.queues ==> Next(s, ev).queues[wh] == s.queues[wh]
    ensures CutEmbeds(Next(s, ev).cuts, wh) == CutEmbeds(s.cuts, wh)
  {
    if Enabled(s, ev) {
      OtherCutsUntouched(s, ev, wh);
    }
  }

  // ---- no embed is stranded ----

  predicate Pending(c: Callback) {
    c.Armed? || c.Waiting?
  }

  /** The timer field is nil exactly when the buffer is empty, and otherwise names a pending callback of this queue. */
  ghost predicate TimerGuards(s: System, wh: WebhookId)
    requires wh in s.queues
  {
    var q := s.queues[wh];
    && (q.timer == None <==> q.buffer == [])
    && (q.timer.Some? ==>
          q.timer.value in s.callbacks && s.callbacks[q.timer.value].wh == wh && Pending(s.callbacks[q.timer.value]))
  }

  ghost predicate TimersGuard(s: System) {
    && (forall wh | wh in s.queues :: TimerGuards(s, wh))
    && (forall t | t in s.callbacks :: t < s.nextTimer)
  }

  lemma StepKeepsTimers(s: System, ev: Event)
    requires Enabled(s, ev) && TimersGuard(s)
    ensures TimersGuard(Step(s, ev))
  {
    forall wh | wh in Step(s, ev).queues ensures TimerGuards(Step(s, ev), wh) {
      assert wh in s.queues ==> TimerGuards(s, wh);
      match ev
      case Check(p) => assert TimerGuards(s, s.procs[p].wh);
      case Append(p) => assert TimerGuards(s, s.procs[p].wh);
      case Fire(t) => assert TimerGuards(s, s.callbacks[t].wh);
      case _ =>
    }
  }

  /** When the buffer's first embed was appended: the time of the last append to the empty buffer. */
  function FirstAppend(evs: seq<Event>, wh: WebhookId): nat {
    if evs == [] then 0
    else
      var s, ev := Run(evs[..|evs| - 1]), evs[|evs| - 1];
      if ev.Append? && Enabled(s, ev) && s.procs[ev.p].wh == wh && Buffer(s, wh) == [] then s.now
      else FirstAppend(evs[..|evs| - 1], wh)
  }

  /** In every reachable state, even when Stop comes too late and an old callback clears a newer timer: a buffer holds
      embeds exactly when its timer field names a callback still to run, due five seconds after the first append. */
  lemma {:induction false} NoEmbedStranded(evs: seq<Event>)
    ensures TimersGuard(Run(evs))
    ensures forall wh | wh in Run(evs).queues && Run(evs).queues[wh].timer.Some? ::
              Run(evs).callbacks[Run(evs).queues[wh].timer.value].deadline == FirstAppend(evs, wh) + 5000
  {
    if evs != [] {
      var s, ev := Run(evs[..|evs| - 1]), evs[|evs| - 1];
      NoEmbedStranded(evs[..|evs| - 1]);
      if Enabled(s, ev) {
        StepKeepsTimers(s, ev);
        forall wh | wh in Run(evs).queues && Run(evs).queues[wh].timer.Some?
          ensures Run(evs).callbacks[Run(evs).queues[wh].timer.value].deadline == FirstAppend(evs, wh) + 5000
        {
          assert wh in s.queues ==> TimerGuards(s, wh);
          assert TimerGuards(Run(evs), wh);
        }
      }
    }
  }

  // ---- the lock ----

  /** The enqueuer's queue exists, and is locked by it while it is in the critical section. */
  ghost predicate ProcHoldsLock(s: System, p: Proc)
    requires p in s.procs
  {
    && s.procs[p].wh in s.queues
    && (s.procs[p].Holding? ==> s.queues[s.procs[p].wh].lock == Some(p))
  }

  ghost predicate LockHasProc(s: System, wh: WebhookId)
    requires wh in s.queues
  {
    s.queues[wh].lock.Some? ==>
      var p := s.queues[wh].lock.value; p in s.procs && s.procs[p].Holding? && s.procs[p].wh == wh
  }

  /** A queue is locked by p exactly when p is in the critical section for it. */
  ghost predicate LocksHeld(s: System) {
    && (forall p | p in s.procs :: ProcHoldsLock(s, p))
    && (forall wh | wh in s.queues :: LockHasProc(s, wh))
    && (forall t | t in s.callbacks :: s.callbacks[t].wh in s.queues)
  }

  // ---- batch bounds ----

  /** At most five embeds, under 6000 characters in all unless there is only one. */
  predicate Fits(batch: seq<Embed>) {
    |batch| <= 5 && (TotalLength(batch) < TOTAL_LIMIT || |batch| == 1)
  }

  predicate RoomFor(buffer: seq<Embed>, e: Embed) {
    buffer == [] || !Overfull(buffer, e)
  }

  /** Inside the critical section the buffer has room for the embed. */
  ghost predicate HasRoom(s: System, p: Proc)
    requires p in s.procs
  {
    s.procs[p].Holding? ==>
      s.procs[p].wh in s.queues && RoomFor(s.queues[s.procs[p].wh].buffer, s.procs[p].embed)
  }

  ghost predicate BatchesFit(s: System) {
    && (forall wh | wh in s.queues :: Fits(s.queues[wh].buffer))
    && (forall i | 0 <= i < |s.cuts| :: Fits(s.cuts[i].1))
    && (forall p | p in s.procs :: HasRoom(s, p))
  }

  lemma AppendFits(buffer: seq<Embed>, e: Embed)
    requires RoomFor(buffer, e)
    ensures Fits(buffer + [e])
  {
  }

  ghost predicate Bounded(s: System) {
    LocksHeld(s) && BatchesFit(s)
  }

  lemma CheckKeepsLocks(s: System, p: Proc)
    requires Enabled(s, Check(p)) && LocksHeld(s)
    ensures LocksHeld(Step(s, Check(p)))
  {
    var t := Step(s, Check(p));
    forall q | q in t.procs ensures ProcHoldsLock(t, q) {
      assert ProcHoldsLock(s, q);
    }
    forall wh | wh in t.queues ensures LockHasProc(t, wh) {
      assert LockHasProc(s, wh);
    }
  }

  lemma CheckKeepsBounded(s: System, p: Proc)
    requires Enabled(s, Check(p)) && Bounded(s)
    ensures Bounded(Step(s, Check(p)))
  {
    CheckKeepsLocks(s, p);
    var t := Step(s, Check(p));
    assert Fits([]);
    forall q | q in t.procs ensures HasRoom(t, q) {
      assert ProcHoldsLock(s, q) && HasRoom(s, q);
    }
  }

  lemma AppendKeepsLocks(s: System, p: Proc)
    requires Enabled(s, Append(p)) && LocksHeld(s)
    ensures LocksHeld(Step(s, Append(p)))
  {
    var t := Step(s, Append(p));
    forall q | q in t.procs ensures ProcHoldsLock(t, q) {
      assert ProcHoldsLock(s, q);
    }
    forall wh | wh in t.queues ensures LockHasProc(t, wh) {
      assert LockHasProc(s, wh);
    }
  }

  /** Nobody else is in the critical section of the queue appended to. */
  lemma AppendKeepsRoom(s: System, p: Proc, q: Proc)
    requires Enabled(s, Append(p)) && Bounded(s) && q in Step(s, Append(p)).procs
    ensures HasRoom(Step(s, Append(p)), q)
  {
    assert ProcHoldsLock(s, q) && HasRoom(s, q);
  }

  lemma AppendKeepsBounded(s: System, p: Proc)
    requires Enabled(s, Append(p)) && Bounded(s)
    ensures Bounded(Step(s, Append(p)))
  {
    AppendKeepsLocks(s, p);
    var t := Step(s, Append(p));
    assert HasRoom(s, p) && ProcHoldsLock(s, p);
    AppendFits(s.queues[s.procs[p].wh].buffer, s.procs[p].embed);
    forall q | q in t.procs ensures HasRoom(t, q) {
      AppendKeepsRoom(s, p, q);
    }
  }

  lemma FireKeepsBounded(s: System, id: TimerId)
    requires Enabled(s, Fire(id)) && Bounded(s)
    ensures Bounded(Step(s, Fire(id)))
  {
    var t := Step(s, Fire(id));
    assert Fits([]);
    forall q | q in t.procs ensures ProcHoldsLock(t, q) && HasRoom(t, q) {
      assert ProcHoldsLock(s, q) && HasRoom(s, q);
    }
    forall wh | wh in t.queues ensures LockHasProc(t, wh) {
      assert LockHasProc(s, wh);
    }
  }

  lemma StepKeepsBounded(s: System, ev: Event)
    requires Enabled(s, ev) && Bounded(s)
    ensures Bounded(Step(s, ev))
  {
    match ev
    case Check(p) => CheckKeepsBounded(s, p);
    case Append(p) => AppendKeepsBounded(s, p);
    case Fire(id) => FireKeepsBounded(s, id);
    case _ =>
      var t := Step(s, ev);
      forall q | q in t.procs ensures ProcHoldsLock(t, q) && HasRoom(t, q) {
        assert q in s.procs ==> ProcHoldsLock(s, q) && HasRoom(s, q);
      }
      forall wh | wh in t.queues ensures LockHasProc(t, wh) {
        assert wh in s.queues ==> LockHasProc(s, wh);
      }
  }

  /** In every run each cut batch is within Discord's limits, or is a single embed. */
  lemma {:induction false} EveryBatchFits(evs: seq<Event>)
    ensures Bounded(Run(evs))
    ensures forall i | 0 <= i < |Run(evs).cuts| :: Fits(Run(evs).cuts[i].1)
  {
    if evs != [] {
      var s, ev := Run(evs[..|evs| - 1]), evs[|evs| - 1];
      EveryBatchFits(evs[..|evs| - 1]);
      if Enabled(s, ev) {
        StepKeepsBounded(s, ev);
      }
    }
  }

  // ---- nothing is cut early ----

  /** Taking the lock cuts the buffer exactly when buffer and embed together are more than five embeds or have 6000
      characters; otherwise the buffer stays as it is. A cut also stops the queue's timer, if its callback has not
      started, and leaves the other callbacks alone. */
  lemma CheckCutsIffOverfull(s: System, p: Proc)
    requires Enabled(s, Check(p))
    ensures var wh, e := s.procs[p].wh, s.procs[p].embed;
            var b, t := Buffer(s, wh), Step(s, Check(p));
            && (|t.cuts| > |s.cuts| <==> |b + [e]| > 5 || TotalLength(b + [e]) >= 6000)
            && (|t.cuts| > |s.cuts| ==> t.cuts == s.cuts + [(wh, b)] && Buffer(t, wh) == [])
            && (|t.cuts| == |s.cuts| ==> Buffer(t, wh) == b)
            && (forall id | id in s.callbacks ::
                  if |t.cuts| > |s.cuts| && s.queues[wh].timer == Some(id) && s.callbacks[id].Armed?
                  then id !in t.callbacks
                  else id in t.callbacks && t.callbacks[id] == s.callbacks[id])
  {
    var b, e := Buffer(s, s.procs[p].wh), s.procs[p].embed;
    assert (b + [e])[..|b|] == b;
  }

  /** Callbacks that have started are due. */
  ghost predicate StartedDue(s: System) {
    forall t | t in s.callbacks && s.callbacks[t].Waiting? :: s.callbacks[t].deadline <= s.now
  }

  lemma {:induction false} RunStartedDue(evs: seq<Event>)
    ensures StartedDue(Run(evs))
  {
    if evs != [] {
      RunStartedDue(evs[..|evs| - 1]);
    }
  }

  /** Event k cut batch i out of its webhook's buffer: an embed did not fit beside it, or a timer had run out, the
      buffer's own no earlier than five seconds after its first embed. */
  ghost predicate CutFor(evs: seq<Event>, k: nat, i: nat)
    requires k < |evs| && i < |Run(evs).cuts|
  {
    var s, (wh, b) := Run(evs[..k]), Run(evs).cuts[i];
    && |s.cuts| == i && Enabled(s, evs[k]) && b == Buffer(s, wh)
    && match evs[k]
       case Check(p) =>
         s.procs[p].wh == wh && (|b + [s.procs[p].embed]| > 5 || TotalLength(b + [s.procs[p].embed]) >= 6000)
       case Fire(t) =>
         && b != [] && s.callbacks[t].wh == wh && s.callbacks[t].deadline <= s.now
         && (s.queues[wh].timer == Some(t) ==> s.now >= FirstAppend(evs[..k], wh) + 5000)
       case _ => false
  }

  lemma NewestCut(evs: seq<Event>, ev: Event)
    requires |Next(Run(evs), ev).cuts| > |Run(evs).cuts|
    ensures (evs + [ev])[..|evs|] == evs && |Run(evs + [ev]).cuts| == |Run(evs).cuts| + 1
    ensures CutFor(evs + [ev], |evs|, |Run(evs).cuts|)
  {
    assert (evs + [ev])[..|evs|] == evs;
    if ev.Check? {
      CheckCutsIffOverfull(Run(evs), ev.p);
    } else {
      NoEmbedStranded(evs);
      RunStartedDue(evs);
    }
  }

  lemma CutForLonger(evs: seq<Event>, ev: Event, k: nat, i: nat)
    requires k < |evs| && i < |Run(evs).cuts| && CutFor(evs, k, i)
    ensures (evs + [ev])[..|evs|] == evs && Run(evs).cuts <= Run(evs + [ev]).cuts
    ensures CutFor(evs + [ev], k, i)
  {
    assert (evs + [ev])[..|evs|] == evs && (evs + [ev])[..k] == evs[..k];
  }

  /** In every run no batch is cut while there is room, before a timer runs out. */
  lemma {:induction false} NoBatchCutEarly(evs: seq<Event>, i: nat) returns (k: nat)
    requires i < |Run(evs).cuts|
    ensures k < |evs| && CutFor(evs, k, i)
  {
    var p, ev := evs[..|evs| - 1], evs[|evs| - 1];
    assert evs == p + [ev];
    if i < |Run(p).cuts| {
      k := NoBatchCutEarly(p, i);
      CutForLonger(p, ev, k, i);
    } else {
      k := |p|;
      NewestCut(p, ev);
    }
  }

  lemma RunSnoc(evs: seq<Event>, ev: Event)
    ensures Run(evs + [ev]) == Next(Run(evs), ev)
  {
    assert (evs + [ev])[..|evs|] == evs;
  }

  /** One embed is appended to a new queue at time zero. */
  lemma FirstEmbed(wh: WebhookId, e: Embed)
    requires Length(e) < 6000
    ensures Run([Arrive(0, wh, e)] + [Check(0)] + [Append(0)]) ==
            System(0, 1, map[wh := Queue([e], Some(0), None)], map[0 := Armed(wh, 5000)], map[], [], [])
  {
    RunSnoc([], Arrive(0, wh, e));
    assert [] + [Arrive(0, wh, e)] == [Arrive(0, wh, e)];
    assert Run([Arrive(0, wh, e)]) == INITIAL.(queues := map[wh := Queue([], None, None)],
                                               procs := map[0 := AtLock(wh, e)]);
    RunSnoc([Arrive(0, wh, e)], Check(0));
    var s := Run([Arrive(0, wh, e)] + [Check(0)]);
    assert s == INITIAL.(queues := map[wh := Queue([], None, Some(0))], procs := map[0 := Holding(wh, e)]);
    RunSnoc([Arrive(0, wh, e)] + [Check(0)], Append(0));
    assert map[0 := Holding(wh, e)] - {0} == map[] && [] + [e] == [e];
  }

  /** When a timer has expired and its callback waits for the lock, an embed that cuts the buffer stops the timer too
      late. */
  lemma LateStop(evs: seq<Event>, wh: WebhookId, d: Embed, e: Embed)
    requires Run(evs) == System(0, 1, map[wh := Queue([d], Some(0), None)], map[0 := Armed(wh, 5000)], map[], [], [])
    requires Length(d) + Length(e) >= 6000
    ensures Run(evs + [Tick(5000)] + [Expire(0)] + [Arrive(0, wh, e)] + [Check(0)] + [Append(0)]) ==
            System(5000, 2, map[wh := Queue([e], Some(1), None)], map[0 := Waiting(wh, 5000), 1 := Armed(wh, 10000)],
                   map[], [(wh, [d])], [(0, [d])])
  {
    var evs1 := evs + [Tick(5000)];
    RunSnoc(evs, Tick(5000));
    var evs2 := evs1 + [Expire(0)];
    RunSnoc(evs1, Expire(0));
    var s2 := System(5000, 1, map[wh := Queue([d], Some(0), None)], map[0 := Waiting(wh, 5000)], map[], [], []);
    assert Run(evs2) == s2;
    var evs3 := evs2 + [Arrive(0, wh, e)];
    RunSnoc(evs2, Arrive(0, wh, e));
    assert Run(evs3) == s2.(procs := map[0 := AtLock(wh, e)]);
    RunSnoc(evs3, Check(0));
    assert TotalLength([d]) == Length(d);
    assert Run(evs3 + [Check(0)]) ==
           s2.(procs := map[0 := Holding(wh, e)], queues := map[wh := Queue([], None, Some(0))], cuts := [(wh, [d])],
               sent := [(0, [d])]);
    RunSnoc(evs3 + [Check(0)], Append(0));
    assert map[0 := Holding(wh, e)] - {0} == map[] && [] + [e] == [e];
  }

  /** The callback of a timer that was stopped too late cuts the next buffer, here in the moment it is begun, whatever
      room is left in it. */
  lemma StaleTimerCutsEarly(wh: WebhookId, d: Embed, e: Embed) returns (evs: seq<Event>)
    requires Length(d) < 6000 && Length(e) < 6000 && Length(d) + Length(e) >= 6000
    ensures Run(evs).cuts == [(wh, [d]), (wh, [e])] && Run(evs).now == 5000
  {
    var first := [Arrive(0, wh, d)] + [Check(0)] + [Append(0)];
    FirstEmbed(wh, d);
    LateStop(first, wh, d, e);
    evs := first + [Tick(5000)] + [Expire(0)] + [Arrive(0, wh, e)] + [Check(0)] + [Append(0)];
    RunSnoc(evs, Fire(0));
    evs := evs + [Fire(0)];
  }

  /** An empty batch is handed off exactly when an embed of 6000 characters or more meets an empty buffer. */
  lemma EmptyBatchIffOversized(s: System, ev: Event)
    requires Enabled(s, ev)
    ensures var t := Step(s, ev);
            (|t.cuts| > |s.cuts| && t.cuts[|s.cuts|].1 == []) <==>
            (ev.Check? && s.queues[s.procs[ev.p].wh].buffer == [] && Length(s.procs[ev.p].embed) >= TOTAL_LIMIT)
  {
  }

  /** Every embed that arrives has at most this many characters. */
  ghost predicate ArriveWithin(evs: seq<Event>, bound: nat) {
    forall ev | ev in evs && ev.Arrive? :: Length(ev.embed) <= bound
  }

  ghost predicate NoEmptyCut(s: System) {
    forall i | 0 <= i < |s.cuts| :: s.cuts[i].1 != []
  }

  ghost predicate ProcsWithin(s: System, bound: nat) {
    forall p | p in s.procs :: Length(s.procs[p].embed) <= bound
  }

  lemma StepCutsNoEmpty(s: System, ev: Event, bound: nat)
    requires Enabled(s, ev) && NoEmptyCut(s) && ProcsWithin(s, bound) && bound < TOTAL_LIMIT
    requires ev.Arrive? ==> Length(ev.embed) <= bound
    ensures NoEmptyCut(Step(s, ev)) && ProcsWithin(Step(s, ev), bound)
  {
    EmptyBatchIffOversized(s, ev);
    var t := Step(s, ev);
    forall p | p in t.procs ensures Length(t.procs[p].embed) <= bound {
      assert p in s.procs ==> Length(s.procs[p].embed) <= bound;
    }
  }

  lemma {:induction false} SmallEmbedsCutNoEmpty(evs: seq<Event>, bound: nat)
    requires bound < TOTAL_LIMIT && ArriveWithin(evs, bound)
    ensures NoEmptyCut(Run(evs)) && ProcsWithin(Run(evs), bound)
  {
    if evs != [] {
      var ev := evs[|evs| - 1];
      assert ev in evs;
      SmallEmbedsCutNoEmpty(evs[..|evs| - 1], bound);
      if Enabled(Run(evs[..|evs| - 1]), ev) {
        StepCutsNoEmpty(Run(evs[..|evs| - 1]), ev, bound);
      }
    }
  }

  /** One embed of 6000 characters or more is enough: it meets an empty buffer, and an empty batch is cut. */
  lemma OversizedCutsEmpty(wh: WebhookId, e: Embed)
    requires Length(e) >= TOTAL_LIMIT
    ensures Run([Arrive(0, wh, e), Check(0)]).cuts == [(wh, [])]
  {
    var one, evs := [Arrive(0, wh, e)], [Arrive(0, wh, e), Check(0)];
    assert evs[..1] == one && one[..0] == [];
    var s := Run(one);
    assert Run([]) == INITIAL && s == Next(INITIAL, Arrive(0, wh, e));
    assert s.procs[0] == AtLock(wh, e) && s.queues[wh] == Queue([], None, None);
    assert TotalLength([]) == 0;
  }

  /** No run cuts an empty batch, whatever embeds up to the bound arrive, exactly when the bound is below 6000. */
  lemma NoEmptyBatchIff(bound: nat)
    ensures (forall evs | ArriveWithin(evs, bound) :: NoEmptyCut(Run(evs))) <==> bound < TOTAL_LIMIT
  {
    if bound < TOTAL_LIMIT {
      forall evs | ArriveWithin(evs, bound) ensures NoEmptyCut(Run(evs)) {
        SmallEmbedsCutNoEmpty(evs, bound);
      }
    } else {
      var e := Embed(seq(bound, _ => 'a'), "", "", "", []);
      assert Length(e) == bound;
      OversizedCutsEmpty(0, e);
      var evs := [Arrive(0, 0, e), Check(0)];
      assert ArriveWithin(evs, bound) && Run(evs).cuts[0].1 == [];
    }
  }

  // ---- every cut batch is sent once ----

  /** Cut i has been sent, with its own embeds. */
  predicate Sent(s: System, i: nat) {
    i < |s.cuts| && (i, s.cuts[i].1) in s.sent
  }

  /** A running callback still has cut i to send. */
  ghost predicate BeingSent(s: System, i: nat) {
    exists t :: t in s.callbacks && s.callbacks[t].Sending? && s.callbacks[t].index == i
  }

  /** Entry k of sent belongs to a cut, carries its embeds, and no earlier entry does. */
  ghost predicate SentRight(s: System, k: nat)
    requires k < |s.sent|
  {
    var (i, batch) := s.sent[k];
    i < |s.cuts| && batch == s.cuts[i].1 && forall j | 0 <= j < k :: s.sent[j].0 != i
  }

  /** A sending callback holds a cut of its webhook that has not been sent. */
  ghost predicate DeliversOwnBatch(s: System, t: TimerId)
    requires t in s.callbacks
  {
    s.callbacks[t].Sending? ==>
      var i := s.callbacks[t].index;
      i < |s.cuts| && s.cuts[i] == (s.callbacks[t].wh, s.callbacks[t].batch)
      && forall k | 0 <= k < |s.sent| :: s.sent[k].0 != i
  }

  ghost predicate DifferentBatches(s: System, t: TimerId, u: TimerId)
    requires t in s.callbacks && u in s.callbacks
  {
    s.callbacks[t].Sending? && s.callbacks[u].Sending? ==> s.callbacks[t].index != s.callbacks[u].index
  }

  ghost predicate SendsMatchCuts(s: System) {
    && (forall i | 0 <= i < |s.cuts| :: Sent(s, i) || BeingSent(s, i))
    && (forall k | 0 <= k < |s.sent| :: SentRight(s, k))
    && (forall t | t in s.callbacks :: DeliversOwnBatch(s, t))
    && (forall t, u | t in s.callbacks && u in s.callbacks && t != u :: DifferentBatches(s, t, u))
  }

  lemma StepKeepsCutsCovered(s: System, ev: Event)
    requires Enabled(s, ev) && SendsMatchCuts(s)
    requires forall t | t in s.callbacks :: t < s.nextTimer
    ensures var r := Step(s, ev); forall i | 0 <= i < |r.cuts| :: Sent(r, i) || BeingSent(r, i)
  {
    var r := Step(s, ev);
    forall i | 0 <= i < |r.cuts| ensures Sent(r, i) || BeingSent(r, i) {
      if i < |s.cuts| {
        assert Sent(s, i) || BeingSent(s, i);
        if Sent(s, i) {
          assert r.cuts[i] == s.cuts[i] && forall x | x in s.sent :: x in r.sent;
        } else {
          var t :| t in s.callbacks && s.callbacks[t].Sending? && s.callbacks[t].index == i;
          if ev == Deliver(t) {
            assert r.sent[|s.sent|] == (i, s.callbacks[t].batch);
            assert DeliversOwnBatch(s, t);
          } else {
            assert t in r.callbacks && r.callbacks[t] == s.callbacks[t];
          }
        }
      } else if ev.Fire? {
        assert ev.t in r.callbacks && r.callbacks[ev.t].index == i;
      } else {
        assert r.sent[|s.sent|] == (i, r.cuts[i].1);
      }
    }
  }

  lemma SentIndexesBelow(s: System)
    requires SendsMatchCuts(s)
    ensures forall k | 0 <= k < |s.sent| :: s.sent[k].0 < |s.cuts|
  {
    forall k | 0 <= k < |s.sent| ensures s.sent[k].0 < |s.cuts| {
      assert SentRight(s, k);
    }
  }

  lemma StepKeepsSentRight(s: System, ev: Event, k: nat)
    requires Enabled(s, ev) && SendsMatchCuts(s) && k < |Step(s, ev).sent|
    ensures SentRight(Step(s, ev), k)
  {
    SentIndexesBelow(s);
    if k < |s.sent| {
      assert SentRight(s, k);
    } else if ev.Deliver? {
      assert DeliversOwnBatch(s, ev.t);
    }
  }

  lemma StepKeepsDeliveries(s: System, ev: Event, t: TimerId)
    requires Enabled(s, ev) && SendsMatchCuts(s) && t in Step(s, ev).callbacks
    ensures DeliversOwnBatch(Step(s, ev), t)
  {
    SentIndexesBelow(s);
    if t in s.callbacks {
      assert DeliversOwnBatch(s, t);
      if ev.Deliver? {
        assert DifferentBatches(s, t, ev.t);
      }
    }
  }

  lemma StepKeepsDifferent(s: System, ev: Event, t: TimerId, u: TimerId)
    requires Enabled(s, ev) && SendsMatchCuts(s)
    requires t in Step(s, ev).callbacks && u in Step(s, ev).callbacks && t != u
    ensures DifferentBatches(Step(s, ev), t, u)
  {
    if t in s.callbacks && u in s.callbacks {
      assert DifferentBatches(s, t, u) && DeliversOwnBatch(s, t) && DeliversOwnBatch(s, u);
    }
  }

  lemma StepKeepsSends(s: System, ev: Event)
    requires Enabled(s, ev) && SendsMatchCuts(s)
    requires forall t | t in s.callbacks :: t < s.nextTimer
    ensures SendsMatchCuts(Step(s, ev))
  {
    StepKeepsCutsCovered(s, ev);
    var r := Step(s, ev);
    forall k | 0 <= k < |r.sent| ensures SentRight(r, k) {
      StepKeepsSentRight(s, ev, k);
    }
    forall t | t in r.callbacks ensures DeliversOwnBatch(r, t) {
      StepKeepsDeliveries(s, ev, t);
    }
    forall t, u | t in r.callbacks && u in r.callbacks && t != u ensures DifferentBatches(r, t, u) {
      StepKeepsDifferent(s, ev, t, u);
    }
  }

  /** In every run each cut batch is sent with its own embeds exactly once, or is still held by one callback. */
  lemma {:induction false} EveryBatchSentOnce(evs: seq<Event>)
    ensures SendsMatchCuts(Run(evs))
  {
    if evs != [] {
      var s, ev := Run(evs[..|evs| - 1]), evs[|evs| - 1];
      EveryBatchSentOnce(evs[..|evs| - 1]);
      NoEmbedStranded(evs[..|evs| - 1]);
      if Enabled(s, ev) {
        StepKeepsSends(s, ev);
      }
    }
  }

  // ---- draining ----

  /** From a state, the system after more events. */
  function RunFrom(s: System, evs: seq<Event>): System
    decreases |evs|
  {
    if evs == [] then s else RunFrom(Next(s, evs[0]), evs[1..])
  }

  /** The lock holder finishes: the queue is unlocked, nothing is cut, no time passes. */
  lemma HolderFinishes(s: System, wh: WebhookId)
    requires wh in s.queues && s.queues[wh].buffer != [] && TimersGuard(s) && Bounded(s) && s.queues[wh].lock.Some?
    ensures var t := Next(s, Append(s.queues[wh].lock.value));
            && wh in t.queues && t.queues[wh].timer == s.queues[wh].timer && t.queues[wh].lock == None
            && s.queues[wh].buffer <= t.queues[wh].buffer
            && t.callbacks == s.callbacks && t.cuts == s.cuts && t.now == s.now
  {
    assert LockHasProc(s, wh) && TimerGuards(s, wh);
    var p := s.queues[wh].lock.value;
    assert ProcHoldsLock(s, p);
  }

  /** An armed timer can be waited for: its callback is then waiting for the lock. */
  lemma TimerExpires(s: System, id: TimerId)
    requires id in s.callbacks && s.callbacks[id].Armed?
    ensures var c := s.callbacks[id];
            var t := Next(Next(s, Tick(if c.deadline > s.now then c.deadline - s.now else 0)), Expire(id));
            && t.queues == s.queues && t.cuts == s.cuts && id in t.callbacks
            && t.callbacks[id] == Waiting(c.wh, c.deadline)
            && (t.now == s.now || t.now == c.deadline)
  {
  }

  lemma {:induction false} RunFromAppend(s: System, a: seq<Event>, b: seq<Event>)
    ensures RunFrom(s, a + b) == RunFrom(RunFrom(s, a), b)
    decreases |a|
  {
    if a == [] {
      assert a + b == b;
    } else {
      assert (a + b)[1..] == a[1..] + b;
      RunFromAppend(Next(s, a[0]), a[1..], b);
    }
  }

  lemma RunFromOne(s: System, ev: Event)
    ensures RunFrom(s, [ev]) == Next(s, ev)
  {
  }

  lemma RunFromTwo(s: System, a: Event, b: Event)
    ensures RunFrom(s, [a, b]) == Next(Next(s, a), b)
  {
    assert [a, b][1..] == [b];
    RunFromOne(Next(s, a), b);
  }

  lemma FireCuts(s: System, wh: WebhookId, id: TimerId)
    requires wh in s.queues && s.queues[wh].lock == None && s.queues[wh].buffer != []
    requires id in s.callbacks && s.callbacks[id].Waiting? && s.callbacks[id].wh == wh
    ensures var t := Next(s, Fire(id));
            Buffer(t, wh) == [] && t.cuts == s.cuts + [(wh, s.queues[wh].buffer)] && t.now == s.now
  {
  }

  ghost function Finish(s: System, wh: WebhookId): seq<Event>
    requires wh in s.queues
  {
    if s.queues[wh].lock.Some? then [Append(s.queues[wh].lock.value)] else []
  }

  ghost function Wait(s: System, id: TimerId): seq<Event>
    requires id in s.callbacks
  {
    var c := s.callbacks[id];
    if c.Armed? then [Tick(if c.deadline > s.now then c.deadline - s.now else 0), Expire(id)] else []
  }

  /** The events that empty a queue: let the lock holder finish, wait for the timer, run its callback. */
  ghost function Drain(s: System, wh: WebhookId): seq<Event>
    requires wh in s.queues && s.queues[wh].timer.Some? && s.queues[wh].timer.value in s.callbacks
  {
    var id := s.queues[wh].timer.value;
    Finish(s, wh) + Wait(s, id) + [Fire(id)]
  }

  lemma FinishUnlocks(s: System, wh: WebhookId)
    requires wh in s.queues && s.queues[wh].buffer != [] && TimersGuard(s) && Bounded(s)
    ensures var t := RunFrom(s, Finish(s, wh));
            && wh in t.queues && t.queues[wh].timer == s.queues[wh].timer && t.queues[wh].lock == None
            && s.queues[wh].buffer <= t.queues[wh].buffer
            && t.callbacks == s.callbacks && t.cuts == s.cuts && t.now == s.now
  {
    if s.queues[wh].lock.Some? {
      HolderFinishes(s, wh);
      RunFromOne(s, Append(s.queues[wh].lock.value));
    }
  }

  lemma WaitStarts(s: System, id: TimerId)
    requires id in s.callbacks && Pending(s.callbacks[id])
    ensures var t := RunFrom(s, Wait(s, id));
            && t.queues == s.queues && t.cuts == s.cuts && id in t.callbacks
            && t.callbacks[id] == Waiting(s.callbacks[id].wh, s.callbacks[id].deadline)
            && (t.now == s.now || t.now == s.callbacks[id].deadline)
  {
    if s.callbacks[id].Armed? {
      TimerExpires(s, id);
      RunFromTwo(s, Wait(s, id)[0], Expire(id));
    }
  }

  /** wh's buffer has been emptied into one new batch that starts with what it held. */
  ghost predicate Drained(s: System, t: System, wh: WebhookId) {
    && Buffer(t, wh) == []
    && |t.cuts| == |s.cuts| + 1 && t.cuts[|s.cuts|].0 == wh && Buffer(s, wh) <= t.cuts[|s.cuts|].1
  }

  lemma DrainPhases(s: System, s1: System, s2: System, wh: WebhookId, id: TimerId)
    requires wh in s.queues && s.queues[wh].buffer != [] && TimersGuard(s) && Bounded(s)
    requires s.queues[wh].timer == Some(id) && id in s.callbacks
    requires s1 == RunFrom(s, Finish(s, wh)) && s2 == RunFrom(s1, Wait(s, id))
    ensures Drained(s, Next(s2, Fire(id)), wh)
    ensures Next(s2, Fire(id)).now == s.now || Next(s2, Fire(id)).now == s.callbacks[id].deadline
  {
    assert TimerGuards(s, wh);
    FinishUnlocks(s, wh);
    assert Wait(s1, id) == Wait(s, id);
    WaitStarts(s1, id);
    FireCuts(s2, wh, id);
  }

  lemma DrainEmpties(s: System, wh: WebhookId)
    requires wh in s.queues && s.queues[wh].buffer != [] && TimersGuard(s) && Bounded(s)
    requires s.queues[wh].timer.Some? && s.queues[wh].timer.value in s.callbacks
    ensures Drained(s, RunFrom(s, Drain(s, wh)), wh)
    ensures var now := RunFrom(s, Drain(s, wh)).now;
            now == s.now || now == s.callbacks[s.queues[wh].timer.value].deadline
  {
    var id := s.queues[wh].timer.value;
    var s1 := RunFrom(s, Finish(s, wh));
    var s2 := RunFrom(s1, Wait(s, id));
    DrainPhases(s, s1, s2, wh, id);
    RunFromOne(s2, Fire(id));
    RunFromAppend(s, Finish(s, wh) + Wait(s, id), [Fire(id)]);
    RunFromAppend(s, Finish(s, wh), Wait(s, id));
  }

  /** From every reachable state a non-empty buffer can be cut as one batch, no later than its timer's deadline. */
  lemma BufferDrains(evs: seq<Event>, wh: WebhookId)
    requires Buffer(Run(evs), wh) != []
    ensures var s := Run(evs);
            && wh in s.queues && s.queues[wh].timer.Some? && s.queues[wh].timer.value in s.callbacks
            && Drained(s, RunFrom(s, Drain(s, wh)), wh)
            && (var now := RunFrom(s, Drain(s, wh)).now; now == s.now || now == FirstAppend(evs, wh) + 5000)
  {
    NoEmbedStranded(evs);
    EveryBatchFits(evs);
    assert TimerGuards(Run(evs), wh);
    DrainEmpties(Run(evs), wh);
  }
}
