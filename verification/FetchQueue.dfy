/** Per-shard queues of guilds whose members and invites still have to be fetched
    (logging/cache/fetch_queue.go, logging/cache/guild_create.go). */
module FetchQueue {
  import opened Common

  type Shard = nat
  type Guild = Snowflake
  type Queues = map<Shard, set<Guild>>

  function Queue(t: Queues, s: Shard): set<Guild> {
    if s in t then t[s] else {}
  }

  function Add(t: Queues, s: Shard, g: Guild): Queues {
    t[s := Queue(t, s) + {g}]
  }

  function Remove(t: Queues, s: Shard, g: Guild): Queues {
    if s in t then t[s := t[s] - {g}] else t
  }

  lemma RemoveFromEmpty(t: Queues, s: Shard, g: Guild)
    ensures Queue(t, s) == {} ==> Remove(t, s, g) == t
  {
    assert {} - {g} == {};
    assert Queue(t, s) == {} && s in t ==> t[s] - {g} == t[s];
  }

  /** What one pop may return: some member of the queue, or the zero guild when it is empty. */
  predicate Poppable(t: Queues, s: Shard, g: Guild) {
    if Queue(t, s) == {} then g == 0 else g in Queue(t, s)
  }

  datatype InviteReply = Fetched | Forbidden | Failed

  // ---- fetches of all shards interleaved ----

  datatype Fetch =
    | Sending(shard: Shard, member: Guild, invite: Guild)
    | Inviting(shard: Shard, member: Guild, invite: Guild)
    | Done

  datatype System = System(members: Queues, invites: Queues, fetches: seq<Fetch>, requested: seq<(Shard, Guild)>)

  const INITIAL: System := System(map[], map[], [], [])

  datatype Label =
    | Create(shard: Shard, guild: Guild)
    | Begin(shard: Shard, member: Guild, invite: Guild)
    | Send(fetch: nat, accepted: bool)
    | Invite(fetch: nat, reply: InviteReply)

  ghost predicate Enabled(s: System, l: Label) {
    match l
    case Create(_, _) => true
    case Begin(sh, m, i) => Poppable(s.members, sh, m) && Poppable(s.invites, sh, i)
    case Send(f, _) => f < |s.fetches| && s.fetches[f].Sending?
    case Invite(f, _) => f < |s.fetches| && s.fetches[f].Inviting?
  }

  /** A disabled label leaves the system as it is. */
  ghost function Next(s: System, l: Label): System {
    if !Enabled(s, l) then s
    else
      match l
      case Create(sh, g) => s.(members := Add(s.members, sh, g), invites := Add(s.invites, sh, g))
      case Begin(sh, m, i) =>
        s.(members := Remove(s.members, sh, m), invites := Remove(s.invites, sh, i),
           fetches := s.fetches + [Sending(sh, m, i)])
      case Send(f, accepted) =>
        var Sending(sh, m, i) := s.fetches[f];
        var t := s.(fetches := s.fetches[f := Inviting(sh, m, i)]);
        if !IsValid(m) then t
        else if accepted then t.(requested := s.requested + [(sh, m)])
        else t.(members := Add(s.members, sh, m))
      case Invite(f, reply) =>
        var Inviting(sh, m, i) := s.fetches[f];
        var t := s.(fetches := s.fetches[f := Done]);
        // the invite queue gets the guild whose members were requested back, as the code has it
        if IsValid(i) && reply == Failed then t.(invites := Add(s.invites, sh, m)) else t
  }

  ghost function Run(ls: seq<Label>): System {
    if ls == [] then INITIAL else Next(Run(ls[..|ls| - 1]), ls[|ls| - 1])
  }

  /** How often the guild was queued by guildCreate. */
  function Creates(ls: seq<Label>, sh: Shard, g: Guild): nat {
    if ls == [] then 0 else Creates(ls[..|ls| - 1], sh, g) + if ls[|ls| - 1] == Create(sh, g) then 1 else 0
  }

  /** How often a fetch popped the guild. */
  ghost function Pops(ls: seq<Label>, sh: Shard, g: Guild): nat {
    if ls == [] then 0
    else
      var l := ls[|ls| - 1];
      Pops(ls[..|ls| - 1], sh, g)
      + if l.Begin? && l.shard == sh && l.member == g && Enabled(Run(ls[..|ls| - 1]), l) then 1 else 0
  }

  /** How often a failed request put the guild back. */
  ghost function Returns(ls: seq<Label>, sh: Shard, g: Guild): nat {
    if ls == [] then 0
    else
      var s, l := Run(ls[..|ls| - 1]), ls[|ls| - 1];
      Returns(ls[..|ls| - 1], sh, g)
      + if l.Send? && Enabled(s, l) && !l.accepted && Holds(s.fetches[l.fetch], sh, g) then 1 else 0
  }

  predicate Holds(f: Fetch, sh: Shard, g: Guild) {
    f.Sending? && f.shard == sh && f.member == g
  }

  function Held(fs: seq<Fetch>, sh: Shard, g: Guild): nat {
    if fs == [] then 0 else (if Holds(fs[0], sh, g) then 1 else 0) + Held(fs[1..], sh, g)
  }

  function Requests(r: seq<(Shard, Guild)>, sh: Shard, g: Guild): nat {
    if r == [] then 0 else Requests(r[..|r| - 1], sh, g) + if r[|r| - 1] == (sh, g) then 1 else 0
  }

  function Queued(s: System, sh: Shard, g: Guild): nat {
    if g in Queue(s.members, sh) then 1 else 0
  }

  lemma {:induction false} HeldUpdate(fs: seq<Fetch>, i: nat, f: Fetch, sh: Shard, g: Guild)
    requires i < |fs|
    ensures Held(fs[i := f], sh, g)
         == Held(fs, sh, g) - (if Holds(fs[i], sh, g) then 1 else 0) + if Holds(f, sh, g) then 1 else 0
  {
    if i == 0 {
      assert fs[i := f][1..] == fs[1..];
    } else {
      assert fs[i := f][1..] == fs[1..][i - 1 := f];
      HeldUpdate(fs[1..], i - 1, f, sh, g);
    }
  }

  lemma {:induction false} HeldAppend(fs: seq<Fetch>, f: Fetch, sh: Shard, g: Guild)
    ensures Held(fs + [f], sh, g) == Held(fs, sh, g) + if Holds(f, sh, g) then 1 else 0
  {
    if fs != [] {
      assert (fs + [f])[1..] == fs[1..] + [f];
      HeldAppend(fs[1..], f, sh, g);
    }
  }

  /** Where the guild is: queued, held by a running fetch, or requested, with multiplicity. */
  ghost function Places(s: System, sh: Shard, g: Guild): nat {
    Queued(s, sh, g) + Held(s.fetches, sh, g) + Requests(s.requested, sh, g)
  }

  /** One step keeps a valid guild in place, or adds it where guildCreate says so. */
  lemma StepKeepsPlaces(s: System, l: Label, sh: Shard, g: Guild)
    requires IsValid(g)
    ensures var p, q := Places(s, sh, g), Places(Next(s, l), sh, g);
            && (if l == Create(sh, g) then p <= q <= p + 1 && q > 0 else q <= p)
            && (p > 0 ==> q > 0)
  {
    if Enabled(s, l) {
      match l
      case Create(_, _) =>
      case Begin(a, m, i) => HeldAppend(s.fetches, Sending(a, m, i), sh, g);
      case Send(f, _) =>
        var Sending(a, m, i) := s.fetches[f];
        HeldUpdate(s.fetches, f, Inviting(a, m, i), sh, g);
        assert (s.requested + [(a, m)])[..|s.requested|] == s.requested;
      case Invite(f, _) => HeldUpdate(s.fetches, f, Done, sh, g);
    }
  }

  /** Every valid guild ever queued is queued, held by a running fetch, or has had its request accepted; and it is in no
      more places than it was queued times. */
  lemma {:induction false} NoGuildLost(ls: seq<Label>, sh: Shard, g: Guild)
    requires IsValid(g)
    ensures Creates(ls, sh, g) > 0 ==> Places(Run(ls), sh, g) > 0
    ensures Places(Run(ls), sh, g) <= Creates(ls, sh, g)
  {
    if ls != [] {
      NoGuildLost(ls[..|ls| - 1], sh, g);
      StepKeepsPlaces(Run(ls[..|ls| - 1]), ls[|ls| - 1], sh, g);
    }
  }

  /** Every pop of a valid guild is accounted for: accepted, still held, or returned. */
  lemma {:induction false} PopsAccounted(ls: seq<Label>, sh: Shard, g: Guild)
    requires IsValid(g)
    ensures Pops(ls, sh, g) == Requests(Run(ls).requested, sh, g) + Held(Run(ls).fetches, sh, g) + Returns(ls, sh, g)
  {
    if ls != [] {
      var s, l := Run(ls[..|ls| - 1]), ls[|ls| - 1];
      PopsAccounted(ls[..|ls| - 1], sh, g);
      if Enabled(s, l) {
        match l
        case Create(_, _) =>
        case Begin(a, m, i) => HeldAppend(s.fetches, Sending(a, m, i), sh, g);
        case Send(f, _) =>
          var Sending(a, m, i) := s.fetches[f];
          HeldUpdate(s.fetches, f, Inviting(a, m, i), sh, g);
          assert (s.requested + [(a, m)])[..|s.requested|] == s.requested;
        case Invite(f, _) => HeldUpdate(s.fetches, f, Done, sh, g);
      }
    }
  }

  /** No guild is popped again unless guildCreate or a failed request queued it again. */
  lemma {:induction false} NoPopWithoutReadding(ls: seq<Label>, sh: Shard, g: Guild)
    requires IsValid(g)
    ensures Pops(ls, sh, g) + Queued(Run(ls), sh, g) <= Creates(ls, sh, g) + Returns(ls, sh, g)
  {
    NoGuildLost(ls, sh, g);
    PopsAccounted(ls, sh, g);
  }

  /** A step touches the queues of its own shard only. */
  lemma OtherShardsUntouched(s: System, l: Label, sh: Shard)
    requires match l
             case Create(a, _) => a != sh
             case Begin(a, _, _) => a != sh
             case Send(f, _) => f < |s.fetches| && s.fetches[f].Sending? ==> s.fetches[f].shard != sh
             case Invite(f, _) => f < |s.fetches| && s.fetches[f].Inviting? ==> s.fetches[f].shard != sh
    ensures Queue(Next(s, l).members, sh) == Queue(s.members, sh)
    ensures Queue(Next(s, l).invites, sh) == Queue(s.invites, sh)
  {
  }

  // ---- where the code does not conserve ----

  /** A popped guild survives a refused request exactly when its ID is valid; an invalid one is dropped. */
  lemma RefusedRequestReturnsIffValid(s: System, f: nat)
    requires f < |s.fetches| && s.fetches[f].Sending?
    ensures var Sending(sh, m, _) := s.fetches[f];
            m in Queue(Next(s, Send(f, false)).members, sh) <==> IsValid(m) || m in Queue(s.members, sh)
  {
  }

  /** A failed invite request puts the popped invite guild back exactly when the same guild's members were popped too;
      any other reply puts nothing back. */
  lemma FailedInviteReturnsIffSameGuild(s: System, f: nat)
    requires f < |s.fetches| && s.fetches[f].Inviting? && IsValid(s.fetches[f].invite)
    ensures var Inviting(sh, m, i) := s.fetches[f];
            i in Queue(Next(s, Invite(f, Failed)).invites, sh) <==> m == i || i in Queue(s.invites, sh)
    ensures forall reply | reply == Fetched || reply == Forbidden :: Next(s, Invite(f, reply)).invites == s.invites
  {
  }

  predicate HoldsInvite(f: Fetch, sh: Shard, g: Guild) {
    (f.Sending? || f.Inviting?) && f.shard == sh && f.invite == g
  }

  /** The label ends an invite request for the guild with this reply. */
  ghost predicate Replies(s: System, l: Label, sh: Shard, g: Guild, failed: bool) {
    l.Invite? && Enabled(s, l) && HoldsInvite(s.fetches[l.fetch], sh, g) && (l.reply == Failed) == failed
  }

  /** An invite request for the guild was answered, with a list or a refusal. */
  ghost predicate Answered(ls: seq<Label>, sh: Shard, g: Guild) {
    ls != [] && (Answered(ls[..|ls| - 1], sh, g) || Replies(Run(ls[..|ls| - 1]), ls[|ls| - 1], sh, g, false))
  }

  /** Whenever an invite request for the guild failed, its members had been popped by the same fetch. */
  ghost predicate FailuresMatch(ls: seq<Label>, sh: Shard, g: Guild) {
    ls != [] ==>
      var s, l := Run(ls[..|ls| - 1]), ls[|ls| - 1];
      FailuresMatch(ls[..|ls| - 1], sh, g) && (Replies(s, l, sh, g, true) ==> s.fetches[l.fetch].member == g)
  }

  /** The guild is queued for invites or held by a fetch. */
  ghost predicate InviteKept(s: System, sh: Shard, g: Guild) {
    g in Queue(s.invites, sh) || exists f :: 0 <= f < |s.fetches| && HoldsInvite(s.fetches[f], sh, g)
  }

  lemma StepKeepsInvite(s: System, l: Label, sh: Shard, g: Guild)
    requires IsValid(g) && (InviteKept(s, sh, g) || l == Create(sh, g))
    requires Replies(s, l, sh, g, true) ==> s.fetches[l.fetch].member == g
    ensures InviteKept(Next(s, l), sh, g) || Replies(s, l, sh, g, false)
  {
    var t := Next(s, l);
    if g in Queue(s.invites, sh) {
      if l.Begin? && Enabled(s, l) && l.shard == sh && l.invite == g {
        assert HoldsInvite(t.fetches[|s.fetches|], sh, g);
      }
    } else if l != Create(sh, g) {
      var f :| 0 <= f < |s.fetches| && HoldsInvite(s.fetches[f], sh, g);
      if !(l.Invite? && Enabled(s, l) && l.fetch == f) {
        assert HoldsInvite(t.fetches[f], sh, g);
      }
    }
  }

  /** If every failed invite request for a guild came from a fetch that had popped the guild's members too, then once
      queued the guild is queued for invites, held by a running fetch, or has had its request answered. */
  lemma {:induction false} NoInviteGuildLost(ls: seq<Label>, sh: Shard, g: Guild)
    requires IsValid(g) && FailuresMatch(ls, sh, g)
    ensures Creates(ls, sh, g) > 0 ==> InviteKept(Run(ls), sh, g) || Answered(ls, sh, g)
  {
    if ls != [] && Creates(ls, sh, g) > 0 {
      NoInviteGuildLost(ls[..|ls| - 1], sh, g);
      if !Answered(ls[..|ls| - 1], sh, g) {
        StepKeepsInvite(Run(ls[..|ls| - 1]), ls[|ls| - 1], sh, g);
      }
    }
  }

  lemma TwoGuildsQueued()
    ensures var s := Run([Create(0, 1), Create(0, 2)]);
            && 0 in s.members && s.members[0] == {1, 2} && 0 in s.invites && s.invites[0] == {1, 2}
            && s.fetches == [] && s.requested == []
  {
    var ls := [Create(0, 1), Create(0, 2)];
    assert ls[..1] == [Create(0, 1)] && ls[..1][..0] == [];
    assert Run(ls[..1]) == Next(INITIAL, Create(0, 1));
  }

  /** Two guilds, one pop of each queue, one failed invite request: guild 2 is in no invite queue any more. */
  lemma InviteGuildLost()
    ensures var s := Run([Create(0, 1), Create(0, 2), Begin(0, 1, 2), Send(0, true), Invite(0, Failed)]);
            Queue(s.invites, 0) == {1} && |s.fetches| == 1 && s.fetches[0] == Done
  {
    var ls := [Create(0, 1), Create(0, 2), Begin(0, 1, 2), Send(0, true), Invite(0, Failed)];
    assert ls[..4][..3] == ls[..3] && ls[..3][..2] == [Create(0, 1), Create(0, 2)];
    TwoGuildsQueued();
    var s3 := Run(ls[..3]);
    assert s3.fetches == [Sending(0, 1, 2)] && s3.invites[0] == {1};
    var s4 := Run(ls[..4]);
    assert s4.fetches == [Inviting(0, 1, 2)] && s4.invites[0] == {1};
  }

  // ---- the handlers' shared state ----

  class Bot {
    var guildsToFetchMembers: Queues
    var guildsToFetchInvites: Queues
    /** Chunk requests the gateway accepted, in order. */
    var requested: seq<(Shard, Guild)>

    constructor ()
      ensures guildsToFetchMembers == map[] && guildsToFetchInvites == map[] && requested == []
    {
      guildsToFetchMembers, guildsToFetchInvites, requested := map[], map[], [];
    }

    ghost function State(fetches: seq<Fetch>): System
      reads this
    {
      System(guildsToFetchMembers, guildsToFetchInvites, fetches, requested)
    }

    method AddToMemberFetchQueue(s: Shard, g: Guild)
      modifies this`guildsToFetchMembers
      ensures guildsToFetchMembers == Add(old(guildsToFetchMembers), s, g)
    {
      if s !in guildsToFetchMembers {
        guildsToFetchMembers := guildsToFetchMembers[s := {}];
      }
      guildsToFetchMembers := guildsToFetchMembers[s := guildsToFetchMembers[s] + {g}];
    }

    method AddToInviteFetchQueue(s: Shard, g: Guild)
      modifies this`guildsToFetchInvites
      ensures guildsToFetchInvites == Add(old(guildsToFetchInvites), s, g)
    {
      if s !in guildsToFetchInvites {
        guildsToFetchInvites := guildsToFetchInvites[s := {}];
      }
      guildsToFetchInvites := guildsToFetchInvites[s := guildsToFetchInvites[s] + {g}];
    }

    /** The part of guildCreate after the store calls; cached guilds are not queued. */
    method GuildCreate(s: Shard, g: Guild, isCached: bool)
      modifies this
      ensures forall fs :: State(fs) == if isCached then old(State(fs)) else Next(old(State(fs)), Create(s, g))
    {
      if isCached {
        return;
      }
      AddToMemberFetchQueue(s, g);
      AddToInviteFetchQueue(s, g);
    }

    /** The section under the lock at the start of fetchOneGuild. */
    method Pop(s: Shard) returns (memberFetchId: Guild, inviteFetchId: Guild)
      modifies this
      ensures Poppable(old(guildsToFetchMembers), s, memberFetchId)
      ensures Poppable(old(guildsToFetchInvites), s, inviteFetchId)
      ensures forall fs :: State(fs + [Sending(s, memberFetchId, inviteFetchId)])
                           == Next(old(State(fs)), Begin(s, memberFetchId, inviteFetchId))
    {
      memberFetchId, inviteFetchId := 0, 0;
      if s in guildsToFetchMembers && guildsToFetchMembers[s] != {} {
        memberFetchId := Element(guildsToFetchMembers[s]);
        guildsToFetchMembers := guildsToFetchMembers[s := guildsToFetchMembers[s] - {memberFetchId}];
      }
      if s in guildsToFetchInvites && guildsToFetchInvites[s] != {} {
        inviteFetchId := Element(guildsToFetchInvites[s]);
        guildsToFetchInvites := guildsToFetchInvites[s := guildsToFetchInvites[s] - {inviteFetchId}];
      }
      RemoveFromEmpty(old(guildsToFetchMembers), s, 0);
      RemoveFromEmpty(old(guildsToFetchInvites), s, 0);
    }

    /** A fetch that nothing interrupts: pop, send the chunk request, get the invites. */
    method FetchOneGuild(s: Shard, accepted: bool, reply: InviteReply)
      returns (memberFetchId: Guild, inviteFetchId: Guild)
      modifies this
      ensures Poppable(old(guildsToFetchMembers), s, memberFetchId)
      ensures Poppable(old(guildsToFetchInvites), s, inviteFetchId)
      ensures State([Done]) == Next(Next(Next(old(State([])), Begin(s, memberFetchId, inviteFetchId)),
                                         Send(0, accepted)), Invite(0, reply))
    {
      memberFetchId, inviteFetchId := Pop(s);
      assert [] + [Sending(s, memberFetchId, inviteFetchId)] == [Sending(s, memberFetchId, inviteFetchId)];
      if IsValid(memberFetchId) {
        if accepted {
          requested := requested + [(s, memberFetchId)];
        } else {
          AddToMemberFetchQueue(s, memberFetchId);
        }
      }
      assert [Sending(s, memberFetchId, inviteFetchId)][0 := Inviting(s, memberFetchId, inviteFetchId)]
          == [Inviting(s, memberFetchId, inviteFetchId)];
      assert [Inviting(s, memberFetchId, inviteFetchId)][0 := Done] == [Done];
      if IsValid(inviteFetchId) {
        if reply == Failed {
          AddToInviteFetchQueue(s, memberFetchId);
        }
      }
    }
  }
}
