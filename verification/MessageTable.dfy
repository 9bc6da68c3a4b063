/** The message table (db/message.go) as a map of rows. Encryption is left out: a row holds its texts in the clear. */
module MessageTable {
  import opened Common

  type MessageId = Snowflake
  type UserId = Snowflake
  type ChannelId = Snowflake
  type GuildId = Snowflake

  datatype Row = Row(original: Option<MessageId>, user: UserId, channel: ChannelId, guild: GuildId, content: string,
                     username: string, system: Option<string>, member: Option<string>, metadata: Option<string>)

  type Table = map<MessageId, Row>

  datatype Message = Message(id: MessageId, user: UserId, channel: ChannelId, guild: GuildId, content: string,
                             username: string, metadata: Option<string>)

  /** What PluralKit says about a proxied message. */
  datatype PKInfo = PKInfo(msg: MessageId, original: MessageId, user: UserId, system: string, member: string)

  /** Who a row is attributed to. */
  datatype Attribution =
    Attribution(user: UserId, original: Option<MessageId>, system: Option<string>, member: Option<string>)

  function AttributionOf(r: Row): Attribution {
    Attribution(r.user, r.original, r.system, r.member)
  }

  /** One statement executed on the table. */
  datatype Statement =
    | Nothing
    | Insert(m: Message)
    | UpdatePK(info: PKInfo)
    | Delete(id: MessageId)

  /** insert … on conflict (id) do update set content; update … where id; delete … where id. */
  function Execute(t: Table, s: Statement): Table {
    match s
    case Nothing => t
    case Insert(m) =>
      if m.id in t then t[m.id := t[m.id].(content := OrNone(m.content))]
      else t[m.id := Row(None, m.user, m.channel, m.guild, OrNone(m.content), m.username, None, None, m.metadata)]
    case UpdatePK(i) =>
      if i.msg in t then
        t[i.msg := t[i.msg].(original := Some(i.original), user := i.user, system := Some(i.system),
                             member := Some(i.member))]
      else t
    case Delete(id) => t - {id}
  }

  predicate HasPK(t: Table, id: MessageId) {
    exists k :: k in t && t[k].system.Some? && t[k].member.Some? && (k == id || t[k].original == Some(id))
  }

  /** The database; up tells whether the statement at hand succeeds. */
  class DB {
    var rows: Table

    constructor ()
      ensures rows == map[]
    {
      rows := map[];
    }

    method InsertMessage(m: Message, up: bool)
      modifies this
      ensures rows == if up then Execute(old(rows), Insert(m)) else old(rows)
    {
      var content := if m.content == "" then "None" else m.content;
      if up {
        if m.id in rows {
          rows := rows[m.id := rows[m.id].(content := content)];
        } else {
          rows := rows[m.id := Row(None, m.user, m.channel, m.guild, content, m.username, None, None, m.metadata)];
        }
      }
    }

    method UpdatePKInfo(i: PKInfo, up: bool)
      modifies this
      ensures rows == if up then Execute(old(rows), UpdatePK(i)) else old(rows)
    {
      if up && i.msg in rows {
        var r := rows[i.msg];
        rows := rows[i.msg := r.(original := Some(i.original), user := i.user, system := Some(i.system),
                                 member := Some(i.member))];
      }
    }

    method DeleteMessage(id: MessageId, up: bool)
      modifies this
      ensures rows == if up then Execute(old(rows), Delete(id)) else old(rows)
    {
      if up {
        rows := rows - {id};
      }
    }

    /** A failing query counts as no. */
    method HasPKInfo(id: MessageId, up: bool) returns (found: bool)
      ensures found == (up && HasPK(rows, id))
    {
      found := up && exists k :: k in rows && rows[k].system.Some? && rows[k].member.Some?
                                 && (k == id || rows[k].original == Some(id));
    }

    method GetMessage(id: MessageId, up: bool) returns (m: Option<Row>)
      ensures m == if up && id in rows then Some(rows[id]) else None
    {
      m := if up && id in rows then Some(rows[id]) else None;
    }
  }

  // ---- attribution ----

  /** Each row has both system and member or neither. */
  ghost predicate Paired(t: Table) {
    forall id | id in t :: t[id].system.Some? <==> t[id].member.Some?
  }

  lemma ExecuteKeepsPaired(t: Table, s: Statement)
    requires Paired(t)
    ensures Paired(Execute(t, s))
  {
  }

  /** A statement changes a row's attribution only by updating that ID, and removes a row only by deleting that ID. */
  lemma ExecuteKeepsAttribution(t: Table, s: Statement, id: MessageId)
    requires id in t
    ensures id in Execute(t, s) <==> s != Delete(id)
    ensures id in Execute(t, s) && !(s.UpdatePK? && s.info.msg == id) ==>
              AttributionOf(Execute(t, s)[id]) == AttributionOf(t[id])
  {
  }

  // ---- many statements ----

  function Replay(t: Table, ss: seq<Statement>): Table {
    if ss == [] then t else Execute(Replay(t, ss[..|ss| - 1]), ss[|ss| - 1])
  }

  lemma {:induction false} ReplayAppend(t: Table, a: seq<Statement>, b: seq<Statement>)
    ensures Replay(t, a + b) == Replay(Replay(t, a), b)
  {
    if b == [] {
      assert a + b == a;
    } else {
      var ab := a + b;
      assert ab[..|ab| - 1] == a + b[..|b| - 1];
      ReplayAppend(t, a, b[..|b| - 1]);
    }
  }

  lemma {:induction false} ReplayKeepsPaired(t: Table, ss: seq<Statement>)
    requires Paired(t)
    ensures Paired(Replay(t, ss))
  {
    if ss != [] {
      ReplayKeepsPaired(t, ss[..|ss| - 1]);
      ExecuteKeepsPaired(Replay(t, ss[..|ss| - 1]), ss[|ss| - 1]);
    }
  }

  /** Neither updates a row's PluralKit data nor deletes it. */
  predicate Leaves(s: Statement, id: MessageId) {
    !(s.UpdatePK? && s.info.msg == id) && s != Delete(id)
  }

  lemma {:induction false} ReplayKeepsAttribution(t: Table, ss: seq<Statement>, id: MessageId)
    requires id in t && forall s | s in ss :: Leaves(s, id)
    ensures id in Replay(t, ss) && AttributionOf(Replay(t, ss)[id]) == AttributionOf(t[id])
  {
    if ss != [] {
      ReplayKeepsAttribution(t, ss[..|ss| - 1], id);
      ExecuteKeepsAttribution(Replay(t, ss[..|ss| - 1]), ss[|ss| - 1], id);
      assert Leaves(ss[|ss| - 1], id);
    }
  }

  // ---- what the queries tell ----

  /** A PluralKit update makes its message and that message's trigger known. */
  lemma KnownAfterUpdate(t: Table, i: PKInfo)
    requires i.msg in t
    ensures HasPK(Execute(t, UpdatePK(i)), i.msg) && HasPK(Execute(t, UpdatePK(i)), i.original)
  {
    assert i.msg in Execute(t, UpdatePK(i));
  }

  /** Creates and edits make no message known or unknown, deletes make none known, and an update makes none known but
      the two it names. */
  lemma KnownOnlyByUpdate(t: Table, s: Statement, id: MessageId)
    ensures s.Insert? ==> (HasPK(Execute(t, s), id) <==> HasPK(t, id))
    ensures HasPK(Execute(t, s), id) && !HasPK(t, id) ==>
              s.UpdatePK? && s.info.msg in t && (id == s.info.msg || id == s.info.original)
  {
    var u := Execute(t, s);
    if HasPK(u, id) {
      var k :| k in u && u[k].system.Some? && u[k].member.Some? && (k == id || u[k].original == Some(id));
      assert s.Insert? ==> k in t && t[k].original == u[k].original && t[k].system == u[k].system;
      assert !s.UpdatePK? || s.info.msg != k ==> k in t && t[k].original == u[k].original;
    }
    if s.Insert? && HasPK(t, id) {
      var k :| k in t && t[k].system.Some? && t[k].member.Some? && (k == id || t[k].original == Some(id));
      assert k in u && u[k].original == t[k].original && u[k].member == t[k].member;
    }
  }

  /** Nothing is known but what an update has named. */
  lemma {:induction false} KnownWasUpdated(ss: seq<Statement>, id: MessageId)
    requires HasPK(Replay(map[], ss), id)
    ensures exists s :: s in ss && s.UpdatePK? && (id == s.info.msg || id == s.info.original)
  {
    if ss != [] {
      var before, s := Replay(map[], ss[..|ss| - 1]), ss[|ss| - 1];
      if HasPK(before, id) {
        KnownWasUpdated(ss[..|ss| - 1], id);
      } else {
        KnownOnlyByUpdate(before, s, id);
        assert s in ss;
      }
    }
  }

  predicate LeavesContent(s: Statement, id: MessageId) {
    s != Delete(id) && !(s.Insert? && s.m.id == id)
  }

  /** Whatever else happens, a message reads back with the content last inserted until it is inserted again or deleted.
      */
  lemma {:induction false} LastInsertReadsBack(t: Table, m: Message, ss: seq<Statement>)
    requires forall s | s in ss :: LeavesContent(s, m.id)
    ensures m.id in Replay(Execute(t, Insert(m)), ss)
    ensures Replay(Execute(t, Insert(m)), ss)[m.id].content == OrNone(m.content)
  {
    if ss != [] {
      LastInsertReadsBack(t, m, ss[..|ss| - 1]);
      assert LeavesContent(ss[|ss| - 1], m.id);
    }
  }

  /** A new message reads back column by column; a stored one changes in nothing but its content; no other row does. */
  lemma InsertedReadsBack(t: Table, m: Message, id: MessageId)
    ensures m.id in Execute(t, Insert(m))
    ensures var r := Execute(t, Insert(m))[m.id];
            && r.content == (if m.content == "" then "None" else m.content)
            && (m.id !in t ==>
                  && r.user == m.user && r.channel == m.channel && r.guild == m.guild && r.username == m.username
                  && r.metadata == m.metadata && r.original == None && r.system == None && r.member == None)
            && (m.id in t ==> r == t[m.id].(content := r.content))
    ensures id != m.id ==>
              (id in Execute(t, Insert(m)) <==> id in t) && (id in t ==> Execute(t, Insert(m))[id] == t[id])
  {
  }

  /** Whatever else happens, a stored message reads back with the attribution of its last PluralKit update until it is
      updated again or deleted, and the update left its other columns and the other rows alone. */
  lemma LastUpdateReadsBack(t: Table, i: PKInfo, ss: seq<Statement>)
    requires i.msg in t && forall s | s in ss :: Leaves(s, i.msg)
    ensures var u := Execute(t, UpdatePK(i));
            && u.Keys == t.Keys && (forall id | id in t && id != i.msg :: u[id] == t[id])
            && u[i.msg].channel == t[i.msg].channel && u[i.msg].guild == t[i.msg].guild
            && u[i.msg].content == t[i.msg].content && u[i.msg].username == t[i.msg].username
            && u[i.msg].metadata == t[i.msg].metadata
    ensures i.msg in Replay(Execute(t, UpdatePK(i)), ss)
    ensures var r := Replay(Execute(t, UpdatePK(i)), ss)[i.msg];
            && r.original == Some(i.original) && r.user == i.user
            && r.system == Some(i.system) && r.member == Some(i.member)
  {
    var u := Execute(t, UpdatePK(i));
    ReplayKeepsAttribution(u, ss, i.msg);
    assert AttributionOf(Replay(u, ss)[i.msg]) == AttributionOf(u[i.msg]);
  }
}
