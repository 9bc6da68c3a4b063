/** Copying the message table of the previous version page by page (cmd/importdb/message.go). */
module Migration {
  import opened Common

  /** Row IDs are a signed 64-bit column; only positive ones are message IDs. */
  type Id = int
  type Key = nat

  /** AES-GCM output: a text sealed under a key and a nonce, or bytes that no key opens. */
  datatype Blob = Sealed(key: Key, nonce: nat, plain: string) | Corrupt

  /** Draws a fresh nonce, so that two encryptions of one text differ in general. */
  method Encrypt(plain: string, key: Key) returns (b: Blob)
    ensures Decrypt(b, key) == Some(plain)
  {
    var nonce: nat := *;
    b := Sealed(key, nonce, plain);
  }

  function Decrypt(b: Blob, key: Key): Option<string> {
    if b.Sealed? && b.key == key then Some(b.plain) else None
  }

  datatype OldRow = OldRow(user: Snowflake, channel: Snowflake, server: Snowflake, content: Blob, username: Blob,
                           member: Option<string>, system: Option<string>, metadata: Option<Blob>)

  /** A message with its texts in the clear. */
  datatype Plain = Plain(user: Snowflake, channel: Snowflake, guild: Snowflake, content: string, username: string,
                         member: Option<string>, system: Option<string>, metadata: Option<string>)

  datatype NewRow = NewRow(user: Snowflake, channel: Snowflake, guild: Snowflake, content: Blob, username: Blob,
                           member: Option<string>, system: Option<string>, metadata: Option<Blob>)

  type OldTable = map<Id, OldRow>
  type NewTable = map<Id, NewRow>

  /** The decoded row, None when any of its texts does not open under the key. */
  function OpenOld(r: OldRow, key: Key): Option<Plain> {
    var content := Decrypt(r.content, key);
    var username := Decrypt(r.username, key);
    if content.None? || username.None? then None
    else
      match r.metadata
      case None =>
        Some(Plain(r.user, r.channel, r.server, content.value, username.value, r.member, r.system, None))
      case Some(b) =>
        var md := Decrypt(b, key);
        if md.None? then None
        else Some(Plain(r.user, r.channel, r.server, content.value, username.value, r.member, r.system, md))
  }

  /** Every text of the row opens under the key. */
  predicate Readable(r: OldRow, key: Key) {
    && Decrypt(r.content, key).Some? && Decrypt(r.username, key).Some?
    && (r.metadata.Some? ==> Decrypt(r.metadata.value, key).Some?)
  }

  /** m is the row column by column, with its texts opened. */
  predicate Decoded(r: OldRow, key: Key, m: Plain) {
    && m.user == r.user && m.channel == r.channel && m.guild == r.server
    && m.member == r.member && m.system == r.system
    && Decrypt(r.content, key) == Some(m.content) && Decrypt(r.username, key) == Some(m.username)
    && (r.metadata == None ==> m.metadata == None)
    && (r.metadata.Some? ==> m.metadata.Some? && Decrypt(r.metadata.value, key) == m.metadata)
  }

  /** A row opens exactly when all its texts do, and to its own columns. */
  lemma OpensIffReadable(r: OldRow, key: Key)
    ensures OpenOld(r, key).Some? <==> Readable(r, key)
    ensures OpenOld(r, key).Some? ==> Decoded(r, key, OpenOld(r, key).value)
  {
  }

  /** What reading a row of the new table gives back. */
  function OpenNew(r: NewRow, key: Key): Option<Plain> {
    OpenOld(OldRow(r.user, r.channel, r.guild, r.content, r.username, r.member, r.system, r.metadata), key)
  }

  /** The stored metadata opens to md, and is missing when md is. */
  predicate Seals(b: Option<Blob>, key: Key, md: Option<string>) {
    match md
    case None => b == None
    case Some(_) => b.Some? && Decrypt(b.value, key) == md
  }

  /** r is a row an upsert may leave under id, whatever the nonces: a new row, or the existing one with content and
      metadata replaced. */
  predicate Merges(table: NewTable, id: Id, m: Plain, key: Key, r: NewRow) {
    && Decrypt(r.content, key) == Some(OrNone(m.content)) && Seals(r.metadata, key, m.metadata)
    && if id in table then r == table[id].(content := r.content, metadata := r.metadata)
       else r == NewRow(m.user, m.channel, m.guild, r.content, r.username, m.member, m.system, r.metadata)
            && Decrypt(r.username, key) == Some(m.username)
  }

  // ---- the property ----

  predicate Positive(source: OldTable, id: Id) {
    id in source && id > 0
  }

  function PositiveIds(source: OldTable): set<Id> {
    set id | id in source && id > 0
  }

  /** after is before with exactly the rows of ids copied over from source. */
  ghost predicate Copied(source: OldTable, oldKey: Key, newKey: Key, before: NewTable, after: NewTable, ids: set<Id>) {
    && ids <= source.Keys
    && after.Keys == before.Keys + ids
    && (forall id | id in before && id !in ids :: after[id] == before[id])
    && (forall id | id in ids ::
          OpenOld(source[id], oldKey).Some? && Merges(before, id, OpenOld(source[id], oldKey).value, newKey, after[id]))
  }

  ghost predicate Ascending(s: seq<Id>) {
    forall i, j | 0 <= i < j < |s| :: s[i] < s[j]
  }

  /** The rows a page query returns: the n least IDs above prev, in order. */
  ghost predicate IsPage(ids: set<Id>, prev: Id, n: nat, page: seq<Id>) {
    && Ascending(page)
    && |page| <= n
    && (forall i | 0 <= i < |page| :: page[i] in ids && page[i] > prev)
    && (forall id | id in ids && id > prev && id !in page ::
          |page| == n && forall i | 0 <= i < |page| :: page[i] < id)
  }

  // ---- database engines ----

  method Least(s: set<Id>) returns (m: Id)
    requires s != {}
    ensures m in s && forall x | x in s :: m <= x
  {
    m := Element(s);
    var rest := s - {m};
    while rest != {}
      invariant m in s && rest <= s && m !in rest
      invariant forall x | x in s && x !in rest :: m <= x
      decreases |rest|
    {
      var y := Element(rest);
      if y < m {
        m := y;
      }
      rest := rest - {y};
    }
  }

  /** select … where msg_id > prev order by msg_id limit n */
  method SelectPage(ids: set<Id>, prev: Id, n: nat) returns (page: seq<Id>)
    ensures IsPage(ids, prev, n, page)
  {
    page := [];
    var rest := set id | id in ids && id > prev;
    while |page| < n && rest != {}
      invariant rest <= ids && |page| <= n && Ascending(page)
      invariant forall id | id in ids && id > prev :: id in page || id in rest
      invariant forall i | 0 <= i < |page| :: page[i] in ids && page[i] > prev
      invariant forall i, x | 0 <= i < |page| && x in rest :: page[i] < x
      invariant forall x | x in rest :: x > prev
      decreases n - |page|
    {
      var m := Least(rest);
      page := page + [m];
      rest := rest - {m};
    }
  }

  class NewDatabase {
    var messages: NewTable
    /** IDs in the order their upserts were executed. */
    var inserted: seq<Id>

    constructor (messages: NewTable)
      ensures this.messages == messages && inserted == []
    {
      this.messages := messages;
      inserted := [];
    }

    /** refused holds the IDs whose upsert the server rejects. */
    method InsertNewMessage(key: Key, id: Id, m: Plain, refused: set<Id>) returns (ok: bool)
      modifies this
      ensures ok == (id !in refused)
      ensures ok ==> id in messages && messages == old(messages)[id := messages[id]] && inserted == old(inserted) + [id]
      ensures ok ==> Merges(old(messages), id, m, key, messages[id])
      ensures !ok ==> messages == old(messages) && inserted == old(inserted)
    {
      var content := Encrypt(if m.content == "" then "None" else m.content, key);
      var username := Encrypt(m.username, key);
      var metadata := None;
      if m.metadata.Some? {
        var b := Encrypt(m.metadata.value, key);
        metadata := Some(b);
      }
      if id in refused {
        return false;
      }
      if id in messages {
        messages := messages[id := messages[id].(content := content, metadata := metadata)];
      } else {
        messages := messages[id := NewRow(m.user, m.channel, m.guild, content, username, m.member, m.system, metadata)];
      }
      inserted := inserted + [id];
      return true;
    }
  }

  datatype Loaded = Loaded(page: seq<(Id, Plain)>) | BadRow(id: Id) | QueryFailed

  /** One page, every row decoded in turn; the first row that does not open fails the whole page. The query for the page
      after an ID in down fails. */
  method GetOldMessages(source: OldTable, key: Key, prev: Id, pageSize: nat, down: set<Id>) returns (r: Loaded)
    ensures r.QueryFailed? <==> prev in down
    ensures r.Loaded? ==> Loads(source, key, prev, pageSize, r.page)
    ensures r.Loaded? ==> forall i | 0 <= i < |r.page| ::
                            r.page[i].0 in source && Decoded(source[r.page[i].0], key, r.page[i].1)
    ensures r.BadRow? ==> r.id in source && r.id > prev && !Readable(source[r.id], key)
  {
    if prev in down {
      return QueryFailed;
    }
    var ids := SelectPage(source.Keys, prev, pageSize);
    var ms: seq<(Id, Plain)> := [];
    for i := 0 to |ids|
      invariant |ms| == i
      invariant forall k | 0 <= k < i :: ms[k].0 == ids[k] && OpenOld(source[ids[k]], key) == Some(ms[k].1)
    {
      var m := OpenOld(source[ids[i]], key);
      if m.None? {
        return BadRow(ids[i]);
      }
      ms := ms + [(ids[i], m.value)];
    }
    assert PageIds(ms) == ids;
    r := Loaded(ms);
  }

  /** The upserts executed since the log had length `from` are exactly ids, each once, in ascending order. */
  ghost predicate LoggedOnce(log: seq<Id>, from: nat, ids: set<Id>) {
    && from <= |log|
    && Ascending(log[from..])
    && (forall id :: id in log[from..] <==> id in ids)
  }

  /** ids holds every positive ID of the table below each of its members. */
  ghost predicate InitialSegment(source: OldTable, ids: set<Id>) {
    && ids <= PositiveIds(source)
    && forall id, x | id in ids && Positive(source, x) && x !in ids :: id < x
  }

  ghost predicate NoneRefused(ids: set<Id>, refused: set<Id>) {
    forall id | id in ids :: id !in refused
  }

  ghost function UpTo(source: OldTable, last: Id): set<Id> {
    set id | id in source && 0 < id <= last
  }

  lemma PageLogged(log: seq<Id>, from: nat, ids: set<Id>, page: seq<Id>)
    requires LoggedOnce(log, from, ids) && Ascending(page) && forall x, y | x in ids && y in page :: x < y
    ensures LoggedOnce(log + page, from, ids + set x | x in page)
  {
    var was := log[from..];
    assert (log + page)[from..] == was + page;
    forall i, j | 0 <= i < j < |was + page| ensures (was + page)[i] < (was + page)[j] {
      if i < |was| <= j {
        assert was[i] in log[from..] && page[j - |was|] in page;
      }
    }
  }

  /** The upserts so far: exactly the rows of copied, each executed once and in order, none of them refused. */
  ghost predicate Progress(source: OldTable, oldKey: Key, newKey: Key, before: NewTable, from: nat, refused: set<Id>,
                           messages: NewTable, log: seq<Id>, copied: set<Id>) {
    && Copied(source, oldKey, newKey, before, messages, copied)
    && NoneRefused(copied, refused)
    && LoggedOnce(log, from, copied)
  }

  ghost function IdSet(msgs: seq<(Id, Plain)>): set<Id> {
    set k | 0 <= k < |msgs| :: msgs[k].0
  }

  ghost predicate Distinct(msgs: seq<(Id, Plain)>) {
    forall i, j | 0 <= i < j < |msgs| :: msgs[i].0 != msgs[j].0
  }

  /** after is before with each of the messages, which have different IDs, upserted. */
  ghost predicate Written(before: NewTable, key: Key, msgs: seq<(Id, Plain)>, after: NewTable) {
    && after.Keys == before.Keys + IdSet(msgs)
    && (forall id | id in before && id !in IdSet(msgs) :: after[id] == before[id])
    && (forall k | 0 <= k < |msgs| ::
          msgs[k].0 in after && Merges(before, msgs[k].0, msgs[k].1, key, after[msgs[k].0]))
  }

  lemma IdSetSnoc(msgs: seq<(Id, Plain)>, m: (Id, Plain))
    ensures IdSet(msgs + [m]) == IdSet(msgs) + {m.0}
  {
    var next := msgs + [m];
    forall x | x in IdSet(msgs) ensures x in IdSet(next) {
      var j :| 0 <= j < |msgs| && msgs[j].0 == x;
      assert next[j].0 == x;
    }
    assert next[|msgs|].0 in IdSet(next);
  }

  lemma WrittenStep(before: NewTable, key: Key, msgs: seq<(Id, Plain)>, after: NewTable, m: (Id, Plain), r: NewRow)
    requires Written(before, key, msgs, after) && Merges(after, m.0, m.1, key, r)
    requires forall k | 0 <= k < |msgs| :: msgs[k].0 != m.0
    ensures Written(before, key, msgs + [m], after[m.0 := r])
  {
    IdSetSnoc(msgs, m);
    assert m.0 !in IdSet(msgs);
  }

  /** The inner loop: upserts a decoded page row by row, stopping at the first rejected one. */
  method CopyPage(db: NewDatabase, newKey: Key, msgs: seq<(Id, Plain)>, refused: set<Id>) returns (n: nat)
    requires Distinct(msgs)
    modifies db
    ensures n <= |msgs| && (n < |msgs| ==> msgs[n].0 in refused)
    ensures forall k | 0 <= k < n :: msgs[k].0 !in refused
    ensures Written(old(db.messages), newKey, msgs[..n], db.messages)
    ensures db.inserted == old(db.inserted) + PageIds(msgs[..n])
  {
    n := 0;
    assert IdSet(msgs[..0]) == {};
    while n < |msgs|
      invariant n <= |msgs|
      invariant forall k | 0 <= k < n :: msgs[k].0 !in refused
      invariant Written(old(db.messages), newKey, msgs[..n], db.messages)
      invariant db.inserted == old(db.inserted) + PageIds(msgs[..n])
    {
      ghost var messages := db.messages;
      var ok := db.InsertNewMessage(newKey, msgs[n].0, msgs[n].1, refused);
      if !ok {
        return;
      }
      WrittenStep(old(db.messages), newKey, msgs[..n], messages, msgs[n], db.messages[msgs[n].0]);
      assert msgs[..n + 1] == msgs[..n] + [msgs[n]];
      assert PageIds(msgs[..n + 1]) == PageIds(msgs[..n]) + [msgs[n].0];
      n := n + 1;
    }
  }

  /** msgs is the decoded page after last. */
  ghost predicate Loads(source: OldTable, key: Key, last: Id, pageSize: nat, msgs: seq<(Id, Plain)>) {
    && IsPage(source.Keys, last, pageSize, PageIds(msgs))
    && forall i | 0 <= i < |msgs| :: msgs[i].0 in source && OpenOld(source[msgs[i].0], key) == Some(msgs[i].1)
  }

  ghost function PageIds(msgs: seq<(Id, Plain)>): seq<Id> {
    seq(|msgs|, i requires 0 <= i < |msgs| => msgs[i].0)
  }

  lemma PageAscends(source: OldTable, key: Key, last: Id, pageSize: nat, msgs: seq<(Id, Plain)>, n: nat)
    requires last >= 0 && Loads(source, key, last, pageSize, msgs) && n <= |msgs|
    ensures InitialSegment(source, UpTo(source, last) + IdSet(msgs[..n]))
    ensures n < |msgs| ==>
              Positive(source, msgs[n].0) && forall x | x in UpTo(source, last) + IdSet(msgs[..n]) :: x < msgs[n].0
  {
    var ids := PageIds(msgs);
    var copied := UpTo(source, last) + IdSet(msgs[..n]);
    assert forall k | 0 <= k < |msgs| :: ids[k] == msgs[k].0 && ids[k] > last;
    assert forall id | id in IdSet(msgs[..n]) :: exists k :: 0 <= k < n && ids[k] == id;
    forall k | 0 <= k < n ensures ids[k] in copied {
      assert msgs[..n][k].0 == ids[k];
    }
    forall id, x | id in copied && Positive(source, x) && x !in copied ensures id < x {
      assert x > last;
      if x in ids {
        var k :| 0 <= k < |ids| && ids[k] == x;
        assert k >= n;
      }
    }
  }

  /** Upserting further messages of the source extends the copy by their rows. */
  lemma PageCopied(source: OldTable, oldKey: Key, newKey: Key, before: NewTable, messages: NewTable, ids: set<Id>,
                   msgs: seq<(Id, Plain)>, after: NewTable)
    requires Copied(source, oldKey, newKey, before, messages, ids) && Written(messages, newKey, msgs, after)
    requires forall k | 0 <= k < |msgs| ::
               msgs[k].0 !in ids && msgs[k].0 in source && OpenOld(source[msgs[k].0], oldKey) == Some(msgs[k].1)
    ensures Copied(source, oldKey, newKey, before, after, ids + IdSet(msgs))
  {
    forall id | id in ids + IdSet(msgs)
      ensures id in after && id in source && OpenOld(source[id], oldKey).Some?
              && Merges(before, id, OpenOld(source[id], oldKey).value, newKey, after[id])
    {
      if id in IdSet(msgs) {
        var k :| 0 <= k < |msgs| && msgs[k].0 == id;
        assert Merges(messages, id, msgs[k].1, newKey, after[id]);
      }
    }
  }

  lemma PageAbove(source: OldTable, key: Key, last: Id, pageSize: nat, msgs: seq<(Id, Plain)>, n: nat)
    requires Loads(source, key, last, pageSize, msgs) && n <= |msgs|
    ensures Ascending(PageIds(msgs[..n])) && forall y | y in PageIds(msgs[..n]) :: y > last
    ensures forall k | 0 <= k < n :: msgs[k].0 !in UpTo(source, last)
  {
    var ids := PageIds(msgs);
    assert forall k | 0 <= k < |msgs| :: ids[k] == msgs[k].0 && ids[k] > last;
  }

  lemma PageIdSet(msgs: seq<(Id, Plain)>)
    ensures (set x | x in PageIds(msgs)) == IdSet(msgs)
  {
    var ids := PageIds(msgs);
    forall k | 0 <= k < |msgs| ensures ids[k] in IdSet(msgs) && msgs[k].0 in ids {
      assert msgs[k].0 == ids[k];
    }
  }

  /** The first n upserts of a page extend the copy by their rows. */
  lemma PageProgress(source: OldTable, oldKey: Key, newKey: Key, before: NewTable, from: nat, refused: set<Id>,
                     messages: NewTable, log: seq<Id>, last: Id, pageSize: nat, msgs: seq<(Id, Plain)>, n: nat,
                     after: NewTable)
    requires Progress(source, oldKey, newKey, before, from, refused, messages, log, UpTo(source, last))
    requires last >= 0 && Loads(source, oldKey, last, pageSize, msgs)
    requires n <= |msgs| && forall k | 0 <= k < n :: msgs[k].0 !in refused
    requires Written(messages, newKey, msgs[..n], after)
    ensures Progress(source, oldKey, newKey, before, from, refused, after, log + PageIds(msgs[..n]),
                     UpTo(source, last) + IdSet(msgs[..n]))
  {
    PageAbove(source, oldKey, last, pageSize, msgs, n);
    PageCopied(source, oldKey, newKey, before, messages, UpTo(source, last), msgs[..n], after);
    PageLogged(log, from, UpTo(source, last), PageIds(msgs[..n]));
    PageIdSet(msgs[..n]);
  }

  lemma PageAdvances(source: OldTable, key: Key, last: Id, pageSize: nat, msgs: seq<(Id, Plain)>)
    requires last >= 0 && Loads(source, key, last, pageSize, msgs) && msgs != []
    ensures var top := msgs[|msgs| - 1].0;
            UpTo(source, last) + IdSet(msgs) == UpTo(source, top) && top > last && top in source
  {
    var ids := PageIds(msgs);
    var top := msgs[|msgs| - 1].0;
    assert forall k | 0 <= k < |msgs| :: ids[k] == msgs[k].0 && last < ids[k] <= ids[|msgs| - 1];
    assert forall x | x in source && last < x <= top :: x in ids;
  }

  lemma PageDistinct(source: OldTable, key: Key, last: Id, pageSize: nat, msgs: seq<(Id, Plain)>)
    requires Loads(source, key, last, pageSize, msgs)
    ensures Distinct(msgs)
  {
    var ids := PageIds(msgs);
    assert forall k | 0 <= k < |msgs| :: ids[k] == msgs[k].0;
  }

  lemma EmptyPageIsLast(source: OldTable, key: Key, last: Id, pageSize: nat)
    requires last >= 0 && pageSize > 0 && Loads(source, key, last, pageSize, [])
    ensures UpTo(source, last) == PositiveIds(source)
  {
  }

  // ---- which page queries a migration needs ----

  /** A page query is made after this ID: from the start, after each full page, and after the last row. */
  ghost predicate Boundary(source: OldTable, pageSize: nat, b: Id)
    requires pageSize > 0
  {
    b == 0 || (Positive(source, b) &&
               (|UpTo(source, b)| % pageSize == 0 || forall x | Positive(source, x) :: x <= b))
  }

  lemma NextUp(source: OldTable, last: Id, n: nat, ids: seq<Id>, k: nat)
    requires last >= 0 && IsPage(source.Keys, last, n, ids) && k < |ids|
    ensures var prev := if k == 0 then last else ids[k - 1];
            prev < ids[k] && UpTo(source, ids[k]) == UpTo(source, prev) + {ids[k]}
  {
    var prev := if k == 0 then last else ids[k - 1];
    forall x | x in source && prev < x <= ids[k] ensures x == ids[k] {
      assert x in ids;
    }
  }

  /** The k-th row of a page is k + 1 positive rows beyond last. */
  lemma {:induction false} RankInPage(source: OldTable, last: Id, n: nat, ids: seq<Id>, k: nat)
    requires last >= 0 && IsPage(source.Keys, last, n, ids) && k < |ids|
    ensures |UpTo(source, ids[k])| == |UpTo(source, last)| + k + 1
  {
    NextUp(source, last, n, ids, k);
    if k > 0 {
      RankInPage(source, last, n, ids, k - 1);
    }
  }

  lemma FarMultiples(x: int, n: int)
    requires n > 0
    ensures (x >= 2 ==> x * n >= 2 * n) && (x <= -1 ==> x * n <= -n)
  {
  }

  lemma Remainder(a: nat, j: nat, n: nat)
    requires n > 0 && a % n == 0 && 0 < j <= n
    ensures (a + j) % n == if j == n then 0 else j
  {
    var q: int, k: int, r: int := a / n, (a + j) / n, (a + j) % n;
    assert (k - q) * n == j - r by {
      assert a == q * n && a + j == k * n + r;
    }
    FarMultiples(k - q, n);
    assert k == q || k == q + 1;
  }

  /** Inside a page there is no boundary. */
  lemma NoBoundaryInside(source: OldTable, last: Id, pageSize: nat, ids: seq<Id>, k: nat)
    requires last >= 0 && pageSize > 0 && IsPage(source.Keys, last, pageSize, ids) && k + 1 < |ids|
    requires |UpTo(source, last)| % pageSize == 0
    ensures !Boundary(source, pageSize, ids[k])
  {
    RankInPage(source, last, pageSize, ids, k);
    Remainder(|UpTo(source, last)|, k + 1, pageSize);
    assert Positive(source, ids[k + 1]) && ids[k] < ids[k + 1];
  }

  /** From one boundary, a non-empty page leads to the next. */
  lemma NextBoundary(source: OldTable, last: Id, pageSize: nat, ids: seq<Id>)
    requires last >= 0 && pageSize > 0 && IsPage(source.Keys, last, pageSize, ids) && ids != []
    requires Boundary(source, pageSize, last)
    ensures Boundary(source, pageSize, ids[|ids| - 1])
    ensures forall b | last < b < ids[|ids| - 1] :: !Boundary(source, pageSize, b)
  {
    var top := ids[|ids| - 1];
    assert Positive(source, ids[0]);
    assert last == 0 ==> UpTo(source, last) == {};
    RankInPage(source, last, pageSize, ids, |ids| - 1);
    Remainder(|UpTo(source, last)|, |ids|, pageSize);
    forall b | last < b < top ensures !Boundary(source, pageSize, b) {
      if Positive(source, b) {
        assert b in ids;
        var k :| 0 <= k < |ids| && ids[k] == b;
        NoBoundaryInside(source, last, pageSize, ids, k);
      }
    }
  }

  datatype Failure = NoPage(last: Id) | BadMessage(id: Id)

  /** Why a migration stopped: a page query it needed failed, or a row does not open or is rejected. */
  ghost predicate Justified(source: OldTable, oldKey: Key, pageSize: nat, refused: set<Id>, down: set<Id>, f: Failure)
    requires pageSize > 0
  {
    match f
    case NoPage(last) => last in down && Boundary(source, pageSize, last)
    case BadMessage(id) => Positive(source, id) && (!Readable(source[id], oldKey) || id in refused)
  }

  ghost predicate NoneDown(source: OldTable, pageSize: nat, down: set<Id>, below: Id)
    requires pageSize > 0
  {
    forall b | Boundary(source, pageSize, b) && b < below :: b !in down
  }

  /** After a whole page everything up to its last row is copied, and that is where the next page query is made. */
  lemma PageDone(source: OldTable, key: Key, last: Id, pageSize: nat, msgs: seq<(Id, Plain)>, down: set<Id>)
    requires last >= 0 && pageSize > 0 && Loads(source, key, last, pageSize, msgs) && msgs != []
    requires Boundary(source, pageSize, last) && NoneDown(source, pageSize, down, last) && last !in down
    ensures var top := msgs[|msgs| - 1].0;
            && top > last && top in source && UpTo(source, last) + IdSet(msgs[..|msgs|]) == UpTo(source, top)
            && Boundary(source, pageSize, top) && NoneDown(source, pageSize, down, top)
  {
    var ids := PageIds(msgs);
    assert ids[|ids| - 1] == msgs[|msgs| - 1].0 && msgs[..|msgs|] == msgs;
    PageAdvances(source, key, last, pageSize, msgs);
    NextBoundary(source, last, pageSize, ids);
  }

  /** Copies the whole table, or fails after an initial segment of it. */
  method MigrateMessages(source: OldTable, db: NewDatabase, oldKey: Key, newKey: Key, pageSize: nat, refused: set<Id>,
                         down: set<Id>)
    returns (r: Outcome<Failure>, ghost copied: set<Id>)
    requires pageSize > 0
    modifies db
    ensures Progress(source, oldKey, newKey, old(db.messages), |old(db.inserted)|, refused, db.messages, db.inserted,
                     copied)
    ensures InitialSegment(source, copied)
    ensures r.Pass? ==> copied == PositiveIds(source) && forall b | Boundary(source, pageSize, b) :: b !in down
    ensures r.Fail? ==> Justified(source, oldKey, pageSize, refused, down, r.error)
  {
    var lastMessageId := 0;
    copied := {};
    assert db.inserted[|db.inserted|..] == [];
    while true
      invariant lastMessageId >= 0 && copied == UpTo(source, lastMessageId)
      invariant Boundary(source, pageSize, lastMessageId) && NoneDown(source, pageSize, down, lastMessageId)
      invariant Progress(source, oldKey, newKey, old(db.messages), |old(db.inserted)|, refused, db.messages,
                         db.inserted, copied)
      decreases |source.Keys - copied|
    {
      var loaded := GetOldMessages(source, oldKey, lastMessageId, pageSize, down);
      if loaded.QueryFailed? {
        return Fail(NoPage(lastMessageId)), copied;
      }
      if loaded.BadRow? {
        return Fail(BadMessage(loaded.id)), copied;
      }
      var msgs := loaded.page;
      if |msgs| == 0 {
        EmptyPageIsLast(source, oldKey, lastMessageId, pageSize);
        assert forall b | Positive(source, b) :: b in copied;
        return Pass, copied;
      }
      PageDistinct(source, oldKey, lastMessageId, pageSize, msgs);
      ghost var messages, log := db.messages, db.inserted;
      var n := CopyPage(db, newKey, msgs, refused);
      PageProgress(source, oldKey, newKey, old(db.messages), |old(db.inserted)|, refused, messages, log, lastMessageId,
                   pageSize, msgs, n, db.messages);
      PageAscends(source, oldKey, lastMessageId, pageSize, msgs, n);
      ghost var left := source.Keys - copied;
      copied := copied + IdSet(msgs[..n]);
      if n < |msgs| {
        return Fail(BadMessage(msgs[n].0)), copied;
      }
      PageDone(source, oldKey, lastMessageId, pageSize, msgs, down);
      lastMessageId := msgs[|msgs| - 1].0;
      SmallerSet(source.Keys - copied, left, lastMessageId);
    }
  }

  /** A migration succeeds exactly when every positive row opens, none is rejected and every page query it needs works.
      */
  lemma CompleteIffAllReadable(source: OldTable, oldKey: Key, newKey: Key, before: NewTable, from: nat, pageSize: nat,
                               refused: set<Id>, down: set<Id>, after: NewTable, log: seq<Id>, copied: set<Id>,
                               r: Outcome<Failure>)
    requires pageSize > 0 && Progress(source, oldKey, newKey, before, from, refused, after, log, copied)
    requires r.Pass? ==> copied == PositiveIds(source) && forall b | Boundary(source, pageSize, b) :: b !in down
    requires r.Fail? ==> Justified(source, oldKey, pageSize, refused, down, r.error)
    ensures r.Pass? <==>
            && (forall id | id in PositiveIds(source) :: Readable(source[id], oldKey) && id !in refused)
            && (forall b | Boundary(source, pageSize, b) :: b !in down)
  {
  }

  // ---- what an exact copy means to a reader of the new table ----

  /** Into an empty table: the readable rows are the old positive rows, empty content replaced by "None". */
  lemma CopyReadsBack(source: OldTable, oldKey: Key, newKey: Key, after: NewTable)
    requires Copied(source, oldKey, newKey, map[], after, PositiveIds(source))
    ensures after.Keys == PositiveIds(source)
    ensures forall id | id in after ::
              var m := OpenOld(source[id], oldKey);
              m.Some? && OpenNew(after[id], newKey) == Some(m.value.(content := OrNone(m.value.content)))
  {
    forall id | id in after
      ensures var m := OpenOld(source[id], oldKey);
              m.Some? && OpenNew(after[id], newKey) == Some(m.value.(content := OrNone(m.value.content)))
    {
      assert id in PositiveIds(source);
    }
  }

  /** Into an empty table, column by column: the numbers and PluralKit columns are those of the old row, the texts open
      under the new key to what they opened to under the old one, and only an empty content becomes "None". */
  lemma CopyKeepsColumns(source: OldTable, oldKey: Key, newKey: Key, after: NewTable, id: Id)
    requires Copied(source, oldKey, newKey, map[], after, PositiveIds(source)) && id in source && id > 0
    ensures id in after
    ensures var o, n := source[id], after[id];
            && n.user == o.user && n.channel == o.channel && n.guild == o.server
            && n.member == o.member && n.system == o.system
            && Decrypt(o.content, oldKey).Some?
            && Decrypt(n.content, newKey) == Some(OrNone(Decrypt(o.content, oldKey).value))
            && Decrypt(o.username, oldKey).Some? && Decrypt(n.username, newKey) == Decrypt(o.username, oldKey)
            && (n.metadata == None <==> o.metadata == None)
            && (o.metadata.Some? ==>
                  && Decrypt(o.metadata.value, oldKey).Some?
                  && Decrypt(n.metadata.value, newKey) == Decrypt(o.metadata.value, oldKey))
  {
    assert id in PositiveIds(source);
    OpensIffReadable(source[id], oldKey);
  }

  /** Over existing rows only content and metadata are replaced. */
  lemma CopyKeepsExistingRows(source: OldTable, oldKey: Key, newKey: Key, before: NewTable, after: NewTable, id: Id)
    requires Copied(source, oldKey, newKey, before, after, PositiveIds(source)) && id in before
    ensures id in after && after[id].(content := before[id].content, metadata := before[id].metadata) == before[id]
  {
  }

  /** Running a complete migration again changes nothing that a reader sees: it writes new ciphertexts of the same
      texts, and only into the rows it copies. */
  lemma RerunReadsTheSame(source: OldTable, oldKey: Key, newKey: Key, before: NewTable, once: NewTable, twice: NewTable)
    requires Copied(source, oldKey, newKey, before, once, PositiveIds(source))
    requires Copied(source, oldKey, newKey, once, twice, PositiveIds(source))
    ensures twice.Keys == once.Keys
    ensures forall id | id in once :: OpenNew(twice[id], newKey) == OpenNew(once[id], newKey)
    ensures forall id | id in once && id !in PositiveIds(source) :: twice[id] == once[id]
  {
    forall id | id in once ensures OpenNew(twice[id], newKey) == OpenNew(once[id], newKey) {
      if id in PositiveIds(source) {
        var m := OpenOld(source[id], oldKey).value;
        assert Merges(before, id, m, newKey, once[id]) && Merges(once, id, m, newKey, twice[id]);
      }
    }
  }
}
