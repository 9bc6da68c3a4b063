/** The in-memory channel and role stores (store/memory): a primary map plus, per guild, a slice of IDs.

    Go slices are modelled as views into arrays, because `remove` shifts the backing array and its callers drop the
    shortened view it returns. Channels and roles are stored by the same code, so one generic class stands for both. */
module MemoryStore {
  import opened Common

  type Guild = Snowflake

  // ---- slices ----

  datatype Slice<T> = Nil | Slice(arr: array<T>, off: nat, len: nat)

  function Backing<T>(s: Slice<T>): set<object> {
    if s.Nil? then {} else {s.arr}
  }

  predicate InBounds<T>(s: Slice<T>) {
    s.Slice? ==> s.off + s.len <= s.arr.Length
  }

  /** The two slices share no array. */
  ghost predicate Apart<T>(s: Slice<T>, t: Slice<T>) {
    s.Slice? && t.Slice? ==> s.arr != t.arr
  }

  function View<T>(s: Slice<T>): seq<T>
    requires InBounds(s)
    reads Backing(s)
  {
    if s.Nil? then [] else s.arr[s.off..s.off + s.len]
  }

  /** Index of the first occurrence, or the length. */
  function IndexOf<T(==)>(s: seq<T>, v: T): (i: nat)
    ensures i <= |s|
    ensures forall k | 0 <= k < i :: s[k] != v
    ensures i < |s| ==> s[i] == v
  {
    if s == [] || s[0] == v then 0 else 1 + IndexOf(s[1..], v)
  }

  /** The sequence without the first occurrence of v. */
  function Removed<T(==)>(s: seq<T>, v: T): seq<T> {
    var i := IndexOf(s, v);
    if i == |s| then s else s[..i] + s[i + 1..]
  }

  /** What the unshortened view shows after `remove`: a middle element is shifted out and the last one shows twice;
      a first or last element stays visible. */
  function Shifted<T(==)>(s: seq<T>, v: T): (r: seq<T>)
    ensures |r| == |s|
  {
    var i := IndexOf(s, v);
    if 0 < i < |s| - 1 then s[..i] + s[i + 1..] + [s[|s| - 1]] else s
  }

  /** Removes the first occurrence of val in place and returns the shortened view. */
  method Remove<T(==)>(s: Slice<T>, val: T) returns (r: Slice<T>)
    requires InBounds(s)
    modifies Backing(s)
    ensures InBounds(r) && Backing(r) <= Backing(s)
    ensures View(r) == Removed(old(View(s)), val)
    ensures View(s) == Shifted(old(View(s)), val)
  {
    r := s;
    if s.Nil? {
      return;
    }
    ghost var was := View(s);
    for i := 0 to s.len
      invariant View(s) == was && r == s
      invariant forall k | 0 <= k < i :: was[k] != val
    {
      assert was[i] == s.arr[s.off + i];
      if s.arr[s.off + i] == val {
        FirstAt(was, val, i);
        r := RemoveAt(s, i);
        return;
      }
    }
    NotThere(was, val);
  }

  /** Reslices for the first or last element, shifts for one in the middle. */
  method RemoveAt<T>(s: Slice<T>, i: nat) returns (r: Slice<T>)
    requires s.Slice? && InBounds(s) && i < s.len
    modifies s.arr
    ensures r.Slice? && InBounds(r) && r.arr == s.arr
    ensures var was := old(View(s)); View(r) == was[..i] + was[i + 1..]
    ensures var was := old(View(s));
            View(s) == if 0 < i < |was| - 1 then was[..i] + was[i + 1..] + [was[|was| - 1]] else was
  {
    ghost var was := View(s);
    if i == 0 {
      r := Slice(s.arr, s.off + 1, s.len - 1);
      assert View(r) == was[1..] == was[..0] + was[1..];
    } else if i == s.len - 1 {
      r := Slice(s.arr, s.off, s.len - 1);
      assert View(r) == was[..i] == was[..i] + was[i + 1..];
    } else {
      ShiftLeft(s, i);
      r := Slice(s.arr, s.off, s.len - 1);
      assert View(r) == View(s)[..s.len - 1] == was[..i] + was[i + 1..];
    }
  }

  /** append(slice[:i], slice[i+1:]...): moves the elements after i down by one. */
  method ShiftLeft<T>(s: Slice<T>, i: nat)
    requires s.Slice? && InBounds(s) && i < s.len
    modifies s.arr
    ensures var was := old(View(s)); View(s) == was[..i] + was[i + 1..] + [was[s.len - 1]]
  {
    var a, off := s.arr, s.off;
    ghost var was, all := View(s), a[..];
    var j := i;
    while j + 1 < s.len
      invariant i <= j < s.len
      invariant forall p | off + i <= p < off + j :: a[p] == all[p + 1]
      invariant forall p | 0 <= p < off + i || off + j <= p < a.Length :: a[p] == all[p]
    {
      assert a[off + j + 1] == all[off + j + 1];
      a[off + j] := a[off + j + 1];
      j := j + 1;
    }
    assert was == all[off..off + s.len];
    forall k | 0 <= k < s.len ensures View(s)[k] == if i <= k < s.len - 1 then was[k + 1] else was[k] {
      assert a[off + k] == View(s)[k] && all[off + k] == was[k];
      assert k + 1 < s.len ==> all[off + k + 1] == was[k + 1];
    }
    assert View(s) == was[..i] + was[i + 1..] + [was[s.len - 1]];
  }

  lemma FirstAt<T>(s: seq<T>, v: T, i: nat)
    requires i < |s| && s[i] == v && forall k | 0 <= k < i :: s[k] != v
    ensures IndexOf(s, v) == i
  {
  }

  lemma NotThere<T>(s: seq<T>, v: T)
    requires v !in s
    ensures IndexOf(s, v) == |s|
  {
  }

  method Contains<T(==)>(s: Slice<T>, val: T) returns (found: bool)
    requires InBounds(s)
    ensures found <==> val in View(s)
  {
    if s.Nil? {
      return false;
    }
    for i := 0 to s.len
      invariant forall k | 0 <= k < i :: View(s)[k] != val
    {
      if s.arr[s.off + i] == val {
        assert View(s)[i] == val;
        return true;
      }
    }
    return false;
  }

  /** Go's append: in place while capacity lasts, otherwise into a new, larger array. */
  method Append<T>(s: Slice<T>, val: T) returns (r: Slice<T>)
    requires InBounds(s)
    modifies Backing(s)
    ensures r.Slice? && InBounds(r) && ((s.Slice? && r.arr == s.arr) || fresh(r.arr))
    ensures View(r) == old(View(s)) + [val]
  {
    if s.Slice? && s.off + s.len < s.arr.Length {
      s.arr[s.off + s.len] := val;
      r := Slice(s.arr, s.off, s.len + 1);
    } else {
      var len := if s.Nil? then 0 else s.len;
      var cap :| cap > len;
      var arr := new T[cap](_ => val);
      if s.Slice? {
        forall i | 0 <= i < len {
          arr[i] := s.arr[s.off + i];
        }
      }
      r := Slice(arr, 0, len + 1);
    }
  }

  // ---- the plain form of the index, on values ----

  datatype Index<K, V> = Index(items: map<K, V>, lists: map<Guild, seq<K>>) {
    function List(g: Guild): seq<K> {
      if g in lists then lists[g] else []
    }
  }

  datatype Op<K, V> =
    | Set(g: Guild, id: K, v: V)
    | RemoveOne(g: Guild, id: K)
    | RemoveAll(g: Guild)

  ghost function Apply<K, V>(x: Index<K, V>, op: Op<K, V>): Index<K, V> {
    match op
    case Set(g, id, v) =>
      Index(x.items[id := v], if id in x.List(g) then x.lists else x.lists[g := x.List(g) + [id]])
    case RemoveOne(g, id) =>
      Index(x.items - {id}, if g in x.lists then x.lists[g := Shifted(x.lists[g], id)] else x.lists)
    case RemoveAll(g) => Index(x.items - (set id | id in x.List(g)), x.lists - {g})
  }

  /** Setting several values in order. */
  ghost function SetAll<K, V>(x: Index<K, V>, g: Guild, vs: seq<(K, V)>): Index<K, V> {
    if vs == [] then x
    else Apply(SetAll(x, g, vs[..|vs| - 1]), Set(g, vs[|vs| - 1].0, vs[|vs| - 1].1))
  }

  /** The values of the listed IDs that are still stored, in list order. */
  function LiveValues<K, V>(items: map<K, V>, ids: seq<K>): seq<V> {
    if ids == [] then []
    else
      var n := |ids| - 1;
      LiveValues(items, ids[..n]) + if ids[n] in items then [items[ids[n]]] else []
  }

  // ---- the store ----

  class Store<K(==), V> {
    var items: map<K, V>
    var lists: map<Guild, Slice<K>>
    /** The IDs each guild's slice shows. */
    ghost var shown: map<Guild, seq<K>>
    /** The backing arrays. */
    ghost var repr: set<array<K>>

    /** The guild's slice lives in repr and shows what it should. */
    ghost predicate Shows(g: Guild)
      requires g in lists && g in shown
      reads this, repr
    {
      InBounds(lists[g]) && (lists[g].Slice? ==> lists[g].arr in repr) && View(lists[g]) == shown[g]
    }

    /** Every guild shows its list and shares its backing array with no other guild. */
    ghost predicate Valid()
      reads this, repr
    {
      && shown.Keys == lists.Keys
      && (forall g | g in lists :: Shows(g))
      && (forall g, h | g in lists && h in lists && g != h :: Apart(lists[g], lists[h]))
    }

    ghost function State(): Index<K, V>
      reads this
    {
      Index(items, shown)
    }

    constructor ()
      ensures Valid() && State() == Index(map[], map[]) && repr == {}
    {
      items, lists, shown, repr := map[], map[], map[], {};
    }

    function ListOf(g: Guild): Slice<K>
      reads this
    {
      if g in lists then lists[g] else Nil
    }

    /** The listing of a guild; None is the store's not-found error. */
    method Listing(g: Guild) returns (r: Option<seq<V>>)
      requires Valid()
      ensures r == if State().List(g) == [] then None else Some(LiveValues(items, State().List(g)))
    {
      var ids := ListOf(g);
      if ids.Nil? || ids.len == 0 {
        return None;
      }
      var vs := [];
      ghost var view := View(ids);
      for i := 0 to ids.len
        invariant vs == LiveValues(items, view[..i])
      {
        var id := ids.arr[ids.off + i];
        assert view[..i + 1][..i] == view[..i] && view[i] == id;
        if id in items {
          vs := vs + [items[id]];
        }
      }
      assert view[..ids.len] == view;
      r := Some(vs);
    }

    /** append(s.guildChannels[g], id), which may write into the guild's own array but into no other's. */
    method Extended(g: Guild, id: K) returns (s: Slice<K>)
      requires Valid()
      modifies repr
      ensures s.Slice? && InBounds(s) && (s.arr in repr || fresh(s.arr))
      ensures View(s) == State().List(g) + [id]
      ensures forall h | h in lists && h != g :: Shows(h) && Apart(s, lists[h])
    {
      assert g in lists ==> Shows(g);
      s := Append(ListOf(g), id);
      forall h | h in lists && h != g ensures Shows(h) {
        assert old(Shows(h)) && Apart(ListOf(g), lists[h]);
      }
    }

    /** s.guildChannels[g] = append(s.guildChannels[g], id) */
    method AppendTo(g: Guild, id: K)
      requires Valid()
      modifies this`lists, this`shown, this`repr, repr
      ensures Valid() && fresh(repr - old(repr))
      ensures shown == old(shown)[g := old(State()).List(g) + [id]]
    {
      var s := Extended(g, id);
      lists := lists[g := s];
      shown := shown[g := State().List(g) + [id]];
      repr := repr + {s.arr};
    }

    /** remove(s.guildChannels[g], id), its result dropped. */
    method ShiftOut(g: Guild, id: K)
      requires Valid() && g in lists
      modifies this`shown, repr
      ensures Valid()
      ensures shown == old(shown)[g := Shifted(old(shown)[g], id)]
    {
      assert Shows(g);
      var _ := Remove(lists[g], id);
      shown := shown[g := Shifted(shown[g], id)];
      forall h | h in lists ensures Shows(h) {
        if h != g {
          assert old(Shows(h));
        }
      }
    }

    method SetOne(g: Guild, id: K, v: V)
      requires Valid()
      modifies this, repr
      ensures Valid() && fresh(repr - old(repr))
      ensures State() == Apply(old(State()), Set(g, id, v))
    {
      items := items[id := v];
      assert g in lists ==> Shows(g);
      var found := Contains(ListOf(g), id);
      if !found {
        AppendTo(g, id);
      }
    }

    method SetMany(g: Guild, vs: seq<(K, V)>)
      requires Valid()
      modifies this, repr
      ensures Valid() && fresh(repr - old(repr))
      ensures State() == SetAll(old(State()), g, vs)
    {
      for i := 0 to |vs|
        invariant Valid() && fresh(repr - old(repr))
        invariant State() == SetAll(old(State()), g, vs[..i])
      {
        assert vs[..i + 1][..i] == vs[..i];
        SetOne(g, vs[i].0, vs[i].1);
      }
      assert vs[..|vs|] == vs;
    }

    /** The shortened view that Remove returns is dropped. */
    method Delete(g: Guild, id: K)
      requires Valid()
      modifies this, repr
      ensures Valid() && repr == old(repr)
      ensures State() == Apply(old(State()), RemoveOne(g, id))
    {
      items := items - {id};
      if g in lists {
        ShiftOut(g, id);
      }
    }

    /** The loop of delete calls over a guild's listed IDs. */
    method DeleteListed(ids: Slice<K>)
      requires InBounds(ids)
      modifies this`items
      ensures items == old(items) - (set k | k in View(ids))
    {
      if ids.Nil? {
        return;
      }
      ghost var view := View(ids);
      for i := 0 to ids.len
        invariant items == old(items) - (set k | k in view[..i])
      {
        assert view[..i + 1] == view[..i] + [view[i]];
        items := items - {ids.arr[ids.off + i]};
      }
      assert view[..ids.len] == view;
    }

    method DeleteAll(g: Guild)
      requires Valid()
      modifies this
      ensures Valid() && repr == old(repr)
      ensures State() == Apply(old(State()), RemoveAll(g))
    {
      assert g in lists ==> Shows(g);
      DeleteListed(ListOf(g));
      lists := lists - {g};
      shown := shown - {g};
      assert forall h | h in lists :: old(Shows(h));
    }
  }

  // ---- the index over whole runs ----

  ghost function Run<K, V>(ops: seq<Op<K, V>>): Index<K, V> {
    if ops == [] then Index(map[], map[]) else Apply(Run(ops[..|ops| - 1]), ops[|ops| - 1])
  }

  /** Setting several values is setting each of them, in order. */
  lemma {:induction false} SetAllIsRun<K, V>(ops: seq<Op<K, V>>, g: Guild, vs: seq<(K, V)>)
    ensures SetAll(Run(ops), g, vs)
            == Run(ops + seq(|vs|, i requires 0 <= i < |vs| => Set(g, vs[i].0, vs[i].1)))
  {
    var sets := seq(|vs|, i requires 0 <= i < |vs| => Set(g, vs[i].0, vs[i].1));
    if vs == [] {
      assert ops + sets == ops;
    } else {
      var init := vs[..|vs| - 1];
      SetAllIsRun(ops, g, init);
      var all := ops + sets;
      assert all[..|all| - 1] == ops + seq(|init|, i requires 0 <= i < |init| => Set(g, init[i].0, init[i].1));
    }
  }

  /** The simple model: one map of live values per guild. */
  type Model<K, V> = map<Guild, map<K, V>>

  ghost function Of<K, V>(m: Model<K, V>, g: Guild): map<K, V> {
    if g in m then m[g] else map[]
  }

  ghost function ModelApply<K, V>(m: Model<K, V>, op: Op<K, V>): Model<K, V> {
    match op
    case Set(g, id, v) => m[g := Of(m, g)[id := v]]
    case RemoveOne(g, id) => m[g := Of(m, g) - {id}]
    case RemoveAll(g) => m - {g}
  }

  ghost function ModelRun<K, V>(ops: seq<Op<K, V>>): Model<K, V> {
    if ops == [] then map[] else ModelApply(ModelRun(ops[..|ops| - 1]), ops[|ops| - 1])
  }

  /** Every ID is used under one guild. */
  ghost predicate Owned<K, V>(ops: seq<Op<K, V>>, owner: K -> Guild) {
    forall i | 0 <= i < |ops| && !ops[i].RemoveAll? :: owner(ops[i].id) == ops[i].g
  }

  /** The stored values a guild's list shows. */
  ghost function Live<K, V>(x: Index<K, V>, g: Guild): map<K, V> {
    map id | id in x.List(g) && id in x.items :: x.items[id]
  }

  /** The in-place shift loses no other ID and invents none. */
  lemma ShiftKeepsOthers<T>(s: seq<T>, v: T)
    ensures forall x | x in Shifted(s, v) :: x in s
    ensures forall x | x in s && x != v :: x in Shifted(s, v)
    ensures |Shifted(s, v)| == |s|
  {
    var i := IndexOf(s, v);
    forall x | x in s && x != v ensures x in Shifted(s, v) {
      var k :| 0 <= k < |s| && s[k] == x;
      if 0 < i < |s| - 1 {
        assert Shifted(s, v)[if k < i then k else k - 1] == x;
      }
    }
  }

  /** Every listed ID belongs to the guild, and every stored one is listed under its owner. */
  ghost predicate Indexed<K(!new), V>(x: Index<K, V>, owner: K -> Guild) {
    && (forall g, id | id in x.List(g) :: owner(id) == g)
    && (forall id | id in x.items :: id in x.List(owner(id)))
  }

  lemma StepIndexed<K(!new), V>(x: Index<K, V>, op: Op<K, V>, owner: K -> Guild)
    requires Indexed(x, owner) && (!op.RemoveAll? ==> owner(op.id) == op.g)
    ensures Indexed(Apply(x, op), owner)
  {
    var y := Apply(x, op);
    match op
    case Set(g, id, _) =>
      assert forall h | h != g :: y.List(h) == x.List(h);
    case RemoveOne(g, id) =>
      ShiftKeepsOthers(x.List(g), id);
      assert forall h | h != g :: y.List(h) == x.List(h);
    case RemoveAll(g) =>
      assert forall h | h != g :: y.List(h) == x.List(h);
  }

  /** With one owner per ID, a step acts on one guild's live values as on the simple model. */
  lemma StepLive<K(!new), V>(x: Index<K, V>, op: Op<K, V>, owner: K -> Guild, g: Guild)
    requires Indexed(x, owner) && (!op.RemoveAll? ==> owner(op.id) == op.g)
    ensures Live(Apply(x, op), g) ==
            if op.g != g then Live(x, g)
            else match op
                 case Set(_, id, v) => Live(x, g)[id := v]
                 case RemoveOne(_, id) => Live(x, g) - {id}
                 case RemoveAll(_) => map[]
  {
    var y := Apply(x, op);
    if op.RemoveOne? {
      ShiftKeepsOthers(x.List(op.g), op.id);
    }
    if op.g != g {
      assert y.List(g) == x.List(g);
      assert forall id | id in x.List(g) :: owner(id) == g;
    }
  }

  /** Listings agree with the simple model: same IDs, latest values, for every guild after every run. */
  lemma {:induction false} ListingsAgree<K(!new), V>(ops: seq<Op<K, V>>, owner: K -> Guild, g: Guild)
    requires Owned(ops, owner)
    ensures Indexed(Run(ops), owner)
    ensures Live(Run(ops), g) == Of(ModelRun(ops), g)
  {
    if ops != [] {
      var init, op := ops[..|ops| - 1], ops[|ops| - 1];
      assert forall i | 0 <= i < |init| :: init[i] == ops[i];
      ListingsAgree(init, owner, g);
      StepIndexed(Run(init), op, owner);
      StepLive(Run(init), op, owner, g);
    }
  }

  /** The returned sequence holds exactly the live values. */
  lemma {:induction false} LiveValuesShowLive<K, V>(items: map<K, V>, ids: seq<K>, v: V)
    ensures v in LiveValues(items, ids) <==> exists id :: id in ids && id in items && items[id] == v
  {
    if ids != [] {
      var n := |ids| - 1;
      LiveValuesShowLive(items, ids[..n], v);
      if id :| id in ids && id in items && items[id] == v {
        assert id in ids[..n] || id == ids[n];
      }
      assert forall id | id in ids[..n] :: id in ids;
    }
  }

  /** Some Set reached the guild since its last RemoveAll. */
  ghost predicate Known<K, V>(ops: seq<Op<K, V>>, g: Guild) {
    ops != [] &&
    var op := ops[|ops| - 1];
    (op.Set? && op.g == g) || (!(op.RemoveAll? && op.g == g) && Known(ops[..|ops| - 1], g))
  }

  /** The not-found error means the guild was never set since it was cleared, not that nothing is live. */
  lemma {:induction false} NotFoundIffUnknown<K, V>(ops: seq<Op<K, V>>, g: Guild)
    ensures Run(ops).List(g) == [] <==> !Known(ops, g)
  {
    if ops != [] {
      NotFoundIffUnknown(ops[..|ops| - 1], g);
    }
  }

  ghost predicate NoDuplicates<T>(s: seq<T>) {
    forall i, j | 0 <= i < j < |s| :: s[i] != s[j]
  }

  lemma MiddleShiftDoublesLast<T>(s: seq<T>, v: T)
    requires 0 < IndexOf(s, v) < |s| - 1
    ensures Shifted(s, v)[|s| - 2] == Shifted(s, v)[|s| - 1] == s[|s| - 1]
  {
    var i := IndexOf(s, v);
    assert s[i + 1..][|s| - 2 - i] == s[|s| - 1];
  }

  /** The shift doubles the last ID exactly when it removes a middle one. */
  lemma ShiftDuplicatesIffMiddle<T>(s: seq<T>, v: T)
    requires NoDuplicates(s)
    ensures NoDuplicates(Shifted(s, v)) <==> !(0 < IndexOf(s, v) < |s| - 1)
  {
    if 0 < IndexOf(s, v) < |s| - 1 {
      MiddleShiftDoublesLast(s, v);
    }
  }

  /** The removed ID itself stays listed exactly when it is the first or the last. */
  lemma RemovedStaysIffAtEnd<T>(s: seq<T>, v: T)
    requires NoDuplicates(s) && v in s
    ensures v in Shifted(s, v) <==> IndexOf(s, v) == 0 || IndexOf(s, v) == |s| - 1
  {
    var i, r := IndexOf(s, v), Shifted(s, v);
    assert i < |s|;
    if 0 < i < |s| - 1 {
      forall k | 0 <= k < |s| ensures r[k] != v {
        assert r[k] == if k < i then s[k] else if k < |s| - 1 then s[k + 1] else s[|s| - 1];
      }
    }
  }

  /** Since the guild was last cleared, an ID in the middle of its list was removed. */
  ghost predicate Crowded<K, V>(ops: seq<Op<K, V>>, g: Guild) {
    ops != [] &&
    var init, op := ops[..|ops| - 1], ops[|ops| - 1];
    !(op.RemoveAll? && op.g == g)
    && (Crowded(init, g)
        || (op.RemoveOne? && op.g == g && 0 < IndexOf(Run(init).List(g), op.id) < |Run(init).List(g)| - 1))
  }

  /** After every run, a guild's list repeats an ID exactly when one was removed from its middle. */
  lemma {:induction false} RepeatsIffCrowded<K, V>(ops: seq<Op<K, V>>, g: Guild)
    ensures NoDuplicates(Run(ops).List(g)) <==> !Crowded(ops, g)
  {
    if ops != [] {
      var init, op := ops[..|ops| - 1], ops[|ops| - 1];
      var was, now := Run(init).List(g), Run(ops).List(g);
      RepeatsIffCrowded(init, g);
      if op.RemoveOne? && op.g == g && 0 < IndexOf(was, op.id) < |was| - 1 {
        MiddleShiftDoublesLast(was, op.id);
        assert now == Shifted(was, op.id) && now[|was| - 2] == now[|was| - 1];
      } else if op.Set? && op.g == g && op.id !in was {
        assert now == was + [op.id];
        assert forall i | 0 <= i < |was| :: now[i] == was[i];
      }
    }
  }

  lemma ListedThrice<V>(items: map<nat, V>, x: V, z: V)
    requires 1 in items && 3 in items && items[1] == x && items[3] == z
    ensures LiveValues(items, [1, 3, 3]) == [x, z, z]
  {
    assert [1, 3, 3][..2] == [1, 3] && [1, 3][..1] == [1];
    assert LiveValues(items, [1]) == [x] && LiveValues(items, [1, 3]) == [x, z];
  }

  lemma RunOfFour<K, V>(a: Op<K, V>, b: Op<K, V>, c: Op<K, V>, d: Op<K, V>)
    ensures Run([a, b, c, d]) == Apply(Apply(Apply(Apply(Index(map[], map[]), a), b), c), d)
  {
    var ops := [a, b, c, d];
    assert ops[..3] == [a, b, c] && [a, b, c][..2] == [a, b] && [a, b][..1] == [a];
    assert Run([a]) == Apply(Index(map[], map[]), a);
    assert Run([a, b]) == Apply(Run([a]), b);
    assert Run([a, b, c]) == Apply(Run([a, b]), c);
  }

  lemma ThreeSet<V>(x: V, y: V, z: V)
    ensures var s := Apply(Apply(Apply(Index(map[], map[]), Set(1, 1 as nat, x)), Set(1, 2, y)), Set(1, 3, z));
            s.List(1) == [1, 2, 3] && 1 in s.items && 3 in s.items && s.items[1] == x && s.items[3] == z
  {
    var s1 := Apply(Index(map[], map[]), Set(1, 1 as nat, x));
    assert s1.List(1) == [1];
    var s2 := Apply(s1, Set(1, 2, y));
    assert s2.List(1) == [1, 2];
  }

  /** Three values set, the middle one removed: the last one is listed twice. */
  lemma ListingRepeats<V>(x: V, y: V, z: V)
    ensures var s := Run([Set(1, 1 as nat, x), Set(1, 2, y), Set(1, 3, z), RemoveOne(1, 2)]);
            s.List(1) == [1, 3, 3] && LiveValues(s.items, s.List(1)) == [x, z, z]
  {
    RunOfFour(Set(1, 1 as nat, x), Set(1, 2, y), Set(1, 3, z), RemoveOne(1, 2));
    ThreeSet(x, y, z);
    FirstAt([1, 2, 3], 2, 1);
    assert Shifted([1, 2, 3], 2) == [1, 3, 3];
    ListedThrice(Run([Set(1, 1 as nat, x), Set(1, 2, y), Set(1, 3, z), RemoveOne(1, 2)]).items, x, z);
  }
}
