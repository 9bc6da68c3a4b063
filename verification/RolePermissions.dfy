/** How a role log shows changed permissions (logging/roles/role_update.go, common/permission_strings.go). A permission
    word is the set of its bits: and, or and exclusive or are intersection, union and symmetric difference. */
module RolePermissions {

  type Bits = set<nat>

  datatype Perm = Perm(bits: Bits, name: string)

  function Xor(a: Bits, b: Bits): Bits {
    (a - b) + (b - a)
  }

  method PermStringsFor(m: seq<Perm>, p: Bits) returns (out: seq<string>)
    ensures out == Names(m, p)
  {
    out := [];
    for i := 0 to |m|
      invariant out == Names(m[..i], p)
    {
      assert m[..i + 1][..i] == m[..i];
      if p * m[i].bits == m[i].bits {
        out := out + [m[i].name];
      }
    }
    assert m[..|m|] == m;
  }

  /** The names of the entries whose bits are all set, in the table's order. */
  function Names(m: seq<Perm>, p: Bits): seq<string> {
    if m == [] then []
    else Names(m[..|m| - 1], p) + if m[|m| - 1].bits <= p then [m[|m| - 1].name] else []
  }

  lemma NamesSnoc(m: seq<Perm>, k: Perm, p: Bits)
    ensures Names(m + [k], p) == Names(m, p) + if k.bits <= p then [k.name] else []
  {
    assert (m + [k])[..|m|] == m;
  }

  /** The names come in the table's order, each entry deciding about its own only. */
  lemma {:induction false} NamesAppend(a: seq<Perm>, b: seq<Perm>, p: Bits)
    ensures Names(a + b, p) == Names(a, p) + Names(b, p)
  {
    if b == [] {
      assert a + b == a;
    } else {
      var init, k := b[..|b| - 1], b[|b| - 1];
      assert a + b == a + init + [k] && b == init + [k];
      NamesAppend(a, init, p);
      NamesSnoc(a + init, k, p);
      NamesSnoc(init, k, p);
    }
  }

  /** What the exclusive or leaves of each word is what only that word has: nothing is both added and removed, and the
      two together turn the old word into the new one and back. */
  lemma MaskedChange(before: Bits, after: Bits)
    ensures after * Xor(after, before) == after - before
    ensures before * Xor(after, before) == before - after
    ensures (after - before) * (before - after) == {}
    ensures (before - (before - after)) + (after - before) == after
    ensures (after - (after - before)) + (before - after) == before
  {
  }

  lemma {:induction false} NamesAreEntries(m: seq<Perm>, p: Bits, name: string)
    ensures name in Names(m, p) <==> exists k :: k in m && k.name == name && k.bits <= p
  {
    if m != [] {
      var k := m[|m| - 1];
      assert m == m[..|m| - 1] + [k];
      NamesAreEntries(m[..|m| - 1], p, name);
    }
  }

  /** A name is listed as added exactly when a table entry of that name has bits none of which the role had and all of
      which it has now, and as removed the other way round. */
  lemma ListedIffChanged(m: seq<Perm>, before: Bits, after: Bits, name: string)
    ensures name in Names(m, after - before) <==>
            exists k :: k in m && k.name == name && k.bits <= after && k.bits !! before
    ensures name in Names(m, before - after) <==>
            exists k :: k in m && k.name == name && k.bits <= before && k.bits !! after
  {
    NamesAreEntries(m, after - before, name);
    NamesAreEntries(m, before - after, name);
    forall k: Perm ensures k.bits <= after - before <==> k.bits <= after && k.bits !! before {
    }
    forall k: Perm ensures k.bits <= before - after <==> k.bits <= before && k.bits !! after {
    }
  }

  /** The names behind the plus sign and behind the minus sign: when every table entry has a bit, a name is listed as
      added exactly when an entry of that name was wholly gained, and as removed exactly when one was wholly lost. */
  method PermissionDiff(m: seq<Perm>, before: Bits, after: Bits) returns (plus: seq<string>, minus: seq<string>)
    ensures plus == (if after - before != {} then Names(m, after - before) else [])
    ensures minus == (if before - after != {} then Names(m, before - after) else [])
    ensures (forall k | k in m :: k.bits != {}) ==>
              forall name ::
                && (name in plus <==> exists k :: k in m && k.name == name && k.bits <= after && k.bits !! before)
                && (name in minus <==> exists k :: k in m && k.name == name && k.bits <= before && k.bits !! after)
  {
    plus, minus := [], [];
    if after != before {
      var changedPerms := Xor(after, before);
      MaskedChange(before, after);
      if after * changedPerms != {} {
        plus := PermStringsFor(m, after * changedPerms);
      }
      if before * changedPerms != {} {
        minus := PermStringsFor(m, before * changedPerms);
      }
    }
    forall name
      ensures name in Names(m, after - before) <==>
              exists k :: k in m && k.name == name && k.bits <= after && k.bits !! before
      ensures name in Names(m, before - after) <==>
              exists k :: k in m && k.name == name && k.bits <= before && k.bits !! after
    {
      ListedIffChanged(m, before, after, name);
    }
  }
}
