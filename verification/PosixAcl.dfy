/** POSIX ACLs by numeric id as `setfacl` and `mkdir` change them, after acl(5)
    and setfacl(1). */
module PosixAcl {
  import opened Strings
  import opened Sharing

  /** Named entries in the order of their ids, each id once. */
  type Named = seq<(nat, Mode)>

  ghost predicate Sorted(l: Named) {
    forall i, j :: 0 <= i < j < |l| ==> l[i].0 < l[j].0
  }

  /** The entries of an access or default ACL. */
  datatype Entries = Entries(user: Mode, users: Named, group: Mode, groups: Named, mask: Option<Mode>, other: Mode) {
    /** An ACL with named entries has a mask, and lists are in order. */
    ghost predicate Valid() {
      Sorted(users) && Sorted(groups) && (users != [] || groups != [] ==> mask.Some?)
    }
  }

  datatype DirAcl = DirAcl(uid: nat, gid: nat, setgid: bool, access: Entries, dflt: Option<Entries>) {
    ghost predicate Valid() {
      access.Valid() && (dflt.Some? ==> dflt.value.Valid())
    }
  }

  /** Sets or adds an entry. */
  function Put(l: Named, id: nat, m: Mode): Named {
    if l == [] then [(id, m)]
    else if id < l[0].0 then [(id, m)] + l
    else if id == l[0].0 then [(id, m)] + l[1..]
    else [l[0]] + Put(l[1..], id, m)
  }

  /** Deletes an entry if it is there. */
  function Del(l: Named, id: nat): Named {
    if l == [] then []
    else if l[0].0 == id then l[1..]
    else [l[0]] + Del(l[1..], id)
  }

  lemma HeadFirst(l: Named)
    requires Sorted(l) && l != []
    ensures forall e :: e in l[1..] ==> l[0].0 < e.0
  {
    forall e | e in l[1..] ensures l[0].0 < e.0 {
      var k :| 0 <= k < |l[1..]| && l[1..][k] == e;
      assert l[k + 1] == e;
    }
  }

  lemma SortedCons(e: (nat, Mode), l: Named)
    requires Sorted(l) && forall x :: x in l ==> e.0 < x.0
    ensures Sorted([e] + l)
  {
  }

  lemma TailSorted(l: Named)
    requires Sorted(l) && l != []
    ensures Sorted(l[1..])
  {
  }

  lemma {:induction false} PutSpec(l: Named, id: nat, m: Mode)
    requires Sorted(l)
    ensures Sorted(Put(l, id, m)) && Put(l, id, m) != []
    ensures forall e :: e in Put(l, id, m) <==> e == (id, m) || (e in l && e.0 != id)
  {
    if l != [] {
      hide Sorted;
      assert l == [l[0]] + l[1..];
      HeadFirst(l);
      TailSorted(l);
      if id < l[0].0 {
        SortedCons((id, m), l);
      } else if id == l[0].0 {
        SortedCons((id, m), l[1..]);
      } else {
        PutSpec(l[1..], id, m);
        SortedCons(l[0], Put(l[1..], id, m));
      }
    }
  }

  lemma {:induction false} DelSpec(l: Named, id: nat)
    requires Sorted(l)
    ensures Sorted(Del(l, id))
    ensures forall e :: e in Del(l, id) <==> e in l && e.0 != id
  {
    if l != [] {
      hide Sorted;
      assert l == [l[0]] + l[1..];
      HeadFirst(l);
      TailSorted(l);
      if l[0].0 != id {
        DelSpec(l[1..], id);
        SortedCons(l[0], Del(l[1..], id));
      }
    }
  }

  /** An ordered list is determined by its entries. */
  lemma {:induction false} SortedUnique(a: Named, b: Named)
    requires Sorted(a) && Sorted(b) && forall e :: e in a <==> e in b
    ensures a == b
  {
    if a == [] {
      NoElements(b);
    } else {
      assert a[0] in b && |b| > 0;
      assert b[0] in a;
      assert a[0] == b[0];
      forall e ensures e in a[1..] <==> e in b[1..] {
        TailIn(a, e);
        TailIn(b, e);
      }
      SortedUnique(a[1..], b[1..]);
      assert a == [a[0]] + a[1..] && b == [b[0]] + b[1..];
    }
  }

  lemma TailIn(a: Named, e: (nat, Mode))
    requires Sorted(a) && a != []
    ensures e in a[1..] <==> e in a && e != a[0]
  {
    if e in a && e != a[0] {
      var k :| 0 <= k < |a| && a[k] == e;
      assert a[1..][k - 1] == e;
    }
    if e in a[1..] {
      var k :| 0 <= k < |a[1..]| && a[1..][k] == e;
      assert a[k + 1] == e;
    }
  }

  // Masks

  function UnionOf(l: Named): Mode {
    if l == [] then NoAccess else l[0].1.Or(UnionOf(l[1..]))
  }

  /** The union of all permissions that the mask affects. */
  function Recalculated(e: Entries): Mode {
    e.group.Or(UnionOf(e.users)).Or(UnionOf(e.groups))
  }

  /** The mask is recalculated unless the command lists one; an ACL without named
      entries and without a mask gets none. */
  function FixMask(e: Entries, listed: bool): Entries {
    if listed then e
    else if e.mask.None? && e.users == [] && e.groups == [] then e
    else e.(mask := Some(Recalculated(e)))
  }

  lemma {:induction false} UnionWithin(l: Named, m: Mode)
    ensures UnionOf(l).Within(m) <==> forall e :: e in l ==> e.1.Within(m)
  {
    if l != [] {
      UnionWithin(l[1..], m);
      assert l == [l[0]] + l[1..];
    }
  }

  // setfacl -M

  /** One line of an ACL file. */
  datatype Line =
    | User(mode: Mode)
    | Group(mode: Mode)
    | NamedGroup(gid: nat, mode: Mode)
    | Mask(mode: Mode)
    | Other(mode: Mode)

  function SetLine(e: Entries, l: Line): Entries {
    match l
    case User(m) => e.(user := m)
    case Group(m) => e.(group := m)
    case NamedGroup(g, m) => e.(groups := Put(e.groups, g, m))
    case Mask(m) => e.(mask := Some(m))
    case Other(m) => e.(other := m)
  }

  function SetLines(e: Entries, lines: seq<Line>): Entries {
    if lines == [] then e else SetLine(SetLines(e, lines[..|lines| - 1]), lines[|lines| - 1])
  }

  predicate ListsMask(lines: seq<Line>) {
    exists i :: 0 <= i < |lines| && lines[i].Mask?
  }

  function ModifyEntries(e: Entries, lines: seq<Line>): Entries {
    if lines == [] then e else FixMask(SetLines(e, lines), ListsMask(lines))
  }

  /** A new default ACL starts with the base entries of the access ACL. */
  function DefaultOf(acl: DirAcl): Entries {
    if acl.dflt.Some? then acl.dflt.value
    else Entries(acl.access.user, [], acl.access.group, [], None, acl.access.other)
  }

  /** `setfacl -M` with normal and default lines. */
  function Modify(acl: DirAcl, normal: seq<Line>, dflt: seq<Line>): DirAcl {
    acl.(access := ModifyEntries(acl.access, normal),
         dflt := if dflt == [] then acl.dflt else Some(ModifyEntries(DefaultOf(acl), dflt)))
  }

  // setfacl -X

  function DelAll(l: Named, gids: seq<nat>): Named {
    if gids == [] then l else Del(DelAll(l, gids[..|gids| - 1]), gids[|gids| - 1])
  }

  function RemoveEntries(e: Entries, gids: seq<nat>): Entries {
    if gids == [] then e else FixMask(e.(groups := DelAll(e.groups, gids)), false)
  }

  /** `setfacl -X` with the normal and default entries of some groups. */
  function Remove(acl: DirAcl, gids: seq<nat>): DirAcl {
    acl.(access := RemoveEntries(acl.access, gids),
         dflt := if acl.dflt.Some? then Some(RemoveEntries(acl.dflt.value, gids)) else None)
  }

  // mkdir

  /** What a directory made by root inherits: the parent's default ACL becomes its
      access and default ACL, a set-group-id parent passes on its group and bit;
      without a default ACL the creation mode decides. */
  function Inherit(parent: DirAcl, user: Mode, group: Mode, other: Mode): DirAcl {
    DirAcl(
      0, if parent.setgid then parent.gid else 0, parent.setgid,
      if parent.dflt.Some? then parent.dflt.value else Entries(user, [], group, [], None, other),
      parent.dflt)
  }

  lemma InheritValid(parent: DirAcl, user: Mode, group: Mode, other: Mode)
    requires parent.Valid()
    ensures Inherit(parent, user, group, other).Valid()
  {
  }
}
