/** Unix groups: selecting groups of the database, removing duplicates, sorting, and lookup
    by name. */
module Groups {
  import opened Strings
  import opened Sharing
  import opened Organization

  // SelectGroups

  predicate HasPrefix(name: string, prefixes: seq<string>) {
    exists i :: 0 <= i < |prefixes| && prefixes[i] <= name
  }

  /** The groups that begin with one of the prefixes or have one of the names. */
  function Chosen(gs: seq<UnixGroup>, prefixes: seq<string>, equals: seq<string>): seq<UnixGroup> {
    if gs == [] then []
    else
      var n := |gs| - 1;
      Chosen(gs[..n], prefixes, equals) + if gs[n].name in equals || HasPrefix(gs[n].name, prefixes) then [gs[n]] else []
  }

  lemma {:induction false} InChosen(gs: seq<UnixGroup>, prefixes: seq<string>, equals: seq<string>, g: UnixGroup)
    ensures g in Chosen(gs, prefixes, equals) <==> g in gs && (g.name in equals || HasPrefix(g.name, prefixes))
  {
    if gs != [] {
      var n := |gs| - 1;
      InChosen(gs[..n], prefixes, equals, g);
      assert gs == gs[..n] + [gs[n]];
    }
  }

  method SelectGroups(gs: seq<UnixGroup>, prefixes: seq<string>, equals: seq<string>) returns (r: seq<UnixGroup>)
    ensures r == Chosen(gs, prefixes, equals)
  {
    r := [];
    for i := 0 to |gs|
      invariant r == Chosen(gs[..i], prefixes, equals)
    {
      assert gs[..i + 1][..i] == gs[..i];
      var found := gs[i].name in equals;
      for j := 0 to |prefixes|
        invariant found <==> gs[i].name in equals || HasPrefix(gs[i].name, prefixes[..j])
      {
        assert forall k :: 0 <= k < j ==> prefixes[..j][k] == prefixes[..j + 1][k];
        assert prefixes[..j + 1][j] == prefixes[j];
        if prefixes[j] <= gs[i].name { found := true; }
      }
      assert prefixes[..|prefixes|] == prefixes;
      if found { r := r + [gs[i]]; }
    }
    assert gs[..|gs|] == gs;
  }

  // DedupGroups

  /** Two entries of the database disagree: they share the name or the gid, not both. */
  predicate Conflict(a: UnixGroup, b: UnixGroup) {
    (a.name == b.name) != (a.gid == b.gid)
  }

  ghost predicate NoConflicts(gs: seq<UnixGroup>) {
    forall i, j :: 0 <= i < |gs| && 0 <= j < |gs| ==> !Conflict(gs[i], gs[j])
  }

  /** The list without the elements that occur earlier. */
  function Firsts<T(==)>(s: seq<T>): seq<T> {
    if s == [] then []
    else
      var n := |s| - 1;
      Firsts(s[..n]) + if s[n] in s[..n] then [] else [s[n]]
  }

  /** Fails exactly if two input groups conflict; otherwise keeps first occurrences. */
  method DedupGroups(groups: seq<UnixGroup>) returns (r: Result<seq<UnixGroup>>)
    ensures r.Ok? <==> NoConflicts(groups)
    ensures r.Ok? ==> r.value == Firsts(groups)
  {
    var byName: map<string, UnixGroup> := map[];
    var byGid: map<nat, UnixGroup> := map[];
    var res: seq<UnixGroup> := [];
    for i := 0 to |groups|
      invariant NoConflicts(groups[..i]) && res == Firsts(groups[..i])
      invariant Indexed(groups[..i], byName, byGid)
    {
      var g := groups[i];
      TakeOneMore([], groups, i);
      assert groups[..i + 1][..i] == groups[..i];
      if g.name in byName {
        if g != byName[g.name] {
          Conflicting(groups, i, byName[g.name]);
          return Err("conflicting groups");
        }
        SeenBefore(groups, i, byName, byGid);
        continue;
      }
      if g.gid in byGid {
        if g != byGid[g.gid] {
          Conflicting(groups, i, byGid[g.gid]);
          return Err("conflicting groups");
        }
        // The same group would have been found by its name.
        assert false;
      }
      NewGroup(groups, i, byName, byGid);
      byName := byName[g.name := g];
      byGid := byGid[g.gid := g];
      res := res + [g];
    }
    assert groups[..|groups|] == groups;
    return Ok(res);
  }

  /** Both maps hold exactly the groups so far. */
  ghost predicate Indexed(gs: seq<UnixGroup>, byName: map<string, UnixGroup>, byGid: map<nat, UnixGroup>) {
    && (forall g :: g in gs ==> g.name in byName && g.gid in byGid)
    && (forall n :: n in byName ==> byName[n] in gs && byName[n].name == n)
    && (forall n :: n in byGid ==> byGid[n] in gs && byGid[n].gid == n)
  }

  lemma Conflicting(groups: seq<UnixGroup>, i: nat, seen: UnixGroup)
    requires i < |groups| && seen in groups[..i] && seen != groups[i]
    requires seen.name == groups[i].name || seen.gid == groups[i].gid
    ensures !NoConflicts(groups)
  {
    var k :| 0 <= k < i && groups[..i][k] == seen;
    assert Conflict(groups[k], groups[i]);
  }

  lemma NoConflictIn(gs: seq<UnixGroup>, a: UnixGroup, b: UnixGroup)
    requires NoConflicts(gs) && a in gs && b in gs
    ensures !Conflict(a, b)
  {
    var i :| 0 <= i < |gs| && gs[i] == a;
    var j :| 0 <= j < |gs| && gs[j] == b;
  }

  lemma NoConflictsSnoc(gs: seq<UnixGroup>, g: UnixGroup)
    requires NoConflicts(gs) && forall h :: h in gs ==> !Conflict(h, g)
    ensures NoConflicts(gs + [g])
  {
    var more := gs + [g];
    forall a, b | 0 <= a < |more| && 0 <= b < |more| ensures !Conflict(more[a], more[b]) {
      assert a < |gs| ==> more[a] in gs;
      assert b < |gs| ==> more[b] in gs;
      assert a < |gs| && b < |gs| ==> !Conflict(gs[a], gs[b]);
    }
  }

  lemma InSnoc(gs: seq<UnixGroup>, g: UnixGroup)
    ensures forall h :: h in gs + [g] <==> h in gs || h == g
  {
  }

  lemma IndexedMember(
    gs: seq<UnixGroup>, more: seq<UnixGroup>, byName: map<string, UnixGroup>, byGid: map<nat, UnixGroup>, g: UnixGroup)
    requires Indexed(gs, byName, byGid) && g in gs && more == gs + [g]
    ensures Indexed(more, byName, byGid)
  {
    InSnoc(gs, g);
    assert forall h :: h in more <==> h in gs;
  }

  lemma IndexedNew(
    gs: seq<UnixGroup>, more: seq<UnixGroup>, byName: map<string, UnixGroup>, byGid: map<nat, UnixGroup>, g: UnixGroup)
    requires Indexed(gs, byName, byGid) && g.name !in byName && g.gid !in byGid && more == gs + [g]
    ensures Indexed(more, byName[g.name := g], byGid[g.gid := g])
  {
    InSnoc(gs, g);
  }

  lemma SeenBefore(groups: seq<UnixGroup>, i: nat, byName: map<string, UnixGroup>, byGid: map<nat, UnixGroup>)
    requires i < |groups| && groups[i] in groups[..i] && NoConflicts(groups[..i]) && Indexed(groups[..i], byName, byGid)
    ensures NoConflicts(groups[..i + 1]) && Indexed(groups[..i + 1], byName, byGid)
    ensures Firsts(groups[..i + 1]) == Firsts(groups[..i])
  {
    hide NoConflicts, Indexed, Conflict;
    TakeOneMore([], groups, i);
    assert groups[..i + 1][..i] == groups[..i];
    forall h | h in groups[..i] ensures !Conflict(h, groups[i]) {
      NoConflictIn(groups[..i], h, groups[i]);
    }
    NoConflictsSnoc(groups[..i], groups[i]);
    IndexedMember(groups[..i], groups[..i + 1], byName, byGid, groups[i]);
  }

  lemma NewGroup(groups: seq<UnixGroup>, i: nat, byName: map<string, UnixGroup>, byGid: map<nat, UnixGroup>)
    requires i < |groups| && groups[i].name !in byName && groups[i].gid !in byGid
    requires NoConflicts(groups[..i]) && Indexed(groups[..i], byName, byGid)
    ensures NoConflicts(groups[..i + 1]) && groups[i] !in groups[..i]
    ensures Indexed(groups[..i + 1], byName[groups[i].name := groups[i]], byGid[groups[i].gid := groups[i]])
    ensures Firsts(groups[..i + 1]) == Firsts(groups[..i]) + [groups[i]]
  {
    TakeOneMore([], groups, i);
    assert groups[..i + 1][..i] == groups[..i];
    NotYet(groups[..i], byName, byGid, groups[i]);
    hide NoConflicts, Indexed, Conflict;
    NoConflictsSnoc(groups[..i], groups[i]);
    IndexedNew(groups[..i], groups[..i + 1], byName, byGid, groups[i]);
  }

  lemma NotYet(gs: seq<UnixGroup>, byName: map<string, UnixGroup>, byGid: map<nat, UnixGroup>, g: UnixGroup)
    requires Indexed(gs, byName, byGid) && g.name !in byName && g.gid !in byGid
    ensures g !in gs && forall h :: h in gs ==> !Conflict(h, g)
  {
  }

  lemma {:induction false} FirstsSpec<T>(s: seq<T>)
    ensures NoDuplicates(Firsts(s)) && forall x :: x in Firsts(s) <==> x in s
  {
    if s != [] {
      var n := |s| - 1;
      FirstsSpec(s[..n]);
      assert s == s[..n] + [s[n]];
    }
  }

  /** In the deduplicated list, name and gid determine each other. */
  lemma DedupIsBijective(groups: seq<UnixGroup>, i: nat, j: nat)
    requires NoConflicts(groups) && i < |Firsts(groups)| && j < |Firsts(groups)|
    ensures Firsts(groups)[i].name == Firsts(groups)[j].name <==> i == j
    ensures Firsts(groups)[i].gid == Firsts(groups)[j].gid <==> i == j
  {
    FirstsSpec(groups);
    var r := Firsts(groups);
    assert r[i] in groups && r[j] in groups;
    NoConflictIn(groups, r[i], r[j]);
    if i < j || j < i { assert r[i] != r[j]; }
  }

  // GroupMap

  /** NewGroupMap: a later group replaces an earlier one of the same name. */
  function ByName(groups: seq<UnixGroup>): map<string, UnixGroup> {
    if groups == [] then map[]
    else
      var n := |groups| - 1;
      ByName(groups[..n])[groups[n].name := groups[n]]
  }

  method NewGroupMap(groups: seq<UnixGroup>) returns (byName: map<string, UnixGroup>)
    ensures byName == ByName(groups)
  {
    byName := map[];
    for i := 0 to |groups|
      invariant byName == ByName(groups[..i])
    {
      assert groups[..i + 1][..i] == groups[..i];
      byName := byName[groups[i].name := groups[i]];
    }
    assert groups[..|groups|] == groups;
  }

  lemma {:induction false} ByNameSpec(groups: seq<UnixGroup>)
    ensures forall g :: g in groups ==> g.name in ByName(groups)
    ensures forall n :: n in ByName(groups) ==> ByName(groups)[n] in groups && ByName(groups)[n].name == n
  {
    if groups != [] {
      var n := |groups| - 1;
      ByNameSpec(groups[..n]);
      assert groups == groups[..n] + [groups[n]];
    }
  }

  /** Lookup finds the last group of the name. */
  lemma {:induction false} LastOfName(groups: seq<UnixGroup>, i: nat)
    requires i < |groups| && forall j :: i < j < |groups| ==> groups[j].name != groups[i].name
    ensures groups[i].name in ByName(groups) && ByName(groups)[groups[i].name] == groups[i]
  {
    var n := |groups| - 1;
    if i < n {
      assert groups[n].name != groups[i].name;
      LastOfName(groups[..n], i);
    }
  }

  /** Without duplicate names, lookup finds the group itself. */
  lemma LookupFinds(groups: seq<UnixGroup>, g: UnixGroup)
    requires g in groups && DistinctNames(groups)
    ensures g.name in ByName(groups) && ByName(groups)[g.name] == g
  {
    ByNameSpec(groups);
    var h := ByName(groups)[g.name];
    var i :| 0 <= i < |groups| && groups[i] == g;
    var j :| 0 <= j < |groups| && groups[j] == h;
    assert i == j;
  }

  // Sorting

  function NamesOfGroups(gs: seq<UnixGroup>): (r: seq<string>)
    ensures |r| == |gs| && forall i :: 0 <= i < |r| ==> r[i] == gs[i].name
  {
    seq(|gs|, i requires 0 <= i < |gs| => gs[i].name)
  }

  ghost predicate DistinctNames(gs: seq<UnixGroup>) {
    forall i, j :: 0 <= i < j < |gs| ==> gs[i].name != gs[j].name
  }

  /** The same groups in ascending order of their names. */
  ghost predicate Sorted(gs: seq<UnixGroup>, r: seq<UnixGroup>) {
    Ascending(NamesOfGroups(r)) && forall g :: g in r <==> g in gs
  }

  ghost function SortedGroups(gs: seq<UnixGroup>): seq<UnixGroup> {
    if r :| Sorted(gs, r) then r else []
  }

  lemma SortedUnique(gs: seq<UnixGroup>, r: seq<UnixGroup>)
    requires DistinctNames(gs) && Sorted(gs, r)
    ensures r == SortedGroups(gs) && Sorted(gs, SortedGroups(gs))
  {
    var q := SortedGroups(gs);
    var a, b := NamesOfGroups(r), NamesOfGroups(q);
    SameNames(r, q);
    AscendingUnique(a, b);
    forall i | 0 <= i < |r| ensures r[i] == q[i] {
      assert a[i] == b[i] && r[i] in gs && q[i] in gs;
      LookupFinds(gs, r[i]);
      LookupFinds(gs, q[i]);
    }
  }

  lemma SameNames(r: seq<UnixGroup>, q: seq<UnixGroup>)
    requires forall g :: g in r <==> g in q
    ensures Elements(NamesOfGroups(r)) == Elements(NamesOfGroups(q))
  {
    NamesAmong(r, q);
    NamesAmong(q, r);
  }

  lemma NamesAmong(r: seq<UnixGroup>, q: seq<UnixGroup>)
    requires forall g :: g in r ==> g in q
    ensures Elements(NamesOfGroups(r)) <= Elements(NamesOfGroups(q))
  {
    var a, b := NamesOfGroups(r), NamesOfGroups(q);
    forall n | n in Elements(a) ensures n in Elements(b) {
      var i :| 0 <= i < |a| && a[i] == n;
      assert r[i] in q;
      var k :| 0 <= k < |q| && q[k] == r[i];
      assert b[k] == n;
    }
  }

  method SortGroups(gs: seq<UnixGroup>) returns (r: seq<UnixGroup>)
    requires DistinctNames(gs)
    ensures r == SortedGroups(gs) && Sorted(gs, r) && DistinctNames(r)
  {
    hide Ascending, Elements, ByName, DistinctNames, Sorted, NamesOfGroups, NoDuplicates, SortedGroups;
    var byName := ByName(gs);
    NamesApart(gs);
    var names := Sort(NamesOfGroups(gs));
    SortedNames(gs, names);
    r := [];
    for i := 0 to |names|
      invariant |r| == i && forall k :: 0 <= k < i ==> r[k] == byName[names[k]]
    {
      r := r + [byName[names[i]]];
    }
    SortedResult(gs, names, r);
    SortedUnique(gs, r);
  }

  lemma SomeSorted(gs: seq<UnixGroup>)
    requires DistinctNames(gs)
    ensures Sorted(gs, SortedGroups(gs))
  {
    hide Ascending, Elements, ByName, DistinctNames, Sorted, NamesOfGroups, NoDuplicates, SortedGroups;
    NamesApart(gs);
    var names := Sort(NamesOfGroups(gs));
    SortedNames(gs, names);
    var r := seq(|names|, i requires 0 <= i < |names| => ByName(gs)[names[i]]);
    SortedResult(gs, names, r);
    SortedUnique(gs, r);
  }

  lemma NamesApart(gs: seq<UnixGroup>)
    requires DistinctNames(gs)
    ensures NoDuplicates(NamesOfGroups(gs))
  {
  }

  lemma SortedResult(gs: seq<UnixGroup>, names: seq<string>, r: seq<UnixGroup>)
    requires DistinctNames(gs) && Ascending(names) && Elements(names) == Elements(NamesOfGroups(gs))
    requires |r| == |names| && forall k :: 0 <= k < |r| ==> names[k] in ByName(gs) && r[k] == ByName(gs)[names[k]]
    ensures Sorted(gs, r) && DistinctNames(r)
  {
    hide Ascending, Elements, ByName;
    ByNameSpec(gs);
    assert NamesOfGroups(r) == names;
    AscendingNoDuplicates(names);
    SortedNames(gs, names);
    forall g | g in gs ensures g in r {
      var k :| 0 <= k < |names| && names[k] == g.name;
      LookupFinds(gs, g);
      LookupFinds(gs, r[k]);
    }
  }

  lemma SortedNames(gs: seq<UnixGroup>, names: seq<string>)
    requires Elements(names) == Elements(NamesOfGroups(gs))
    ensures forall i :: 0 <= i < |names| ==> names[i] in ByName(gs)
    ensures forall g :: g in gs ==> exists k :: 0 <= k < |names| && names[k] == g.name
  {
    ByNameSpec(gs);
    var all := NamesOfGroups(gs);
    forall i | 0 <= i < |names| ensures names[i] in ByName(gs) {
      assert names[i] in Elements(all);
      var k :| 0 <= k < |all| && all[k] == names[i];
      assert gs[k] in gs;
    }
    forall g | g in gs ensures exists k :: 0 <= k < |names| && names[k] == g.name {
      var i :| 0 <= i < |gs| && gs[i] == g;
      assert all[i] in Elements(names);
    }
  }
}
