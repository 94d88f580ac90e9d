/** How the checker reads a directory's ACL back: the text that
    `getfacl -p -E -n` prints, the text it expects, and its filter on the text. */
module FsckAcl {
  import opened Strings
  import opened Sharing
  import opened PosixAcl
  import opened DirScripts
  import opened Decimal
  import opened Organization
  import AclStore

  // getfacl -p -E -n

  function NamedText(tag: string, l: Named): seq<string> {
    if l == [] then [] else [tag + (Dec(l[0].0) + (":" + l[0].1.Text()))] + NamedText(tag, l[1..])
  }

  /** The text from the owning group's line on. */
  function TailText(tag: string, e: Entries): seq<string> {
    [tag + "group::" + e.group.Text()] + (NamedText(tag + "group:", e.groups) + LastText(tag, e))
  }

  function LastText(tag: string, e: Entries): seq<string> {
    (if e.mask.Some? then [tag + "mask::" + e.mask.value.Text()] else []) + [tag + "other::" + e.other.Text()]
  }

  function EntriesText(tag: string, e: Entries): seq<string> {
    [tag + "user::" + e.user.Text()] + (NamedText(tag + "user:", e.users) + TailText(tag, e))
  }

  function BodyText(acl: DirAcl): seq<string> {
    EntriesText("", acl.access) + (if acl.dflt.Some? then EntriesText("default:", acl.dflt.value) else [])
  }

  /** The lines after the one that names the file. */
  function AclText(acl: DirAcl): seq<string> {
    ["# owner: " + Dec(acl.uid), "# group: " + Dec(acl.gid)] +
    ((if acl.setgid then ["# flags: -s-"] else []) + BodyText(acl))
  }

  /** The output for one directory, after TrimSpace. */
  function GetfaclText(path: string, acl: DirAcl): string {
    Concat(["# file: " + path] + AclText(acl), '\n')
  }

  // The filter on the text

  /** strings.Contains(s, t) */
  predicate Contains(s: string, t: string) {
    exists i :: 0 <= i <= |s| && t <= s[i..]
  }

  predicate IsNamedGroupEntry(l: string) {
    !Contains(l, "# ") && !Contains(l, "group::") && Contains(l, "group:")
  }

  predicate IsOtherNamedGroupEntry(l: string, gids: seq<nat>) {
    IsNamedGroupEntry(l) && forall i :: 0 <= i < |gids| ==> !Contains(l, "group:" + (Dec(gids[i]) + ":"))
  }

  function KeptLines(lines: seq<string>, gids: seq<nat>): seq<string> {
    if lines == [] then []
    else
      var n := |lines| - 1;
      KeptLines(lines[..n], gids) + (if IsOtherNamedGroupEntry(lines[n], gids) then [] else [lines[n]])
  }

  method RejectOtherNamedGroupEntries(facl: string, gids: seq<nat>) returns (r: string)
    ensures r == Concat(KeptLines(Split(facl, '\n'), gids), '\n')
  {
    var keep: seq<string> := [];
    var lines := Split(facl, '\n');
    for i := 0 to |lines|
      invariant keep == KeptLines(lines[..i], gids)
    {
      TakeOneMore([], lines, i);
      assert lines[..i + 1][..i] == lines[..i];
      if IsOtherNamedGroupEntry(lines[i], gids) { continue; }
      keep := keep + [lines[i]];
    }
    TakeEnds([], lines);
    return Concat(keep, '\n');
  }

  // What the filter keeps

  lemma Occurs(s: string, x: string) returns (i: nat)
    requires Contains(s, x) && x != ""
    ensures i < |s| && s[i] == x[0] && x <= s[i..]
  {
    i :| 0 <= i <= |s| && x <= s[i..];
    assert s[i] == s[i..][0];
  }

  lemma PlainLineStays(l: string, gids: seq<nat>)
    requires 'g' !in l || "# " <= l
    ensures !IsOtherNamedGroupEntry(l, gids)
  {
    if "# " <= l {
      assert l[0..] == l;
    } else if Contains(l, "group:") {
      var i := Occurs(l, "group:");
    }
  }

  lemma CharOf(pre: string, t: string, i: nat)
    requires i < |pre + t|
    ensures (pre + t)[i] == if i < |pre| then pre[i] else if i == |pre| then t[0] else t[1..][i - |pre| - 1]
    ensures (pre + t)[|pre|..] == t
  {
  }

  /** In a line with a single `g`, a text that starts with `g` can only match there. */
  lemma ContainsAt(pre: string, t: string, x: string)
    requires x != "" && x[0] == 'g' && 'g' !in pre && t != "" && 'g' !in t[1..]
    ensures Contains(pre + t, x) <==> x <= t
  {
    CharOf(pre, t, 0);
    if Contains(pre + t, x) {
      var i := Occurs(pre + t, x);
      CharOf(pre, t, i);
    }
  }

  lemma PrefixSplit(pre: string, x: string, t: string)
    ensures pre + x <= pre + t <==> x <= t
  {
    assert (pre + x)[|pre|..] == x && (pre + t)[|pre|..] == t;
    if x <= t { assert (pre + t)[..|pre + x|] == pre + t[..|x|]; }
    if pre + x <= pre + t { assert t[..|x|] == (pre + t)[..|pre + x|][|pre|..]; }
  }

  /** Numerals that end at a colon are equal if one starts the other. */
  lemma NumeralBeforeColon(m: nat, n: nat, rest: string)
    ensures Dec(m) + ":" <= Dec(n) + (":" + rest) <==> m == n
  {
    DecHasNo(m, ':');
    DecHasNo(n, ':');
    SplitPlain(Dec(m), ':');
    SplitPlain(Dec(n), ':');
    SplitJoin2(Dec(n), rest, ':');
    assert Dec(n) + (":" + rest) == Dec(n) + [':'] + rest;
    PrefixIffParts(Dec(m), Dec(n) + [':'] + rest, ':');
    if Dec(m) + ":" <= Dec(n) + (":" + rest) {
      assert [Dec(m)][0] == ([Dec(n)] + Split(rest, ':'))[0];
      DecInjective(m, n);
    }
    if m == n { assert Dec(n) + [':'] + rest == (Dec(n) + ":") + rest; }
  }

  predicate IsTag(tag: string) {
    tag == "" || tag == "default:"
  }

  lemma NoHash(l: string)
    requires '#' !in l
    ensures !Contains(l, "# ")
  {
    if Contains(l, "# ") {
      var i := Occurs(l, "# ");
    }
  }

  lemma NamedLineContains(tag: string, t: string, x: string)
    requires IsTag(tag) && 'g' !in t
    ensures Contains(tag + "group:" + t, "group:" + x) <==> x <= t
  {
    hide Contains;
    var g := "group:" + t;
    assert g[1..] == "roup:" + t;
    assert tag + "group:" + t == tag + g;
    ContainsAt(tag, g, "group:" + x);
    PrefixSplit("group:", x, t);
  }

  /** A named group line is dropped exactly if its gid is not listed. */
  lemma NamedLineStays(tag: string, gid: nat, m: Mode, gids: seq<nat>)
    requires IsTag(tag)
    ensures IsOtherNamedGroupEntry(tag + "group:" + (Dec(gid) + (":" + m.Text())), gids) <==> gid !in gids
  {
    hide Contains, Dec;
    var t := Dec(gid) + (":" + m.Text());
    var l := tag + "group:" + t;
    DecHasNo(gid, 'g');
    DecHasNo(gid, '#');
    NoHash(l);
    NamedLineContains(tag, t, "");
    assert "group:" + "" == "group:";
    NamedLineContains(tag, t, ":");
    assert "group:" + ":" == "group::";
    assert !(":" <= t) by { assert IsDigit(Dec(gid)[0]) && t[0] == Dec(gid)[0]; }
    forall i | 0 <= i < |gids| ensures Contains(l, "group:" + (Dec(gids[i]) + ":")) <==> gids[i] == gid {
      NamedLineContains(tag, t, Dec(gids[i]) + ":");
      NumeralBeforeColon(gids[i], gid, m.Text());
    }
  }

  lemma GroupLineStays(tag: string, m: Mode, gids: seq<nat>)
    requires IsTag(tag)
    ensures !IsOtherNamedGroupEntry(tag + "group::" + m.Text(), gids)
  {
    var l := tag + "group::" + m.Text();
    assert l[|tag|..] == "group::" + m.Text();
    assert Contains(l, "group::");
  }

  /** The entries for the listed ids. */
  function Only(l: Named, gids: seq<nat>): Named {
    if l == [] then [] else (if l[0].0 in gids then [l[0]] else []) + Only(l[1..], gids)
  }

  function OnlyGroups(e: Entries, gids: seq<nat>): Entries {
    e.(groups := Only(e.groups, gids))
  }

  /** The ACL without the named group entries for other gids. */
  function KeepGroups(acl: DirAcl, gids: seq<nat>): DirAcl {
    acl.(access := OnlyGroups(acl.access, gids),
         dflt := if acl.dflt.Some? then Some(OnlyGroups(acl.dflt.value, gids)) else None)
  }

  lemma {:induction false} KeptAppend(a: seq<string>, b: seq<string>, gids: seq<nat>)
    ensures KeptLines(a + b, gids) == KeptLines(a, gids) + KeptLines(b, gids)
  {
    if b == [] {
      assert a + b == a;
    } else {
      var n := |b| - 1;
      assert (a + b)[..|a| + n] == a + b[..n];
      KeptAppend(a, b[..n], gids);
    }
  }

  lemma KeptOne(l: string, gids: seq<nat>)
    ensures KeptLines([l], gids) == if IsOtherNamedGroupEntry(l, gids) then [] else [l]
  {
    assert [l][..0] == [];
  }

  lemma KeptTwo(a: string, rest: seq<string>, gids: seq<nat>)
    ensures KeptLines([a] + rest, gids) == (if IsOtherNamedGroupEntry(a, gids) then [] else [a]) + KeptLines(rest, gids)
  {
    KeptAppend([a], rest, gids);
    KeptOne(a, gids);
  }

  lemma {:induction false} NamedUsersStay(tag: string, l: Named, gids: seq<nat>)
    requires IsTag(tag)
    ensures KeptLines(NamedText(tag + "user:", l), gids) == NamedText(tag + "user:", l)
  {
    if l != [] {
      NamedUsersStay(tag, l[1..], gids);
      var line := tag + "user:" + (Dec(l[0].0) + (":" + l[0].1.Text()));
      DecHasNo(l[0].0, 'g');
      PlainLineStays(line, gids);
      KeptTwo(line, NamedText(tag + "user:", l[1..]), gids);
    }
  }

  lemma {:induction false} NamedGroupsFiltered(tag: string, l: Named, gids: seq<nat>)
    requires IsTag(tag)
    ensures KeptLines(NamedText(tag + "group:", l), gids) == NamedText(tag + "group:", Only(l, gids))
  {
    hide IsOtherNamedGroupEntry;
    if l != [] {
      NamedGroupsFiltered(tag, l[1..], gids);
      var line := tag + "group:" + (Dec(l[0].0) + (":" + l[0].1.Text()));
      NamedLineStays(tag, l[0].0, l[0].1, gids);
      KeptTwo(line, NamedText(tag + "group:", l[1..]), gids);
      if l[0].0 in gids {
        assert Only(l, gids)[0] == l[0] && Only(l, gids)[1..] == Only(l[1..], gids);
      } else {
        assert Only(l, gids) == Only(l[1..], gids);
      }
    }
  }

  lemma LastStays(tag: string, e: Entries, gids: seq<nat>)
    requires IsTag(tag)
    ensures KeptLines(LastText(tag, e), gids) == LastText(tag, e)
  {
    hide IsOtherNamedGroupEntry;
    var other := tag + "other::" + e.other.Text();
    PlainLineStays(other, gids);
    KeptOne(other, gids);
    if e.mask.Some? {
      var mask := tag + "mask::" + e.mask.value.Text();
      PlainLineStays(mask, gids);
      KeptTwo(mask, [other], gids);
    }
  }

  lemma EntriesFiltered(tag: string, e: Entries, gids: seq<nat>)
    requires IsTag(tag)
    ensures KeptLines(EntriesText(tag, e), gids) == EntriesText(tag, OnlyGroups(e, gids))
  {
    hide IsOtherNamedGroupEntry, NamedText, KeptLines;
    var user := tag + "user::" + e.user.Text();
    PlainLineStays(user, gids);
    KeptTwo(user, NamedText(tag + "user:", e.users) + TailText(tag, e), gids);
    KeptAppend(NamedText(tag + "user:", e.users), TailText(tag, e), gids);
    NamedUsersStay(tag, e.users, gids);
    GroupLineStays(tag, e.group, gids);
    KeptTwo(tag + "group::" + e.group.Text(), NamedText(tag + "group:", e.groups) + LastText(tag, e), gids);
    KeptAppend(NamedText(tag + "group:", e.groups), LastText(tag, e), gids);
    NamedGroupsFiltered(tag, e.groups, gids);
    LastStays(tag, e, gids);
  }

  /** The filter on the text acts exactly like filtering the entries by gid. */
  lemma TextFilterIsGidFilter(path: string, acl: DirAcl, gids: seq<nat>)
    ensures KeptLines(["# file: " + path] + AclText(acl), gids) ==
            ["# file: " + path] + AclText(KeepGroups(acl, gids))
  {
    hide IsOtherNamedGroupEntry, KeptLines, EntriesText;
    var flags := if acl.setgid then ["# flags: -s-"] else [];
    PlainLineStays("# file: " + path, gids);
    KeptTwo("# file: " + path, AclText(acl), gids);
    PlainLineStays("# owner: " + Dec(acl.uid), gids);
    PlainLineStays("# group: " + Dec(acl.gid), gids);
    var owner := ["# owner: " + Dec(acl.uid), "# group: " + Dec(acl.gid)];
    KeptAppend(owner, flags + BodyText(acl), gids);
    KeptTwo("# owner: " + Dec(acl.uid), ["# group: " + Dec(acl.gid)], gids);
    KeptOne("# group: " + Dec(acl.gid), gids);
    assert owner == ["# owner: " + Dec(acl.uid)] + ["# group: " + Dec(acl.gid)];
    KeptAppend(flags, BodyText(acl), gids);
    assert KeptLines(flags, gids) == flags by {
      PlainLineStays("# flags: -s-", gids);
      KeptOne("# flags: -s-", gids);
      KeptNothing(gids);
    }
    EntriesFiltered("", acl.access, gids);
    KeptAppend(EntriesText("", acl.access), if acl.dflt.Some? then EntriesText("default:", acl.dflt.value) else [], gids);
    KeptNothing(gids);
    if acl.dflt.Some? { EntriesFiltered("default:", acl.dflt.value, gids); }
  }

  lemma KeptNothing(gids: seq<nat>)
    ensures KeptLines([], gids) == []
  {
  }

  // The expected ACLs

  datatype ACL =
    | SimpleACL(uid: nat, gid: nat, user: Mode, group: Mode, other: Mode)
    | ServiceACL(uid: nat, serviceGid: nat, serviceOpsGid: nat, superGid: nat, access: AccessPolicy)
    | ServiceOrgUnitACL(uid: nat, orgUnitGid: nat, serviceOpsGid: nat, serviceGid: nat, superGid: nat)
    | OrgUnitACL(uid: nat, gid: nat)
    | SubdirGroupACL(uid: nat, gid: nat)
    | SubdirOwnerACL(uid: nat, gid: nat)
    | SubdirManagerACL(uid: nat, gid: nat)
  {
    predicate Valid() {
      ServiceACL? ==> access != Unspecified
    }

    function NamedGids(): seq<nat> {
      match this
      case SimpleACL(_, _, _, _, _) => []
      case ServiceACL(_, srv, ops, super, _) => [srv, ops, super]
      case ServiceOrgUnitACL(_, ou, ops, srv, super) => [ou, srv, ops, super]
      case _ => [gid]
    }

    /** FACLString by lines. */
    function FaclLines(): seq<string>
      requires Valid()
    {
      match this
      case SimpleACL(u, g, user, group, other) =>
        ["# owner: " + Dec(u), "# group: " + Dec(g), "user::" + user.Text(), "group::" + group.Text(), "other::" + other.Text()]
      case ServiceACL(u, srv, ops, super, access) =>
        var lo, hi := Least(srv, ops), Most(srv, ops);
        if access == PerService then
          ["# owner: " + Dec(u), "# group: " + Dec(srv)] +
          ["user::rwx", "group::---", "group:" + (Dec(lo) + ":r-x"), "group:" + (Dec(hi) + ":r-x"), "mask::r-x", "other::---"] +
          ["default:user::rwx", "default:group::---",
           "default:group:" + (Dec(lo) + ":r-x"), "default:group:" + (Dec(hi) + ":r-x"),
           "default:mask::r-x", "default:other::---"]
        else
          ["# owner: " + Dec(u), "# group: " + Dec(srv)] +
          ["user::rwx", "group::---", "group:" + (Dec(super) + ":r-x"), "mask::r-x", "other::---"] +
          ["default:user::rwx", "default:group::---", "default:group:" + (Dec(super) + ":r-x"),
           "default:mask::r-x", "default:other::---"]
      case ServiceOrgUnitACL(u, ou, ops, _, _) =>
        var lo, hi := Least(ou, ops), Most(ou, ops);
        ["# owner: " + Dec(u), "# group: " + Dec(ou), "# flags: -s-"] +
        ["user::rwx", "group::---", "group:" + (Dec(lo) + ":rwx"), "group:" + (Dec(hi) + ":rwx"), "mask::rwx", "other::---"] +
        ["default:user::rwx", "default:group::---",
         "default:group:" + (Dec(lo) + ":rwx"), "default:group:" + (Dec(hi) + ":rwx"),
         "default:mask::rwx", "default:other::---"]
      case OrgUnitACL(u, g) =>
        ["# owner: " + Dec(u), "# group: " + Dec(g), "# flags: -s-"] +
        ["user::rwx", "group::---", "group:" + (Dec(g) + ":r-x"), "mask::r-x", "other::---"] +
        ["default:user::rwx", "default:group::---", "default:group:" + (Dec(g) + ":r-x"),
         "default:mask::r-x", "default:other::---"]
      case SubdirGroupACL(u, g) =>
        ["# owner: " + Dec(u), "# group: " + Dec(g), "# flags: -s-"] +
        ["user::rwx", "group::---", "group:" + (Dec(g) + ":rwx"), "mask::rwx", "other::---"] +
        ["default:user::rwx", "default:group::---", "default:group:" + (Dec(g) + ":rwx"),
         "default:mask::rwx", "default:other::---"]
      case SubdirOwnerACL(u, g) =>
        ["# owner: " + Dec(u), "# group: " + Dec(g), "# flags: -s-"] +
        ["user::rwx", "group::---", "group:" + (Dec(g) + ":rwx"), "mask::rwx", "other::---"] +
        ["default:user::rwx", "default:group::---", "default:group:" + (Dec(g) + ":r-x"),
         "default:mask::r-x", "default:other::---"]
      case SubdirManagerACL(u, g) =>
        ["# owner: " + Dec(u), "# group: " + Dec(g), "# flags: -s-"] +
        ["user::rwx", "group::---", "group:" + (Dec(g) + ":r-x"), "mask::r-x", "other::---"] +
        ["default:user::rwx", "default:group::---", "default:group:" + (Dec(g) + ":r-x"),
         "default:mask::r-x", "default:other::---"]
    }

    function FaclString(): string
      requires Valid()
    {
      Concat(FaclLines(), '\n')
    }
  }

  function Least(a: nat, b: nat): nat {
    if a <= b then a else b
  }

  function Most(a: nat, b: nat): nat {
    if a <= b then b else a
  }
}
