/** What the scripts make of a directory's ACL against what the checker expects. */
module ScriptsMeetCheck {
  import opened Strings
  import opened Sharing
  import opened PosixAcl
  import opened DirScripts
  import opened Decimal
  import opened Organization
  import opened FsckAcl
  import AclStore

  // The printed text determines the ACL

  lemma LineInjective(tag: string, m: nat, mm: Mode, n: nat, nm: Mode)
    requires tag + (Dec(m) + (":" + mm.Text())) == tag + (Dec(n) + (":" + nm.Text()))
    ensures m == n && mm == nm
  {
    AclStore.PrefixInjective(tag, Dec(m) + (":" + mm.Text()), Dec(n) + (":" + nm.Text()));
    AclStore.AppendInjective(Dec(m), Dec(n), ":" + mm.Text(), ":" + nm.Text());
    AclStore.PrefixInjective(":", mm.Text(), nm.Text());
    AclStore.TextInjective(mm, nm);
    DecInjective(m, n);
  }

  lemma Uncons<T>(a: T, s: seq<T>, b: T, t: seq<T>)
    requires [a] + s == [b] + t
    ensures a == b && s == t
  {
    assert a == ([a] + s)[0] == ([b] + t)[0] == b;
    assert s == ([a] + s)[1..] == ([b] + t)[1..] == t;
  }

  lemma Regroup<T>(a: T, s: seq<T>, t: seq<T>)
    ensures ([a] + s) + t == [a] + (s + t)
  {
  }

  lemma StartsWith(tag: string, t: string)
    ensures tag <= tag + t
  {
  }

  lemma HeadHasTag(tag: string, l: Named, rest: seq<string>)
    requires l != []
    ensures tag <= (NamedText(tag, l) + rest)[0]
  {
    StartsWith(tag, Dec(l[0].0) + (":" + l[0].1.Text()));
    Regroup(tag + (Dec(l[0].0) + (":" + l[0].1.Text())), NamedText(tag, l[1..]), rest);
  }

  /** Named entries can be read back from a text that goes on with another line. */
  lemma {:induction false} NamedTextInjective(tag: string, a: Named, b: Named, s: seq<string>, t: seq<string>)
    requires NamedText(tag, a) + s == NamedText(tag, b) + t
    requires s != [] && t != [] && !(tag <= s[0]) && !(tag <= t[0])
    ensures a == b && s == t
  {
    assert b == [] ==> NamedText(tag, b) + t == t;
    if a != [] {
      var la := tag + (Dec(a[0].0) + (":" + a[0].1.Text()));
      Regroup(la, NamedText(tag, a[1..]), s);
      if b != [] {
        var lb := tag + (Dec(b[0].0) + (":" + b[0].1.Text()));
        Regroup(lb, NamedText(tag, b[1..]), t);
        Uncons(la, NamedText(tag, a[1..]) + s, lb, NamedText(tag, b[1..]) + t);
        LineInjective(tag, a[0].0, a[0].1, b[0].0, b[0].1);
        NamedTextInjective(tag, a[1..], b[1..], s, t);
        assert a == [a[0]] + a[1..] && b == [b[0]] + b[1..];
      } else {
        HeadHasTag(tag, a, s);
      }
    } else {
      assert NamedText(tag, a) + s == s;
      if b != [] { HeadHasTag(tag, b, t); }
    }
  }

  lemma BaseLineInjective(tag: string, m: Mode, n: Mode)
    requires tag + m.Text() == tag + n.Text()
    ensures m == n
  {
    AclStore.PrefixInjective(tag, m.Text(), n.Text());
    AclStore.TextInjective(m, n);
  }

  lemma CharAt(tag: string, x: string, y: string)
    requires x != "" && y != "" && x[0] != y[0]
    ensures !(tag + x <= tag + y) && tag + x != tag + y
  {
    assert (tag + x)[|tag|] == x[0] && (tag + y)[|tag|] == y[0];
  }

  lemma MaskNotOther(tag: string, m: Mode, o: Mode)
    ensures tag + "mask::" + m.Text() != tag + "other::" + o.Text()
  {
    CharAt(tag, "mask::" + m.Text(), "other::" + o.Text());
    assert tag + "mask::" + m.Text() == tag + ("mask::" + m.Text());
    assert tag + "other::" + o.Text() == tag + ("other::" + o.Text());
  }

  lemma LastInjective(tag: string, a: Entries, b: Entries, s: seq<string>, t: seq<string>)
    requires LastText(tag, a) + s == LastText(tag, b) + t
    ensures a.mask == b.mask && a.other == b.other && s == t
  {
    var oa, ob := tag + "other::" + a.other.Text(), tag + "other::" + b.other.Text();
    if a.mask.Some? { MaskNotOther(tag, a.mask.value, b.other); }
    if b.mask.Some? { MaskNotOther(tag, b.mask.value, a.other); }
    assert LastText(tag, a)[0] == (LastText(tag, a) + s)[0] == (LastText(tag, b) + t)[0] == LastText(tag, b)[0];
    if a.mask.Some? && b.mask.Some? {
      var ma, mb := tag + "mask::" + a.mask.value.Text(), tag + "mask::" + b.mask.value.Text();
      BaseLineInjective(tag + "mask::", a.mask.value, b.mask.value);
      assert LastText(tag, a) == [ma] + [oa] && LastText(tag, b) == [mb] + [ob];
      Regroup(ma, [oa], s);
      Regroup(mb, [ob], t);
      Uncons(ma, [oa] + s, mb, [ob] + t);
    }
    if a.mask.Some? == b.mask.Some? {
      assert a.mask.None? ==> LastText(tag, a) == [oa] && LastText(tag, b) == [ob];
      Uncons(oa, s, ob, t);
      BaseLineInjective(tag + "other::", a.other, b.other);
    }
  }

  lemma TailInjective(tag: string, a: Entries, b: Entries, s: seq<string>, t: seq<string>)
    requires TailText(tag, a) + s == TailText(tag, b) + t
    ensures a.group == b.group && a.groups == b.groups && a.mask == b.mask && a.other == b.other && s == t
  {
    hide NamedText, LastText;
    var ga, gb := tag + "group::" + a.group.Text(), tag + "group::" + b.group.Text();
    var na, nb := NamedText(tag + "group:", a.groups), NamedText(tag + "group:", b.groups);
    var la, lb := LastText(tag, a), LastText(tag, b);
    Regroup(ga, na + la, s);
    Regroup(gb, nb + lb, t);
    Uncons(ga, na + la + s, gb, nb + lb + t);
    BaseLineInjective(tag + "group::", a.group, b.group);
    assert na + la + s == na + (la + s) && nb + lb + t == nb + (lb + t);
    LastHead(tag, a, s);
    LastHead(tag, b, t);
    NamedTextInjective(tag + "group:", a.groups, b.groups, la + s, lb + t);
    LastInjective(tag, a, b, s, t);
  }

  lemma LastHead(tag: string, e: Entries, s: seq<string>)
    ensures LastText(tag, e) != [] && !(tag + "group:" <= (LastText(tag, e) + s)[0])
  {
    var l := LastText(tag, e)[0];
    assert (LastText(tag, e) + s)[0] == l;
    if e.mask.Some? {
      CharAt(tag, "group:", "mask::" + e.mask.value.Text());
      assert tag + "mask::" + e.mask.value.Text() == tag + ("mask::" + e.mask.value.Text());
    } else {
      CharAt(tag, "group:", "other::" + e.other.Text());
      assert tag + "other::" + e.other.Text() == tag + ("other::" + e.other.Text());
    }
  }

  lemma TailHead(tag: string, e: Entries, s: seq<string>)
    ensures TailText(tag, e) != [] && !(tag + "user:" <= (TailText(tag, e) + s)[0])
  {
    CharAt(tag, "user:", "group::" + e.group.Text());
    assert tag + "group::" + e.group.Text() == tag + ("group::" + e.group.Text());
    assert (TailText(tag, e) + s)[0] == TailText(tag, e)[0] == tag + "group::" + e.group.Text();
  }

  lemma EntriesInjective(tag: string, a: Entries, b: Entries, s: seq<string>, t: seq<string>)
    requires EntriesText(tag, a) + s == EntriesText(tag, b) + t
    ensures a == b && s == t
  {
    hide NamedText, TailText;
    var ua, ub := tag + "user::" + a.user.Text(), tag + "user::" + b.user.Text();
    var na, nb := NamedText(tag + "user:", a.users), NamedText(tag + "user:", b.users);
    var la, lb := TailText(tag, a), TailText(tag, b);
    Regroup(ua, na + la, s);
    Regroup(ub, nb + lb, t);
    Uncons(ua, na + la + s, ub, nb + lb + t);
    BaseLineInjective(tag + "user::", a.user, b.user);
    assert na + la + s == na + (la + s) && nb + lb + t == nb + (lb + t);
    TailHead(tag, a, s);
    TailHead(tag, b, t);
    NamedTextInjective(tag + "user:", a.users, b.users, la + s, lb + t);
    TailInjective(tag, a, b, s, t);
  }

  lemma EntriesHead(tag: string, e: Entries, s: seq<string>)
    requires IsTag(tag)
    ensures EntriesText(tag, e) != [] && (EntriesText(tag, e) + s)[0] == tag + "user::" + e.user.Text()
    ensures !("# " <= (EntriesText(tag, e) + s)[0])
  {
    assert (EntriesText(tag, e) + s)[0] == EntriesText(tag, e)[0];
    assert "# "[0] == '#' && (tag + "user::" + e.user.Text())[0] != '#';
  }

  function DefaultText(acl: DirAcl): seq<string> {
    if acl.dflt.Some? then EntriesText("default:", acl.dflt.value) else []
  }

  lemma BodyInjective(a: DirAcl, b: DirAcl)
    requires BodyText(a) == BodyText(b)
    ensures a.access == b.access && a.dflt == b.dflt
  {
    hide EntriesText;
    assert BodyText(a) == EntriesText("", a.access) + DefaultText(a);
    assert BodyText(b) == EntriesText("", b.access) + DefaultText(b);
    EntriesInjective("", a.access, b.access, DefaultText(a), DefaultText(b));
    if a.dflt.Some? && b.dflt.Some? {
      EntriesInjective("default:", a.dflt.value, b.dflt.value, [], []);
    } else if a.dflt.Some? {
      EntriesHead("default:", a.dflt.value, []);
    } else if b.dflt.Some? {
      EntriesHead("default:", b.dflt.value, []);
    }
  }

  function FlagText(acl: DirAcl): seq<string> {
    if acl.setgid then ["# flags: -s-"] else []
  }

  /** The printed text determines owner, group, set-group-id bit and all entries. */
  lemma AclTextInjective(a: DirAcl, b: DirAcl)
    requires AclText(a) == AclText(b)
    ensures a == b
  {
    hide BodyText;
    var oa, ob := "# owner: " + Dec(a.uid), "# owner: " + Dec(b.uid);
    var ga, gb := "# group: " + Dec(a.gid), "# group: " + Dec(b.gid);
    assert AclText(a) == [oa] + ([ga] + (FlagText(a) + BodyText(a)));
    assert AclText(b) == [ob] + ([gb] + (FlagText(b) + BodyText(b)));
    Uncons(oa, [ga] + (FlagText(a) + BodyText(a)), ob, [gb] + (FlagText(b) + BodyText(b)));
    Uncons(ga, FlagText(a) + BodyText(a), gb, FlagText(b) + BodyText(b));
    AclStore.PrefixInjective("# owner: ", Dec(a.uid), Dec(b.uid));
    AclStore.PrefixInjective("# group: ", Dec(a.gid), Dec(b.gid));
    DecInjective(a.uid, b.uid);
    DecInjective(a.gid, b.gid);
    FlagHead(a);
    FlagHead(b);
    if a.setgid == b.setgid {
      assert BodyText(a) == (FlagText(a) + BodyText(a))[|FlagText(a)|..];
      assert BodyText(b) == (FlagText(b) + BodyText(b))[|FlagText(b)|..];
      BodyInjective(a, b);
    }
  }

  lemma FlagHead(acl: DirAcl)
    ensures BodyText(acl) != [] && ("# " <= (FlagText(acl) + BodyText(acl))[0] <==> acl.setgid)
  {
    EntriesHead("", acl.access, DefaultText(acl));
    assert BodyText(acl) == EntriesText("", acl.access) + DefaultText(acl);
    assert "# " <= "# flags: -s-";
  }

  // The expected ACL behind the expected text

  function Block(groups: Named, m: Mode): Entries {
    Entries(RWX, [], NoAccess, groups, Some(m), NoAccess)
  }

  function Pair(a: nat, b: nat, m: Mode): Named {
    [(Least(a, b), m), (Most(a, b), m)]
  }

  /** The ACL whose text the checker expects. */
  function ExpectedAcl(a: ACL): DirAcl {
    match a
    case SimpleACL(u, g, user, group, other) => DirAcl(u, g, false, Entries(user, [], group, [], None, other), None)
    case ServiceACL(u, srv, ops, super, access) =>
      var groups := if access == PerService then Pair(srv, ops, R_X) else [(super, R_X)];
      DirAcl(u, srv, false, Block(groups, R_X), Some(Block(groups, R_X)))
    case ServiceOrgUnitACL(u, ou, ops, _, _) =>
      DirAcl(u, ou, true, Block(Pair(ou, ops, RWX), RWX), Some(Block(Pair(ou, ops, RWX), RWX)))
    case OrgUnitACL(u, g) => DirAcl(u, g, true, Block([(g, R_X)], R_X), Some(Block([(g, R_X)], R_X)))
    case SubdirGroupACL(u, g) => DirAcl(u, g, true, Block([(g, RWX)], RWX), Some(Block([(g, RWX)], RWX)))
    case SubdirOwnerACL(u, g) => DirAcl(u, g, true, Block([(g, RWX)], RWX), Some(Block([(g, R_X)], R_X)))
    case SubdirManagerACL(u, g) => DirAcl(u, g, true, Block([(g, R_X)], R_X), Some(Block([(g, R_X)], R_X)))
  }

  lemma ModeTexts()
    ensures RWX.Text() == "rwx" && R_X.Text() == "r-x" && NoAccess.Text() == "---"
  {
  }

  lemma TagTexts(tag: string)
    ensures tag + "user::" + "rwx" == tag + "user::rwx"
    ensures tag + "group::" + "---" == tag + "group::---"
    ensures tag + "other::" + "---" == tag + "other::---"
    ensures tag + "mask::" + "r-x" == tag + "mask::r-x" && tag + "mask::" + "rwx" == tag + "mask::rwx"
    ensures ":" + "r-x" == ":r-x" && ":" + "rwx" == ":rwx"
  {
  }

  lemma OneText(tag: string, e: (nat, Mode))
    ensures NamedText(tag, [e]) == [tag + (Dec(e.0) + (":" + e.1.Text()))]
  {
    assert [e][1..] == [];
  }

  lemma TwoText(tag: string, e: (nat, Mode), f: (nat, Mode))
    ensures NamedText(tag, [e, f]) ==
            [tag + (Dec(e.0) + (":" + e.1.Text())), tag + (Dec(f.0) + (":" + f.1.Text()))]
  {
    assert [e, f][1..] == [f];
    OneText(tag, f);
  }

  /** The lines for an ACL with one named group. */
  lemma BlockText1(tag: string, g: nat, m: Mode)
    requires IsTag(tag) && (m == R_X || m == RWX)
    ensures EntriesText(tag, Block([(g, m)], m)) ==
            if m == R_X then
              [tag + "user::rwx", tag + "group::---", tag + "group:" + (Dec(g) + ":r-x"), tag + "mask::r-x", tag + "other::---"]
            else
              [tag + "user::rwx", tag + "group::---", tag + "group:" + (Dec(g) + ":rwx"), tag + "mask::rwx", tag + "other::---"]
  {
    ModeTexts();
    TagTexts(tag);
    OneText(tag + "group:", (g, m));
  }

  lemma BlockText2(tag: string, a: nat, b: nat, m: Mode)
    requires IsTag(tag) && (m == R_X || m == RWX)
    ensures EntriesText(tag, Block([(a, m), (b, m)], m)) ==
            if m == R_X then
              [tag + "user::rwx", tag + "group::---", tag + "group:" + (Dec(a) + ":r-x"), tag + "group:" + (Dec(b) + ":r-x"),
               tag + "mask::r-x", tag + "other::---"]
            else
              [tag + "user::rwx", tag + "group::---", tag + "group:" + (Dec(a) + ":rwx"), tag + "group:" + (Dec(b) + ":rwx"),
               tag + "mask::rwx", tag + "other::---"]
  {
    ModeTexts();
    TagTexts(tag);
    TwoText(tag + "group:", (a, m), (b, m));
  }

  function HeadText(u: nat, g: nat, setgid: bool): seq<string> {
    ["# owner: " + Dec(u), "# group: " + Dec(g)] + (if setgid then ["# flags: -s-"] else [])
  }

  lemma TwoBlocksText(u: nat, g: nat, setgid: bool, x: Entries, y: Entries)
    ensures AclText(DirAcl(u, g, setgid, x, Some(y))) ==
            HeadText(u, g, setgid) + EntriesText("", x) + EntriesText("default:", y)
  {
    hide EntriesText;
  }

  lemma NoTag(s: string)
    ensures "" + s == s
  {
  }

  lemma DefaultTags()
    ensures "default:" + "user::rwx" == "default:user::rwx" && "default:" + "group::---" == "default:group::---"
    ensures "default:" + "other::---" == "default:other::---" && "default:" + "group:" == "default:group:"
    ensures "default:" + "mask::r-x" == "default:mask::r-x" && "default:" + "mask::rwx" == "default:mask::rwx"
  {
  }

  lemma LiteralTags()
    ensures "" + "user::rwx" == "user::rwx" && "default:" + "user::rwx" == "default:user::rwx"
    ensures "" + "group::---" == "group::---" && "default:" + "group::---" == "default:group::---"
    ensures "" + "other::---" == "other::---" && "default:" + "other::---" == "default:other::---"
    ensures "" + "mask::r-x" == "mask::r-x" && "default:" + "mask::r-x" == "default:mask::r-x"
    ensures "" + "mask::rwx" == "mask::rwx" && "default:" + "mask::rwx" == "default:mask::rwx"
    ensures "" + "group:" == "group:" && "default:" + "group:" == "default:group:"
  {
    NoTag("user::rwx");
    NoTag("group::---");
    NoTag("other::---");
    NoTag("mask::r-x");
    NoTag("mask::rwx");
    NoTag("group:");
    DefaultTags();
  }

  lemma TwoGroupText(u: nat, g: nat, setgid: bool, a: nat, b: nat, m: Mode)
    requires m == R_X || m == RWX
    ensures AclText(DirAcl(u, g, setgid, Block([(a, m), (b, m)], m), Some(Block([(a, m), (b, m)], m)))) ==
            HeadText(u, g, setgid) +
            (if m == R_X then
               ["user::rwx", "group::---", "group:" + (Dec(a) + ":r-x"), "group:" + (Dec(b) + ":r-x"), "mask::r-x", "other::---"]
             else
               ["user::rwx", "group::---", "group:" + (Dec(a) + ":rwx"), "group:" + (Dec(b) + ":rwx"), "mask::rwx", "other::---"]) +
            (if m == R_X then
               ["default:user::rwx", "default:group::---", "default:group:" + (Dec(a) + ":r-x"),
                "default:group:" + (Dec(b) + ":r-x"), "default:mask::r-x", "default:other::---"]
             else
               ["default:user::rwx", "default:group::---", "default:group:" + (Dec(a) + ":rwx"),
                "default:group:" + (Dec(b) + ":rwx"), "default:mask::rwx", "default:other::---"])
  {
    hide EntriesText, Block, AclText, HeadText;
    TwoBlocksText(u, g, setgid, Block([(a, m), (b, m)], m), Block([(a, m), (b, m)], m));
    BlockText2("", a, b, m);
    BlockText2("default:", a, b, m);
    LiteralTags();
  }

  lemma OneGroupText(u: nat, g: nat, setgid: bool, a: nat, m: Mode, d: Mode)
    requires (m == R_X || m == RWX) && (d == R_X || d == RWX)
    ensures AclText(DirAcl(u, g, setgid, Block([(a, m)], m), Some(Block([(a, d)], d)))) ==
            HeadText(u, g, setgid) +
            (if m == R_X then ["user::rwx", "group::---", "group:" + (Dec(a) + ":r-x"), "mask::r-x", "other::---"]
             else ["user::rwx", "group::---", "group:" + (Dec(a) + ":rwx"), "mask::rwx", "other::---"]) +
            (if d == R_X then
               ["default:user::rwx", "default:group::---", "default:group:" + (Dec(a) + ":r-x"), "default:mask::r-x", "default:other::---"]
             else
               ["default:user::rwx", "default:group::---", "default:group:" + (Dec(a) + ":rwx"), "default:mask::rwx", "default:other::---"])
  {
    hide EntriesText, Block, AclText, HeadText;
    TwoBlocksText(u, g, setgid, Block([(a, m)], m), Block([(a, d)], d));
    BlockText1("", a, m);
    BlockText1("default:", a, d);
    LiteralTags();
  }

  /** FACLString is what getfacl prints for the expected ACL. */
  lemma ExpectedText(a: ACL)
    requires a.Valid()
    ensures AclText(ExpectedAcl(a)) == a.FaclLines()
  {
    hide AclText, Dec;
    match a
    case SimpleACL(u, g, user, group, other) => SimpleAclText(u, g, user, group, other);
    case ServiceACL(_, _, _, _, _) => ServiceText(a);
    case ServiceOrgUnitACL(_, _, _, _, _) => ServiceOrgUnitText(a);
    case _ => OrgUnitText(a);
  }

  lemma ServiceText(a: ACL)
    requires a.ServiceACL? && a.Valid()
    ensures AclText(ExpectedAcl(a)) == a.FaclLines()
  {
    hide AclText, Least, Most, Dec;
    if a.access == PerService {
      TwoGroupText(a.uid, a.serviceGid, false, Least(a.serviceGid, a.serviceOpsGid), Most(a.serviceGid, a.serviceOpsGid), R_X);
    } else {
      OneGroupText(a.uid, a.serviceGid, false, a.superGid, R_X, R_X);
    }
  }

  lemma ServiceOrgUnitText(a: ACL)
    requires a.ServiceOrgUnitACL?
    ensures AclText(ExpectedAcl(a)) == a.FaclLines()
  {
    hide AclText, Least, Most, Dec;
    TwoGroupText(a.uid, a.orgUnitGid, true, Least(a.orgUnitGid, a.serviceOpsGid), Most(a.orgUnitGid, a.serviceOpsGid), RWX);
  }

  lemma OrgUnitText(a: ACL)
    requires a.OrgUnitACL? || a.SubdirGroupACL? || a.SubdirOwnerACL? || a.SubdirManagerACL?
    ensures AclText(ExpectedAcl(a)) == a.FaclLines()
  {
    hide AclText, Dec;
    var m := if a.SubdirGroupACL? || a.SubdirOwnerACL? then RWX else R_X;
    var d := if a.SubdirGroupACL? then RWX else R_X;
    OneGroupText(a.uid, a.gid, true, a.gid, m, d);
  }

  lemma SimpleAclText(u: nat, g: nat, user: Mode, group: Mode, other: Mode)
    ensures AclText(DirAcl(u, g, false, Entries(user, [], group, [], None, other), None)) ==
            ["# owner: " + Dec(u), "# group: " + Dec(g), "user::" + user.Text(), "group::" + group.Text(), "other::" + other.Text()]
  {
    hide EntriesText;
    SimpleText(user, group, other);
  }

  lemma SimpleText(user: Mode, group: Mode, other: Mode)
    ensures EntriesText("", Entries(user, [], group, [], None, other)) ==
            ["user::" + user.Text(), "group::" + group.Text(), "other::" + other.Text()]
  {
    assert "" + "user::" == "user::" && "" + "group::" == "group::" && "" + "other::" == "other::";
  }

  // Comparing texts is comparing ACLs

  ghost predicate OneLiners(lines: seq<string>) {
    forall i :: 0 <= i < |lines| ==> '\n' !in lines[i]
  }

  lemma {:induction false} NamedOneLiners(tag: string, l: Named)
    requires '\n' !in tag
    ensures OneLiners(NamedText(tag, l))
  {
    if l != [] {
      NamedOneLiners(tag, l[1..]);
      DecHasNo(l[0].0, '\n');
    }
  }

  lemma OneLinersConcat(a: seq<string>, b: seq<string>)
    requires OneLiners(a) && OneLiners(b)
    ensures OneLiners(a + b)
  {
  }

  lemma LastOneLiners(tag: string, e: Entries)
    requires IsTag(tag)
    ensures OneLiners(LastText(tag, e))
  {
  }

  lemma BaseOneLiners(tag: string, m: Mode)
    requires IsTag(tag)
    ensures OneLiners([tag + "user::" + m.Text()]) && OneLiners([tag + "group::" + m.Text()])
  {
  }

  lemma EntriesOneLiners(tag: string, e: Entries)
    requires IsTag(tag)
    ensures OneLiners(EntriesText(tag, e))
  {
    hide NamedText, OneLiners, LastText;
    NamedOneLiners(tag + "user:", e.users);
    NamedOneLiners(tag + "group:", e.groups);
    BaseOneLiners(tag, e.user);
    BaseOneLiners(tag, e.group);
    LastOneLiners(tag, e);
    OneLinersConcat(NamedText(tag + "group:", e.groups), LastText(tag, e));
    OneLinersConcat([tag + "group::" + e.group.Text()], NamedText(tag + "group:", e.groups) + LastText(tag, e));
    OneLinersConcat(NamedText(tag + "user:", e.users), TailText(tag, e));
    OneLinersConcat([tag + "user::" + e.user.Text()], NamedText(tag + "user:", e.users) + TailText(tag, e));
  }

  lemma AclOneLiners(acl: DirAcl)
    ensures OneLiners(AclText(acl))
  {
    hide EntriesText;
    DecHasNo(acl.uid, '\n');
    DecHasNo(acl.gid, '\n');
    EntriesOneLiners("", acl.access);
    if acl.dflt.Some? { EntriesOneLiners("default:", acl.dflt.value); }
  }

  lemma ConcatInjective(a: seq<string>, b: seq<string>)
    requires a != [] && b != [] && OneLiners(a) && OneLiners(b) && Concat(a, '\n') == Concat(b, '\n')
    ensures a == b
  {
    SplitConcat(a, '\n');
    SplitConcat(b, '\n');
  }

  /** The comparison in CheckACLs for one directory. */
  predicate AclPasses(path: string, acl: DirAcl, a: ACL)
    requires a.Valid()
  {
    Concat(KeptLines(Split(GetfaclText(path, acl), '\n'), a.NamedGids()), '\n') ==
    "# file: " + path + "\n" + a.FaclString()
  }

  /** The comparison passes exactly if the ACL without unrelated named groups is the
      expected one. */
  lemma PassesIffExpected(path: string, acl: DirAcl, a: ACL)
    requires a.Valid() && '\n' !in path
    ensures AclPasses(path, acl, a) <==> KeepGroups(acl, a.NamedGids()) == ExpectedAcl(a)
  {
    hide AclText, KeptLines, KeepGroups, ExpectedAcl;
    var file := "# file: " + path;
    var got, want := AclText(KeepGroups(acl, a.NamedGids())), AclText(ExpectedAcl(a));
    AclOneLiners(acl);
    AclOneLiners(KeepGroups(acl, a.NamedGids()));
    AclOneLiners(ExpectedAcl(a));
    SplitConcat([file] + AclText(acl), '\n');
    TextFilterIsGidFilter(path, acl, a.NamedGids());
    ExpectedText(a);
    assert want != [];
    assert ([file] + want)[1..] == want;
    assert Concat([file] + want, '\n') == file + "\n" + a.FaclString();
    if AclPasses(path, acl, a) {
      ConcatInjective([file] + got, [file] + want);
      Uncons(file, got, file, want);
      AclTextInjective(KeepGroups(acl, a.NamedGids()), ExpectedAcl(a));
    }
  }

  // The scripts

  /** The check that belongs to a script. */
  function CheckOf(s: DirScript): ACL {
    match s
    case ToplevelSh => SimpleACL(0, 0, RWX, R_X, R_X)
    case ServiceSh(g, ops, super) => ServiceACL(0, g, ops, super, PerService)
    case ServiceAllOrgUnitsSh(g, ops, super) => ServiceACL(0, g, ops, super, AllOrgUnits)
    case ServiceOrgUnitSh(g, srv, ops, super) => ServiceOrgUnitACL(0, g, ops, srv, super)
    case OrgUnitSh(g) => OrgUnitACL(0, g)
    case GroupSubdirSh(g) => SubdirGroupACL(0, g)
    case OwnerSubdirSh(g) => SubdirOwnerACL(0, g)
    case ManagerSubdirSh(g) => SubdirManagerACL(0, g)
  }

  /** The groups that a script entitles, and the access and default masks. */
  function EntitledGids(s: DirScript): seq<nat> {
    match s
    case ToplevelSh => []
    case ServiceSh(g, ops, _) => [g, ops]
    case ServiceAllOrgUnitsSh(_, _, super) => [super]
    case ServiceOrgUnitSh(g, _, ops, _) => [g, ops]
    case _ => [s.gid]
  }

  function AccessMask(s: DirScript): Mode {
    if s.ServiceOrgUnitSh? || s.GroupSubdirSh? || s.OwnerSubdirSh? then RWX else R_X
  }

  function DefaultMask(s: DirScript): Mode {
    if s.ServiceOrgUnitSh? || s.GroupSubdirSh? then RWX else R_X
  }

  /** The gids in the roles of one script differ where it matters. */
  predicate DistinctGids(s: DirScript) {
    match s
    case ServiceSh(g, ops, super) => g != ops && super != g && super != ops
    case ServiceAllOrgUnitsSh(g, ops, super) => super != g && super != ops
    case ServiceOrgUnitSh(g, srv, ops, super) => g != ops && srv != g && srv != ops && super != g && super != ops
    case _ => true
  }

  /** No named users; and where the script recalculates the mask, because it runs
      `setfacl -X` without `-n`, unrelated named groups fit under the mask. */
  predicate EntriesSuit(e: Entries, s: DirScript, m: Mode) {
    && e.users == []
    && (s.Removed() != [] ==> OthersWithin(e.groups, EntitledGids(s) + s.Removed(), m))
  }

  /** What a directory must be like so that the script makes it pass. */
  predicate Suits(s: DirScript, before: DirAcl) {
    if s.ToplevelSh? then
      before.access.mask.None? && before.dflt.None? && !before.setgid
    else
      && EntriesSuit(before.access, s, AccessMask(s))
      && (before.dflt.Some? ==> EntriesSuit(before.dflt.value, s, DefaultMask(s)))
      && (before.setgid ==> s.SetsGid())
  }

  lemma {:induction false} OnlySpec(l: Named, gids: seq<nat>)
    requires Sorted(l)
    ensures Sorted(Only(l, gids))
    ensures forall e :: e in Only(l, gids) <==> e in l && e.0 in gids
  {
    if l != [] {
      OnlySpec(l[1..], gids);
      var rest := Only(l[1..], gids);
      forall e ensures e in l[1..] <==> e in l && e != l[0] {
        TailIn(l, e);
      }
      HeadFirst(l);
      if l[0].0 in gids { SortedCons(l[0], rest); }
    }
  }

  /** Without unrelated groups, one half of a script leaves exactly the entries that it
      entitles if and only if the ACL suited it. */
  lemma HalfExpected(e: Entries, gids: seq<nat>, m: Mode, removed: seq<nat>, named: seq<nat>)
    requires e.Valid() && gids != [] && (forall g :: g in gids ==> g !in removed)
    requires forall g :: g in named <==> g in gids || g in removed
    ensures OnlyGroups(Half(e, gids, m, removed), named) == Block(PutAll([], gids, m), m) <==>
            e.users == [] && (removed != [] ==> OthersWithin(e.groups, gids + removed, m))
  {
    hide Half, OthersWithin, PutAll, Only;
    HalfResult(e, gids, m, removed);
    var r := Half(e, gids, m, removed);
    OnlySpec(r.groups, named);
    PutAllSpec([], gids, m);
    SortedUnique(Only(r.groups, named), PutAll([], gids, m));
  }

  lemma PutAllPair(a: nat, b: nat, m: Mode)
    requires a != b
    ensures PutAll([], [a, b], m) == Pair(a, b, m)
  {
    assert [a, b][..1] == [a];
    PutAllOne(a, m);
    assert Put([(a, m)][1..], b, m) == [(b, m)];
  }

  lemma PutAllOne(a: nat, m: Mode)
    ensures PutAll([], [a], m) == [(a, m)]
  {
    assert [a][..0] == [];
  }

  lemma GroupLinesOne(a: nat, m: Mode)
    ensures GroupLines([a], m) == [NamedGroup(a, m)]
  {
    assert [a][..0] == [];
  }

  lemma GroupLinesPair(a: nat, b: nat, m: Mode)
    ensures GroupLines([a, b], m) == [NamedGroup(a, m), NamedGroup(b, m)]
  {
    assert [a, b][..1] == [a];
    GroupLinesOne(a, m);
  }

  /** A script block sets the entitled groups between the base entries. */
  lemma ScriptBlocks(s: DirScript)
    requires !s.ToplevelSh?
    ensures s.Normal() ==
            [User(RWX), Group(NoAccess)] + GroupLines(EntitledGids(s), AccessMask(s)) + [Mask(AccessMask(s)), Other(NoAccess)]
    ensures s.Default() ==
            [User(RWX), Group(NoAccess)] + GroupLines(EntitledGids(s), DefaultMask(s)) + [Mask(DefaultMask(s)), Other(NoAccess)]
  {
    var gids := EntitledGids(s);
    if |gids| == 2 {
      GroupLinesPair(gids[0], gids[1], AccessMask(s));
    } else {
      GroupLinesOne(gids[0], AccessMask(s));
      GroupLinesOne(gids[0], DefaultMask(s));
    }
  }

  /** A script works on the access and the default ACL in the same way. */
  lemma ScriptHalves(s: DirScript, before: DirAcl)
    requires !s.ToplevelSh? && before.Valid()
    ensures AfterScript(s, before) == DirAcl(
              0, s.gid, before.setgid || s.SetsGid(),
              Half(before.access, EntitledGids(s), AccessMask(s), s.Removed()),
              Some(Half(DefaultOf(before), EntitledGids(s), DefaultMask(s), s.Removed())))
  {
    hide EntitledGids, AccessMask, DefaultMask, ModifyEntries, RemoveEntries;
    ScriptBlocks(s);
    var owned := before.(uid := 0, gid := s.Owner());
    var marked := if s.SetsGid() then owned.(setgid := true) else owned;
    assert DefaultOf(marked) == DefaultOf(before);
    assert s.Default() != [] && s.Normal() != [];
  }

  lemma ToplevelLines(e: Entries)
    ensures SetLines(e, ToplevelSh.Normal()) == Entries(RWX, e.users, R_X, e.groups, e.mask, R_X)
  {
    SetOneMore(e, [], User(RWX));
    SetOneMore(e, [User(RWX)], Group(R_X));
    SetOneMore(e, [User(RWX), Group(R_X)], Other(R_X));
    assert [] + [User(RWX)] == [User(RWX)];
    assert [User(RWX)] + [Group(R_X)] == [User(RWX), Group(R_X)];
    assert [User(RWX), Group(R_X)] + [Other(R_X)] == ToplevelSh.Normal();
  }

  lemma ToplevelResult(before: DirAcl)
    requires before.Valid()
    ensures KeepGroups(AfterScript(ToplevelSh, before), []) == ExpectedAcl(CheckOf(ToplevelSh)) <==> Suits(ToplevelSh, before)
  {
    var e := before.access;
    ToplevelLines(e);
    var r := AfterScript(ToplevelSh, before);
    assert e.mask.None? ==> r.access == Entries(RWX, [], R_X, [], None, R_X);
    assert e.mask.Some? ==> r.access.mask.Some?;
  }

  lemma ExpectedBlocks(s: DirScript)
    requires !s.ToplevelSh? && DistinctGids(s)
    ensures ExpectedAcl(CheckOf(s)) == DirAcl(
              0, s.gid, s.SetsGid(),
              Block(PutAll([], EntitledGids(s), AccessMask(s)), AccessMask(s)),
              Some(Block(PutAll([], EntitledGids(s), DefaultMask(s)), DefaultMask(s))))
  {
    hide PutAll;
    var gids := EntitledGids(s);
    if |gids| == 2 {
      PutAllPair(gids[0], gids[1], AccessMask(s));
    } else {
      PutAllOne(gids[0], AccessMask(s));
      PutAllOne(gids[0], DefaultMask(s));
    }
  }

  lemma NamedAreEntitledOrRemoved(s: DirScript)
    requires DistinctGids(s)
    ensures forall g :: g in CheckOf(s).NamedGids() <==> g in EntitledGids(s) || g in s.Removed()
    ensures forall g :: g in EntitledGids(s) ==> g !in s.Removed()
  {
  }

  /** What the two halves must come to. */
  lemma HalvesExpected(s: DirScript, before: DirAcl)
    requires before.Valid() && DistinctGids(s) && !s.ToplevelSh?
    ensures EntriesSuit(before.access, s, AccessMask(s)) <==>
            (OnlyGroups(Half(before.access, EntitledGids(s), AccessMask(s), s.Removed()), CheckOf(s).NamedGids()) ==
             Block(PutAll([], EntitledGids(s), AccessMask(s)), AccessMask(s)))
    ensures EntriesSuit(DefaultOf(before), s, DefaultMask(s)) <==>
            (OnlyGroups(Half(DefaultOf(before), EntitledGids(s), DefaultMask(s), s.Removed()), CheckOf(s).NamedGids()) ==
             Block(PutAll([], EntitledGids(s), DefaultMask(s)), DefaultMask(s)))
  {
    hide OnlyGroups, Half, PutAll, OthersWithin, EntitledGids, AccessMask, DefaultMask, DistinctGids, CheckOf, Block;
    NamedAreEntitledOrRemoved(s);
    SomeEntitled(s);
    var gids, removed, named := EntitledGids(s), s.Removed(), CheckOf(s).NamedGids();
    HalfExpected(before.access, gids, AccessMask(s), removed, named);
    HalfExpected(DefaultOf(before), gids, DefaultMask(s), removed, named);
  }

  lemma SomeEntitled(s: DirScript)
    requires !s.ToplevelSh?
    ensures EntitledGids(s) != []
  {
  }

  lemma ScriptLeavesExpected(s: DirScript, before: DirAcl)
    requires before.Valid() && DistinctGids(s)
    ensures KeepGroups(AfterScript(s, before), CheckOf(s).NamedGids()) == ExpectedAcl(CheckOf(s)) <==> Suits(s, before)
  {
    if s.ToplevelSh? {
      ToplevelResult(before);
    } else {
      hide AfterScript, Half, ExpectedAcl, PutAll, OnlyGroups, EntitledGids, AccessMask, DefaultMask, DistinctGids, CheckOf, Block, OthersWithin;
      ScriptHalves(s, before);
      ExpectedBlocks(s);
      HalvesExpected(s, before);
      NobodyWithin(EntitledGids(s) + s.Removed(), DefaultMask(s));
    }
  }

  lemma NobodyWithin(named: seq<nat>, m: Mode)
    ensures OthersWithin([], named, m)
  {
  }

  /** After a script, the directory passes its check exactly if it suited the script
      before: no named users and, where the mask is recalculated, unrelated groups
      within the mask; no set-group-id bit on a service directory; and no extended
      entries at all on the three toplevel directories. */
  lemma ScriptMeetsCheck(path: string, s: DirScript, before: DirAcl)
    requires before.Valid() && DistinctGids(s) && '\n' !in path
    ensures AclPasses(path, AfterScript(s, before), CheckOf(s)) <==> Suits(s, before)
  {
    hide AclPasses, KeepGroups, ExpectedAcl, AfterScript, Suits;
    PassesIffExpected(path, AfterScript(s, before), CheckOf(s));
    ScriptLeavesExpected(s, before);
  }

  /** An entry of another group that exceeds the mask makes the check fail although a
      script that uses `setfacl -X` has just run. */
  lemma WideEntryFailsCheck(path: string, s: DirScript, before: DirAcl, e: (nat, Mode))
    requires before.Valid() && DistinctGids(s) && '\n' !in path && s.Removed() != []
    requires e in before.access.groups && e.0 !in CheckOf(s).NamedGids() && !e.1.Within(AccessMask(s))
    ensures !AclPasses(path, AfterScript(s, before), CheckOf(s))
  {
    hide AclPasses, AfterScript;
    ScriptMeetsCheck(path, s, before);
    NamedAreEntitledOrRemoved(s);
  }

  /** A script changes no entry of a group that it does not name, so traversal and
      sharing entries survive. */
  lemma ScriptKeepsOtherEntries(s: DirScript, before: DirAcl, e: (nat, Mode))
    requires before.Valid() && DistinctGids(s) && e.0 !in CheckOf(s).NamedGids()
    ensures e in AfterScript(s, before).access.groups <==> e in before.access.groups
    ensures !s.ToplevelSh? ==> AfterScript(s, before).dflt.Some?
    ensures before.dflt.Some? ==>
              AfterScript(s, before).dflt.Some? &&
              (e in AfterScript(s, before).dflt.value.groups <==> e in before.dflt.value.groups)
  {
    if s.ToplevelSh? {
      ToplevelGroups(before);
    } else {
      hide AfterScript, Half;
      ScriptHalves(s, before);
      NamedAreEntitledOrRemoved(s);
      HalfResult(before.access, EntitledGids(s), AccessMask(s), s.Removed());
      HalfResult(DefaultOf(before), EntitledGids(s), DefaultMask(s), s.Removed());
    }
  }

  lemma ToplevelGroups(before: DirAcl)
    ensures AfterScript(ToplevelSh, before).access.groups == before.access.groups
    ensures AfterScript(ToplevelSh, before).dflt == before.dflt
  {
    ToplevelLines(before.access);
  }

  lemma HalfIdempotent(e: Entries, gids: seq<nat>, m: Mode, removed: seq<nat>)
    requires e.Valid() && gids != [] && forall g :: g in gids ==> g !in removed
    ensures Half(Half(e, gids, m, removed), gids, m, removed) == Half(e, gids, m, removed)
  {
    hide PutAll, DelAll, GroupLines;
    var once := Half(e, gids, m, removed);
    HalfResult(e, gids, m, removed);
    HalfResult(once, gids, m, removed);
    SortedUnique(Half(once, gids, m, removed).groups, once.groups);
    HalfMask(e, gids, m, removed);
    HalfMask(once, gids, m, removed);
  }

  lemma HalfMask(e: Entries, gids: seq<nat>, m: Mode, removed: seq<nat>)
    requires e.Valid() && gids != [] && forall g :: g in gids ==> g !in removed
    ensures removed != [] ==> Half(e, gids, m, removed).mask == Some(Recalculated(Half(e, gids, m, removed)))
  {
    hide PutAll, DelAll, GroupLines;
    ModifyBlock(e, gids, m);
  }

  /** Running a script again changes nothing. */
  lemma ScriptIdempotent(s: DirScript, before: DirAcl)
    requires before.Valid() && DistinctGids(s)
    ensures AfterScript(s, before).Valid()
    ensures AfterScript(s, AfterScript(s, before)) == AfterScript(s, before)
  {
    if s.ToplevelSh? {
      ToplevelValid(before);
      ToplevelLines(AfterScript(s, before).access);
      ToplevelLines(before.access);
    } else {
      hide AfterScript, Half;
      NamedAreEntitledOrRemoved(s);
      ScriptHalves(s, before);
      HalfResult(before.access, EntitledGids(s), AccessMask(s), s.Removed());
      HalfResult(DefaultOf(before), EntitledGids(s), DefaultMask(s), s.Removed());
      ScriptHalves(s, AfterScript(s, before));
      HalfIdempotent(before.access, EntitledGids(s), AccessMask(s), s.Removed());
      HalfIdempotent(DefaultOf(before), EntitledGids(s), DefaultMask(s), s.Removed());
    }
  }

  lemma ToplevelValid(before: DirAcl)
    requires before.Valid()
    ensures AfterScript(ToplevelSh, before).Valid()
  {
    ToplevelLines(before.access);
  }
}
