/** POSIX ACLs of the files below the root dir as the sharing code reads and
    writes them: named group entries of the access and the default ACL, and the
    masks, which setfacl -n leaves alone. */
module AclStore {
  import opened Strings
  import opened Paths
  import opened Sharing

  /** The entries of an access or default ACL that sharing can meet: the owning
      group, named users and groups, and the mask. */
  datatype AclPart = AclPart(group: Mode, users: map<string, Mode>, named: map<string, Mode>, mask: Option<Mode>) {
    /** An ACL with named entries has a mask. */
    predicate Complete() {
      users != map[] || named != map[] ==> mask.Some?
    }
  }

  datatype FileAcl = DirAcl(access: AclPart, dflt: Option<AclPart>) | RegAcl(access: AclPart) {
    predicate Complete() {
      access.Complete() && (DirAcl? && dflt.Some? ==> dflt.value.Complete())
    }

    /** The named group entries of the default ACL. */
    function DefaultNamed(): map<string, Mode> {
      if DirAcl? && dflt.Some? then dflt.value.named else map[]
    }
  }

  /** The ACLs by path relative to the root dir. */
  type Acls = map<string, FileAcl>

  predicate IsDirAcl(acls: Acls, p: string) {
    p in acls && acls[p].DirAcl?
  }

  // setfacl -n

  /** Sets one named group entry; a missing mask becomes a copy of the owning
      group's entry, an existing one is not recalculated. */
  function SetNamed(part: AclPart, g: string, m: Mode): AclPart {
    part.(named := part.named[g := m], mask := if part.mask.None? then Some(part.group) else part.mask)
  }

  function SetAllNamed(part: AclPart, entries: Acl): AclPart {
    if entries == [] then part
    else
      var n := |entries| - 1;
      SetNamed(SetAllNamed(part, entries[..n]), entries[n].group, entries[n].mode)
  }

  /** A default ACL that does not exist yet starts with the owner, owning group
      and other entries of the access ACL. */
  function DefaultBase(acl: FileAcl): AclPart {
    if acl.DirAcl? && acl.dflt.Some? then acl.dflt.value else AclPart(acl.access.group, map[], map[], None)
  }

  function WithoutXAcl(entries: Acl): (r: Acl)
    ensures |r| == |entries|
  {
    if entries == [] then []
    else
      var n := |entries| - 1;
      WithoutXAcl(entries[..n]) + [Ace(entries[n].group, entries[n].mode.WithoutX())]
  }

  /** `setfacl -nm` with normal and default entries on a directory, and with
      normal entries without `x` on a file. */
  function ModifyFile(acl: FileAcl, entries: Acl): FileAcl {
    match acl
    case DirAcl(access, dflt) => DirAcl(SetAllNamed(access, entries), Some(SetAllNamed(DefaultBase(acl), entries)))
    case RegAcl(access) => RegAcl(SetAllNamed(access, WithoutXAcl(entries)))
  }

  function DropNamed(part: AclPart, gs: set<string>): AclPart {
    part.(named := part.named - gs)
  }

  /** `setfacl -nx` */
  function RemoveFromFile(acl: FileAcl, gs: set<string>): FileAcl {
    match acl
    case DirAcl(access, dflt) =>
      DirAcl(DropNamed(access, gs), if dflt.Some? then Some(DropNamed(dflt.value, gs)) else None)
    case RegAcl(access) => RegAcl(DropNamed(access, gs))
  }

  datatype AclOp =
    | ModifyTree(path: string, entries: Acl)
    | RemoveTree(path: string, groups: seq<string>)
    | Traverse(paths: seq<string>, group: string)

  predicate Within(p: string, path: string) {
    p == path || Below(p, path)
  }

  /** One command: the first two act on a directory and everything below it, the
      last one on single directories. */
  function ApplyOp(acls: Acls, op: AclOp): Acls {
    match op
    case ModifyTree(path, entries) =>
      map p | p in acls :: if Within(p, path) then ModifyFile(acls[p], entries) else acls[p]
    case RemoveTree(path, groups) =>
      map p | p in acls :: if Within(p, path) then RemoveFromFile(acls[p], Elements(groups)) else acls[p]
    case Traverse(paths, g) =>
      map p | p in acls ::
        if p in paths then acls[p].(access := SetNamed(acls[p].access, g, TraverseOnly)) else acls[p]
  }

  function RunOps(acls: Acls, ops: seq<AclOp>): Acls {
    if ops == [] then acls
    else ApplyOp(RunOps(acls, ops[..|ops| - 1]), ops[|ops| - 1])
  }

  lemma {:induction false} RunOpsConcat(acls: Acls, a: seq<AclOp>, b: seq<AclOp>)
    ensures RunOps(acls, a + b) == RunOps(RunOps(acls, a), b)
  {
    if b == [] {
      assert a + b == a;
    } else {
      var n := |b| - 1;
      RunOpsConcat(acls, a, b[..n]);
      assert (a + b)[..|a + b| - 1] == a + b[..n];
    }
  }

  // getfacl

  /** The mask cuts no entry. */
  predicate ReadablePart(part: AclPart) {
    part.mask.Some? ==>
      && part.group.Within(part.mask.value)
      && (forall u :: u in part.users ==> part.users[u].Within(part.mask.value))
      && (forall g :: g in part.named ==> part.named[g].Within(part.mask.value))
  }

  predicate Readable(acl: FileAcl) {
    ReadablePart(acl.access) && (acl.DirAcl? && acl.dflt.Some? ==> ReadablePart(acl.dflt.value))
  }

  /** One line of getfacl output. */
  datatype FaclAce = FaclAce(tag: string, mode: Mode) {
    predicate IsNamedGroupNormal() {
      "group:" <= tag && tag != "group:"
    }

    predicate IsNamedGroupDefault() {
      "default:group:" <= tag && tag != "default:group:"
    }

    predicate IsNamedGroup() {
      IsNamedGroupNormal() || IsNamedGroupDefault()
    }

    function GroupName(): string {
      var fields := Split(tag, ':');
      fields[|fields| - 1]
    }

    function String(): string {
      tag + ":" + mode.Text()
    }

    function WithoutX(): FaclAce {
      FaclAce(tag, mode.WithoutX())
    }
  }

  type Facl = seq<FaclAce>

  /** A user or group name, which getfacl prints as it is. */
  predicate GroupNameOk(g: string) {
    g != "" && ':' !in g && forall i :: 0 <= i < |g| ==> !IsSpace(g[i])
  }

  /** The lines for named group entries under a tag prefix. */
  function NamedLines(prefix: string, named: map<string, Mode>): set<FaclAce> {
    set g | g in named :: FaclAce(prefix + g, named[g])
  }

  function AllNamedLines(acl: FileAcl): set<FaclAce> {
    NamedLines("group:", acl.access.named) + NamedLines("default:group:", acl.DefaultNamed())
  }

  /** A listing shows exactly the named group entries of the access ACL as
      `group:<name>` and those of the default ACL as `default:group:<name>`, in any
      order and between other lines. */
  ghost predicate Lists(facl: Facl, acl: FileAcl) {
    forall ace :: ace in facl && ace.IsNamedGroup() <==> ace in AllNamedLines(acl)
  }

  predicate PartNamesOk(part: AclPart) {
    (forall u :: u in part.users ==> GroupNameOk(u)) && (forall g :: g in part.named ==> GroupNameOk(g))
  }

  predicate NamesOk(acl: FileAcl) {
    PartNamesOk(acl.access) && (acl.DirAcl? && acl.dflt.Some? ==> PartNamesOk(acl.dflt.value))
  }

  // What the strings of the listing tell

  lemma TextInjective(m: Mode, m': Mode)
    requires m.Text() == m'.Text()
    ensures m == m'
  {
    assert m.Text()[0] == m'.Text()[0] && m.Text()[1] == m'.Text()[1] && m.Text()[2] == m'.Text()[2];
  }

  lemma AppendInjective(a: string, b: string, x: string, y: string)
    requires a + x == b + y && |x| == |y|
    ensures a == b && x == y
  {
    assert |a| == |b|;
    assert a == (a + x)[..|a|] == (b + y)[..|b|] == b;
    assert x == (a + x)[|a|..] == (b + y)[|b|..] == y;
  }

  lemma StringInjective(a: FaclAce, b: FaclAce)
    requires a.String() == b.String()
    ensures a == b
  {
    assert a.String() == a.tag + (":" + a.mode.Text()) && b.String() == b.tag + (":" + b.mode.Text());
    AppendInjective(a.tag, b.tag, ":" + a.mode.Text(), ":" + b.mode.Text());
    assert a.mode.Text() == (":" + a.mode.Text())[1..] == (":" + b.mode.Text())[1..] == b.mode.Text();
    TextInjective(a.mode, b.mode);
  }

  lemma PrefixesDiffer(g: string, h: string)
    ensures "group:" + g != "default:group:" + h
  {
    assert ("group:" + g)[0] == 'g' && ("default:group:" + h)[0] == 'd';
  }

  lemma PrefixInjective(prefix: string, g: string, h: string)
    requires prefix + g == prefix + h
    ensures g == h
  {
    assert g == (prefix + g)[|prefix|..] == (prefix + h)[|prefix|..] == h;
  }

  /** A line is listed exactly if the ACL has the entry. */
  lemma NamedLine(acl: FileAcl, g: string, m: Mode)
    ensures FaclAce("group:" + g, m) in AllNamedLines(acl) <==> g in acl.access.named && acl.access.named[g] == m
    ensures FaclAce("default:group:" + g, m) in AllNamedLines(acl) <==>
            g in acl.DefaultNamed() && acl.DefaultNamed()[g] == m
  {
    var normal, dflt := FaclAce("group:" + g, m), FaclAce("default:group:" + g, m);
    forall h | h in acl.access.named && normal == FaclAce("group:" + h, acl.access.named[h]) ensures h == g {
      PrefixInjective("group:", g, h);
    }
    forall h | h in acl.DefaultNamed() && dflt == FaclAce("default:group:" + h, acl.DefaultNamed()[h]) ensures h == g {
      PrefixInjective("default:group:", g, h);
    }
    forall h ensures "group:" + g != "default:group:" + h && "group:" + h != "default:group:" + g {
      PrefixesDiffer(g, h);
      PrefixesDiffer(h, g);
    }
  }

  lemma LastField(word: string, g: string, m: Mode)
    requires ':' !in g
    ensures FaclAce(word + ":" + g, m).GroupName() == g
  {
    SplitPlain(g, ':');
    hide Split;
    SplitJoin2(word, g, ':');
    assert word + [':'] + g == word + ":" + g;
  }

  lemma GroupNameOfTag(g: string, m: Mode)
    requires GroupNameOk(g)
    ensures FaclAce("group:" + g, m).GroupName() == g
    ensures FaclAce("default:group:" + g, m).GroupName() == g
  {
    hide FaclAce.GroupName;
    LastField("group", g, m);
    LastField("default:group", g, m);
    assert "group" + ":" == "group:" && "default:group" + ":" == "default:group:";
  }
}
