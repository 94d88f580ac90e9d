/** From a file's ACL to the text that getfacl prints, and back through the parser. */
module GetfaclText {
  import opened Strings
  import opened Sharing
  import opened AclStore
  import opened FaclText

  /** What the mask leaves of a mode, if it cuts it. */
  function Effective(m: Mode, mask: Option<Mode>): Option<Mode> {
    if mask.Some? && !m.Within(mask.value) then Some(m.And(mask.value)) else None
  }

  function NamedRows(pre: string, named: map<string, Mode>, names: seq<string>, mask: Option<Mode>): seq<Row>
    requires forall i :: 0 <= i < |names| ==> names[i] in named
  {
    if names == [] then []
    else
      var n := |names| - 1;
      NamedRows(pre, named, names[..n], mask) + [Row(pre + names[n], named[names[n]], Effective(named[names[n]], mask))]
  }

  /** The modes that the model of an ACL does not hold, and the order of its entries, which
      getfacl prints by numeric id. */
  datatype Order = Order(users: seq<string>, groups: seq<string>, user: Mode, other: Mode)

  ghost predicate Enumerates(names: seq<string>, s: set<string>) {
    NoDuplicates(names) && Elements(names) == s
  }

  ghost predicate Orders(o: Order, part: AclPart) {
    && Enumerates(o.users, part.users.Keys) && Enumerates(o.groups, part.named.Keys)
    && (forall i :: 0 <= i < |o.users| ==> o.users[i] in part.users)
    && (forall i :: 0 <= i < |o.groups| ==> o.groups[i] in part.named)
  }

  /** The entries of an access or default ACL. */
  function PartRows(pre: string, part: AclPart, o: Order): seq<Row>
    requires Orders(o, part)
  {
    [Row(pre + "user:", o.user, None)] +
    NamedRows(pre + "user:", part.users, o.users, part.mask) +
    [Row(pre + "group:", part.group, Effective(part.group, part.mask))] +
    NamedRows(pre + "group:", part.named, o.groups, part.mask) +
    (if part.mask.Some? then [Row(pre + "mask:", part.mask.value, None)] else []) +
    [Row(pre + "other:", o.other, None)]
  }

  ghost predicate PrintsRows(rows: seq<Row>, acl: FileAcl) {
    if acl.DirAcl? && acl.dflt.Some? then
      exists a, d :: Orders(a, acl.access) && Orders(d, acl.dflt.value) &&
        rows == PartRows("", acl.access, a) + PartRows("default:", acl.dflt.value, d)
    else
      exists a :: Orders(a, acl.access) && rows == PartRows("", acl.access, a)
  }

  // Tags

  predicate IsPrefix(pre: string) {
    pre == "" || pre == "default:"
  }

  lemma WordTag(pre: string, k: nat, name: string)
    requires IsPrefix(pre) && k < 4 && forall i :: 0 <= i < |name| ==> !ReSpace(name[i])
    ensures TagOk(pre + Keyword(k) + name)
  {
    var w := Keyword(k) + name;
    assert pre + Keyword(k) + name == pre + w;
    assert KeywordThenWord(w);
    if pre == "" {
      assert pre + w == w;
      assert Keyword(k)[0] != 'd';
      assert "default:"[0] == 'd' && w[0] == Keyword(k)[0];
    } else {
      assert (pre + w)[8..] == w;
    }
  }

  lemma BaseTags(pre: string)
    requires IsPrefix(pre)
    ensures TagOk(pre + "user:") && TagOk(pre + "group:") && TagOk(pre + "mask:") && TagOk(pre + "other:")
  {
    hide TagOk;
    WordTag(pre, 0, ":");
    WordTag(pre, 1, ":");
    WordTag(pre, 2, ":");
    WordTag(pre, 3, "");
    assert pre + "user" + ":" == pre + "user:" && pre + "group" + ":" == pre + "group:" && pre + "mask" + ":" == pre + "mask:";
    assert pre + "other:" + "" == pre + "other:";
  }

  lemma NoSpaces(g: string)
    requires GroupNameOk(g)
    ensures forall i :: 0 <= i < |":" + g| ==> !ReSpace((":" + g)[i])
  {
    forall i | 0 <= i < |g| ensures !ReSpace(g[i]) {
      assert !IsSpace(g[i]);
    }
  }

  lemma NameTag(pre: string, g: string)
    requires IsPrefix(pre) && GroupNameOk(g)
    ensures TagOk(pre + "user:" + g) && TagOk(pre + "group:" + g)
  {
    hide TagOk;
    NoSpaces(g);
    WordTag(pre, 0, ":" + g);
    WordTag(pre, 1, ":" + g);
    assert pre + "user" + (":" + g) == pre + "user:" + g;
    assert pre + "group" + (":" + g) == pre + "group:" + g;
  }

  ghost predicate TagsOk(rows: seq<Row>) {
    forall i :: 0 <= i < |rows| ==> TagOk(rows[i].tag)
  }

  ghost predicate Uncut(rows: seq<Row>) {
    forall i :: 0 <= i < |rows| ==> rows[i].effective.None?
  }

  lemma RowsConcat(a: seq<Row>, b: seq<Row>)
    ensures TagsOk(a + b) <==> TagsOk(a) && TagsOk(b)
    ensures Uncut(a + b) <==> Uncut(a) && Uncut(b)
    ensures Elements(Aces(a + b)) == Elements(Aces(a)) + Elements(Aces(b))
  {
    hide TagOk;
    var ab := a + b;
    assert forall i :: 0 <= i < |a| ==> ab[i] == a[i];
    assert forall i :: 0 <= i < |b| ==> ab[|a| + i] == b[i];
    AcesConcat(a, b);
    ElementsConcat(Aces(a), Aces(b));
  }

  lemma {:induction false} AcesConcat(a: seq<Row>, b: seq<Row>)
    ensures Aces(a + b) == Aces(a) + Aces(b)
  {
  }

  lemma ElementsConcat<T>(a: seq<T>, b: seq<T>)
    ensures Elements(a + b) == Elements(a) + Elements(b)
  {
    forall x | x in Elements(a) + Elements(b) ensures x in a + b {
      if x in a { assert x in a + b; } else { assert x in b; }
    }
  }

  lemma OneRow(row: Row)
    ensures TagsOk([row]) <==> TagOk(row.tag)
    ensures Uncut([row]) <==> row.effective.None?
    ensures Elements(Aces([row])) == {row.AsAce()}
  {
    assert [row][0] == row;
    assert Aces([row])[0] == row.AsAce();
  }

  lemma NoRows()
    ensures TagsOk([]) && Uncut([]) && Elements(Aces([])) == {}
  {
  }

  // The rows for named entries: their tags, whether one is cut, and what they list

  lemma {:induction false} NamedTags(pre: string, kind: string, named: map<string, Mode>, names: seq<string>, mask: Option<Mode>)
    requires IsPrefix(pre) && (kind == "user:" || kind == "group:")
    requires forall i :: 0 <= i < |names| ==> names[i] in named && GroupNameOk(names[i])
    ensures TagsOk(NamedRows(pre + kind, named, names, mask))
  {
    hide TagOk, GroupNameOk, Effective;
    if names != [] {
      var n := |names| - 1;
      NamedTags(pre, kind, named, names[..n], mask);
      NameTag(pre, names[n]);
    }
  }

  lemma {:induction false} NamedUncut(tag: string, named: map<string, Mode>, names: seq<string>, mask: Option<Mode>)
    requires forall i :: 0 <= i < |names| ==> names[i] in named
    ensures Uncut(NamedRows(tag, named, names, mask)) <==>
            forall i :: 0 <= i < |names| ==> Effective(named[names[i]], mask).None?
  {
    hide Effective, Uncut, Elements, Aces, TagsOk;
    if names == [] {
      NoRows();
    } else {
      var n := |names| - 1;
      NamedUncut(tag, named, names[..n], mask);
      var row := Row(tag + names[n], named[names[n]], Effective(named[names[n]], mask));
      OneRow(row);
      RowsConcat(NamedRows(tag, named, names[..n], mask), [row]);
      assert forall i :: 0 <= i < n ==> names[..n][i] == names[i];
    }
  }

  lemma {:induction false} NamedShown(tag: string, named: map<string, Mode>, names: seq<string>, mask: Option<Mode>, ace: FaclAce)
    requires forall i :: 0 <= i < |names| ==> names[i] in named
    ensures ace in Elements(Aces(NamedRows(tag, named, names, mask))) <==>
            exists i :: 0 <= i < |names| && ace == FaclAce(tag + names[i], named[names[i]])
  {
    hide Effective, Elements, Aces, Uncut, TagsOk;
    if names == [] {
      NoRows();
    } else {
      var n := |names| - 1;
      NamedShown(tag, named, names[..n], mask, ace);
      var row := Row(tag + names[n], named[names[n]], Effective(named[names[n]], mask));
      OneRow(row);
      RowsConcat(NamedRows(tag, named, names[..n], mask), [row]);
      if i :| 0 <= i < n && ace == FaclAce(tag + names[..n][i], named[names[..n][i]]) {
        assert names[i] == names[..n][i];
      }
      if i :| 0 <= i < n && ace == FaclAce(tag + names[i], named[names[i]]) {
        assert names[i] == names[..n][i];
      }
    }
  }

  /** Listed once in whatever order, the named entries are the named lines. */
  lemma NamedLinesShown(tag: string, named: map<string, Mode>, names: seq<string>, mask: Option<Mode>)
    requires Enumerates(names, named.Keys) && forall i :: 0 <= i < |names| ==> names[i] in named
    ensures Elements(Aces(NamedRows(tag, named, names, mask))) == NamedLines(tag, named)
  {
    hide Aces, NamedRows;
    forall ace ensures ace in Elements(Aces(NamedRows(tag, named, names, mask))) <==> ace in NamedLines(tag, named) {
      NamedShown(tag, named, names, mask, ace);
      if ace in NamedLines(tag, named) {
        var g :| g in named && ace == FaclAce(tag + g, named[g]);
        assert g in Elements(names);
        var i :| 0 <= i < |names| && names[i] == g;
      }
    }
  }

  lemma OneElement<T>(x: T)
    ensures Elements([x]) == {x}
  {
  }

  // One ACL

  /** The entries that a listing shows besides the named groups. */
  predicate OtherAce(ace: FaclAce) {
    !ace.IsNamedGroup()
  }

  lemma NotGroups(pre: string, u: string)
    requires IsPrefix(pre)
    ensures forall m :: OtherAce(FaclAce(pre + "user:" + u, m)) && OtherAce(FaclAce(pre + "user:", m))
    ensures forall m :: OtherAce(FaclAce(pre + "group:", m)) && OtherAce(FaclAce(pre + "mask:", m)) && OtherAce(FaclAce(pre + "other:", m))
  {
    assert (pre + "user:" + u)[|pre|] == 'u' && (pre + "user:")[|pre|] == 'u';
    assert (pre + "mask:")[|pre|] == 'm' && (pre + "other:")[|pre|] == 'o' && (pre + "group:")[|pre|] == 'g';
    assert "group:"[0] == 'g' && "default:group:"[0] == 'd' && "default:group:"[8] == 'g';
    assert "default:" + "group:" == "default:group:";
    assert pre == "" ==> pre + "group:" == "group:";
  }

  function BaseRows(pre: string, part: AclPart, o: Order): (r: (Row, Row, seq<Row>, Row)) {
    (Row(pre + "user:", o.user, None), Row(pre + "group:", part.group, Effective(part.group, part.mask)),
     if part.mask.Some? then [Row(pre + "mask:", part.mask.value, None)] else [], Row(pre + "other:", o.other, None))
  }

  lemma PartRowsAre(pre: string, part: AclPart, o: Order)
    requires Orders(o, part)
    ensures var (a, c, e, f) := BaseRows(pre, part, o);
            PartRows(pre, part, o) ==
            [a] + NamedRows(pre + "user:", part.users, o.users, part.mask) + [c] +
            NamedRows(pre + "group:", part.named, o.groups, part.mask) + e + [f]
  {
  }

  lemma SixRows(a: seq<Row>, b: seq<Row>, c: seq<Row>, d: seq<Row>, e: seq<Row>, f: seq<Row>)
    ensures TagsOk(a + b + c + d + e + f) <==>
            TagsOk(a) && TagsOk(b) && TagsOk(c) && TagsOk(d) && TagsOk(e) && TagsOk(f)
    ensures Uncut(a + b + c + d + e + f) <==> Uncut(a) && Uncut(b) && Uncut(c) && Uncut(d) && Uncut(e) && Uncut(f)
    ensures Elements(Aces(a + b + c + d + e + f)) ==
            Elements(Aces(a)) + Elements(Aces(b)) + Elements(Aces(c)) + Elements(Aces(d)) + Elements(Aces(e)) + Elements(Aces(f))
  {
    hide TagsOk, Uncut, Elements, Aces;
    RowsConcat(a, b);
    RowsConcat(a + b, c);
    RowsConcat(a + b + c, d);
    RowsConcat(a + b + c + d, e);
    RowsConcat(a + b + c + d + e, f);
  }

  lemma MaskRow(row: Row, some: bool)
    ensures var e := if some then [row] else [];
            && (TagsOk(e) <==> (some ==> TagOk(row.tag))) && (Uncut(e) <==> (some ==> row.effective.None?))
            && Elements(Aces(e)) == if some then {row.AsAce()} else {}
  {
    hide TagOk;
    if some { OneRow(row); } else { NoRows(); }
  }

  /** One part of the listing: it can be parsed line by line exactly if the mask cuts
      nothing. */
  lemma PartRowsParse(pre: string, part: AclPart, o: Order)
    requires IsPrefix(pre) && Orders(o, part) && PartNamesOk(part)
    ensures TagsOk(PartRows(pre, part, o)) && |PartRows(pre, part, o)| >= 3
    ensures Uncut(PartRows(pre, part, o)) <==> ReadablePart(part)
  {
    NamesInOrder(part, o);
    PartRowsAre(pre, part, o);
    hide TagOk, TagsOk, Uncut, GroupNameOk, IsPrefix, Aces, Elements, ReadablePart, NamedRows, PartRows, Orders, PartNamesOk;
    var (a, c, e, f) := BaseRows(pre, part, o);
    var users := NamedRows(pre + "user:", part.users, o.users, part.mask);
    var groups := NamedRows(pre + "group:", part.named, o.groups, part.mask);
    SixRows([a], users, [c], groups, e, [f]);
    BaseRowsParse(pre, part, o);
    NamedTags(pre, "user:", part.users, o.users, part.mask);
    NamedTags(pre, "group:", part.named, o.groups, part.mask);
    NamedRowsUncut(pre, part, o);
  }

  lemma BaseRowsParse(pre: string, part: AclPart, o: Order)
    requires IsPrefix(pre)
    ensures var (a, c, e, f) := BaseRows(pre, part, o);
            && TagsOk([a]) && TagsOk([c]) && TagsOk(e) && TagsOk([f])
            && Uncut([a]) && Uncut(e) && Uncut([f]) && (Uncut([c]) <==> Effective(part.group, part.mask).None?)
  {
    hide TagOk, TagsOk, Uncut, IsPrefix, Aces, Elements, Effective;
    BaseTags(pre);
    var (a, c, e, f) := BaseRows(pre, part, o);
    OneRow(a);
    OneRow(c);
    OneRow(f);
    if part.mask.Some? { MaskRow(e[0], true); } else { MaskRow(a, false); }
  }

  /** Nothing is cut exactly if neither the owning group's nor a named entry is. */
  lemma NamedRowsUncut(pre: string, part: AclPart, o: Order)
    requires Orders(o, part) && PartNamesOk(part)
    requires forall i :: 0 <= i < |o.users| ==> o.users[i] in part.users
    requires forall i :: 0 <= i < |o.groups| ==> o.groups[i] in part.named
    ensures (&& Effective(part.group, part.mask).None?
             && Uncut(NamedRows(pre + "user:", part.users, o.users, part.mask))
             && Uncut(NamedRows(pre + "group:", part.named, o.groups, part.mask))) <==> ReadablePart(part)
  {
    NamedEffective(part.users, o.users, part.mask);
    NamedEffective(part.named, o.groups, part.mask);
    UncutMeans(part);
    hide Uncut, ReadablePart, Effective, NamedRows, Orders, Enumerates, PartNamesOk;
    NamedUncut(pre + "user:", part.users, o.users, part.mask);
    NamedUncut(pre + "group:", part.named, o.groups, part.mask);
  }

  lemma NamesInOrder(part: AclPart, o: Order)
    requires Orders(o, part) && PartNamesOk(part)
    ensures forall i :: 0 <= i < |o.users| ==> o.users[i] in part.users && GroupNameOk(o.users[i])
    ensures forall i :: 0 <= i < |o.groups| ==> o.groups[i] in part.named && GroupNameOk(o.groups[i])
  {
  }

  lemma NamedEffective(named: map<string, Mode>, names: seq<string>, mask: Option<Mode>)
    requires Enumerates(names, named.Keys) && forall i :: 0 <= i < |names| ==> names[i] in named
    ensures (forall i :: 0 <= i < |names| ==> Effective(named[names[i]], mask).None?) <==>
            (forall g :: g in named.Keys ==> Effective(named[g], mask).None?)
  {
    hide Effective;
    forall g | g in named.Keys ensures exists i :: 0 <= i < |names| && names[i] == g {
      assert g in Elements(names);
    }
  }

  /** It shows exactly the named groups of the part. */
  lemma PartRowsShow(pre: string, part: AclPart, o: Order)
    requires IsPrefix(pre) && Orders(o, part) && PartNamesOk(part)
    ensures forall ace :: ace in Elements(Aces(PartRows(pre, part, o))) && ace.IsNamedGroup() <==>
                          ace in NamedLines(pre + "group:", part.named)
  {
    hide TagOk, TagsOk, Uncut, Aces, Elements, Effective, NamedRows, PartRows, Enumerates, PartNamesOk, FaclAce.IsNamedGroup, NamedLines, BaseRows, IsPrefix;
    PartRowsAre(pre, part, o);
    NamedLinesShown(pre + "user:", part.users, o.users, part.mask);
    NamedLinesShown(pre + "group:", part.named, o.groups, part.mask);
    OthersShown(pre, part, o);
    GroupsShown(pre, part);
    var (a, c, e, f) := BaseRows(pre, part, o);
    OneRow(a);
    OneRow(c);
    OneRow(f);
    SixRows([a], NamedRows(pre + "user:", part.users, o.users, part.mask), [c],
      NamedRows(pre + "group:", part.named, o.groups, part.mask), e, [f]);
    OnlyGroupsShown(a.AsAce(), NamedLines(pre + "user:", part.users), c.AsAce(),
      NamedLines(pre + "group:", part.named), Elements(Aces(e)), f.AsAce());
  }

  lemma OnlyGroupsShown(a: FaclAce, b: set<FaclAce>, c: FaclAce, d: set<FaclAce>, e: set<FaclAce>, f: FaclAce)
    requires !a.IsNamedGroup() && !c.IsNamedGroup() && !f.IsNamedGroup()
    requires forall ace :: ace in b || ace in e ==> !ace.IsNamedGroup()
    requires forall ace :: ace in d ==> ace.IsNamedGroup()
    ensures forall ace :: ace in {a} + b + {c} + d + e + {f} && ace.IsNamedGroup() <==> ace in d
  {
    hide FaclAce.IsNamedGroup;
  }

  /** Everything else in the listing is not a named group. */
  lemma OthersShown(pre: string, part: AclPart, o: Order)
    requires IsPrefix(pre)
    ensures var (a, c, e, f) := BaseRows(pre, part, o);
            && !a.AsAce().IsNamedGroup() && !c.AsAce().IsNamedGroup() && !f.AsAce().IsNamedGroup()
            && (forall ace :: ace in Elements(Aces(e)) ==> !ace.IsNamedGroup())
            && (forall ace :: ace in NamedLines(pre + "user:", part.users) ==> !ace.IsNamedGroup())
  {
    NotGroups(pre, "");
    hide FaclAce.IsNamedGroup;
    var (a, c, e, f) := BaseRows(pre, part, o);
    assert OtherAce(FaclAce(pre + "user:", o.user)) && OtherAce(FaclAce(pre + "group:", part.group));
    assert OtherAce(FaclAce(pre + "other:", o.other));
    if part.mask.Some? {
      MaskRow(e[0], true);
      assert OtherAce(FaclAce(pre + "mask:", part.mask.value));
    } else {
      MaskRow(a, false);
    }
    forall ace | ace in NamedLines(pre + "user:", part.users) ensures !ace.IsNamedGroup() {
      var u :| u in part.users && ace == FaclAce(pre + "user:" + u, part.users[u]);
      NotGroups(pre, u);
      assert OtherAce(FaclAce(pre + "user:" + u, ace.mode));
    }
  }

  lemma GroupsShown(pre: string, part: AclPart)
    requires IsPrefix(pre) && PartNamesOk(part)
    ensures forall ace :: ace in NamedLines(pre + "group:", part.named) ==> ace.IsNamedGroup()
  {
    forall ace | ace in NamedLines(pre + "group:", part.named) ensures ace.IsNamedGroup() {
      var g :| g in part.named && ace == FaclAce(pre + "group:" + g, part.named[g]);
      assert pre == "" ==> pre + "group:" + g == "group:" + g;
      assert "default:" + "group:" + g == "default:group:" + g;
    }
  }

  lemma UncutMeans(part: AclPart)
    ensures ReadablePart(part) <==>
            && Effective(part.group, part.mask).None?
            && (forall u :: u in part.users.Keys ==> Effective(part.users[u], part.mask).None?)
            && (forall g :: g in part.named.Keys ==> Effective(part.named[g], part.mask).None?)
  {
  }

  lemma ListedGroups(acl: FileAcl, pre: string, part: AclPart)
    ensures acl.access == part && pre == "" ==> NamedLines(pre + "group:", part.named) == NamedLines("group:", acl.access.named)
    ensures pre == "default:" ==> pre + "group:" == "default:group:"
  {
    assert "" + "group:" == "group:";
    assert "default:" + "group:" == "default:group:";
  }

  lemma NoDefaultLines(acl: FileAcl)
    requires acl.DefaultNamed() == map[]
    ensures AllNamedLines(acl) == NamedLines("group:", acl.access.named)
  {
  }

  lemma TwoParts(a: seq<Row>, d: seq<Row>, x: set<FaclAce>, y: set<FaclAce>)
    requires forall ace :: ace in Elements(Aces(a)) && ace.IsNamedGroup() <==> ace in x
    requires forall ace :: ace in Elements(Aces(d)) && ace.IsNamedGroup() <==> ace in y
    ensures forall ace :: ace in Elements(Aces(a + d)) && ace.IsNamedGroup() <==> ace in x + y
  {
    hide Aces, Elements, FaclAce.IsNamedGroup, TagsOk, Uncut;
    RowsConcat(a, d);
  }

  lemma ListsMeans(rows: seq<Row>, acl: FileAcl)
    requires forall ace :: ace in Elements(Aces(rows)) && ace.IsNamedGroup() <==> ace in AllNamedLines(acl)
    ensures Lists(Aces(rows), acl)
  {
    hide Aces, FaclAce.IsNamedGroup, AllNamedLines;
    assert forall ace :: ace in Aces(rows) <==> ace in Elements(Aces(rows));
  }

  /** The rows of one file parse exactly if no mask cuts an entry, and they list its named
      group entries. */
  lemma PrintedRowsMean(rows: seq<Row>, acl: FileAcl)
    requires PrintsRows(rows, acl) && NamesOk(acl)
    ensures TagsOk(rows) && |rows| >= 3 && (Uncut(rows) <==> Readable(acl)) && Lists(Aces(rows), acl)
  {
    hide TagsOk, Uncut, PartRows, Orders, PartNamesOk, ReadablePart, FaclAce.IsNamedGroup, NamedLines, Elements, Aces, Lists;
    ListedGroups(acl, "", acl.access);
    if acl.DirAcl? && acl.dflt.Some? {
      var a, d :| Orders(a, acl.access) && Orders(d, acl.dflt.value) &&
        rows == PartRows("", acl.access, a) + PartRows("default:", acl.dflt.value, d);
      PartRowsParse("", acl.access, a);
      PartRowsShow("", acl.access, a);
      PartRowsParse("default:", acl.dflt.value, d);
      PartRowsShow("default:", acl.dflt.value, d);
      ListedGroups(acl, "default:", acl.dflt.value);
      RowsConcat(PartRows("", acl.access, a), PartRows("default:", acl.dflt.value, d));
      TwoParts(PartRows("", acl.access, a), PartRows("default:", acl.dflt.value, d),
        NamedLines("group:", acl.access.named), NamedLines("default:group:", acl.dflt.value.named));
    } else {
      var a :| Orders(a, acl.access) && rows == PartRows("", acl.access, a);
      PartRowsParse("", acl.access, a);
      PartRowsShow("", acl.access, a);
      NoDefaultLines(acl);
    }
    ListsMeans(rows, acl);
  }

  // Several files

  /** The comment lines below the path: owner, group and, for a directory with special bits,
      flags; the parser skips them. */
  ghost predicate CommentLines(lines: seq<string>) {
    |lines| >= 2 && forall i :: 0 <= i < |lines| ==> "#" <= lines[i] && '\n' !in lines[i]
  }

  ghost predicate PrintsFiles(blocks: seq<Block>, acls: Acls, paths: seq<string>) {
    && |blocks| == |paths|
    && forall i :: 0 <= i < |paths| ==>
         paths[i] in acls && blocks[i].path == paths[i] && CommentLines(blocks[i].comments) && PrintsRows(blocks[i].rows, acls[paths[i]])
  }

  ghost predicate PathsFit(acls: Acls, paths: seq<string>) {
    forall i :: 0 <= i < |paths| ==> paths[i] in acls && '\n' !in paths[i] && NamesOk(acls[paths[i]])
  }

  lemma BlockMeans(b: Block, path: string, acl: FileAcl)
    requires b.path == path && '\n' !in path && CommentLines(b.comments) && PrintsRows(b.rows, acl) && NamesOk(acl)
    ensures b.Ok() && (b.Plain() <==> Readable(acl)) && Lists(Aces(b.rows), acl)
  {
    hide PrintsRows, NamesOk, Readable, Lists, TagOk;
    PrintedRowsMean(b.rows, acl);
  }

  lemma {:induction false} ListingAt(blocks: seq<Block>, i: nat)
    requires i < |blocks|
    ensures |Listing(blocks)| == |blocks|
    ensures Listing(blocks)[i] == ListedAcl(blocks[i].path, Aces(blocks[i].rows))
  {
    hide Aces;
    var n := |blocks| - 1;
    if n == 0 {
      assert blocks[..0] == [];
    } else {
      ListingAt(blocks[..n], if i < n then i else 0);
    }
  }

  /** The text of several files parses if and only if no mask cuts an entry of any of them,
      and then lists their named group entries, file by file. */
  lemma PrintedFilesMean(blocks: seq<Block>, acls: Acls, paths: seq<string>)
    requires paths != [] && PrintsFiles(blocks, acls, paths) && PathsFit(acls, paths)
    ensures var r := ParseAll(Paragraphs(TrimSpace(Printed(blocks))));
            && (r.Parsed? <==> forall i :: 0 <= i < |paths| ==> Readable(acls[paths[i]]))
            && (!r.Parsed? ==> r == Failed) && r != Panics
            && (r.Parsed? ==> |r.value| == |paths| && forall i :: 0 <= i < |paths| ==>
                  r.value[i].path == paths[i] && Lists(r.value[i].acl, acls[paths[i]]))
  {
    hide PrintsRows, NamesOk, Readable, Lists, ParseAll, Paragraphs, TrimSpace, Printed, Block.Ok, Block.Plain, Listing, Aces;
    forall i | 0 <= i < |blocks|
      ensures blocks[i].Ok() && (blocks[i].Plain() <==> Readable(acls[paths[i]])) && Lists(Aces(blocks[i].rows), acls[paths[i]])
    {
      BlockMeans(blocks[i], paths[i], acls[paths[i]]);
    }
    ParsePrinted(blocks);
    ListingAt(blocks, 0);
    forall i | 0 <= i < |blocks| ensures Listing(blocks)[i] == ListedAcl(blocks[i].path, Aces(blocks[i].rows)) {
      ListingAt(blocks, i);
    }
  }

  // Printing

  /** Some order of a set. */
  method Enumerate(s: set<string>) returns (names: seq<string>)
    ensures Enumerates(names, s) && forall i :: 0 <= i < |names| ==> names[i] in s
  {
    names := [];
    var todo := s;
    while todo != {}
      invariant NoDuplicates(names) && Elements(names) + todo == s && Elements(names) !! todo
      decreases todo
    {
      var n :| n in todo;
      assert n !in Elements(names);
      ElementsConcat(names, [n]);
      OneElement(n);
      names := names + [n];
      todo := todo - {n};
    }
    forall i | 0 <= i < |names| ensures names[i] in s {
      assert names[i] in Elements(names);
    }
  }

  method OrderOf(part: AclPart) returns (o: Order)
    ensures Orders(o, part)
  {
    var users := Enumerate(part.users.Keys);
    var groups := Enumerate(part.named.Keys);
    var user: Mode, other: Mode := *, *;
    return Order(users, groups, user, other);
  }

  method PrintAcl(acl: FileAcl) returns (rows: seq<Row>)
    ensures PrintsRows(rows, acl)
  {
    hide PartRows, Orders;
    var a := OrderOf(acl.access);
    rows := PartRows("", acl.access, a);
    if acl.DirAcl? && acl.dflt.Some? {
      var d := OrderOf(acl.dflt.value);
      rows := rows + PartRows("default:", acl.dflt.value, d);
    }
  }

  /** A name as getfacl prints it: line breaks are escaped. */
  function Quoted(s: string): (r: string)
    ensures '\n' !in r
  {
    if s == "" then "" else (if s[0] == '\n' then "\\012" else [s[0]]) + Quoted(s[1..])
  }

  /** Any owner and group, and any set-user-id, set-group-id and sticky bits. */
  method PrintComments() returns (lines: seq<string>)
    ensures CommentLines(lines)
  {
    var owner: string, group: string := *, *;
    var setuid: bool, setgid: bool, sticky: bool := *, *, *;
    lines := ["# owner: " + Quoted(owner), "# group: " + Quoted(group)];
    CommentLine("# owner: ", Quoted(owner));
    CommentLine("# group: ", Quoted(group));
    if setuid || setgid || sticky {
      var flags := [if setuid then 's' else '-', if setgid then 's' else '-', if sticky then 't' else '-'];
      CommentLine("# flags: ", flags);
      lines := lines + ["# flags: " + flags];
    }
  }

  lemma CommentLine(word: string, rest: string)
    requires "#" <= word && '\n' !in word && '\n' !in rest
    ensures "#" <= word + rest && '\n' !in word + rest
  {
  }

  lemma {:induction false} PrintedSnoc(blocks: seq<Block>, b: Block)
    ensures Printed(blocks + [b]) == Printed(blocks) + (b.Text() + "\n\n")
  {
    hide Block.Text;
    if blocks == [] {
      assert [] + [b] == [b] && [b][1..] == [];
    } else {
      PrintedSnoc(blocks[1..], b);
      assert (blocks + [b])[1..] == blocks[1..] + [b];
    }
  }

  /** The output of getfacl for several files. */
  method PrintFiles(acls: Acls, paths: seq<string>) returns (txt: string, ghost blocks: seq<Block>)
    requires forall i :: 0 <= i < |paths| ==> paths[i] in acls
    ensures PrintsFiles(blocks, acls, paths) && txt == Printed(blocks)
  {
    hide PrintsRows, Block.Text;
    txt, blocks := "", [];
    for i := 0 to |paths|
      invariant PrintsFiles(blocks, acls, paths[..i]) && txt == Printed(blocks)
    {
      var rows := PrintAcl(acls[paths[i]]);
      var comments := PrintComments();
      var b := Block(paths[i], comments, rows);
      PrintedSnoc(blocks, b);
      txt := txt + (b.Text() + "\n\n");
      blocks := blocks + [b];
    }
    assert paths[..|paths|] == paths;
  }

  /** getfacl on existing files and the parser on what it prints. */
  method ReadAcls(acls: Acls, paths: seq<string>) returns (ok: bool, listed: seq<ListedAcl>)
    requires paths != [] && PathsFit(acls, paths)
    ensures ok <==> forall i :: 0 <= i < |paths| ==> Readable(acls[paths[i]])
    ensures ok ==> |listed| == |paths| && forall i :: 0 <= i < |paths| ==>
              listed[i].path == paths[i] && Lists(listed[i].acl, acls[paths[i]])
  {
    hide Readable, Lists, NamesOk, ParseAll, Paragraphs, TrimSpace, Printed, PrintsFiles;
    var txt, blocks := PrintFiles(acls, paths);
    PrintedFilesMean(blocks, acls, paths);
    var r := ParseGetfaclText(txt);
    match r {
      case Parsed(acls) => return true, acls;
      case _ => return false, [];
    }
  }
}
