/** Export paths as they are written and as they are stored: the managing groups are
    computed before outer slashes are trimmed. */
module ExportPaths {
  import opened Strings
  import opened Paths
  import opened Sharing

  function TrimRight(p: string): string {
    if p != "" && p[|p| - 1] == '/' then TrimRight(p[..|p| - 1]) else p
  }

  function TrimLeft(p: string): string {
    if p != "" && p[0] == '/' then TrimLeft(p[1..]) else p
  }

  /** strings.Trim(p, "/") */
  function TrimSlashes(p: string): string {
    TrimRight(TrimLeft(p))
  }

  ghost predicate Slashes(s: string) {
    forall i :: 0 <= i < |s| ==> s[i] == '/'
  }

  lemma {:induction false} LeftTrimmed(a: string, s: string)
    requires Slashes(a) && (s == "" || s[0] != '/')
    ensures TrimLeft(a + s) == s
  {
    if a == "" {
      assert a + s == s;
    } else {
      assert (a + s)[1..] == a[1..] + s;
      LeftTrimmed(a[1..], s);
    }
  }

  lemma {:induction false} RightTrimmed(s: string, b: string)
    requires Slashes(b) && (s == "" || s[|s| - 1] != '/')
    ensures TrimRight(s + b) == s
  {
    if b == "" {
      assert s + b == s;
    } else {
      var n := |b| - 1;
      assert (s + b)[..|s + b| - 1] == s + b[..n] && (s + b)[|s + b| - 1] == b[n];
      RightTrimmed(s, b[..n]);
    }
  }

  /** All slashes at both ends go, and nothing else. */
  lemma Trimmed(a: string, s: string, b: string)
    requires Slashes(a) && Slashes(b) && s != "" && s[0] != '/' && s[|s| - 1] != '/'
    ensures TrimSlashes(a + s + b) == s
  {
    assert a + s + b == a + (s + b) && (s + b)[0] == s[0];
    LeftTrimmed(a, s + b);
    RightTrimmed(s, b);
  }

  lemma CleanPathStays(p: string)
    requires RelPath(p)
    ensures TrimSlashes(p) == p
  {
    RelPathNotEmpty(p);
    var q := p[..|p| - 1];
    TrailingSlash(q);
    assert CleanName(Parts(p)[|Parts(p)| - 1]);
    assert p[|p| - 1] == '/' ==> p == q + "/";
  }

  lemma TrailingSlash(q: string)
    ensures Parts(q + "/") == Parts(q) + [""]
  {
    assert q + "/" == q + ['/'] + "";
    SplitJoin2(q, "", '/');
    SplitPlain("", '/');
  }

  function Empties(n: nat): seq<string> {
    seq(n, _ => "")
  }

  /** Trailing slashes are empty components at the end. */
  lemma {:induction false} PartsTrimRight(p: string) returns (n: nat)
    ensures Parts(p) == Parts(TrimRight(p)) + Empties(n) && |TrimRight(p)| + n == |p|
  {
    n := 0;
    if p != "" && p[|p| - 1] == '/' {
      var q := p[..|p| - 1];
      var m := PartsTrimRight(q);
      TrailingSlash(q);
      assert p == q + "/";
      n := m + 1;
      assert Empties(n) == Empties(m) + [""];
    } else {
      assert Parts(p) + [] == Parts(p);
    }
  }

  /** What a caller has to look at: there is nothing to trim; or nothing in front, the
      stored path is not the top of a service in facility form, and the empty name, which
      a trailing slash may put in the second place, is no service. */
  predicate SlashesHarmless(fs: Bcpfs, p: string) {
    var t := TrimSlashes(p);
    || p == t
    || (&& p != "" && p[0] != '/'
        && !(fs.IsServicePath(t) && fs.IsFacilityPath(t) && |Parts(t)| == 2)
        && !(|Parts(t)| == 1 && "" in fs.facilityByService))
  }

  /** The managing groups of the path as written are those of the stored path exactly
      then. */
  lemma StoredManagingIff(fs: Bcpfs, p: string)
    requires RelPath(TrimSlashes(p)) && "" !in fs.facilityDirs
    ensures fs.ManagingGroupsOfPath(p) == fs.ManagingGroupsOfPath(TrimSlashes(p)) <==> SlashesHarmless(fs, p)
  {
    var t := TrimSlashes(p);
    RelPathNotEmpty(t);
    if p != t {
      assert p != "";
      if p[0] == '/' {
        LeadingSlash(fs, p);
        CleanManaging(fs, t);
      } else {
        var n := PartsTrimRight(p);
        if n == 0 { SplitInjective(p, t, '/'); }
        TrailingSlashes(fs, p, t, n);
      }
    }
  }

  /** With a leading slash, the empty name is the managing org unit. */
  lemma LeadingSlash(fs: Bcpfs, p: string)
    requires p != "" && p[0] == '/' && "" !in fs.facilityDirs
    ensures fs.ManagingGroupsOfPath(p).Ok? && fs.ManagingGroupsOfPath(p).value[0] == OuGroup("")
  {
    assert Parts(p)[0] == "";
  }

  lemma CleanManaging(fs: Bcpfs, t: string)
    requires RelPath(t)
    ensures fs.ManagingGroupsOfPath(t).Ok? ==> fs.ManagingGroupsOfPath(t).value[0] != OuGroup("")
  {
  }

  lemma TrailingSlashes(fs: Bcpfs, p: string, t: string, n: nat)
    requires RelPath(t) && n > 0 && Parts(p) == Parts(t) + Empties(n) && "" !in fs.facilityDirs
    ensures fs.ManagingGroupsOfPath(p) == fs.ManagingGroupsOfPath(t) <==>
            && !(fs.IsServicePath(t) && fs.IsFacilityPath(t) && |Parts(t)| == 2)
            && !(|Parts(t)| == 1 && "" in fs.facilityByService)
  {
    var a, b := Parts(p), Parts(t);
    assert a[0] == b[0] && a[|b|] == "";
  }

  /** The facility directories never hold the empty name. */
  lemma NoEmptyFacilityDir(facs: seq<Facility>)
    ensures "" !in FacilityDirs(facs)
  {
  }

  /** A leading slash always changes the managing groups. */
  lemma LeadingSlashLosesManaging(fs: Bcpfs, p: string)
    requires RelPath(p) && "" !in fs.facilityDirs && fs.ManagingGroupsOfPath(p).Ok?
    ensures TrimSlashes("/" + p) == p
    ensures fs.ManagingGroupsOfPath("/" + p).Ok? && fs.ManagingGroupsOfPath("/" + p) != fs.ManagingGroupsOfPath(p)
  {
    CleanPathStays(p);
    RelPathNotEmpty(p);
    assert ("/" + p)[1..] == p;
    LeadingSlash(fs, "/" + p);
    StoredManagingIff(fs, "/" + p);
  }

  /** A trailing slash makes the top of a service pass in facility form: it is stored as a
      path that is too short on its own, and its realpath is the whole service. */
  lemma ServiceTopWithSlash(fs: Bcpfs, dir: string, srv: string)
    requires fs.Valid() && CleanName(dir) && CleanName(srv) && dir in fs.facilityDirs && srv in fs.facilityByService
    ensures var t := dir + "/" + srv;
            && TrimSlashes(t + "/") == t && RelPath(t) && !SlashesHarmless(fs, t + "/")
            && fs.ManagingGroupsOfPath(t + "/") == Ok([OuGroup(""), OpsGroup(fs.facilityByService[srv])])
            && fs.ManagingGroupsOfPath(t) == Err("service path too short")
            && fs.Realpath(t) == fs.serviceDir + "/" + srv
  {
    hide Join, TrimSlashes, Split;
    var t, names := dir + "/" + srv, [dir, srv];
    assert t == dir + ['/'] + srv;
    SplitJoin2(dir, srv, '/');
    SplitPlain(dir, '/');
    SplitPlain(srv, '/');
    assert Parts(t) == names;
    TrailingSlash(t);
    assert Parts(t + "/") == [dir, srv, ""];
    OnlyTrailing(t);
    assert [fs.serviceDir] + names[1..] == [fs.serviceDir, srv];
    JoinNames([fs.serviceDir, srv]);
    assert Concat([fs.serviceDir, srv], '/') == fs.serviceDir + "/" + srv;
  }

  /** For example, facility `em` operates the service `mic`. */
  lemma TrailingSlashExample(fs: Bcpfs)
    requires fs.Valid() && "em-facility" in fs.facilityDirs
    requires "mic" in fs.facilityByService && fs.facilityByService["mic"] == "em"
    ensures TrimSlashes("em-facility/mic/") == "em-facility/mic"
    ensures fs.ManagingGroupsOfPath("em-facility/mic/") == Ok([OuGroup(""), OpsGroup("em")])
    ensures fs.ManagingGroupsOfPath("em-facility/mic") == Err("service path too short")
    ensures fs.Realpath("em-facility/mic") == fs.serviceDir + "/mic"
  {
    hide TrimSlashes, Bcpfs.ManagingGroupsOfPath, Bcpfs.Realpath, SlashesHarmless, RelPath;
    ServiceTopWithSlash(fs, "em-facility", "mic");
    var t := "em-facility" + "/" + "mic";
    assert t == "em-facility/mic" && t + "/" == "em-facility/mic/";
    assert fs.serviceDir + "/" + "mic" == fs.serviceDir + "/mic";
  }

  lemma OnlyTrailing(t: string)
    requires RelPath(t)
    ensures TrimSlashes(t + "/") == t
  {
    RelPathNotEmpty(t);
    CleanPathStays(t);
    assert (t + "/")[..|t|] == t;
    assert TrimLeft(t) == t;
  }
}
