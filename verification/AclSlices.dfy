/** ACLs as the program holds them: slices of arrays that several exports may share. */
module AclSlices {
  import opened Sharing

  /** A Go slice that starts at the first element; the capacity is the array's length. */
  datatype Slice = Slice(arr: array<Ace>, len: nat) {
    predicate Ok() {
      len <= arr.Length
    }

    function View(): Acl
      requires Ok()
      reads arr
    {
      arr[..len]
    }
  }

  datatype SliceEntry = SliceEntry(path: string, acl: Slice, managing: seq<Group>) {
    function View(): ExportEntry
      requires acl.Ok()
      reads acl.arr
    {
      ExportEntry(path, acl.View(), managing)
    }
  }

  type SliceExports = seq<SliceEntry>

  function Arrays(exps: SliceExports): set<array<Ace>> {
    set i | 0 <= i < |exps| :: exps[i].acl.arr
  }

  predicate AllOk(exps: SliceExports) {
    forall i :: 0 <= i < |exps| ==> exps[i].acl.Ok()
  }

  /** What the exports say at the moment. */
  function Views(exps: SliceExports): (r: Exports)
    requires AllOk(exps)
    reads Arrays(exps)
    ensures |r| == |exps|
    ensures forall i :: 0 <= i < |exps| ==> r[i] == exps[i].View()
  {
    if exps == [] then []
    else
      var n := |exps| - 1;
      assert Arrays(exps[..n]) <= Arrays(exps);
      assert exps[n].acl.arr in Arrays(exps);
      Views(exps[..n]) + [exps[n].View()]
  }

  /** make(Acl, 0, capacity) */
  method MakeSlice(capacity: nat) returns (s: Slice)
    ensures s.Ok() && fresh(s.arr) && s.arr.Length == capacity && s.View() == []
  {
    var arr := new Ace[capacity](_ => Ace("", NoAccess));
    return Slice(arr, 0);
  }

  /** append: writes behind the end if there is room, else into a larger copy. */
  method Append(s: Slice, x: Ace) returns (t: Slice)
    requires s.Ok()
    modifies if s.len < s.arr.Length then {s.arr} else {}
    ensures t.Ok() && t.len == s.len + 1 && t.View() == old(s.View()) + [x]
    ensures if s.len < s.arr.Length then t.arr == s.arr else fresh(t.arr)
  {
    if s.len < s.arr.Length {
      s.arr[s.len] := x;
      return Slice(s.arr, s.len + 1);
    }
    var arr := new Ace[2 * s.len + 1](_ => x);
    for i := 0 to s.len
      invariant arr[..i] == s.arr[..i] && arr[s.len] == x
    {
      arr[i] := s.arr[i];
    }
    return Slice(arr, s.len + 1);
  }

  lemma ViewsUpdate(exps: SliceExports, idx: nat, acl: Slice)
    requires AllOk(exps) && idx < |exps| && acl.Ok()
    ensures AllOk(exps[idx := exps[idx].(acl := acl)])
    ensures Views(exps[idx := exps[idx].(acl := acl)]) == Views(exps)[idx := Views(exps)[idx].(acl := acl.View())]
  {
  }

  lemma ViewsAppend(exps: SliceExports, e: SliceEntry)
    requires AllOk(exps) && e.acl.Ok()
    ensures AllOk(exps + [e]) && Views(exps + [e]) == Views(exps) + [e.View()]
  {
  }

  lemma ViewsPrefix(exps: SliceExports, i: nat)
    requires AllOk(exps) && i < |exps|
    ensures AllOk(exps[..i]) && Views(exps)[i] == exps[i].View()
  {
  }

  lemma NoViews()
    ensures AllOk([]) && Views([]) == []
  {
  }

  /** Exports whose arrays were not written say the same as before. */
  twostate lemma SameViews(exps: SliceExports)
    requires AllOk(exps)
    requires forall i :: 0 <= i < |exps| ==> exps[i].acl.arr[..] == old(exps[i].acl.arr[..])
    ensures Views(exps) == old(Views(exps))
  {
    forall i | 0 <= i < |exps| ensures exps[i].View() == old(exps[i].View()) {
      var s := exps[i].acl;
      assert s.arr[..s.len] == s.arr[..][..s.len];
      assert old(s.arr[..s.len]) == old(s.arr[..])[..s.len];
    }
  }
}
