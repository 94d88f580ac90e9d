/** Byte strings as the Go standard library treats them: splitting and joining
    at a separator, the bytewise order of `sort.Strings`, and sorting. */
module Strings {

  /** strings.Split(s, string(sep)). */
  function Split(s: string, sep: char): (r: seq<string>)
    ensures |r| >= 1
    ensures forall i :: 0 <= i < |r| ==> sep !in r[i]
  {
    if s == "" then [""]
    else if s[0] == sep then [""] + Split(s[1..], sep)
    else
      var t := Split(s[1..], sep);
      [[s[0]] + t[0]] + t[1..]
  }

  /** strings.Join(parts, string(sep)). */
  function Concat(parts: seq<string>, sep: char): string {
    if |parts| == 0 then ""
    else if |parts| == 1 then parts[0]
    else parts[0] + [sep] + Concat(parts[1..], sep)
  }

  lemma TakeOneMore<T>(before: seq<T>, s: seq<T>, k: nat)
    requires k < |s|
    ensures s[..k + 1] == s[..k] + [s[k]]
    ensures before + s[..k] + [s[k]] == before + s[..k + 1]
  {
  }

  lemma TakeEnds<T>(before: seq<T>, s: seq<T>)
    ensures s[..|s|] == s && s[..0] == [] && before + s[..0] == before
  {
  }

  lemma {:induction false} ConcatSplit(s: string, sep: char)
    ensures Concat(Split(s, sep), sep) == s
  {
    if s != "" {
      ConcatSplit(s[1..], sep);
      var t := Split(s[1..], sep);
      if s[0] == sep {
        assert ([""] + t)[1..] == t;
      } else {
        var r := [[s[0]] + t[0]] + t[1..];
        assert r[1..] == t[1..];
      }
    }
  }

  lemma {:induction false} SplitPlain(s: string, sep: char)
    requires sep !in s
    ensures Split(s, sep) == [s]
  {
    if s != "" {
      SplitPlain(s[1..], sep);
      assert [s[0]] + s[1..] == s;
    }
  }

  /** Splitting distributes over a separator. */
  lemma {:induction false} SplitJoin2(a: string, b: string, sep: char)
    ensures Split(a + [sep] + b, sep) == Split(a, sep) + Split(b, sep)
  {
    var s := a + [sep] + b;
    if a == "" {
      assert s[1..] == b;
    } else {
      assert s[0] == a[0] && s[1..] == a[1..] + [sep] + b;
      SplitJoin2(a[1..], b, sep);
      var t, u := Split(a[1..], sep), Split(b, sep);
      if a[0] == sep {
        assert [""] + (t + u) == ([""] + t) + u;
      } else {
        assert (t + u)[1..] == t[1..] + u;
      }
    }
  }

  lemma {:induction false} SplitConcat(parts: seq<string>, sep: char)
    requires |parts| > 0 && forall i :: 0 <= i < |parts| ==> sep !in parts[i]
    ensures Split(Concat(parts, sep), sep) == parts
  {
    SplitPlain(parts[0], sep);
    if |parts| == 1 {
      assert parts == [parts[0]];
    } else {
      SplitConcat(parts[1..], sep);
      SplitJoin2(parts[0], Concat(parts[1..], sep), sep);
      assert parts == [parts[0]] + parts[1..];
    }
  }

  lemma {:induction false} ConcatAppend(a: seq<string>, b: seq<string>, sep: char)
    requires |a| > 0 && |b| > 0
    ensures Concat(a + b, sep) == Concat(a, sep) + [sep] + Concat(b, sep)
  {
    if |a| == 1 {
      assert (a + b)[1..] == b;
    } else {
      ConcatAppend(a[1..], b, sep);
      assert (a + b)[1..] == a[1..] + b;
    }
  }

  /** Splitting is injective, because Concat inverts it. */
  lemma SplitInjective(a: string, b: string, sep: char)
    requires Split(a, sep) == Split(b, sep)
    ensures a == b
  {
    ConcatSplit(a, sep);
    ConcatSplit(b, sep);
  }

  /** `p` followed by the separator is a prefix of `q` exactly when the parts of
      `p` are a proper prefix of the parts of `q`. */
  lemma {:induction false} PrefixIffParts(p: string, q: string, sep: char)
    ensures p + [sep] <= q <==> Split(p, sep) < Split(q, sep)
  {
    if p + [sep] <= q {
      var b := q[|p| + 1..];
      assert q == p + [sep] + b;
      SplitJoin2(p, b, sep);
    }
    if Split(p, sep) < Split(q, sep) {
      var a := Split(p, sep);
      var b := Split(q, sep)[|a|..];
      assert Split(q, sep) == a + b;
      ConcatAppend(a, b, sep);
      ConcatSplit(p, sep);
      ConcatSplit(q, sep);
    }
  }

  // Order

  /** The strict bytewise order on strings. */
  predicate Less(a: string, b: string) {
    if b == "" then false
    else if a == "" then true
    else a[0] < b[0] || (a[0] == b[0] && Less(a[1..], b[1..]))
  }

  lemma {:induction false} LessIrreflexive(a: string)
    ensures !Less(a, a)
  {
    if a != "" { LessIrreflexive(a[1..]); }
  }

  lemma {:induction false} LessTransitive(a: string, b: string, c: string)
    requires Less(a, b) && Less(b, c)
    ensures Less(a, c)
  {
    if a != "" && a[0] == b[0] && b[0] == c[0] {
      LessTransitive(a[1..], b[1..], c[1..]);
    }
  }

  lemma {:induction false} LessTotal(a: string, b: string)
    ensures Less(a, b) || a == b || Less(b, a)
  {
    if a != "" && b != "" && a[0] == b[0] {
      LessTotal(a[1..], b[1..]);
      assert a == [a[0]] + a[1..] && b == [b[0]] + b[1..];
    }
  }

  /** A proper prefix sorts first. */
  lemma {:induction false} PrefixLess(a: string, b: string)
    requires a < b
    ensures Less(a, b)
  {
    if a != "" {
      assert a[0] == b[0];
      assert a[1..] < b[1..];
      PrefixLess(a[1..], b[1..]);
    }
  }

  /** Strictly ascending, hence without duplicates. */
  ghost predicate Ascending(s: seq<string>) {
    |s| <= 1 || (Less(s[0], s[1]) && Ascending(s[1..]))
  }

  lemma {:induction false} AscendingAt(s: seq<string>, i: nat, j: nat)
    requires Ascending(s) && i < j < |s|
    ensures Less(s[i], s[j])
  {
    if i > 0 {
      AscendingAt(s[1..], i - 1, j - 1);
    } else if j > 1 {
      AscendingAt(s[1..], 0, j - 1);
      LessTransitive(s[0], s[1], s[j]);
    }
  }

  function Elements<T>(s: seq<T>): set<T> {
    set x | x in s
  }

  ghost predicate NoDuplicates<T>(s: seq<T>) {
    forall i, j :: 0 <= i < j < |s| ==> s[i] != s[j]
  }

  lemma ElementsCons<T>(x: T, s: seq<T>)
    ensures Elements([x] + s) == {x} + Elements(s)
  {
    forall y | y in {x} + Elements(s) ensures y in [x] + s {
      if y != x { assert y in s; }
    }
  }

  function Insert(x: string, s: seq<string>): (r: seq<string>)
    requires Ascending(s) && x !in s
    ensures Ascending(r) && Elements(r) == {x} + Elements(s)
    ensures |r| == |s| + 1 && (r[0] == x || (s != [] && r[0] == s[0]))
  {
    if s == [] then [x]
    else if Less(x, s[0]) then
      assert Elements([x] + s) == {x} + Elements(s) by { ElementsCons(x, s); }
      assert ([x] + s)[1..] == s;
      [x] + s
    else
      var t := Insert(x, s[1..]);
      assert Less(s[0], t[0]) by { LessTotal(x, s[0]); }
      assert ([s[0]] + t)[1..] == t;
      assert Elements([s[0]] + t) == {x} + Elements(s) by {
        ElementsCons(s[0], t);
        ElementsCons(s[0], s[1..]);
        assert s == [s[0]] + s[1..];
      }
      [s[0]] + t
  }

  /** sort.Strings on a list of distinct strings. */
  function Sort(s: seq<string>): (r: seq<string>)
    requires NoDuplicates(s)
    ensures Ascending(r) && Elements(r) == Elements(s)
    ensures |r| == |s|
  {
    if s == [] then []
    else
      assert s[0] !in Elements(s[1..]);
      assert Elements(s) == {s[0]} + Elements(s[1..]) by {
        ElementsCons(s[0], s[1..]);
        assert s == [s[0]] + s[1..];
      }
      Insert(s[0], Sort(s[1..]))
  }

  lemma AscendingIndex(s: seq<string>, i: nat, j: nat)
    requires Ascending(s) && i < |s| && j < |s| && Less(s[i], s[j])
    ensures i < j
  {
    if i == j {
      LessIrreflexive(s[i]);
    } else if j < i {
      AscendingAt(s, j, i);
      LessTransitive(s[i], s[j], s[i]);
      LessIrreflexive(s[i]);
    }
  }

  lemma AscendingNoDuplicates(s: seq<string>)
    requires Ascending(s)
    ensures NoDuplicates(s)
  {
    forall i, j | 0 <= i < j < |s| ensures s[i] != s[j] {
      AscendingAt(s, i, j);
      LessIrreflexive(s[i]);
    }
  }

  lemma NoElements<T>(s: seq<T>)
    ensures Elements(s) == {} <==> s == []
  {
    if s != [] { assert s[0] in Elements(s); }
  }

  /** An ascending list is determined by its elements, so what sorting returns
      does not depend on the order of its input. */
  lemma {:induction false} AscendingUnique(a: seq<string>, b: seq<string>)
    requires Ascending(a) && Ascending(b) && Elements(a) == Elements(b)
    ensures a == b
  {
    if a == [] {
      NoElements(b);
    } else {
      assert a[0] in Elements(b);
      assert b[0] in Elements(a);
      HeadIsLeast(a, b[0]);
      HeadIsLeast(b, a[0]);
      if a[0] != b[0] {
        LessTransitive(a[0], b[0], a[0]);
        LessIrreflexive(a[0]);
      }
      assert Elements(a[1..]) == Elements(b[1..]) by {
        AscendingNoDuplicates(a);
        AscendingNoDuplicates(b);
        TailElements(a);
        TailElements(b);
      }
      AscendingUnique(a[1..], b[1..]);
      assert a == [a[0]] + a[1..] && b == [b[0]] + b[1..];
    }
  }

  lemma HeadIsLeast(a: seq<string>, x: string)
    requires Ascending(a) && x in a
    ensures x == a[0] || Less(a[0], x)
  {
    var j :| 0 <= j < |a| && a[j] == x;
    if j > 0 { AscendingAt(a, 0, j); }
  }

  lemma TailElements(a: seq<string>)
    requires |a| > 0 && NoDuplicates(a)
    ensures Elements(a[1..]) == Elements(a) - {a[0]}
  {
    forall y | y in Elements(a) - {a[0]} ensures y in a[1..] {
      var j :| 0 <= j < |a| && a[j] == y;
      assert a[1..][j - 1] == y;
    }
  }

  /** The ascending list of a finite set. */
  ghost function SortedSet(s: set<string>): (r: seq<string>)
    ensures Ascending(r) && Elements(r) == s
  {
    if s == {} then []
    else
      var x :| x in s;
      var t := SortedSet(s - {x});
      assert x !in Elements(t);
      Insert(x, t)
  }

  /** The ASCII whitespace of unicode.IsSpace. */
  predicate IsSpace(c: char) {
    c == ' ' || c == '\t' || c == '\n' || c == '\r' || c as int == 11 || c as int == 12
  }
}
