/** Quota lines as the server prints them for `setquota --batch` and as the client
    parses them. */
module Quota {
  import opened Strings
  import opened Sharing
  import opened Decimal

  datatype Limits = Limits(xid: string, blockSoft: nat, blockHard: nat, inodeSoft: nat, inodeHard: nat) {
    /** The numbers are of type uint64. */
    predicate Fits() {
      blockSoft < UINT64 && blockHard < UINT64 && inodeSoft < UINT64 && inodeHard < UINT64
    }
  }

  const UINT64: nat := 0x1_0000_0000_0000_0000

  /** bufio.MaxScanTokenSize: a line of this length makes the scanner stop. */
  const MAX_TOKEN: nat := 65536

  // The server

  function LineOf(q: Limits): string {
    q.xid + " " + Dec(q.blockSoft) + " " + Dec(q.blockHard) + " " + Dec(q.inodeSoft) + " " + Dec(q.inodeHard)
  }

  function TextOf(qs: seq<Limits>): string {
    if qs == [] then "" else TextOf(qs[..|qs| - 1]) + (LineOf(qs[|qs| - 1]) + "\n")
  }

  method PrintLimits(limits: seq<Limits>) returns (buf: string)
    ensures buf == TextOf(limits)
  {
    buf := "";
    for i := 0 to |limits|
      invariant buf == TextOf(limits[..i])
    {
      assert limits[..i + 1][..i] == limits[..i];
      buf := buf + (LineOf(limits[i]) + "\n");
    }
    assert limits[..|limits|] == limits;
  }

  // The client

  /** The length of the token that `s` starts with. */
  function TokenLength(s: string): (n: nat)
    ensures n <= |s| && (forall i :: 0 <= i < n ==> !IsSpace(s[i])) && (n < |s| ==> IsSpace(s[n]))
  {
    if s == "" || IsSpace(s[0]) then 0 else 1 + TokenLength(s[1..])
  }

  /** strings.Fields */
  function Fields(s: string): seq<string> {
    if s == "" then []
    else if IsSpace(s[0]) then Fields(s[1..])
    else
      var n := TokenLength(s);
      [s[..n]] + Fields(s[n..])
  }

  /** strconv.ParseUint(s, 10, 64) */
  function ParseUint(s: string): Option<nat> {
    if s != "" && (forall i :: 0 <= i < |s| ==> IsDigit(s[i])) && Value(s) < UINT64 then Some(Value(s)) else None
  }

  function DropCR(l: string): string {
    if l != "" && l[|l| - 1] == '\r' then l[..|l| - 1] else l
  }

  /** The lines that a scanner finds; a text that ends with a newline ends the last line. */
  function ScanLines(text: string): seq<string> {
    var parts := Split(text, '\n');
    if parts[|parts| - 1] == "" then parts[..|parts| - 1] else parts
  }

  predicate Skipped(line: string) {
    line == "" || "#" <= line
  }

  function ParseLine(line: string): Option<Limits> {
    var toks := Fields(line);
    if |toks| != 5 then None
    else
      match (ParseUint(toks[1]), ParseUint(toks[2]), ParseUint(toks[3]), ParseUint(toks[4]))
      case (Some(a), Some(b), Some(c), Some(d)) => Some(Limits(toks[0], a, b, c, d))
      case _ => None
  }

  /** The scanner loop; what follows an overlong line is silently lost. */
  function ParseLines(lines: seq<string>): Option<seq<Limits>> {
    if lines == [] || |lines[0]| >= MAX_TOKEN then Some([])
    else
      var line := DropCR(lines[0]);
      if Skipped(line) then ParseLines(lines[1..])
      else
        match (ParseLine(line), ParseLines(lines[1..]))
        case (Some(q), Some(qs)) => Some([q] + qs)
        case _ => None
  }

  method Parse(text: string) returns (r: Result<seq<Limits>>)
    ensures r.Ok? <==> ParseLines(ScanLines(text)).Some?
    ensures r.Ok? ==> Some(r.value) == ParseLines(ScanLines(text))
  {
    hide Fields, ParseUint, ScanLines, Skipped, ParseLines;
    var lines := ScanLines(text);
    var qs: seq<Limits> := [];
    var num := 0;
    Start(lines);
    for i := 0 to |lines|
      invariant num == i
      invariant Continues(ParseLines(lines), qs, ParseLines(lines[i..]))
    {
      NextLine(lines, i);
      if |lines[i]| >= MAX_TOKEN {
        assert qs + [] == qs;
        return Ok(qs);
      }
      num := num + 1;
      var line := DropCR(lines[i]);
      if Skipped(line) { continue; }
      var toks := Fields(line);
      if |toks| != 5 { return Err("wrong number of fields"); }
      var itoks := new nat[5];
      for k := 1 to 5
        invariant forall m :: 1 <= m < k ==> ParseUint(toks[m]) == Some(itoks[m])
      {
        var n := ParseUint(toks[k]);
        if n.None? {
          BadField(line, k);
          return Err("invalid field");
        }
        itoks[k] := n.value;
      }
      OneMoreQuota(ParseLines(lines), qs, ParseLine(line), ParseLines(lines[i + 1..]));
      qs := qs + [Limits(toks[0], itoks[1], itoks[2], itoks[3], itoks[4])];
    }
    NoLinesLeft(lines, qs);
    return Ok(qs);
  }

  /** The result of all lines is what is read so far and the result of the rest. */
  ghost predicate Continues(all: Option<seq<Limits>>, qs: seq<Limits>, rest: Option<seq<Limits>>) {
    all == match rest case Some(more) => Some(qs + more) case None => None
  }

  lemma Start(lines: seq<string>)
    ensures Continues(ParseLines(lines), [], ParseLines(lines[0..]))
  {
    assert lines[0..] == lines;
    if ParseLines(lines).Some? { assert [] + ParseLines(lines).value == ParseLines(lines).value; }
  }

  /** What the next line does to the result. */
  lemma NextLine(lines: seq<string>, i: nat)
    requires i < |lines|
    ensures |lines[i]| >= MAX_TOKEN ==> ParseLines(lines[i..]) == Some([])
    ensures |lines[i]| < MAX_TOKEN && Skipped(DropCR(lines[i])) ==> ParseLines(lines[i..]) == ParseLines(lines[i + 1..])
    ensures |lines[i]| < MAX_TOKEN && !Skipped(DropCR(lines[i])) ==>
              ParseLines(lines[i..]) ==
              match (ParseLine(DropCR(lines[i])), ParseLines(lines[i + 1..]))
              case (Some(q), Some(qs)) => Some([q] + qs)
              case _ => None
  {
    assert lines[i..][0] == lines[i] && lines[i..][1..] == lines[i + 1..];
  }

  lemma BadField(line: string, k: nat)
    requires |Fields(line)| == 5 && 1 <= k < 5 && ParseUint(Fields(line)[k]).None?
    ensures ParseLine(line).None?
  {
    hide Fields, ParseUint;
  }

  lemma OneMoreQuota(all: Option<seq<Limits>>, qs: seq<Limits>, q: Option<Limits>, rest: Option<seq<Limits>>)
    requires q.Some?
    requires Continues(all, qs, match rest case Some(more) => Some([q.value] + more) case None => None)
    ensures Continues(all, qs + [q.value], rest)
  {
    if rest.Some? { assert qs + ([q.value] + rest.value) == qs + [q.value] + rest.value; }
  }

  lemma NoLinesLeft(lines: seq<string>, qs: seq<Limits>)
    requires Continues(ParseLines(lines), qs, ParseLines(lines[|lines|..]))
    ensures ParseLines(lines) == Some(qs)
  {
    assert lines[|lines|..] == [] && qs + [] == qs;
  }

  // Printing and parsing

  /** An id that can be printed: not empty and without whitespace. */
  predicate IdOk(id: string) {
    id != "" && forall i :: 0 <= i < |id| ==> !IsSpace(id[i])
  }

  lemma {:induction false} TokenEnds(tok: string, rest: string)
    requires forall i :: 0 <= i < |tok| ==> !IsSpace(tok[i])
    requires rest == "" || IsSpace(rest[0])
    ensures TokenLength(tok + rest) == |tok|
  {
    if tok == "" {
      assert tok + rest == rest;
    } else {
      assert (tok + rest)[1..] == tok[1..] + rest;
      TokenEnds(tok[1..], rest);
    }
  }

  lemma FieldsToken(tok: string, rest: string)
    requires IdOk(tok) && (rest == "" || IsSpace(rest[0]))
    ensures Fields(tok + rest) == [tok] + Fields(rest)
  {
    TokenEnds(tok, rest);
    var s := tok + rest;
    assert s[0] == tok[0] && s[..|tok|] == tok && s[|tok|..] == rest;
  }

  lemma FieldsSpace(rest: string)
    ensures Fields(" " + rest) == Fields(rest)
  {
    assert (" " + rest)[1..] == rest;
  }

  lemma DecOk(n: nat)
    ensures IdOk(Dec(n))
  {
  }

  lemma DecParses(n: nat)
    requires n < UINT64
    ensures ParseUint(Dec(n)) == Some(n)
  {
    ValueDec(n);
  }

  /** Four numbers after a token. */
  lemma FieldsOfLine(q: Limits)
    requires IdOk(q.xid)
    ensures Fields(LineOf(q)) == [q.xid, Dec(q.blockSoft), Dec(q.blockHard), Dec(q.inodeSoft), Dec(q.inodeHard)]
  {
    hide Fields, Dec;
    var a, b, c, d := Dec(q.blockSoft), Dec(q.blockHard), Dec(q.inodeSoft), Dec(q.inodeHard);
    DecOk(q.blockSoft);
    DecOk(q.blockHard);
    DecOk(q.inodeSoft);
    DecOk(q.inodeHard);
    FieldsToken(d, "");
    FieldsSpace(d);
    FieldsToken(c, " " + d);
    FieldsSpace(c + (" " + d));
    FieldsToken(b, " " + (c + (" " + d)));
    FieldsSpace(b + (" " + (c + (" " + d))));
    FieldsToken(a, " " + (b + (" " + (c + (" " + d)))));
    FieldsSpace(a + (" " + (b + (" " + (c + (" " + d))))));
    FieldsToken(q.xid, " " + (a + (" " + (b + (" " + (c + (" " + d)))))));
    FieldsNothing();
    assert d + "" == d;
    assert LineOf(q) == q.xid + (" " + (a + (" " + (b + (" " + (c + (" " + d)))))));
  }

  lemma FieldsNothing()
    ensures Fields("") == []
  {
  }

  /** The printed line is read back. */
  lemma LineParses(q: Limits)
    requires IdOk(q.xid) && q.Fits()
    ensures ParseLine(LineOf(q)) == Some(q)
  {
    hide Fields, ParseUint, Dec, LineOf;
    FieldsOfLine(q);
    DecParses(q.blockSoft);
    DecParses(q.blockHard);
    DecParses(q.inodeSoft);
    DecParses(q.inodeHard);
  }

  function LinesOf(qs: seq<Limits>): (r: seq<string>)
    ensures |r| == |qs| && forall i :: 0 <= i < |r| ==> r[i] == LineOf(qs[i])
  {
    seq(|qs|, i requires 0 <= i < |qs| => LineOf(qs[i]))
  }

  lemma LineHasNoNewline(q: Limits)
    requires IdOk(q.xid)
    ensures '\n' !in LineOf(q) && LineOf(q) != "" && DropCR(LineOf(q)) == LineOf(q)
    ensures Skipped(LineOf(q)) <==> "#" <= q.xid
  {
    DecHasNo(q.blockSoft, '\n');
    DecHasNo(q.blockHard, '\n');
    DecHasNo(q.inodeSoft, '\n');
    DecHasNo(q.inodeHard, '\n');
    var n := Dec(q.inodeHard);
    var l := LineOf(q);
    IdHasNoNewline(q.xid);
    assert l[|l| - 1] == n[|n| - 1] && IsDigit(n[|n| - 1]);
    assert l[0] == q.xid[0];
  }

  lemma IdHasNoNewline(id: string)
    requires IdOk(id)
    ensures '\n' !in id
  {
    assert forall i :: 0 <= i < |id| ==> IsSpace(id[i]) == false;
  }

  lemma LinesOneMore(qs: seq<Limits>)
    requires qs != []
    ensures LinesOf(qs) == LinesOf(qs[..|qs| - 1]) + [LineOf(qs[|qs| - 1])]
  {
    hide LineOf;
  }

  lemma {:induction false} SplitText(qs: seq<Limits>)
    requires forall i :: 0 <= i < |qs| ==> IdOk(qs[i].xid)
    ensures Split(TextOf(qs), '\n') == LinesOf(qs) + [""]
  {
    hide LineOf, Split;
    if qs == [] {
      SplitPlain("", '\n');
    } else {
      var n := |qs| - 1;
      SplitText(qs[..n]);
      var t, l := TextOf(qs[..n]), LineOf(qs[n]);
      LineHasNoNewline(qs[n]);
      SplitPlain(l, '\n');
      SplitPlain("", '\n');
      SplitJoin2(l, "", '\n');
      assert l + "\n" == l + ['\n'] + "";
      SplitMore(t, l + "\n", LinesOf(qs[..n]));
      LinesOneMore(qs);
      assert LinesOf(qs[..n]) + ([l] + [""]) == LinesOf(qs[..n]) + [l] + [""];
    }
  }

  /** Appending to a text that ends a line. */
  lemma {:induction false} SplitMore(t: string, u: string, lines: seq<string>)
    requires Split(t, '\n') == lines + [""]
    ensures Split(t + u, '\n') == lines + Split(u, '\n')
  {
    if lines == [] {
      ConcatSplit(t, '\n');
      assert Concat([""], '\n') == "";
      assert t + u == u;
    } else {
      ConcatSplit(t, '\n');
      ConcatAppend(lines, [""], '\n');
      var s := Concat(lines, '\n');
      assert t == s + ['\n'] + "";
      assert t + u == s + ['\n'] + u;
      SplitJoin2(s, "", '\n');
      SplitJoin2(s, u, '\n');
      assert Split(s, '\n') == lines by {
        assert (Split(s, '\n') + [""])[..|lines|] == (lines + [""])[..|lines|];
      }
    }
  }

  /** What comes back: up to the first overlong line, without comment-like ids. */
  function ReadBack(qs: seq<Limits>): seq<Limits>
    requires forall i :: 0 <= i < |qs| ==> IdOk(qs[i].xid)
  {
    if qs == [] || |LineOf(qs[0])| >= MAX_TOKEN then []
    else (if "#" <= qs[0].xid then [] else [qs[0]]) + ReadBack(qs[1..])
  }

  lemma {:induction false} LinesReadBack(qs: seq<Limits>)
    requires forall i :: 0 <= i < |qs| ==> IdOk(qs[i].xid) && qs[i].Fits()
    ensures ParseLines(LinesOf(qs)) == Some(ReadBack(qs))
  {
    hide LineOf, Skipped, ParseLine;
    if qs != [] && |LineOf(qs[0])| < MAX_TOKEN {
      LinesReadBack(qs[1..]);
      var ls := LinesOf(qs);
      assert ls[0] == LineOf(qs[0]) && ls[1..] == LinesOf(qs[1..]);
      LineHasNoNewline(qs[0]);
      LineParses(qs[0]);
      assert [] + ReadBack(qs[1..]) == ReadBack(qs[1..]);
    }
  }

  /** Parsing printed limits yields exactly the limits up to the first overlong line,
      except those whose id looks like a comment. */
  lemma ParsePrinted(qs: seq<Limits>)
    requires forall i :: 0 <= i < |qs| ==> IdOk(qs[i].xid) && qs[i].Fits()
    ensures ParseLines(ScanLines(TextOf(qs))) == Some(ReadBack(qs))
  {
    SplitText(qs);
    LinesReadBack(qs);
    assert (LinesOf(qs) + [""])[..|qs|] == LinesOf(qs);
  }

  ghost predicate Survives(q: Limits)
    requires IdOk(q.xid)
  {
    !("#" <= q.xid) && |LineOf(q)| < MAX_TOKEN
  }

  lemma {:induction false} ReadBackIff(qs: seq<Limits>)
    requires forall i :: 0 <= i < |qs| ==> IdOk(qs[i].xid)
    ensures |ReadBack(qs)| <= |qs|
    ensures ReadBack(qs) == qs <==> forall i :: 0 <= i < |qs| ==> Survives(qs[i])
  {
    hide LineOf;
    if qs != [] {
      ReadBackIff(qs[1..]);
      assert qs == [qs[0]] + qs[1..];
      if Survives(qs[0]) {
        assert ReadBack(qs)[1..] == ReadBack(qs[1..]);
        forall i | 0 <= i < |qs| && ReadBack(qs) == qs ensures Survives(qs[i]) {
          if i > 0 { assert qs[i] == qs[1..][i - 1]; }
        }
      }
    }
  }

  /** The round trip is the identity exactly if no id starts with `#` and no line reaches
      the scanner's limit. */
  lemma RoundTrip(qs: seq<Limits>)
    requires forall i :: 0 <= i < |qs| ==> IdOk(qs[i].xid) && qs[i].Fits()
    ensures ParseLines(ScanLines(TextOf(qs))) == Some(qs) <==> forall i :: 0 <= i < |qs| ==> Survives(qs[i])
  {
    ParsePrinted(qs);
    ReadBackIff(qs);
  }

  // Parsing and printing

  function TotalLength(toks: seq<string>): nat {
    if toks == [] then 0 else |toks[0]| + 1 + TotalLength(toks[1..])
  }

  lemma {:induction false} FieldsSpec(s: string)
    ensures forall i :: 0 <= i < |Fields(s)| ==> IdOk(Fields(s)[i])
    ensures TotalLength(Fields(s)) <= |s| + 1
    decreases |s|
  {
    if s != "" {
      if IsSpace(s[0]) {
        FieldsSpec(s[1..]);
      } else {
        var n := TokenLength(s);
        var rest := s[n..];
        FieldsSpec(rest);
        assert Fields(s)[1..] == Fields(rest);
        if rest != "" {
          assert Fields(rest) == Fields(rest[1..]);
          FieldsSpec(rest[1..]);
        }
      }
    }
  }

  lemma {:induction false} DecShort(s: string)
    requires s != "" && forall i :: 0 <= i < |s| ==> IsDigit(s[i])
    ensures |Dec(Value(s))| <= |s|
  {
    if |s| > 1 {
      DecShort(s[..|s| - 1]);
      var v := Value(s[..|s| - 1]);
      assert Value(s) / 10 == v;
    } else {
      assert s[..0] == "";
    }
  }

  /** A parsed line prints to a line that is no longer and that can be printed. */
  lemma ParsedLine(line: string)
    requires ParseLine(line).Some?
    ensures var q := ParseLine(line).value; IdOk(q.xid) && q.Fits() && |LineOf(q)| <= |line|
  {
    hide Fields, Dec, Value;
    var toks := Fields(line);
    FieldsSpec(line);
    DecShort(toks[1]);
    DecShort(toks[2]);
    DecShort(toks[3]);
    DecShort(toks[4]);
    assert toks == [toks[0], toks[1], toks[2], toks[3], toks[4]];
    FiveTokens(toks[0], toks[1], toks[2], toks[3], toks[4]);
  }

  lemma FiveTokens(a: string, b: string, c: string, d: string, e: string)
    ensures TotalLength([a, b, c, d, e]) == |a| + |b| + |c| + |d| + |e| + 5
  {
    assert [a, b, c, d, e][1..] == [b, c, d, e] && [b, c, d, e][1..] == [c, d, e];
    assert [c, d, e][1..] == [d, e] && [d, e][1..] == [e] && [e][1..] == [];
    assert TotalLength([e]) == |e| + 1;
    assert TotalLength([d, e]) == |d| + 1 + TotalLength([e]);
    assert TotalLength([c, d, e]) == |c| + 1 + TotalLength([d, e]);
    assert TotalLength([b, c, d, e]) == |b| + 1 + TotalLength([c, d, e]);
  }

  lemma {:induction false} ParsedOk(lines: seq<string>)
    requires ParseLines(lines).Some?
    ensures forall i :: 0 <= i < |ParseLines(lines).value| ==>
              var q := ParseLines(lines).value[i]; IdOk(q.xid) && q.Fits() && |LineOf(q)| < MAX_TOKEN
  {
    hide ParseLine, LineOf, Skipped;
    if lines != [] && |lines[0]| < MAX_TOKEN {
      var line := DropCR(lines[0]);
      ParsedOk(lines[1..]);
      if !Skipped(line) { ParsedLine(line); }
    }
  }

  /** Printing what was parsed and parsing it again is the identity exactly if no id
      starts with `#`; such an id is accepted after leading whitespace. */
  lemma Reparse(text: string)
    requires ParseLines(ScanLines(text)).Some?
    ensures var qs := ParseLines(ScanLines(text)).value;
            && (forall i :: 0 <= i < |qs| ==> IdOk(qs[i].xid))
            && (ParseLines(ScanLines(TextOf(qs))) == Some(qs) <==> forall i :: 0 <= i < |qs| ==> !("#" <= qs[i].xid))
  {
    hide ScanLines, LineOf, TextOf;
    ParsedOk(ScanLines(text));
    RoundTrip(ParseLines(ScanLines(text)).value);
  }

  /** After a space, a line whose id starts with `#` is not a comment and is accepted,
      but the limits are lost when they are printed again. */
  lemma CommentLikeId(q: Limits)
    requires IdOk(q.xid) && q.Fits() && "#" <= q.xid
    ensures !Skipped(" " + LineOf(q)) && ParseLine(" " + LineOf(q)) == Some(q)
    ensures ParseLines([LineOf(q)]) == Some([])
  {
    hide LineOf, Fields;
    LineParses(q);
    FieldsSpace(LineOf(q));
    assert (" " + LineOf(q))[0] == ' ';
    LineHasNoNewline(q);
    assert [LineOf(q)][1..] == [];
  }
}
