/** Which quota texts the client accepts, and what it reads from them, said without its scanner. */
module QuotaMeaning {
  import opened Strings
  import opened Sharing
  import opened Decimal
  import opened Quota

  ghost predicate Blank(s: string) {
    forall i :: 0 <= i < |s| ==> IsSpace(s[i])
  }

  // Tokens of a line

  /** Tokens with gaps before, between and after them. */
  function Weave(gaps: seq<string>, toks: seq<string>): string
    requires |gaps| == |toks| + 1
  {
    if toks == [] then gaps[0] else gaps[0] + (toks[0] + Weave(gaps[1..], toks[1..]))
  }

  ghost predicate Gaps(gaps: seq<string>, toks: seq<string>) {
    && |gaps| == |toks| + 1
    && (forall i :: 0 <= i < |gaps| ==> Blank(gaps[i]))
    && (forall i :: 0 < i < |toks| ==> gaps[i] != "")
    && forall i :: 0 <= i < |toks| ==> IdOk(toks[i])
  }

  ghost predicate Tokens(line: string, toks: seq<string>) {
    exists gaps :: Gaps(gaps, toks) && line == Weave(gaps, toks)
  }

  lemma {:induction false} FieldsBlank(gap: string, rest: string)
    requires Blank(gap)
    ensures Fields(gap + rest) == Fields(rest)
  {
    if gap == "" {
      assert gap + rest == rest;
    } else {
      FieldsBlank(gap[1..], rest);
      assert (gap + rest)[1..] == gap[1..] + rest && (gap + rest)[0] == gap[0];
    }
  }

  lemma GapsTail(gaps: seq<string>, toks: seq<string>)
    requires Gaps(gaps, toks) && toks != []
    ensures Gaps(gaps[1..], toks[1..])
  {
  }

  lemma WeaveStart(gaps: seq<string>, toks: seq<string>)
    requires Gaps(gaps, toks) && (toks != [] ==> gaps[0] != "")
    ensures Weave(gaps, toks) == "" || IsSpace(Weave(gaps, toks)[0])
  {
    if toks != [] { assert Weave(gaps, toks)[0] == gaps[0][0]; }
  }

  lemma {:induction false} FieldsWoven(gaps: seq<string>, toks: seq<string>)
    requires Gaps(gaps, toks)
    ensures Fields(Weave(gaps, toks)) == toks
  {
    hide Fields;
    if toks == [] {
      FieldsBlank(gaps[0], "");
      assert gaps[0] + "" == gaps[0];
      FieldsNothing();
    } else {
      var rest := Weave(gaps[1..], toks[1..]);
      GapsTail(gaps, toks);
      FieldsWoven(gaps[1..], toks[1..]);
      FieldsBlank(gaps[0], toks[0] + rest);
      if |toks| > 1 { assert gaps[1..][0] == gaps[1]; }
      WeaveStart(gaps[1..], toks[1..]);
      FieldsToken(toks[0], rest);
      assert toks == [toks[0]] + toks[1..];
    }
  }

  lemma {:induction false} WeaveFields(s: string) returns (gaps: seq<string>)
    ensures Gaps(gaps, Fields(s)) && s == Weave(gaps, Fields(s))
    ensures s != "" && IsSpace(s[0]) ==> gaps[0] != ""
    decreases |s|
  {
    hide TokenLength;
    if s == "" {
      gaps := [""];
      assert Fields(s) == [];
    } else if IsSpace(s[0]) {
      var less := WeaveFields(s[1..]);
      gaps := [[s[0]] + less[0]] + less[1..];
      assert Fields(s) == Fields(s[1..]);
      WeaveSpace(s[0], less, Fields(s));
      assert s == [s[0]] + s[1..];
    } else {
      var n := TokenLength(s);
      var less := WeaveFields(s[n..]);
      gaps := [""] + less;
      var toks := Fields(s[n..]);
      assert Fields(s) == [s[..n]] + toks && IdOk(s[..n]);
      assert gaps[1..] == less && ([s[..n]] + toks)[1..] == toks;
      assert Weave(gaps, [s[..n]] + toks) == "" + (s[..n] + Weave(less, toks));
      assert s == s[..n] + s[n..];
      WeaveToken(s[..n], less, toks, s[n..]);
    }
  }

  lemma WeaveSpace(c: char, less: seq<string>, toks: seq<string>)
    requires Gaps(less, toks) && IsSpace(c)
    ensures var gaps := [[c] + less[0]] + less[1..]; Gaps(gaps, toks) && Weave(gaps, toks) == [c] + Weave(less, toks)
  {
    var gaps := [[c] + less[0]] + less[1..];
    assert gaps[1..] == less[1..];
    if toks != [] { assert [c] + less[0] + (toks[0] + Weave(less[1..], toks[1..])) == [c] + (less[0] + (toks[0] + Weave(less[1..], toks[1..]))); }
  }

  lemma WeaveToken(tok: string, less: seq<string>, toks: seq<string>, rest: string)
    requires Gaps(less, toks) && IdOk(tok) && (rest != "" ==> less[0] != "") && rest == Weave(less, toks)
    ensures Gaps([""] + less, [tok] + toks)
  {
    if toks != [] {
      assert |rest| > 0 by { assert |toks[0]| > 0; }
    }
  }

  /** The fields of a line are its tokens. */
  lemma FieldsMean(line: string, toks: seq<string>)
    ensures Fields(line) == toks <==> Tokens(line, toks)
  {
    if Fields(line) == toks { var gaps := WeaveFields(line); }
    if gaps :| Gaps(gaps, toks) && line == Weave(gaps, toks) { FieldsWoven(gaps, toks); }
  }

  // One line

  ghost predicate Number(s: string, n: nat) {
    s != "" && (forall i :: 0 <= i < |s| ==> '0' <= s[i] <= '9') && Value(s) == n && n < 0x1_0000_0000_0000_0000
  }

  /** An id and four numbers, with whitespace between them and perhaps around them. */
  ghost predicate Spells(line: string, q: Limits) {
    exists toks :: Tokens(line, toks) && |toks| == 5 && toks[0] == q.xid
      && Number(toks[1], q.blockSoft) && Number(toks[2], q.blockHard) && Number(toks[3], q.inodeSoft) && Number(toks[4], q.inodeHard)
  }

  lemma NumberMeans(s: string, n: nat)
    ensures ParseUint(s) == Some(n) <==> Number(s, n)
  {
  }

  lemma LineMeans(line: string, q: Limits)
    ensures ParseLine(line) == Some(q) <==> Spells(line, q)
  {
    hide Fields, ParseUint, Number, Tokens;
    var toks := Fields(line);
    FieldsMean(line, toks);
    if |toks| == 5 {
      NumberMeans(toks[1], q.blockSoft);
      NumberMeans(toks[2], q.blockHard);
      NumberMeans(toks[3], q.inodeSoft);
      NumberMeans(toks[4], q.inodeHard);
    }
    if Spells(line, q) {
      var ts :| Tokens(line, ts) && |ts| == 5 && ts[0] == q.xid
        && Number(ts[1], q.blockSoft) && Number(ts[2], q.blockHard) && Number(ts[3], q.inodeSoft) && Number(ts[4], q.inodeHard);
      FieldsMean(line, ts);
    }
  }

  /** What a scanned line holds without a carriage return at its end. */
  ghost predicate Holds(l: string, text: string) {
    l == text + "\r" || (l == text && (l == "" || l[|l| - 1] != '\r'))
  }

  /** The line is empty or a comment. */
  ghost predicate Ignored(l: string) {
    exists text :: Holds(l, text) && (text == "" || text[0] == '#')
  }

  ghost predicate Reads(l: string, q: Limits) {
    exists text :: Holds(l, text) && Spells(text, q)
  }

  lemma HoldsMeans(l: string, text: string)
    ensures Holds(l, text) <==> text == DropCR(l)
  {
    if text == DropCR(l) && l != "" && l[|l| - 1] == '\r' { assert l == text + "\r"; }
    if l == text + "\r" { assert l[|l| - 1] == '\r' && l[..|l| - 1] == text; }
  }

  lemma IgnoredMeans(l: string)
    ensures Ignored(l) <==> Skipped(DropCR(l))
  {
    HoldsMeans(l, DropCR(l));
    forall text | Holds(l, text) ensures text == DropCR(l) {
      HoldsMeans(l, text);
    }
    if "#" <= DropCR(l) { assert DropCR(l)[0] == '#'; }
    if DropCR(l) != "" && DropCR(l)[0] == '#' { assert DropCR(l)[..1] == "#"; }
  }

  lemma ReadsMeans(l: string, q: Limits)
    ensures Reads(l, q) <==> ParseLine(DropCR(l)) == Some(q)
  {
    hide Spells;
    HoldsMeans(l, DropCR(l));
    LineMeans(DropCR(l), q);
    forall text | Holds(l, text) ensures text == DropCR(l) {
      HoldsMeans(l, text);
    }
  }

  // All lines

  ghost predicate Short(lines: seq<string>) {
    forall i :: 0 <= i < |lines| ==> |lines[i]| < 65536
  }

  function Join2(a: Option<seq<Limits>>, b: Option<seq<Limits>>): Option<seq<Limits>> {
    if a.Some? && b.Some? then Some(a.value + b.value) else None
  }

  /** Lines are read one after the other. */
  lemma {:induction false} ReadsInOrder(a: seq<string>, b: seq<string>)
    requires Short(a)
    ensures ParseLines(a + b) == Join2(ParseLines(a), ParseLines(b))
  {
    hide ParseLine, DropCR, Skipped;
    if a == [] {
      assert a + b == b;
      if ParseLines(b).Some? { assert [] + ParseLines(b).value == ParseLines(b).value; }
    } else {
      assert (a + b)[0] == a[0] && (a + b)[1..] == a[1..] + b;
      ReadsInOrder(a[1..], b);
      if ParseLine(DropCR(a[0])).Some? && ParseLines(a[1..]).Some? && ParseLines(b).Some? {
        var q := ParseLine(DropCR(a[0])).value;
        assert [q] + (ParseLines(a[1..]).value + ParseLines(b).value) == [q] + ParseLines(a[1..]).value + ParseLines(b).value;
      }
    }
  }

  /** An overlong line silently ends the text. */
  lemma OverlongEnds(l: string, rest: seq<string>)
    requires |l| >= 65536
    ensures ParseLines([l] + rest) == Some([])
  {
  }

  lemma OneLineIs(l: string)
    requires |l| < 65536
    ensures ParseLines([l]) == if Skipped(DropCR(l)) then Some([]) else match ParseLine(DropCR(l)) case Some(q) => Some([q]) case None => None
  {
    hide ParseLine, DropCR, Skipped;
    assert [l][1..] == [];
    assert ParseLines([l][1..]) == Some([]);
    if ParseLine(DropCR(l)).Some? { assert [ParseLine(DropCR(l)).value] + [] == [ParseLine(DropCR(l)).value]; }
  }

  /** A line by itself: empty lines and comments give nothing, a line that spells limits gives
      these, and any other line is an error. */
  lemma OneLine(l: string)
    requires |l| < 65536
    ensures Ignored(l) ==> ParseLines([l]) == Some([])
    ensures forall q :: !Ignored(l) && Reads(l, q) ==> ParseLines([l]) == Some([q])
    ensures !Ignored(l) && (forall q :: !Reads(l, q)) ==> ParseLines([l]).None?
  {
    hide ParseLine, DropCR, Skipped, Ignored, Reads, ParseLines;
    OneLineIs(l);
    IgnoredMeans(l);
    forall q ensures Reads(l, q) <==> ParseLine(DropCR(l)) == Some(q) {
      ReadsMeans(l, q);
    }
    if ParseLine(DropCR(l)).Some? { assert Reads(l, ParseLine(DropCR(l)).value); }
  }

  /** The whole text is accepted exactly if every line before the first overlong one is ignored
      or spells limits. */
  lemma {:induction false} AcceptedIff(lines: seq<string>)
    requires Short(lines)
    ensures ParseLines(lines).Some? <==> forall i :: 0 <= i < |lines| ==> Ignored(lines[i]) || exists q :: Reads(lines[i], q)
  {
    hide Ignored, Reads, ParseLines;
    if lines == [] {
      NothingRead();
    } else {
      var n := |lines| - 1;
      assert lines == lines[..n] + [lines[n]];
      ReadsInOrder(lines[..n], [lines[n]]);
      OneLine(lines[n]);
      assert forall i :: 0 <= i < n ==> lines[..n][i] == lines[i];
      AcceptedIff(lines[..n]);
    }
  }

  lemma NothingRead()
    ensures ParseLines([]) == Some([])
  {
  }

  // Lines of a text

  function Terminated(lines: seq<string>): string {
    if lines == [] then "" else Terminated(lines[..|lines| - 1]) + (lines[|lines| - 1] + "\n")
  }

  /** Every line ends with a newline, only the last one need not. */
  lemma {:induction false} ScanMeans(lines: seq<string>, last: string)
    requires (forall i :: 0 <= i < |lines| ==> '\n' !in lines[i]) && '\n' !in last
    ensures ScanLines(Terminated(lines) + last) == if last == "" then lines else lines + [last]
  {
    hide Split;
    SplitTerminated(lines, last);
    assert (lines + [last])[..|lines|] == lines;
  }

  lemma {:induction false} SplitTerminated(lines: seq<string>, last: string)
    requires (forall i :: 0 <= i < |lines| ==> '\n' !in lines[i]) && '\n' !in last
    ensures Split(Terminated(lines) + last, '\n') == lines + [last]
  {
    hide Split;
    SplitPlain(last, '\n');
    if lines == [] {
      assert Terminated(lines) + last == last;
    } else {
      var n := |lines| - 1;
      SplitTerminated(lines[..n], "");
      assert Terminated(lines[..n]) + "" == Terminated(lines[..n]);
      SplitPlain(lines[n], '\n');
      SplitJoin2(lines[n], last, '\n');
      assert lines[n] + ['\n'] + last == lines[n] + "\n" + last;
      SplitMore(Terminated(lines[..n]), lines[n] + "\n" + last, lines[..n]);
      assert Terminated(lines) + last == Terminated(lines[..n]) + (lines[n] + "\n" + last);
      assert lines[..n] + [lines[n], last] == lines + [last];
    }
  }
}
