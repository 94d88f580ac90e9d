/** Which getfacl texts the parser accepts, and what it reads from them, said without its regular
    expressions and recursions. */
module FaclMeaning {
  import opened Strings
  import opened Sharing
  import opened AclStore
  import opened FaclText

  // Lines

  ghost predicate NoSpace(s: string) {
    forall i :: 0 <= i < |s| ==> s[i] != ' ' && s[i] != '\t' && s[i] != '\n' && s[i] != '\r' && s[i] as int != 12
  }

  ghost predicate IsKeyword(k: string) {
    k == "user" || k == "group" || k == "mask" || k == "other:"
  }

  /** A keyword and anything without whitespace, perhaps after `default:`. */
  ghost predicate GoodTag(tag: string) {
    exists k: string, rest: string :: IsKeyword(k) && NoSpace(rest) && (tag == k + rest || tag == "default:" + (k + rest))
  }

  lemma WordMeans(s: string)
    ensures KeywordThenWord(s) <==> exists k: string, rest: string :: IsKeyword(k) && NoSpace(rest) && s == k + rest
  {
    if KeywordThenWord(s) {
      var k :| 0 <= k < 4 && Keyword(k) <= s && forall i :: |Keyword(k)| <= i < |s| ==> !ReSpace(s[i]);
      var rest := s[|Keyword(k)|..];
      assert s == Keyword(k) + rest && NoSpace(rest) && IsKeyword(Keyword(k));
    }
    if k: string, rest: string :| IsKeyword(k) && NoSpace(rest) && s == k + rest {
      var i := if k == "user" then 0 else if k == "group" then 1 else if k == "mask" then 2 else 3;
      assert Keyword(i) == k;
      forall j | |Keyword(i)| <= j < |s| ensures !ReSpace(s[j]) {
        assert s[j] == rest[j - |k|];
      }
    }
  }

  lemma KeywordNotDefault(k: string, rest: string)
    requires IsKeyword(k)
    ensures !("default:" <= k + rest)
  {
    assert (k + rest)[0] == k[0];
    assert "default:"[0] == 'd';
  }

  lemma TagMeans(tag: string)
    ensures TagOk(tag) <==> GoodTag(tag)
  {
    hide KeywordThenWord, NoSpace;
    if "default:" <= tag {
      assert tag == "default:" + tag[8..];
      WordMeans(tag[8..]);
    } else {
      WordMeans(tag);
    }
    if GoodTag(tag) {
      var k: string, rest: string :| IsKeyword(k) && NoSpace(rest) && (tag == k + rest || tag == "default:" + (k + rest));
      KeywordNotDefault(k, rest);
      if tag == "default:" + (k + rest) { assert tag[8..] == k + rest; }
    }
  }

  function Letter(on: bool, c: char): string {
    if on then [c] else "-"
  }

  /** `tag:rwx`, with a dash for each permission that is missing. */
  ghost predicate EntryLine(line: string, ace: FaclAce) {
    GoodTag(ace.tag) && line == ace.tag + ":" + Letter(ace.mode.r, 'r') + Letter(ace.mode.w, 'w') + Letter(ace.mode.x, 'x')
  }

  lemma EntryLineMeans(line: string, ace: FaclAce)
    ensures ParseAceLine(line) == Some(ace) <==> EntryLine(line, ace)
  {
    hide TagOk, ParseAceLine, GoodTag;
    ParseInvertsString(line, ace);
    TagMeans(ace.tag);
    assert ace.mode.Text() == Letter(ace.mode.r, 'r') + Letter(ace.mode.w, 'w') + Letter(ace.mode.x, 'x');
    assert ace.String() == ace.tag + ":" + Letter(ace.mode.r, 'r') + Letter(ace.mode.w, 'w') + Letter(ace.mode.x, 'x');
  }

  // Paragraphs

  /** The lines that are no comments, in order. */
  function Content(lines: seq<string>): seq<string> {
    if lines == [] then []
    else if lines[0] != "" && lines[0][0] == '#' then Content(lines[1..])
    else [lines[0]] + Content(lines[1..])
  }

  lemma {:induction false} ContentSnoc(lines: seq<string>, l: string)
    ensures Content(lines + [l]) == if l != "" && l[0] == '#' then Content(lines) else Content(lines) + [l]
  {
    if lines == [] {
      assert [] + [l] == [l] && [l][1..] == [];
    } else {
      assert (lines + [l])[1..] == lines[1..] + [l];
      ContentSnoc(lines[1..], l);
    }
  }

  ghost predicate EntryLines(lines: seq<string>, aces: Facl) {
    |lines| == |aces| && forall i :: 0 <= i < |lines| ==> EntryLine(lines[i], aces[i])
  }

  /** The entries of a paragraph are its other lines, one entry each. */
  lemma {:induction false} AcesMean(lines: seq<string>, aces: Facl)
    ensures ParseAces(lines) == Some(aces) <==> EntryLines(Content(lines), aces)
    decreases |lines|
  {
    hide ParseAceLine, EntryLine;
    if lines != [] {
      var n := |lines| - 1;
      var less, l := lines[..n], lines[n];
      assert lines == less + [l];
      ContentSnoc(less, l);
      assert "#" <= l <==> l != "" && l[0] == '#';
      if "#" <= l {
        AcesMean(less, aces);
      } else if aces != [] {
        var m := |aces| - 1;
        AcesMean(less, aces[..m]);
        EntryLineMeans(l, aces[m]);
        LastEntry(less, l, aces);
        assert aces == aces[..m] + [aces[m]];
      }
    }
  }

  lemma LastEntry(less: seq<string>, l: string, aces: Facl)
    requires aces != []
    ensures var m := |aces| - 1;
            EntryLines(Content(less) + [l], aces) <==> EntryLines(Content(less), aces[..m]) && EntryLine(l, aces[m])
  {
    hide EntryLine;
    var m, all := |aces| - 1, Content(less) + [l];
    if EntryLines(all, aces) {
      assert all[m] == l;
      forall i | 0 <= i < m ensures EntryLine(Content(less)[i], aces[..m][i]) {
        assert all[i] == Content(less)[i];
      }
    }
  }

  /** A paragraph starts with the path and has at least three further lines. */
  lemma ParagraphMeans(par: string, path: string, aces: Facl)
    ensures ParseParagraph(par) == Parsed(ListedAcl(path, aces)) <==>
            var lines := Split(par, '\n');
            |lines| >= 4 && lines[0] == "# file: " + path && EntryLines(Content(lines), aces)
  {
    hide Split, ParseAces, EntryLines;
    var lines := Split(par, '\n');
    AcesMean(lines, aces);
    if HEAD <= lines[0] { assert lines[0] == HEAD + lines[0][|HEAD|..]; }
  }

  // Texts

  ghost predicate AllSpace(s: string) {
    forall i :: 0 <= i < |s| ==> ReSpace(s[i])
  }

  lemma {:induction false} GapOf(w: string, rest: string)
    requires AllSpace(w) && rest != "" && !ReSpace(rest[0])
    ensures Gap(w + "\n" + rest) == |w| + 1
  {
    var t := w + "\n" + rest;
    if w == "" {
      assert t == "\n" + rest && t[1..] == rest;
      assert Gap(rest) == 0;
    } else {
      assert t[0] == w[0] && t[1..] == w[1..] + "\n" + rest;
      GapOf(w[1..], rest);
    }
  }

  /** A character that starts no gap just belongs to the first paragraph. */
  lemma ParagraphsStep(s: string)
    requires s != "" && (s[0] == '\n' ==> Gap(s[1..]) == 0)
    ensures var t := Paragraphs(s[1..]); Paragraphs(s) == [[s[0]] + t[0]] + t[1..]
  {
  }

  lemma ParagraphsAtGap(s: string)
    requires s != "" && s[0] == '\n' && Gap(s[1..]) > 0
    ensures Paragraphs(s) == [""] + Paragraphs(s[1 + Gap(s[1..])..])
  {
  }

  lemma NoGap(s: string)
    requires s != "" && !ReSpace(s[0])
    ensures Gap(s) == 0
  {
  }

  lemma {:induction false} TightThen(s: string, u: string, rest: string)
    requires Tight(s) && u != "" && u[0] == '\n' && Paragraphs(u) == [""] + Paragraphs(rest)
    ensures Paragraphs(s + u) == [s] + Paragraphs(rest)
  {
    hide Paragraphs, Gap;
    if s == "" {
      assert s + u == u;
    } else {
      TightTail(s);
      TightThen(s[1..], u, rest);
      assert (s + u)[0] == s[0] && (s + u)[1..] == s[1..] + u;
      if s[0] == '\n' {
        assert (s + u)[1..][0] == s[1];
        NoGap((s + u)[1..]);
      }
      ParagraphsStep(s + u);
      var t := [s[1..]] + Paragraphs(rest);
      assert t[0] == s[1..] && t[1..] == Paragraphs(rest) && [s[0]] + s[1..] == s;
    }
  }

  /** Any empty-looking lines separate two paragraphs. */
  lemma ParagraphsApart(s: string, w: string, rest: string)
    requires Tight(s) && AllSpace(w) && rest != "" && !ReSpace(rest[0])
    ensures Paragraphs(s + "\n" + w + "\n" + rest) == [s] + Paragraphs(rest)
  {
    hide Paragraphs, Gap, Tight;
    var u := "\n" + (w + "\n" + rest);
    GapOf(w, rest);
    assert u[1..] == w + "\n" + rest;
    assert u[1 + (|w| + 1)..] == rest;
    ParagraphsAtGap(u);
    TightThen(s, u, rest);
    assert s + "\n" + w + "\n" + rest == s + u;
  }

  /** A paragraph of text: no empty line in it, and no whitespace at its ends. */
  ghost predicate Block1(p: string) {
    p != "" && !IsSpace(p[0]) && !IsSpace(p[|p| - 1]) && Tight(p)
  }

  /** Paragraphs with whitespace lines between them. */
  function Spread(pars: seq<string>, gaps: seq<string>): string
    requires pars != [] && |gaps| == |pars| - 1
  {
    if |pars| == 1 then pars[0] else pars[0] + "\n" + gaps[0] + "\n" + Spread(pars[1..], gaps[1..])
  }

  lemma {:induction false} SpreadSplits(pars: seq<string>, gaps: seq<string>)
    requires pars != [] && |gaps| == |pars| - 1
    requires (forall i :: 0 <= i < |pars| ==> Block1(pars[i])) && forall i :: 0 <= i < |gaps| ==> AllSpace(gaps[i])
    ensures Paragraphs(Spread(pars, gaps)) == pars
    ensures var t := Spread(pars, gaps); t != "" && !IsSpace(t[0]) && !IsSpace(t[|t| - 1])
  {
    hide Paragraphs, Tight;
    assert Block1(pars[0]);
    if |pars| == 1 {
      ParagraphsTight(pars[0]);
    } else {
      SpreadSplits(pars[1..], gaps[1..]);
      var rest := Spread(pars[1..], gaps[1..]);
      NotReSpace(rest[0]);
      ParagraphsApart(pars[0], gaps[0], rest);
      assert pars == [pars[0]] + pars[1..];
      assert Spread(pars, gaps)[0] == pars[0][0];
    }
  }

  ghost predicate AllBlank(s: string) {
    forall i :: 0 <= i < |s| ==> IsSpace(s[i])
  }

  lemma {:induction false} TrimLeftBlank(a: string, s: string)
    requires AllBlank(a) && s != "" && !IsSpace(s[0])
    ensures TrimLeft(a + s) == s
  {
    if a == "" {
      assert a + s == s;
    } else {
      assert (a + s)[1..] == a[1..] + s;
      TrimLeftBlank(a[1..], s);
    }
  }

  lemma {:induction false} TrimRightBlank(s: string, b: string)
    requires AllBlank(b) && s != "" && !IsSpace(s[|s| - 1])
    ensures TrimRight(s + b) == s
  {
    if b == "" {
      assert s + b == s;
    } else {
      var n := |b| - 1;
      assert (s + b)[..|s + b| - 1] == s + b[..n] && (s + b)[|s + b| - 1] == b[n];
      TrimRightBlank(s, b[..n]);
    }
  }

  /** Whitespace around the text does not matter, and any whitespace lines separate the
      paragraphs. */
  lemma TextMeans(a: string, pars: seq<string>, gaps: seq<string>, b: string)
    requires pars != [] && |gaps| == |pars| - 1 && AllBlank(a) && AllBlank(b)
    requires (forall i :: 0 <= i < |pars| ==> Block1(pars[i])) && forall i :: 0 <= i < |gaps| ==> AllSpace(gaps[i])
    ensures Paragraphs(TrimSpace(a + Spread(pars, gaps) + b)) == pars
  {
    hide Paragraphs, Block1, TrimLeft, TrimRight;
    SpreadSplits(pars, gaps);
    var t := Spread(pars, gaps);
    assert a + t + b == a + (t + b);
    assert (t + b)[0] == t[0];
    TrimLeftBlank(a, t + b);
    TrimRightBlank(t, b);
  }
}
