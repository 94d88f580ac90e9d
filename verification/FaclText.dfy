/** The parser for getfacl output of several files. */
module FaclText {
  import opened Strings
  import opened Sharing
  import opened AclStore

  // Entries

  /** `\s` in Go's regular expressions. */
  predicate ReSpace(c: char) {
    c == ' ' || c == '\t' || c == '\n' || c == '\r' || c as int == 12
  }

  /** `(?:user|group|mask|other:)\S*` */
  predicate KeywordThenWord(s: string) {
    exists k :: 0 <= k < 4 && Keyword(k) <= s && forall i :: |Keyword(k)| <= i < |s| ==> !ReSpace(s[i])
  }

  function Keyword(k: nat): string
    requires k < 4
  {
    if k == 0 then "user" else if k == 1 then "group" else if k == 2 then "mask" else "other:"
  }

  /** What the regular expression accepts before the last colon. */
  predicate TagOk(tag: string) {
    KeywordThenWord(if "default:" <= tag then tag[8..] else tag)
  }

  function ParseMode(s: string): Option<Mode> {
    if |s| == 3 && (s[0] == 'r' || s[0] == '-') && (s[1] == 'w' || s[1] == '-') && (s[2] == 'x' || s[2] == '-') then
      Some(Mode(s[0] == 'r', s[1] == 'w', s[2] == 'x'))
    else None
  }

  /** parseGetfaclAceLine: the line is cut before the last four characters. */
  function ParseAceLine(line: string): Option<FaclAce> {
    var n := |line| - 4;
    if n < 0 || line[n] != ':' || !TagOk(line[..n]) then None
    else
      match ParseMode(line[n + 1..])
      case Some(m) => Some(FaclAce(line[..n], m))
      case None => None
  }

  lemma ModeParses(m: Mode)
    ensures ParseMode(m.Text()) == Some(m)
  {
  }

  lemma ParsedMode(s: string)
    requires ParseMode(s).Some?
    ensures ParseMode(s).value.Text() == s
  {
  }

  /** The parser inverts FaclAce.String, in both directions. */
  lemma ParseInvertsString(line: string, ace: FaclAce)
    ensures ParseAceLine(line) == Some(ace) <==> line == ace.String() && TagOk(ace.tag)
  {
    hide TagOk, ParseMode, Mode.Text;
    if ParseAceLine(line) == Some(ace) {
      var n := |line| - 4;
      ParsedMode(line[n + 1..]);
      assert line == line[..n] + ":" + line[n + 1..];
    }
    if line == ace.String() && TagOk(ace.tag) {
      TextLength(ace.mode);
      var n := |line| - 4;
      assert line[..n] == ace.tag && line[n + 1..] == ace.mode.Text();
      ModeParses(ace.mode);
    }
  }

  lemma TextLength(m: Mode)
    ensures |m.Text()| == 3
  {
  }

  // Paragraphs

  /** The length of the longest run of whitespace that ends with a newline. */
  function Gap(s: string): (g: nat)
    ensures g <= |s|
  {
    if s == "" || !ReSpace(s[0]) then 0
    else
      var g := Gap(s[1..]);
      if g > 0 then g + 1 else if s[0] == '\n' then 1 else 0
  }

  /** Splitting at `\n\s*\n`. */
  function Paragraphs(s: string): (r: seq<string>)
    ensures r != []
  {
    if s == "" then [""]
    else if s[0] == '\n' && Gap(s[1..]) > 0 then [""] + Paragraphs(s[1 + Gap(s[1..])..])
    else
      var t := Paragraphs(s[1..]);
      [[s[0]] + t[0]] + t[1..]
  }

  function TrimLeft(s: string): string {
    if s != "" && IsSpace(s[0]) then TrimLeft(s[1..]) else s
  }

  function TrimRight(s: string): string {
    if s != "" && IsSpace(s[|s| - 1]) then TrimRight(s[..|s| - 1]) else s
  }

  /** strings.TrimSpace */
  function TrimSpace(s: string): string {
    TrimRight(TrimLeft(s))
  }

  datatype ListedAcl = ListedAcl(path: string, acl: Facl)

  /** Besides errors, a paragraph of fewer than four lines makes the parser panic,
      because it reserves room for as many entries as lines minus four. */
  datatype Outcome<T> = Parsed(value: T) | Failed | Panics

  const HEAD := "# file: "

  function ParseAces(lines: seq<string>): Option<Facl> {
    if lines == [] then Some([])
    else
      var n := |lines| - 1;
      match ParseAces(lines[..n])
      case None => None
      case Some(aces) =>
        if "#" <= lines[n] then Some(aces)
        else
          match ParseAceLine(lines[n]) case Some(ace) => Some(aces + [ace]) case None => None
  }

  function ParseParagraph(par: string): Outcome<ListedAcl> {
    var lines := Split(par, '\n');
    if !(HEAD <= lines[0]) then Failed
    else if |lines| < 4 then Panics
    else
      match ParseAces(lines)
      case Some(aces) => Parsed(ListedAcl(lines[0][|HEAD|..], aces))
      case None => Failed
  }

  function ParseAll(pars: seq<string>): Outcome<seq<ListedAcl>> {
    if pars == [] then Parsed([])
    else
      var n := |pars| - 1;
      match ParseAll(pars[..n])
      case Failed => Failed
      case Panics => Panics
      case Parsed(acls) =>
        match ParseParagraph(pars[n])
        case Failed => Failed
        case Panics => Panics
        case Parsed(acl) => Parsed(acls + [acl])
  }

  method ParseGetfaclParagraph(par: string) returns (r: Outcome<ListedAcl>)
    ensures r == ParseParagraph(par)
  {
    hide ParseAceLine, Split;
    var lines := Split(par, '\n');
    if !(HEAD <= lines[0]) { return Failed; }
    if |lines| < 4 { return Panics; }
    var aces: Facl := [];
    for i := 0 to |lines|
      invariant ParseAces(lines[..i]) == Some(aces)
    {
      TakeOneMore([], lines, i);
      assert lines[..i + 1][..i] == lines[..i];
      var l := lines[i];
      if "#" <= l { continue; }
      var ace := ParseAceLine(l);
      if ace.None? {
        AcesFail(lines, i + 1);
        return Failed;
      }
      aces := aces + [ace.value];
    }
    assert lines[..|lines|] == lines;
    return Parsed(ListedAcl(lines[0][|HEAD|..], aces));
  }

  lemma {:induction false} AcesFail(lines: seq<string>, k: nat)
    requires k <= |lines| && ParseAces(lines[..k]).None?
    ensures ParseAces(lines).None?
    decreases |lines| - k
  {
    hide ParseAceLine;
    if k == |lines| {
      assert lines[..k] == lines;
    } else {
      assert lines[..k + 1][..k] == lines[..k];
      AcesFail(lines, k + 1);
    }
  }

  /** The first paragraph that is not parsed has a header and fewer than three further
      lines. */
  ghost predicate PanicsAt(pars: seq<string>, i: nat) {
    && i < |pars| && HEAD <= Split(pars[i], '\n')[0] && |Split(pars[i], '\n')| < 4
    && forall j :: 0 <= j < i ==> ParseParagraph(pars[j]).Parsed?
  }

  ghost predicate FailsAt(pars: seq<string>, i: nat) {
    i < |pars| && ParseParagraph(pars[i]).Failed? && forall j :: 0 <= j < i ==> ParseParagraph(pars[j]).Parsed?
  }

  lemma ParagraphPanics(par: string)
    ensures ParseParagraph(par) == Panics <==> HEAD <= Split(par, '\n')[0] && |Split(par, '\n')| < 4
  {
    hide Split, ParseAces;
  }

  /** The first paragraph that is not parsed decides: an earlier error hides a later panic,
      and an earlier panic a later error. */
  lemma {:induction false} AllPanicsIff(pars: seq<string>)
    ensures ParseAll(pars) == Panics <==> exists i: nat :: PanicsAt(pars, i)
    ensures ParseAll(pars) == Failed <==> exists i: nat :: FailsAt(pars, i)
    ensures ParseAll(pars).Parsed? <==> forall i :: 0 <= i < |pars| ==> ParseParagraph(pars[i]).Parsed?
  {
    hide ParseParagraph, Split;
    if pars != [] {
      var n := |pars| - 1;
      var less := pars[..n];
      AllPanicsIff(less);
      assert forall j :: 0 <= j < n ==> less[j] == pars[j];
      ParagraphPanics(pars[n]);
      forall i | 0 <= i < |pars| ensures PanicsAt(pars, i) ==> ParseParagraph(pars[i]) == Panics {
        ParagraphPanics(pars[i]);
      }
      if i: nat :| PanicsAt(less, i) { assert PanicsAt(pars, i); }
      if i: nat :| FailsAt(less, i) { assert FailsAt(pars, i); }
      if ParseAll(less).Parsed? && ParseParagraph(pars[n]) == Panics { assert PanicsAt(pars, n); }
      if ParseAll(less).Parsed? && ParseParagraph(pars[n]) == Failed { assert FailsAt(pars, n); }
      if i: nat :| PanicsAt(pars, i) { assert i < n ==> PanicsAt(less, i); }
      if i: nat :| FailsAt(pars, i) { assert i < n ==> FailsAt(less, i); }
    }
  }

  method ParseGetfaclText(txt: string) returns (r: Outcome<seq<ListedAcl>>)
    ensures r == ParseAll(Paragraphs(TrimSpace(txt)))
    ensures r == Panics <==> exists i: nat :: PanicsAt(Paragraphs(TrimSpace(txt)), i)
  {
    hide ParseParagraph, Paragraphs, TrimSpace, PanicsAt;
    var pars := Paragraphs(TrimSpace(txt));
    AllPanicsIff(pars);
    var acls: seq<ListedAcl> := [];
    for i := 0 to |pars|
      invariant ParseAll(pars[..i]) == Parsed(acls)
    {
      TakeOneMore([], pars, i);
      assert pars[..i + 1][..i] == pars[..i];
      var acl := ParseGetfaclParagraph(pars[i]);
      match acl {
        case Failed =>
          AllFails(pars, i + 1);
          return Failed;
        case Panics =>
          AllFails(pars, i + 1);
          return Panics;
        case Parsed(a) => acls := acls + [a];
      }
    }
    assert pars[..|pars|] == pars;
    return Parsed(acls);
  }

  lemma {:induction false} AllFails(pars: seq<string>, k: nat)
    requires k <= |pars| && !ParseAll(pars[..k]).Parsed?
    ensures ParseAll(pars) == ParseAll(pars[..k])
    decreases |pars| - k
  {
    hide ParseParagraph;
    if k == |pars| {
      assert pars[..k] == pars;
    } else {
      assert pars[..k + 1][..k] == pars[..k];
      AllFails(pars, k + 1);
    }
  }

  // What getfacl prints

  function Tabs(n: nat): string {
    seq(n, _ => '\t')
  }

  /** One printed entry.  If the mask cuts the mode, getfacl adds a comment with what is
      left, behind one or more tabs. */
  datatype Row = Row(tag: string, mode: Mode, effective: Option<Mode>) {
    function AsAce(): FaclAce {
      FaclAce(tag, mode)
    }

    function String(): string {
      if effective.None? then AsAce().String()
      else AsAce().String() + (Tabs(if |tag| < 20 then 3 - |tag| / 8 else 1) + ("#effective:" + effective.value.Text()))
    }
  }

  /** One block of output: the path, further comment lines, and entries. */
  datatype Block = Block(path: string, comments: seq<string>, rows: seq<Row>) {
    /** The path is on one line, comments are, and tags are ones that can be parsed; there
        are at least four lines, and the last one is an entry. */
    ghost predicate Ok() {
      && '\n' !in path
      && (forall i :: 0 <= i < |comments| ==> "#" <= comments[i] && '\n' !in comments[i])
      && (forall i :: 0 <= i < |rows| ==> TagOk(rows[i].tag))
      && rows != [] && |comments| + |rows| >= 3
    }

    /** The mask cuts nothing. */
    predicate Plain() {
      forall i :: 0 <= i < |rows| ==> rows[i].effective.None?
    }

    function Lines(): seq<string> {
      [HEAD + path] + comments + RowLines(rows)
    }

    function Text(): string {
      Concat(Lines(), '\n')
    }
  }

  function RowLines(rows: seq<Row>): (r: seq<string>)
    ensures |r| == |rows| && forall i :: 0 <= i < |r| ==> r[i] == rows[i].String()
  {
    if rows == [] then [] else RowLines(rows[..|rows| - 1]) + [rows[|rows| - 1].String()]
  }

  function Aces(rows: seq<Row>): (r: Facl)
    ensures |r| == |rows| && forall i :: 0 <= i < |r| ==> r[i] == rows[i].AsAce()
  {
    if rows == [] then [] else Aces(rows[..|rows| - 1]) + [rows[|rows| - 1].AsAce()]
  }

  /** Every block is followed by an empty line. */
  function Printed(blocks: seq<Block>): string {
    if blocks == [] then "" else blocks[0].Text() + "\n\n" + Printed(blocks[1..])
  }

  function Listing(blocks: seq<Block>): seq<ListedAcl> {
    if blocks == [] then []
    else
      var b := blocks[|blocks| - 1];
      Listing(blocks[..|blocks| - 1]) + [ListedAcl(b.path, Aces(b.rows))]
  }

  ghost predicate AllOk(blocks: seq<Block>) {
    forall i :: 0 <= i < |blocks| ==> blocks[i].Ok()
  }

  predicate AllPlain(blocks: seq<Block>) {
    forall i :: 0 <= i < |blocks| ==> blocks[i].Plain()
  }

  // Lines

  /** A line that starts a non-blank line of text. */
  ghost predicate GoodLine(l: string) {
    l != "" && !IsSpace(l[0]) && '\n' !in l
  }

  ghost predicate GoodLines(lines: seq<string>) {
    forall i :: 0 <= i < |lines| ==> GoodLine(lines[i])
  }

  lemma WordGood(r: string)
    requires KeywordThenWord(r)
    ensures r != "" && !IsSpace(r[0]) && '\n' !in r
  {
    var k :| 0 <= k < 4 && Keyword(k) <= r && forall i :: |Keyword(k)| <= i < |r| ==> !ReSpace(r[i]);
    KeywordGood(k);
    var w := Keyword(k);
    forall i | 0 <= i < |r| ensures r[i] != '\n' {
      if i < |w| { assert r[i] == w[i]; }
    }
  }

  lemma TagGood(tag: string)
    requires TagOk(tag)
    ensures tag != "" && !IsSpace(tag[0]) && '\n' !in tag
  {
    hide KeywordThenWord;
    if "default:" <= tag {
      WordGood(tag[8..]);
      assert tag == "default:" + tag[8..];
      assert '\n' !in "default:" && "default:"[0] == 'd';
    } else {
      WordGood(tag);
    }
  }

  lemma KeywordGood(k: nat)
    requires k < 4
    ensures Keyword(k) != "" && !IsSpace(Keyword(k)[0]) && '\n' !in Keyword(k)
  {
  }

  lemma AceGood(ace: FaclAce)
    requires TagOk(ace.tag)
    ensures GoodLine(ace.String()) && !("#" <= ace.String()) && !IsSpace(ace.String()[|ace.String()| - 1])
  {
    TagGood(ace.tag);
    TagNotComment(ace.tag);
    var t := ace.mode.Text();
    assert ace.String() == ace.tag + (":" + t);
    assert ace.String()[|ace.String()| - 1] == t[2];
    assert '\n' !in t;
  }

  lemma RowGood(row: Row)
    requires TagOk(row.tag)
    ensures GoodLine(row.String()) && !("#" <= row.String()) && !IsSpace(row.String()[|row.String()| - 1])
  {
    AceGood(row.AsAce());
    if row.effective.Some? {
      hide FaclAce.String;
      var a, e := row.AsAce().String(), row.effective.value.Text();
      var n := if |row.tag| < 20 then 3 - |row.tag| / 8 else 1;
      var rest := Tabs(n) + ("#effective:" + e);
      assert row.String() == a + rest && row.String()[0] == a[0];
      assert rest[|rest| - 1] == e[2];
      assert '\n' !in e && '\n' !in Tabs(n) && '\n' !in "#effective:";
    }
  }

  lemma TabNotWord(s: string)
    requires '\t' in s
    ensures !KeywordThenWord(s)
  {
    if k :| 0 <= k < 4 && Keyword(k) <= s && forall i :: |Keyword(k)| <= i < |s| ==> !ReSpace(s[i]) {
      NoTab(k);
      forall i | 0 <= i < |s| ensures s[i] != '\t' {
        if i < |Keyword(k)| { assert s[i] == Keyword(k)[i]; } else { assert !ReSpace(s[i]); }
      }
    }
  }

  lemma NoTab(k: nat)
    requires k < 4
    ensures '\t' !in Keyword(k)
  {
  }

  lemma TabNotTag(tag: string)
    requires '\t' in tag
    ensures !TagOk(tag)
  {
    if "default:" <= tag {
      assert tag == "default:" + tag[8..] && '\t' !in "default:";
      TabNotWord(tag[8..]);
    } else {
      TabNotWord(tag);
    }
  }

  /** The parser rejects an entry with a comment about effective rights. */
  lemma EffectiveFails(row: Row)
    requires row.effective.Some?
    ensures ParseAceLine(row.String()).None?
  {
    hide TagOk, Mode.Text;
    var a, e := row.AsAce().String(), row.effective.value.Text();
    var n := if |row.tag| < 20 then 3 - |row.tag| / 8 else 1;
    TextLength(row.effective.value);
    var l := row.String();
    assert l == a + (Tabs(n) + ("#effective:" + e));
    var tag := l[..|l| - 4];
    assert tag == a + (Tabs(n) + "#effective");
    assert tag[|a|] == Tabs(n)[0] == '\t';
    TabNotTag(tag);
  }

  lemma TagNotComment(tag: string)
    requires TagOk(tag)
    ensures tag != "" && tag[0] != '#'
  {
    var r := if "default:" <= tag then tag[8..] else tag;
    var k :| 0 <= k < 4 && Keyword(k) <= r && forall i :: |Keyword(k)| <= i < |r| ==> !ReSpace(r[i]);
    assert Keyword(k)[0] != '#';
    if "default:" <= tag { assert tag[0] == "default:"[0]; }
  }

  lemma LinesGood(b: Block)
    requires b.Ok()
    ensures GoodLines(b.Lines()) && |b.Lines()| >= 4 && HEAD <= b.Lines()[0] && b.Lines()[0][|HEAD|..] == b.path
    ensures var l := b.Lines()[|b.Lines()| - 1]; !IsSpace(l[|l| - 1])
  {
    hide TagOk, Row.String;
    var lines := b.Lines();
    forall i | 0 <= i < |lines| ensures GoodLine(lines[i]) {
      if i == 0 {
        assert lines[0] == HEAD + b.path;
        assert (HEAD + b.path)[0] == '#';
      } else if i <= |b.comments| {
        assert lines[i] == b.comments[i - 1];
      } else {
        assert lines[i] == b.rows[i - 1 - |b.comments|].String();
        RowGood(b.rows[i - 1 - |b.comments|]);
      }
    }
    assert lines[|lines| - 1] == b.rows[|b.rows| - 1].String();
    RowGood(b.rows[|b.rows| - 1]);
  }

  // Finding the blocks again

  /** No gap starts in `s`: every newline is followed by a non-blank character. */
  ghost predicate Tight(s: string) {
    forall i :: 0 <= i < |s| && s[i] == '\n' ==> i + 1 < |s| && !ReSpace(s[i + 1])
  }

  lemma TightTail(s: string)
    requires Tight(s) && s != ""
    ensures Tight(s[1..]) && (s[0] == '\n' ==> s[1..] != "" && !ReSpace(s[1]))
  {
    forall i | 0 <= i < |s[1..]| && s[1..][i] == '\n' ensures i + 1 < |s[1..]| && !ReSpace(s[1..][i + 1]) {
      assert s[i + 1] == '\n';
    }
  }

  lemma {:induction false} ParagraphsTight(s: string)
    requires Tight(s)
    ensures Paragraphs(s) == [s]
  {
    if s != "" {
      TightTail(s);
      ParagraphsTight(s[1..]);
      assert [s[0]] + s[1..] == s;
    }
  }

  lemma {:induction false} ParagraphsGap(s: string, rest: string)
    requires Tight(s) && rest != "" && !ReSpace(rest[0])
    ensures Paragraphs(s + "\n\n" + rest) == [s] + Paragraphs(rest)
  {
    var t := s + "\n\n" + rest;
    if s == "" {
      assert t == "\n" + ("\n" + rest) && t[1..] == "\n" + rest;
      assert t[1..][1..] == rest;
      assert Gap(rest) == 0;
      assert Gap(t[1..]) == 1;
      assert t[2..] == rest;
    } else {
      TightTail(s);
      ParagraphsGap(s[1..], rest);
      assert t[1..] == s[1..] + "\n\n" + rest;
      assert s[0] == '\n' ==> t[1..][0] == s[1];
      assert [s[0]] + s[1..] == s;
    }
  }

  lemma {:induction false} ConcatTight(lines: seq<string>)
    requires lines != [] && GoodLines(lines)
    ensures Tight(Concat(lines, '\n')) && Concat(lines, '\n') != "" && Concat(lines, '\n')[0] == lines[0][0]
    ensures var c, l := Concat(lines, '\n'), lines[|lines| - 1]; l != "" && c[|c| - 1] == l[|l| - 1]
  {
    assert GoodLine(lines[0]);
    if |lines| > 1 {
      ConcatTight(lines[1..]);
      var a, rest := lines[0], Concat(lines[1..], '\n');
      assert lines[1..][0] == lines[1] && GoodLine(lines[1]);
      assert Concat(lines, '\n') == a + ['\n'] + rest;
      assert forall i :: 0 <= i < |a| ==> a[i] != '\n';
      forall i | 0 <= i < |a + ['\n'] + rest| && (a + ['\n'] + rest)[i] == '\n'
        ensures i + 1 < |a + ['\n'] + rest| && !ReSpace((a + ['\n'] + rest)[i + 1])
      {
        if i > |a| { assert rest[i - |a| - 1] == '\n'; }
      }
    }
  }

  lemma BlockTight(b: Block)
    requires b.Ok()
    ensures Tight(b.Text()) && b.Text() != "" && !IsSpace(b.Text()[0]) && !IsSpace(b.Text()[|b.Text()| - 1])
  {
    hide Block.Lines, Block.Ok;
    LinesGood(b);
    ConcatTight(b.Lines());
    assert GoodLine(b.Lines()[0]);
  }

  function Texts(blocks: seq<Block>): (r: seq<string>)
    ensures |r| == |blocks| && forall i :: 0 <= i < |r| ==> r[i] == blocks[i].Text()
  {
    seq(|blocks|, i requires 0 <= i < |blocks| => blocks[i].Text())
  }

  /** The text without the final empty line. */
  function Body(blocks: seq<Block>): string
    requires blocks != []
  {
    if |blocks| == 1 then blocks[0].Text() else blocks[0].Text() + "\n\n" + Body(blocks[1..])
  }

  lemma {:induction false} PrintedBody(blocks: seq<Block>)
    requires blocks != []
    ensures Printed(blocks) == Body(blocks) + "\n\n"
  {
    hide Block.Text;
    if |blocks| == 1 {
      assert blocks[1..] == [];
      assert Printed(blocks[1..]) == "";
    } else {
      PrintedBody(blocks[1..]);
    }
  }

  lemma {:induction false} BodySplits(blocks: seq<Block>)
    requires blocks != [] && AllOk(blocks)
    ensures Paragraphs(Body(blocks)) == Texts(blocks)
    ensures Body(blocks) != "" && !IsSpace(Body(blocks)[0]) && !IsSpace(Body(blocks)[|Body(blocks)| - 1])
  {
    hide Block.Text, Block.Ok, Paragraphs, Tight;
    BlockTight(blocks[0]);
    if |blocks| == 1 {
      ParagraphsTight(blocks[0].Text());
      assert Texts(blocks) == [blocks[0].Text()];
    } else {
      BodySplits(blocks[1..]);
      var rest := Body(blocks[1..]);
      NotReSpace(rest[0]);
      ParagraphsGap(blocks[0].Text(), rest);
      assert Texts(blocks) == [blocks[0].Text()] + Texts(blocks[1..]);
      assert Body(blocks) == blocks[0].Text() + "\n\n" + rest;
    }
  }

  lemma NotReSpace(c: char)
    requires !IsSpace(c)
    ensures !ReSpace(c)
  {
  }

  lemma TrimPrinted(body: string)
    requires body != "" && !IsSpace(body[0]) && !IsSpace(body[|body| - 1])
    ensures TrimSpace(body + "\n\n") == body
  {
    var t := body + "\n\n";
    assert t[0] == body[0];
    assert t[..|t| - 1] == body + "\n";
    assert (body + "\n")[..|body|] == body;
    assert TrimLeft(t) == t;
    assert TrimRight(body) == body;
    assert TrimRight(body + "\n") == TrimRight(body);
    assert TrimRight(t) == TrimRight(body + "\n");
  }

  // Parsing a block

  lemma AcesSnoc(lines: seq<string>, line: string)
    requires !("#" <= line)
    ensures ParseAces(lines + [line]) ==
            match (ParseAces(lines), ParseAceLine(line)) case (Some(aces), Some(ace)) => Some(aces + [ace]) case _ => None
  {
    hide ParseAceLine;
    assert (lines + [line])[..|lines|] == lines;
  }

  lemma RowsSnoc(rows: seq<Row>)
    requires rows != []
    ensures var n := |rows| - 1;
            && RowLines(rows) == RowLines(rows[..n]) + [rows[n].String()] && Aces(rows) == Aces(rows[..n]) + [rows[n].AsAce()]
  {
    hide Row.String;
  }

  /** The entries after a header parse exactly if none has such a comment. */
  lemma {:induction false} RowsParse(before: seq<string>, rows: seq<Row>)
    requires ParseAces(before) == Some([]) && forall i :: 0 <= i < |rows| ==> TagOk(rows[i].tag)
    ensures ParseAces(before + RowLines(rows)) ==
            if forall i :: 0 <= i < |rows| ==> rows[i].effective.None? then Some(Aces(rows)) else None
  {
    hide ParseAceLine, TagOk, FaclAce.String, Row.String, ParseAces, RowLines, Aces;
    if rows == [] {
      assert RowLines(rows) == [] && Aces(rows) == [];
      assert before + RowLines(rows) == before;
    } else {
      var n := |rows| - 1;
      var less := rows[..n];
      assert forall i :: 0 <= i < n ==> less[i] == rows[i];
      RowsParse(before, less);
      RowGood(rows[n]);
      RowParses(rows[n]);
      RowsSnoc(rows);
      AcesSnoc(before + RowLines(less), rows[n].String());
      assert before + RowLines(rows) == before + RowLines(less) + [rows[n].String()];
    }
  }

  lemma RowParses(row: Row)
    requires TagOk(row.tag)
    ensures ParseAceLine(row.String()) == if row.effective.None? then Some(row.AsAce()) else None
  {
    hide ParseAceLine, TagOk, FaclAce.String;
    if row.effective.None? {
      ParseInvertsString(row.String(), row.AsAce());
    } else {
      EffectiveFails(row);
    }
  }

  lemma {:induction false} CommentsSkipped(lines: seq<string>)
    requires forall i :: 0 <= i < |lines| ==> "#" <= lines[i]
    ensures ParseAces(lines) == Some([])
  {
    if lines != [] { CommentsSkipped(lines[..|lines| - 1]); }
  }

  lemma BlockParses(b: Block)
    requires b.Ok()
    ensures ParseParagraph(b.Text()) == if b.Plain() then Parsed(ListedAcl(b.path, Aces(b.rows))) else Failed
  {
    hide ParseAces, TagOk, Split, Concat, Block.Lines, Block.Ok, Block.Plain;
    LinesGood(b);
    AllLinesParse(b);
    SplitConcat(b.Lines(), '\n');
  }

  lemma AllLinesParse(b: Block)
    requires b.Ok()
    ensures ParseAces(b.Lines()) == if b.Plain() then Some(Aces(b.rows)) else None
  {
    hide ParseAces, TagOk;
    var head := [HEAD + b.path] + b.comments;
    forall i | 0 <= i < |head| ensures "#" <= head[i] {
      if i == 0 { assert (HEAD + b.path)[..1] == "#"; } else { assert head[i] == b.comments[i - 1]; }
    }
    CommentsSkipped(head);
    RowsParse(head, b.rows);
  }

  lemma {:induction false} BlocksParse(blocks: seq<Block>)
    requires AllOk(blocks)
    ensures ParseAll(Texts(blocks)) == if AllPlain(blocks) then Parsed(Listing(blocks)) else Failed
  {
    hide ParseParagraph, Block.Text, Block.Ok, Block.Plain;
    if blocks != [] {
      var n := |blocks| - 1;
      BlocksParse(blocks[..n]);
      assert Texts(blocks)[..n] == Texts(blocks[..n]);
      BlockParses(blocks[n]);
      assert forall i :: 0 <= i < n ==> blocks[..n][i] == blocks[i];
    }
  }

  /** Parsing the output for a list of files gives exactly their paths and entries, in
      order, if no mask cuts an entry, and fails otherwise. */
  lemma ParsePrinted(blocks: seq<Block>)
    requires blocks != [] && AllOk(blocks)
    ensures ParseAll(Paragraphs(TrimSpace(Printed(blocks)))) == if AllPlain(blocks) then Parsed(Listing(blocks)) else Failed
  {
    hide ParseAll, Paragraphs, TrimSpace, Printed, Body, Block.Ok, Block.Text, Block.Plain;
    PrintedBody(blocks);
    BodySplits(blocks);
    TrimPrinted(Body(blocks));
    BlocksParse(blocks);
  }

  /** A header with fewer than three further lines makes the parser panic, whatever the
      lines are; in a longer text it does if everything before can be parsed, and not behind
      an error. */
  lemma ShortParagraphPanics(pars: seq<string>, i: nat, lines: seq<string>)
    requires 0 < |lines| < 4 && HEAD <= lines[0] && forall k :: 0 <= k < |lines| ==> '\n' !in lines[k]
    requires i < |pars| && pars[i] == Concat(lines, '\n')
    ensures (forall j :: 0 <= j < i ==> ParseParagraph(pars[j]).Parsed?) ==> ParseAll(pars) == Panics
    ensures (exists j: nat :: j < i && FailsAt(pars, j)) ==> ParseAll(pars) == Failed
  {
    hide ParseParagraph, ParseAll, Split, Concat;
    SplitConcat(lines, '\n');
    AllPanicsIff(pars);
    assert (forall j :: 0 <= j < i ==> ParseParagraph(pars[j]).Parsed?) ==> PanicsAt(pars, i);
  }
}
