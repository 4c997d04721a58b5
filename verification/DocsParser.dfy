/**
 The block half of the docs' Markdown parser: lines into blocks, lists and quotes nested
 to any depth.

 What lines mean is a relation between them and a sequence of blocks. No lines are two
 documents, and the parser finds the one they are, or fails on lines that are none; it
 ends on every input, every loop moving on and every recursion being on something smaller.
 */
module DocsParser {
  import opened Common
  import opened DocsInline

  datatype Block =
    | CodeBlock(lang: string, body: seq<string>)
    | Heading(depth: nat, children: seq<Inline>)
    | ThematicBreak
    | Table(header: seq<seq<Inline>>, rows: seq<seq<seq<Inline>>>)
    | Quote(blocks: seq<Block>)
    | List(ordered: bool, items: seq<Item>)
    | Paragraph(tight: bool, children: seq<Inline>)

  datatype Item = Item(blocks: seq<Block>)

  // ----- What the block forms look like -----------------------------------------------

  datatype Fence = Fence(marker: char, length: nat, lang: string)

  datatype HeadingLine = HeadingLine(depth: nat, text: string)

  function RunOf(c: char, s: string): (n: nat)
    ensures n <= |s|
  {
    if s == "" || s[0] != c then 0 else 1 + RunOf(c, s[1..])
  }

  function HowMany(c: char, s: string): nat {
    if s == "" then 0 else (if s[0] == c then 1 else 0) + HowMany(c, s[1..])
  }

  // Three or more of one mark, after spaces.
  function FenceMarks(line: string): (n: nat)
    ensures n > 0 ==> Indent(line) + n <= |line|
  {
    var rest := line[Indent(line)..];
    var n := if rest != "" && rest[0] in "`~" then RunOf(rest[0], rest) else 0;
    if n >= 3 then n else 0
  }

  predicate IsLangChar(c: char) {
    IsWord(c) || c == '+' || c == '-'
  }

  // Such marks, and the name of a language at most.
  function FenceOf(line: string): Option<Fence> {
    var n := FenceMarks(line);
    if n == 0 then None
    else
      var marker := line[Indent(line)];
      var rest := line[Indent(line) + n..];
      var named := rest[Indent(rest)..];
      var k := Span(IsLangChar, named);
      if IsBlank(named[k..]) then Some(Fence(marker, n, named[..k])) else None
  }

  // One to six hashes at the very start, and a space.
  predicate StartsHeading(line: string) {
    var n := RunOf('#', line);
    1 <= n <= 6 && n < |line| && IsSpace(line[n])
  }

  // Hashes and spaces that close a heading.
  predicate ClosesHeading(s: string) {
    var rest := s[Indent(s)..];
    IsBlank(rest[RunOf('#', rest)..])
  }

  function HeadingLength(s: string): (n: nat)
    ensures n <= |s|
  {
    if s == "" || ClosesHeading(s) then 0 else 1 + HeadingLength(s[1..])
  }

  function HeadingOf(line: string): Option<HeadingLine> {
    if !StartsHeading(line) then None
    else
      var n := RunOf('#', line);
      var rest := line[n..][Indent(line[n..])..];
      var text := rest[..HeadingLength(rest)];
      if NoLineBreak(text) then Some(HeadingLine(n, text)) else None
  }

  // Three or more of one mark and nothing else but spaces.
  predicate IsThematicBreak(line: string) {
    var rest := line[Indent(line)..];
    && rest != "" && rest[0] in "-*_"
    && HowMany(rest[0], rest) >= 3
    && forall i :: 0 <= i < |rest| ==> rest[i] == rest[0] || IsSpace(rest[i])
  }

  predicate IsSetextUnderline(line: string) {
    var rest := line[Indent(line)..];
    rest != "" && rest[0] in "=-" && IsBlank(rest[RunOf(rest[0], rest)..])
  }

  function DropOne(c: char, s: string): (r: string)
    ensures |r| <= |s|
  {
    if s != "" && s[0] == c then s[1..] else s
  }

  // Dashes between colons, and the same again after each pipe, the last of which may close.
  predicate DelimiterCells(s: string)
    decreases |s|
  {
    var dashes := DropOne(':', s[Indent(s)..]);
    var n := RunOf('-', dashes);
    var colon := DropOne(':', dashes[n..]);
    var rest := colon[Indent(colon)..];
    n > 0 && (rest == "" || (rest[0] == '|' && (IsBlank(rest[1..]) || DelimiterCells(rest[1..]))))
  }

  predicate IsDelimiterRow(line: string) {
    '|' in line && DelimiterCells(DropOne('|', line[Indent(line)..]))
  }

  // The cells between the pipes, those behind a backslash left out.
  function CellsFrom(t: string, i: nat, cell: string): seq<string>
    requires i <= |t|
    decreases |t| - i
  {
    if i == |t| then [cell]
    else if t[i] == '\\' && i + 1 < |t| then
      CellsFrom(t, i + 2, cell + if t[i + 1] == '|' then "|" else [t[i], t[i + 1]])
    else if t[i] == '|' then [cell] + CellsFrom(t, i + 1, "")
    else CellsFrom(t, i + 1, cell + [t[i]])
  }

  // A row without the pipes at its ends.
  function RowText(row: string): string {
    var open := DropOne('|', TrimText(row));
    if open != "" && open[|open| - 1] == '|' then open[..|open| - 1] else open
  }

  function Cells(row: string): seq<string> {
    CellsFrom(RowText(row), 0, "")
  }

  // A cell with a backslash before each of its pipes, and cells with pipes between.
  ghost function Piped(cell: string): string {
    if cell == "" then "" else (if cell[0] == '|' then "\\|" else [cell[0]]) + Piped(cell[1..])
  }

  ghost function PipedAll(cells: seq<string>): string
    requires cells != []
  {
    if |cells| == 1 then Piped(cells[0]) else Piped(cells[0]) + "|" + PipedAll(cells[1..])
  }

  lemma {:induction false} CellReadsBack(t: string, i: nat, sofar: string, cell: string)
    requires i <= |t| && Piped(cell) <= t[i..] && '\\' !in cell
    ensures i + |Piped(cell)| <= |t|
    ensures CellsFrom(t, i, sofar) == CellsFrom(t, i + |Piped(cell)|, sofar + cell)
    decreases |cell|
  {
    if cell == "" {
      assert sofar + cell == sofar;
    } else {
      var c, rest := cell[0], cell[1..];
      var n := if c == '|' then 2 else 1;
      var p := Piped(cell);
      assert forall k :: 0 <= k < |p| ==> t[i + k] == t[i..][k] == p[k];
      assert p[..n] + Piped(rest) == p;
      assert t[i + n..] == t[i..][n..];
      CellReadsBack(t, i + n, sofar + [c], rest);
      assert sofar + [c] + rest == sofar + cell;
    }
  }

  lemma {:induction false} CellsReadBack(t: string, i: nat, cells: seq<string>)
    requires i <= |t| && cells != [] && t[i..] == PipedAll(cells) && forall k :: 0 <= k < |cells| ==> '\\' !in cells[k]
    ensures CellsFrom(t, i, "") == cells
    decreases |cells|
  {
    CellReadsBack(t, i, "", cells[0]);
    assert "" + cells[0] == cells[0];
    var j := i + |Piped(cells[0])|;
    assert t[j..] == t[i..][|Piped(cells[0])|..];
    if |cells| > 1 {
      assert t[j..][0] == t[j] == '|' && t[j..][1..] == t[j + 1..];
      CellsReadBack(t, j + 1, cells[1..]);
      assert cells == [cells[0]] + cells[1..];
    }
  }

  lemma TrimTextIs(s: string)
    requires s != "" && !IsSpace(s[0]) && !IsSpace(s[|s| - 1])
    ensures TrimText(s) == s
  {
    hide IsSpace;
    assert Indent(s) == 0 && s[0..] == s;
  }

  lemma RowTextOf(text: string)
    ensures RowText("|" + text + "|") == text
  {
    var row := "|" + text + "|";
    assert !IsSpace('|');
    TrimTextIs(row);
    hide TrimText, IsSpace;
    assert row[1..] == text + "|" && (text + "|")[..|text|] == text;
  }

  // Cells written between pipes, their own pipes behind backslashes, are read as they were.
  lemma RowReadsBack(cells: seq<string>)
    requires cells != [] && forall k :: 0 <= k < |cells| ==> '\\' !in cells[k]
    ensures Cells("|" + PipedAll(cells) + "|") == cells
  {
    hide PipedAll, RowText;
    var text := PipedAll(cells);
    RowTextOf(text);
    assert text[0..] == text;
    CellsReadBack(text, 0, cells);
  }

  function LowerCase(c: char): char {
    if 'A' <= c <= 'Z' then c - 'A' + 'a' else c
  }

  // An <img> tag, after spaces, in either case.
  predicate StartsImage(line: string) {
    var rest := line[Indent(line)..];
    && |rest| >= 4 && rest[0] == '<'
    && LowerCase(rest[1]) == 'i' && LowerCase(rest[2]) == 'm' && LowerCase(rest[3]) == 'g'
    && (|rest| == 4 || !IsWord(rest[4]))
  }

  datatype ListLine = ListLine(indent: nat, ordered: bool, content: string)

  predicate NoLineBreak(s: string) {
    forall i :: 0 <= i < |s| ==> s[i] !in "\n\r\U{2028}\U{2029}"
  }

  // Spaces, a bullet or a number with a stop, a space or more, the content.
  function ListItem(line: string): (r: Option<ListLine>)
    ensures r.Some? ==> r.value.indent == Indent(line) < |line|
  {
    var indent := Indent(line);
    var rest := line[indent..];
    var digits := Span(IsDigit, rest);
    var marker :=
      if rest != "" && rest[0] in "-*+" then 1
      else if 0 < digits < |rest| && rest[digits] in ".)" then digits + 1
      else 0;
    var gap := Indent(rest[marker..]);
    var content := rest[marker..][gap..];
    if marker == 0 || gap == 0 || !NoLineBreak(content) then None
    else Some(ListLine(indent, digits > 0, content))
  }

  // A line that begins, after spaces, with an angle; and what is left when it and a
  // space after it are taken off.
  function Quoted(line: string): (r: Option<string>)
    ensures r.Some? ==> |r.value| < |line|
  {
    var indent := Indent(line);
    if indent == |line| || line[indent] != '>' then None
    else
      var rest := line[indent + 1..];
      Some(if rest != "" && IsSpace(rest[0]) then rest[1..] else rest)
  }

  predicate StartsTable(line: string, next: string) {
    '|' in line && IsDelimiterRow(next) && |Cells(line)| == |Cells(next)|
  }

  function LineAt(lines: seq<string>, i: nat): string {
    if i < |lines| then lines[i] else ""
  }

  predicate InterruptsParagraph(line: string, next: string) {
    || StartsHeading(line) || ListItem(line).Some? || Quoted(line).Some? || FenceMarks(line) > 0
    || StartsTable(line, next) || (StartsHtml(line) && !StartsImage(line))
  }

  predicate ClosesFence(line: string, fence: Fence) {
    var trimmed := TrimText(line);
    |trimmed| >= fence.length && forall i :: 0 <= i < |trimmed| ==> trimmed[i] == fence.marker
  }

  // ----- Lines ----------------------------------------------------------------------------

  // The first place from `k` on where it stops, or the end.
  function Until(stop: nat -> bool, k: nat, n: nat): (r: nat)
    requires k <= n
    ensures k <= r <= n && (forall j :: k <= j < r ==> !stop(j)) && (r < n ==> stop(r))
    decreases n - k
  {
    if k == n || stop(k) then k else Until(stop, k + 1, n)
  }

  // From `i` to `k` it has not stopped.
  ghost predicate Upto(stop: nat -> bool, i: nat, k: nat, n: nat) {
    i <= k <= n && Until(stop, i, n) == Until(stop, k, n)
  }

  lemma UptoNext(stop: nat -> bool, i: nat, k: nat, n: nat)
    requires Upto(stop, i, k, n) && k < n && !stop(k)
    ensures Upto(stop, i, k + 1, n)
  {
  }

  lemma UptoStop(stop: nat -> bool, i: nat, k: nat, n: nat)
    requires Upto(stop, i, k, n) && (k < n ==> stop(k))
    ensures Until(stop, i, n) == k
  {
  }

  function HasTextAt(lines: seq<string>): nat -> bool {
    (k: nat) => k < |lines| && !IsBlank(lines[k])
  }

  // The first line with text from `i` on.
  function TextFrom(lines: seq<string>, i: nat): (r: nat)
    requires i <= |lines|
    ensures i <= r <= |lines| && (r < |lines| ==> !IsBlank(lines[r]))
  {
    Until(HasTextAt(lines), i, |lines|)
  }

  function ClosesAt(lines: seq<string>, fence: Fence): nat -> bool {
    (k: nat) => k < |lines| && ClosesFence(lines[k], fence)
  }

  predicate IsRow(line: string) {
    !IsBlank(line) && '|' in line
  }

  function EndsTable(lines: seq<string>): nat -> bool {
    (k: nat) => k < |lines| && !IsRow(lines[k])
  }

  // Whether a quote takes the line: quoted itself, or lazily going on with a line before.
  predicate InQuote(lines: seq<string>, i: nat, lazy: bool)
    requires i < |lines|
  {
    Quoted(lines[i]).Some? ||
    (lazy && !IsBlank(lines[i]) && !InterruptsParagraph(lines[i], LineAt(lines, i + 1)) && !IsThematicBreak(lines[i]))
  }

  function EndsQuote(lines: seq<string>): nat -> bool {
    (k: nat) => k < |lines| && !InQuote(lines, k, true)
  }

  function Unquoted(line: string): (r: string)
    ensures |r| <= |line| && (Quoted(line).Some? ==> |r| < |line|)
  {
    if Quoted(line).Some? then Quoted(line).value else line
  }

  function Unquotes(lines: seq<string>, i: nat, k: nat): (r: seq<string>)
    requires i <= k <= |lines|
    ensures |r| == k - i
  {
    if i == k then [] else Unquotes(lines, i, k - 1) + [Unquoted(lines[k - 1])]
  }

  // A line that would make the paragraph before it a heading.
  predicate Underlines(lines: seq<string>, k: nat) {
    && k < |lines| && IsSetextUnderline(lines[k])
    && !IsBlank(lines[k]) && !InterruptsParagraph(lines[k], LineAt(lines, k + 1))
  }

  function EndsParagraph(lines: seq<string>): nat -> bool {
    (k: nat) => k < |lines| && (
      IsBlank(lines[k]) || InterruptsParagraph(lines[k], LineAt(lines, k + 1)) ||
      IsSetextUnderline(lines[k]) || IsThematicBreak(lines[k]))
  }

  function Trimmed(lines: seq<string>, i: nat, k: nat): (r: seq<string>)
    requires i <= k <= |lines|
    ensures |r| == k - i
  {
    if i == k then [] else Trimmed(lines, i, k - 1) + [TrimText(lines[k - 1])]
  }

  // An indented line under an item that is no item of its own.
  predicate GoesUnder(line: string) {
    !IsBlank(line) && ListItem(line).None? && Indent(line) > 0
  }

  function EndsItem(lines: seq<string>): nat -> bool {
    (k: nat) => k < |lines| && (!GoesUnder(lines[k]) || IsSetextUnderline(lines[k]) || IsThematicBreak(lines[k]))
  }

  predicate UnderlinesItem(lines: seq<string>, k: nat) {
    k < |lines| && GoesUnder(lines[k]) && IsSetextUnderline(lines[k])
  }

  // What an item says on its own line and the lines under it up to `k`.
  function ItemText(lines: seq<string>, i: nat, k: nat): string
    requires i < k <= |lines| && ListItem(lines[i]).Some?
  {
    JoinBy([ListItem(lines[i]).value.content] + Trimmed(lines, i + 1, k), ' ')
  }

  function EndsIndented(lines: seq<string>, indent: nat): nat -> bool {
    (k: nat) => k < |lines| && (IsBlank(lines[k]) || Indent(lines[k]) < indent)
  }

  // The end of the lines indented at least as far as line `t`.
  function IndentedEnd(lines: seq<string>, t: nat): (r: nat)
    requires t < |lines|
    ensures t <= r <= |lines| && forall j :: t <= j < r ==> Indent(lines[t]) <= |lines[j]|
  {
    var stop := EndsIndented(lines, Indent(lines[t]));
    var r := Until(stop, t, |lines|);
    assert forall j :: t <= j < r ==> Indent(lines[t]) <= Indent(lines[j]) by {
      forall j | t <= j < r
        ensures Indent(lines[t]) <= Indent(lines[j])
      {
        assert !stop(j);
      }
    }
    r
  }

  function Dedented(lines: seq<string>, i: nat, k: nat, indent: nat): (r: seq<string>)
    requires i <= k <= |lines| && forall j :: i <= j < k ==> indent <= |lines[j]|
    ensures |r| == k - i
  {
    if i == k then [] else Dedented(lines, i, k - 1, indent) + [lines[k - 1][indent..]]
  }

  // ----- Text and its lines -----------------------------------------------------------------

  // Every line ending as a newline.
  function Normalised(s: string): string {
    if s == "" then ""
    else if s[0] == '\r' then "\n" + Normalised(if |s| > 1 && s[1] == '\n' then s[2..] else s[1..])
    else [s[0]] + Normalised(s[1..])
  }

  function LinesOf(markdown: string): seq<string> {
    Split(Normalised(markdown), '\n')
  }

  lemma {:induction false} NormalisedLacksReturns(s: string)
    ensures Lacks(Normalised(s), '\r')
    ensures Lacks(s, '\r') ==> Normalised(s) == s
  {
    if s != "" {
      if s[0] == '\r' {
        NormalisedLacksReturns(if |s| > 1 && s[1] == '\n' then s[2..] else s[1..]);
      } else {
        NormalisedLacksReturns(s[1..]);
        assert Lacks(s, '\r') ==> Lacks(s[1..], '\r');
        assert [s[0]] + s[1..] == s;
      }
    }
  }

  lemma {:induction false} JoinLacks(parts: seq<string>, sep: char, c: char)
    requires c != sep && forall i :: 0 <= i < |parts| ==> Lacks(parts[i], c)
    ensures Lacks(JoinBy(parts, sep), c)
  {
    if |parts| > 1 {
      JoinLacks(parts[1..], sep, c);
    }
  }

  // A document's lines hold no line ending.
  lemma {:induction false} LinesAreClean(s: string, c: char)
    requires Lacks(s, c)
    ensures forall i :: 0 <= i < |Split(s, '\n')| ==> Lacks(Split(s, '\n')[i], '\n') && Lacks(Split(s, '\n')[i], c)
    decreases |s|
  {
    var i := IndexOf(s, '\n');
    IndexIsFirst(s, '\n');
    assert Lacks(s[..i], '\n') && Lacks(s[..i], c);
    if i < |s| {
      assert Lacks(s[i + 1..], c);
      LinesAreClean(s[i + 1..], c);
    } else {
      assert s[..i] == s;
    }
  }

  lemma {:induction false} IndexIsFirst(s: string, c: char)
    ensures forall k :: 0 <= k < IndexOf(s, c) ==> s[k] != c
  {
    if s != "" && s[0] != c {
      IndexIsFirst(s[1..], c);
    }
  }

  // Lines that hold no line ending.
  ghost predicate Clean(lines: seq<string>) {
    forall i :: 0 <= i < |lines| ==> Lacks(lines[i], '\n') && Lacks(lines[i], '\r')
  }

  lemma DocumentIsClean(markdown: string)
    ensures Clean(LinesOf(markdown))
  {
    NormalisedLacksReturns(markdown);
    LinesAreClean(Normalised(markdown), '\r');
  }

  // Lines joined and parsed as a document of their own are parsed as those lines.
  lemma BodyIsItsLines(body: seq<string>)
    requires body != [] && Clean(body)
    ensures LinesOf(JoinBy(body, '\n')) == body
  {
    JoinLacks(body, '\n', '\r');
    NormalisedLacksReturns(JoinBy(body, '\n'));
    SplitJoin(body, '\n');
  }

  // ----- What the lines of a document mean ------------------------------------------------

  // The form a block takes is the first that its line has.
  predicate FormOf(lines: seq<string>, i: nat, b: Block)
    requires i < |lines|
  {
    if FenceOf(lines[i]).Some? then b.CodeBlock? && b.lang == FenceOf(lines[i]).value.lang
    else if HeadingOf(lines[i]).Some? then b.Heading? && b.depth == HeadingOf(lines[i]).value.depth
    else if IsThematicBreak(lines[i]) then b.ThematicBreak?
    else if i + 1 < |lines| && StartsTable(lines[i], lines[i + 1]) then b.Table?
    else if Quoted(lines[i]).Some? then b.Quote?
    else if ListItem(lines[i]).Some? then b.List? && b.ordered == ListItem(lines[i]).value.ordered
    else b.Paragraph? && !b.tight
  }

  ghost predicate RowReads(g: Grammar, cells: seq<string>, row: seq<seq<Inline>>) {
    |row| == |cells| && forall k :: 0 <= k < |cells| ==> SpeltAll(g, TrimText(cells[k]), row[k])
  }

  ghost predicate TableReads(g: Grammar, lines: seq<string>, i: nat, to_: nat, b: Block)
    requires b.Table?
  {
    && i + 1 < |lines|
    && to_ == Until(EndsTable(lines), i + 2, |lines|)
    && RowReads(g, Cells(lines[i]), b.header)
    && |b.rows| == to_ - i - 2
    && forall k :: i + 2 <= k < to_ ==> RowReads(g, Cells(lines[k]), b.rows[k - i - 2])
  }

  ghost predicate FenceReads(lines: seq<string>, i: nat, to_: nat, b: Block)
    requires i < |lines| && b.CodeBlock?
  {
    FenceOf(lines[i]).Some? &&
    var close := Until(ClosesAt(lines, FenceOf(lines[i]).value), i + 1, |lines|);
    close < |lines| && to_ == close + 1 && b.body == lines[i + 1..close]
  }

  ghost predicate ParagraphReads(g: Grammar, lines: seq<string>, i: nat, to_: nat, children: seq<Inline>)
    requires i < |lines|
  {
    if StartsImage(lines[i]) then
      to_ == i + 1 && SpeltAll(g, TrimText(lines[i]), children)
    else
      && !StartsHtml(lines[i])
      && to_ == Until(EndsParagraph(lines), i + 1, |lines|) && !Underlines(lines, to_)
      && SpeltAll(g, JoinBy(Trimmed(lines, i, to_), ' '), children)
  }

  // The lines from `i` to `to_` are the block.
  ghost predicate ReadsBlock(g: Grammar, lines: seq<string>, i: nat, to_: nat, b: Block)
    requires i < |lines|
    decreases b, 0
  {
    && FormOf(lines, i, b)
    && i < to_ <= |lines|
    && match b
       case CodeBlock(_, _) => FenceReads(lines, i, to_, b)
       case Heading(_, children) => to_ == i + 1 && HeadingOf(lines[i]).Some? && SpeltAll(g, HeadingOf(lines[i]).value.text, children)
       case ThematicBreak => to_ == i + 1
       case Table(_, _) => TableReads(g, lines, i, to_, b)
       case Quote(blocks) =>
         to_ == Until(EndsQuote(lines), i + 1, |lines|) && Reads(g, Unquotes(lines, i, to_), 0, blocks)
       case List(_, items) => IsItem(lines, i) && ItemsRead(g, lines, i, i, to_, items)
       case Paragraph(_, children) => ParagraphReads(g, lines, i, to_, children)
  }

  // The lines from `i` on are the blocks, with nothing but blank lines between.
  ghost predicate Reads(g: Grammar, lines: seq<string>, i: nat, blocks: seq<Block>)
    requires i <= |lines|
    decreases blocks, 0
  {
    var t := TextFrom(lines, i);
    if blocks == [] then t == |lines|
    else
      && t < |lines|
      && exists next: nat :: next <= |lines| && ReadsBlock(g, lines, t, next, blocks[0]) && Reads(g, lines, next, blocks[1..])
  }

  // A blank line within a list counts for nothing when an item follows it.
  function Resume(lines: seq<string>, i: nat): (r: nat)
    requires i <= |lines|
    ensures i <= r <= |lines|
  {
    if i < |lines| && IsBlank(lines[i]) && ListItem(LineAt(lines, i + 1)).Some? then i + 1 else i
  }

  predicate IsItem(lines: seq<string>, i: nat) {
    i < |lines| && ListItem(lines[i]).Some?
  }

  // An item of the list that starts at `start`: of its indent and its kind.
  predicate SameList(lines: seq<string>, start: nat, i: nat)
    requires IsItem(lines, start)
  {
    && IsItem(lines, i)
    && var first, here := ListItem(lines[start]).value, ListItem(lines[i]).value;
       here.indent == first.indent && here.ordered == first.ordered
  }

  // What stands at `i` belongs to the item before it: an item deeper in, or, past blank
  // lines, an indented line that is no rule.
  predicate Hanging(lines: seq<string>, start: nat, i: nat)
    requires IsItem(lines, start) && i <= |lines|
  {
    var base := ListItem(lines[start]).value.indent;
    if IsItem(lines, i) then ListItem(lines[i]).value.indent > base
    else
      var t := TextFrom(lines, i);
      t < |lines| && !IsThematicBreak(lines[t]) && Indent(lines[t]) > base
  }

  // The lines from `i` to `to_` are the items left of the list.
  ghost predicate ItemsRead(g: Grammar, lines: seq<string>, start: nat, i: nat, to_: nat, items: seq<Item>)
    requires IsItem(lines, start) && i <= |lines|
    decreases items, 0
  {
    var r := Resume(lines, i);
    if items == [] then to_ == r && !SameList(lines, start, r)
    else
      && SameList(lines, start, r)
      && exists next: nat :: next <= |lines| && ItemReads(g, lines, start, r, next, items[0])
           && ItemsRead(g, lines, start, next, to_, items[1..])
  }

  // One item: its own paragraph, and whatever else belongs to it.
  ghost predicate ItemReads(g: Grammar, lines: seq<string>, start: nat, i: nat, to_: nat, item: Item)
    requires IsItem(lines, start) && IsItem(lines, i)
    decreases item, 0
  {
    var k := Until(EndsItem(lines), i + 1, |lines|);
    && !UnderlinesItem(lines, k)
    && item.blocks != [] && item.blocks[0].Paragraph? && item.blocks[0].tight
    && SpeltAll(g, ItemText(lines, i, k), item.blocks[0].children)
    && Belongs(g, lines, start, k, to_, item.blocks[1..])
  }

  function FirstOf(blocks: seq<Block>, m: nat): (r: seq<Block>)
    requires m <= |blocks|
    ensures r == blocks[..m]
  {
    if m == |blocks| then blocks else blocks[..m]
  }

  ghost predicate Belongs(g: Grammar, lines: seq<string>, start: nat, i: nat, to_: nat, blocks: seq<Block>)
    requires IsItem(lines, start) && i <= |lines|
    decreases blocks, 2
  {
    var r := Resume(lines, i);
    if blocks == [] then to_ == r && !Hanging(lines, start, r)
    else
      && Hanging(lines, start, r)
      && exists m: nat, next: nat :: 0 < m <= |blocks| && next <= |lines|
           && Hangs(g, lines, r, next, FirstOf(blocks, m)) && Belongs(g, lines, start, next, to_, blocks[m..])
  }

  // A nested list, or the blocks of the lines indented as far as the first.
  ghost predicate Hangs(g: Grammar, lines: seq<string>, i: nat, to_: nat, blocks: seq<Block>)
    requires i <= |lines|
    decreases blocks, 1
  {
    if IsItem(lines, i) then
      && |blocks| == 1 && blocks[0].List? && blocks[0].ordered == ListItem(lines[i]).value.ordered
      && ItemsRead(g, lines, i, i, to_, blocks[0].items)
    else
      var t := TextFrom(lines, i);
      && t < |lines|
      && var indent := Indent(lines[t]);
      && to_ == IndentedEnd(lines, t)
      && Reads(g, Dedented(lines, t, to_, indent), 0, blocks)
  }

  // A document is empty exactly when no line has text.
  lemma EmptyDocument(g: Grammar, lines: seq<string>)
    ensures Reads(g, lines, 0, []) <==> forall i :: 0 <= i < |lines| ==> IsBlank(lines[i])
  {
    hide IsBlank;
    var t := TextFrom(lines, 0);
    forall i | 0 <= i < t
      ensures IsBlank(lines[i])
    {
      assert !HasTextAt(lines)(i);
    }
  }

  // ----- One document ---------------------------------------------------------------------

  lemma RowOnce(g: Grammar, cells: seq<string>, m: seq<seq<Inline>>, n: seq<seq<Inline>>)
    requires RowReads(g, cells, m) && RowReads(g, cells, n)
    ensures m == n
  {
    hide Spelt, TrimText;
    forall k | 0 <= k < |cells|
      ensures m[k] == n[k]
    {
      SpeltOnce(g, TrimText(cells[k]), m[k], n[k]);
    }
  }

  lemma TableOnce(g: Grammar, lines: seq<string>, i: nat, a: nat, b: nat, m: Block, n: Block)
    requires i + 1 < |lines| && m.Table? && n.Table?
    requires TableReads(g, lines, i, a, m) && TableReads(g, lines, i, b, n)
    ensures a == b && m == n
  {
    hide RowReads;
    RowOnce(g, Cells(lines[i]), m.header, n.header);
    forall k | 0 <= k < |m.rows|
      ensures m.rows[k] == n.rows[k]
    {
      RowOnce(g, Cells(lines[i + 2 + k]), m.rows[k], n.rows[k]);
    }
  }

  lemma ParagraphOnce(g: Grammar, lines: seq<string>, i: nat, a: nat, b: nat, m: seq<Inline>, n: seq<Inline>)
    requires i < |lines| && ParagraphReads(g, lines, i, a, m) && ParagraphReads(g, lines, i, b, n)
    ensures a == b && m == n
  {
    hide Spelt, TrimText, Underlines;
    SpeltOnce(g, if StartsImage(lines[i]) then TrimText(lines[i]) else JoinBy(Trimmed(lines, i, a), ' '), m, n);
  }

  lemma {:induction false} BlockOnce(g: Grammar, lines: seq<string>, i: nat, a: nat, b: nat, m: Block, n: Block)
    requires i < |lines| && ReadsBlock(g, lines, i, a, m) && ReadsBlock(g, lines, i, b, n)
    ensures a == b && m == n
    decreases m, 0
  {
    hide Spelt, Reads, ItemsRead, TableReads, ParagraphReads, ListItem, Quoted, StartsTable, FenceOf, HeadingOf, IsThematicBreak;
    match m
    case Heading(_, children) => SpeltOnce(g, HeadingOf(lines[i]).value.text, children, n.children);
    case Table(_, _) => TableOnce(g, lines, i, a, b, m, n);
    case Quote(blocks) => ReadsOnce(g, Unquotes(lines, i, a), 0, blocks, n.blocks);
    case List(_, items) => ItemsOnce(g, lines, i, i, a, b, items, n.items);
    case Paragraph(_, children) => ParagraphOnce(g, lines, i, a, b, children, n.children);
    case _ =>
  }

  // No lines are two documents.
  lemma {:induction false} ReadsOnce(g: Grammar, lines: seq<string>, i: nat, m: seq<Block>, n: seq<Block>)
    requires i <= |lines| && Reads(g, lines, i, m) && Reads(g, lines, i, n)
    ensures m == n
    decreases m, 0
  {
    if m != [] && n != [] {
      var t := TextFrom(lines, i);
      var p: nat :| p <= |lines| && ReadsBlock(g, lines, t, p, m[0]) && Reads(g, lines, p, m[1..]);
      var q: nat :| q <= |lines| && ReadsBlock(g, lines, t, q, n[0]) && Reads(g, lines, q, n[1..]);
      hide Reads, ReadsBlock;
      BlockOnce(g, lines, t, p, q, m[0], n[0]);
      ReadsOnce(g, lines, p, m[1..], n[1..]);
      assert m == [m[0]] + m[1..] && n == [n[0]] + n[1..];
    }
  }

  lemma SameTails<T>(m: seq<T>, n: seq<T>, j: nat, k: nat)
    requires j <= |m| && k <= |n| && m[..j] == n[..k] && m[j..] == n[k..]
    ensures m == n
  {
    assert m == m[..j] + m[j..] && n == n[..k] + n[k..];
  }

  lemma FirstItem(g: Grammar, lines: seq<string>, start: nat, i: nat, to_: nat, items: seq<Item>) returns (next: nat)
    requires IsItem(lines, start) && i <= |lines| && ItemsRead(g, lines, start, i, to_, items) && items != []
    ensures var r := Resume(lines, i);
      && next <= |lines| && IsItem(lines, r) && SameList(lines, start, r) && ItemReads(g, lines, start, r, next, items[0])
      && ItemsRead(g, lines, start, next, to_, items[1..])
  {
    hide ItemReads, ListItem;
    next :| next <= |lines| && ItemReads(g, lines, start, Resume(lines, i), next, items[0])
      && ItemsRead(g, lines, start, next, to_, items[1..]);
  }

  lemma {:induction false} ItemsOnce(g: Grammar, lines: seq<string>, start: nat, i: nat, a: nat, b: nat,
                                     m: seq<Item>, n: seq<Item>)
    requires IsItem(lines, start) && i <= |lines|
    requires ItemsRead(g, lines, start, i, a, m) && ItemsRead(g, lines, start, i, b, n)
    ensures a == b && m == n
    decreases m, 0
  {
    hide ItemReads, ListItem, SameList, Resume;
    if m != [] && n != [] {
      hide ItemsRead;
      var p := FirstItem(g, lines, start, i, a, m);
      var q := FirstItem(g, lines, start, i, b, n);
      ItemOnce(g, lines, start, Resume(lines, i), p, q, m[0], n[0]);
      ItemsOnce(g, lines, start, p, a, b, m[1..], n[1..]);
      SameTails(m, n, 1, 1);
    }
  }

  lemma {:induction false} ItemOnce(g: Grammar, lines: seq<string>, start: nat, i: nat, a: nat, b: nat, m: Item, n: Item)
    requires IsItem(lines, start) && IsItem(lines, i)
    requires ItemReads(g, lines, start, i, a, m) && ItemReads(g, lines, start, i, b, n)
    ensures a == b && m == n
    decreases m, 0
  {
    hide Spelt, Belongs, ListItem;
    var k := Until(EndsItem(lines), i + 1, |lines|);
    SpeltOnce(g, ItemText(lines, i, k), m.blocks[0].children, n.blocks[0].children);
    BelongsOnce(g, lines, start, k, a, b, m.blocks[1..], n.blocks[1..]);
    assert m.blocks == [m.blocks[0]] + m.blocks[1..] && n.blocks == [n.blocks[0]] + n.blocks[1..];
  }

  lemma FirstHanging(g: Grammar, lines: seq<string>, start: nat, i: nat, to_: nat, blocks: seq<Block>)
    returns (m: nat, next: nat)
    requires IsItem(lines, start) && i <= |lines| && Belongs(g, lines, start, i, to_, blocks) && blocks != []
    ensures 0 < m <= |blocks| && next <= |lines| && Hanging(lines, start, Resume(lines, i))
    ensures Hangs(g, lines, Resume(lines, i), next, FirstOf(blocks, m))
    ensures Belongs(g, lines, start, next, to_, blocks[m..])
  {
    hide Hangs, ListItem;
    m, next :| 0 < m <= |blocks| && next <= |lines|
      && Hangs(g, lines, Resume(lines, i), next, FirstOf(blocks, m)) && Belongs(g, lines, start, next, to_, blocks[m..]);
  }

  lemma {:induction false} BelongsOnce(g: Grammar, lines: seq<string>, start: nat, i: nat, a: nat, b: nat,
                                       m: seq<Block>, n: seq<Block>)
    requires IsItem(lines, start) && i <= |lines|
    requires Belongs(g, lines, start, i, a, m) && Belongs(g, lines, start, i, b, n)
    ensures a == b && m == n
    decreases m, 2
  {
    hide Hangs, Hanging, ListItem;
    if m != [] && n != [] {
      hide Belongs;
      var j, p := FirstHanging(g, lines, start, i, a, m);
      var k, q := FirstHanging(g, lines, start, i, b, n);
      HangsOnce(g, lines, Resume(lines, i), p, q, FirstOf(m, j), FirstOf(n, k));
      BelongsOnce(g, lines, start, p, a, b, m[j..], n[k..]);
      SameTails(m, n, j, k);
    }
  }

  lemma {:induction false} HangsOnce(g: Grammar, lines: seq<string>, i: nat, a: nat, b: nat, m: seq<Block>, n: seq<Block>)
    requires i <= |lines| && Hangs(g, lines, i, a, m) && Hangs(g, lines, i, b, n)
    ensures a == b && m == n
    decreases m, 1
  {
    hide ItemsRead, Reads, ListItem;
    if IsItem(lines, i) {
      ItemsOnce(g, lines, i, i, a, b, m[0].items, n[0].items);
      assert m == [m[0]] && n == [n[0]];
    } else {
      var t := TextFrom(lines, i);
      ReadsOnce(g, Dedented(lines, t, a, Indent(lines[t])), 0, m, n);
    }
  }

  // ----- What the parser does with them ----------------------------------------------------

  // Characters and lines from `i` on: what every recursion has less of.
  function SizeFrom(lines: seq<string>, i: nat): nat
    requires i <= |lines|
    decreases |lines| - i
  {
    if i == |lines| then 0 else |lines[i]| + 1 + SizeFrom(lines, i + 1)
  }

  function Size(lines: seq<string>): nat {
    SizeFrom(lines, 0)
  }

  lemma {:induction false} SizeDrop(lines: seq<string>, i: nat, j: nat)
    requires i <= j <= |lines|
    ensures SizeFrom(lines, j) + (j - i) <= SizeFrom(lines, i)
    decreases j - i
  {
    if i < j {
      SizeDrop(lines, i + 1, j);
    }
  }

  lemma {:induction false} SizeAppend(lines: seq<string>, line: string, i: nat)
    requires i <= |lines|
    ensures SizeFrom(lines + [line], i) == SizeFrom(lines, i) + |line| + 1
    decreases |lines| - i
  {
    if i < |lines| {
      SizeAppend(lines, line, i + 1);
    } else {
      assert SizeFrom(lines + [line], i + 1) == 0;
    }
  }

  datatype Parsed = Parsed(node: Block, next: nat)

  // What stands at `i` is no block.
  ghost predicate NoBlock(g: Grammar, lines: seq<string>, i: nat)
    requires i < |lines|
  {
    forall next, b :: !ReadsBlock(g, lines, i, next, b)
  }

  // The block at `i`, or an error where there is none.
  ghost predicate BlockOk(g: Grammar, lines: seq<string>, i: nat, r: Result<Parsed>)
    requires i < |lines|
  {
    match r
    case Ok(p) => i < p.next <= |lines| && ReadsBlock(g, lines, i, p.next, p.node)
    case Unsupported(_) => NoBlock(g, lines, i)
  }

  // Every cell is read on its own, in order.
  method ParseRow(g: Grammar, cells: seq<string>, line: nat) returns (r: Result<seq<seq<Inline>>>)
    ensures r.Ok? ==> RowReads(g, cells, r.value)
    ensures r.Unsupported? ==> forall row :: !RowReads(g, cells, row)
  {
    var out: seq<seq<Inline>> := [];
    hide Spelt, TrimText;
    for i := 0 to |cells|
      invariant |out| == i && forall k :: 0 <= k < i ==> SpeltAll(g, TrimText(cells[k]), out[k])
    {
      var cell := ParseInline(g, TrimText(cells[i]), line);
      if cell.Unsupported? {
        assert forall row :: RowReads(g, cells, row) ==> SpeltAll(g, TrimText(cells[i]), row[i]);
        return Unsupported(cell.line);
      }
      out := out + [cell.value];
    }
    return Ok(out);
  }

  // The lines of a fence up to the first that closes it, as they are.
  method ParseFence(g: Grammar, lines: seq<string>, i: nat) returns (r: Result<Parsed>)
    requires i < |lines| && FenceOf(lines[i]).Some?
    ensures BlockOk(g, lines, i, r)
  {
    hide ClosesFence, Until, ReadsBlock, FenceOf;
    var fence := FenceOf(lines[i]).value;
    var body: seq<string> := [];
    var k := i + 1;
    while k < |lines| && !ClosesFence(lines[k], fence)
      invariant Upto(ClosesAt(lines, fence), i + 1, k, |lines|) && body == lines[i + 1..k]
    {
      UptoNext(ClosesAt(lines, fence), i + 1, k, |lines|);
      body := body + [lines[k]];
      k := k + 1;
    }
    UptoStop(ClosesAt(lines, fence), i + 1, k, |lines|);
    FenceIs(g, lines, i);
    if k == |lines| { return Unsupported(i + 1); }
    return Ok(Parsed(CodeBlock(fence.lang, body), k + 1));
  }

  lemma FenceIs(g: Grammar, lines: seq<string>, i: nat)
    requires i < |lines| && FenceOf(lines[i]).Some?
    ensures var fence := FenceOf(lines[i]).value;
      var close := Until(ClosesAt(lines, fence), i + 1, |lines|);
      if close == |lines| then NoBlock(g, lines, i)
      else ReadsBlock(g, lines, i, close + 1, CodeBlock(fence.lang, lines[i + 1..close]))
  {
    hide ClosesFence, FenceOf, Reads, ItemsRead, Spelt, TableReads, ParagraphReads;
  }

  // A header, its delimiter row, and a row for each line after them that has a pipe.
  method ParseTable(g: Grammar, lines: seq<string>, i: nat) returns (r: Result<Parsed>)
    requires i + 1 < |lines|
    ensures r.Ok? ==> r.value.node.Table? && i < r.value.next <= |lines| && TableReads(g, lines, i, r.value.next, r.value.node)
    ensures r.Unsupported? ==> forall next, b: Block :: b.Table? ==> !TableReads(g, lines, i, next, b)
  {
    hide RowReads, IsRow, Until, Cells;
    var header := ParseRow(g, Cells(lines[i]), i + 1);
    if header.Unsupported? { return Unsupported(header.line); }
    var rows: seq<seq<seq<Inline>>> := [];
    var k := i + 2;
    while k < |lines| && IsRow(lines[k])
      invariant Upto(EndsTable(lines), i + 2, k, |lines|) && |rows| == k - i - 2
      invariant forall j :: i + 2 <= j < k ==> RowReads(g, Cells(lines[j]), rows[j - i - 2])
    {
      UptoNext(EndsTable(lines), i + 2, k, |lines|);
      var row := ParseRow(g, Cells(lines[k]), k + 1);
      if row.Unsupported? { return Unsupported(row.line); }
      rows := rows + [row.value];
      k := k + 1;
    }
    UptoStop(EndsTable(lines), i + 2, k, |lines|);
    return Ok(Parsed(Table(header.value, rows), k));
  }

  // The lines of a paragraph, of which the first is its own.
  method ParseParagraph(g: Grammar, lines: seq<string>, i: nat) returns (r: Result<Parsed>)
    requires i < |lines| && !IsBlank(lines[i]) && !StartsImage(lines[i]) && !StartsHtml(lines[i])
    ensures r.Ok? ==>
      && i < r.value.next <= |lines| && r.value.node.Paragraph? && !r.value.node.tight
      && ParagraphReads(g, lines, i, r.value.next, r.value.node.children)
    ensures r.Unsupported? ==> forall next, children :: !ParagraphReads(g, lines, i, next, children)
  {
    hide IsBlank, TrimText, Spelt, InterruptsParagraph, JoinBy, Until;
    var para: seq<string> := [];
    var k := i;
    while k < |lines| && !IsBlank(lines[k])
      invariant i <= k <= |lines| && para == Trimmed(lines, i, k)
      invariant if k == i then !IsBlank(lines[i]) else Upto(EndsParagraph(lines), i + 1, k, |lines|)
    {
      if |para| > 0 && InterruptsParagraph(lines[k], LineAt(lines, k + 1)) { break; }
      if |para| > 0 && IsSetextUnderline(lines[k]) {
        UptoStop(EndsParagraph(lines), i + 1, k, |lines|);
        return Unsupported(k + 1);
      }
      if |para| > 0 && IsThematicBreak(lines[k]) { break; }
      if k > i { UptoNext(EndsParagraph(lines), i + 1, k, |lines|); }
      para := para + [TrimText(lines[k])];
      k := k + 1;
    }
    UptoStop(EndsParagraph(lines), i + 1, k, |lines|);
    var children := ParseInline(g, JoinBy(para, ' '), i + 1);
    if children.Unsupported? { return Unsupported(children.line); }
    return Ok(Parsed(Paragraph(false, children.value), k));
  }

  lemma SizeUnquotes(lines: seq<string>, i: nat, k: nat)
    requires i < k <= |lines| && Quoted(lines[i]).Some?
    ensures Size(Unquotes(lines, i, k)) + SizeFrom(lines, k) < SizeFrom(lines, i)
    decreases k
  {
    hide Quoted, Unquoted;
    var body := Unquotes(lines, i, k - 1);
    SizeAppend(body, Unquoted(lines[k - 1]), 0);
    if k > i + 1 {
      SizeUnquotes(lines, i, k - 1);
    } else {
      assert Size([]) == 0;
    }
  }

  lemma {:induction false} UnquotesAreClean(lines: seq<string>, i: nat, k: nat)
    requires Clean(lines) && i <= k <= |lines|
    ensures Clean(Unquotes(lines, i, k))
    decreases k
  {
    hide Quoted, Unquoted, Lacks;
    if i < k {
      UnquotesAreClean(lines, i, k - 1);
      UnquotedIsClean(lines[k - 1]);
    }
  }

  lemma UnquotedIsClean(line: string)
    requires Lacks(line, '\n') && Lacks(line, '\r')
    ensures Lacks(Unquoted(line), '\n') && Lacks(Unquoted(line), '\r')
  {
    hide IsSpace, Span;
  }

  lemma {:induction false} DedentedAreClean(lines: seq<string>, i: nat, k: nat, indent: nat)
    requires Clean(lines) && i <= k <= |lines| && forall j :: i <= j < k ==> indent <= |lines[j]|
    ensures Clean(Dedented(lines, i, k, indent))
    decreases k
  {
    if i < k {
      DedentedAreClean(lines, i, k - 1, indent);
    }
  }

  // A quote's lines without their angles, and the lazy lines that go on with it: always
  // smaller than the lines they come from.
  method TakeQuote(lines: seq<string>, i: nat) returns (body: seq<string>, next: nat)
    requires i < |lines| && Quoted(lines[i]).Some?
    ensures i < next == Until(EndsQuote(lines), i + 1, |lines|) <= |lines|
    ensures body == Unquotes(lines, i, next) && Size(body) < SizeFrom(lines, i)
  {
    hide Quoted, Size, SizeFrom, InterruptsParagraph, IsBlank, Until;
    body, next := [], i;
    while next < |lines| && InQuote(lines, next, |body| > 0)
      invariant i <= next <= |lines| && body == Unquotes(lines, i, next)
      invariant next > i ==> Upto(EndsQuote(lines), i + 1, next, |lines|)
    {
      if next > i { UptoNext(EndsQuote(lines), i + 1, next, |lines|); }
      body := body + [Unquoted(lines[next])];
      next := next + 1;
    }
    UptoStop(EndsQuote(lines), i + 1, next, |lines|);
    SizeUnquotes(lines, i, next);
  }

  lemma {:induction false} SizeDedented(lines: seq<string>, i: nat, k: nat, indent: nat)
    requires i <= k <= |lines| && forall j :: i <= j < k ==> indent <= |lines[j]|
    ensures Size(Dedented(lines, i, k, indent)) + SizeFrom(lines, k) + (k - i) * indent == SizeFrom(lines, i)
    decreases k
  {
    if k > i {
      SizeDedented(lines, i, k - 1, indent);
      SizeAppend(Dedented(lines, i, k - 1, indent), lines[k - 1][indent..], 0);
    } else {
      assert Size([]) == 0;
    }
  }

  // The lines indented at least as far as the first, without that indent.
  method TakeIndented(lines: seq<string>, start: nat, t: nat) returns (body: seq<string>, next: nat)
    requires start < t < |lines| && !IsBlank(lines[t])
    ensures t < next == IndentedEnd(lines, t) <= |lines|
    ensures body == Dedented(lines, t, next, Indent(lines[t])) && Size(body) < SizeFrom(lines, start)
  {
    hide Size, SizeFrom, IsBlank, Indent, Until;
    var indent := Indent(lines[t]);
    body, next := [], t;
    while next < |lines| && !IsBlank(lines[next]) && Indent(lines[next]) >= indent
      invariant Upto(EndsIndented(lines, indent), t, next, |lines|) && next <= IndentedEnd(lines, t)
      invariant body == Dedented(lines, t, next, indent)
    {
      UptoNext(EndsIndented(lines, indent), t, next, |lines|);
      body := body + [lines[next][indent..]];
      next := next + 1;
    }
    UptoStop(EndsIndented(lines, indent), t, next, |lines|);
    SizeDedented(lines, t, next, indent);
    SizeDrop(lines, start, t);
  }

  // An item's own line and the indented lines that go on with it.
  method TakeItem(lines: seq<string>, i: nat) returns (r: Result<seq<string>>, next: nat)
    requires IsItem(lines, i)
    ensures i < next == Until(EndsItem(lines), i + 1, |lines|) <= |lines|
    ensures r.Ok? <==> !UnderlinesItem(lines, next)
    ensures r.Ok? ==> r.value == [ListItem(lines[i]).value.content] + Trimmed(lines, i + 1, next)
  {
    hide GoesUnder, ListItem, TrimText, Until;
    var out := [ListItem(lines[i]).value.content];
    next := i + 1;
    while next < |lines| && GoesUnder(lines[next])
      invariant Upto(EndsItem(lines), i + 1, next, |lines|)
      invariant out == [ListItem(lines[i]).value.content] + Trimmed(lines, i + 1, next)
    {
      if IsSetextUnderline(lines[next]) {
        UptoStop(EndsItem(lines), i + 1, next, |lines|);
        return Unsupported(next + 1), next;
      }
      if IsThematicBreak(lines[next]) { break; }
      UptoNext(EndsItem(lines), i + 1, next, |lines|);
      out := out + [TrimText(lines[next])];
      next := next + 1;
    }
    UptoStop(EndsItem(lines), i + 1, next, |lines|);
    return Ok(out), next;
  }

  // ----- Blocks ---------------------------------------------------------------------------

  // Every document of the lines begins with the blocks, and goes on from `i`.
  ghost predicate GoesOnAs(g: Grammar, lines: seq<string>, i: nat, blocks: seq<Block>, all: seq<Block>)
    requires i <= |lines|
  {
    |blocks| <= |all| && all[..|blocks|] == blocks && Reads(g, lines, i, all[|blocks|..])
  }

  lemma ReadsBlank(g: Grammar, lines: seq<string>, i: nat, blocks: seq<Block>)
    requires i < |lines| && IsBlank(lines[i])
    ensures Reads(g, lines, i, blocks) <==> Reads(g, lines, i + 1, blocks)
  {
    hide ReadsBlock;
    assert TextFrom(lines, i) == TextFrom(lines, i + 1);
  }

  lemma FirstBlock(g: Grammar, lines: seq<string>, i: nat, blocks: seq<Block>) returns (next: nat)
    requires i <= |lines| && Reads(g, lines, i, blocks) && blocks != []
    ensures var t := TextFrom(lines, i);
      t < |lines| && next <= |lines| && ReadsBlock(g, lines, t, next, blocks[0]) && Reads(g, lines, next, blocks[1..])
  {
    hide ReadsBlock, Until;
    next :| next <= |lines| && ReadsBlock(g, lines, TextFrom(lines, i), next, blocks[0]) && Reads(g, lines, next, blocks[1..]);
  }

  lemma ReadsMore(g: Grammar, lines: seq<string>, i: nat, next: nat, b: Block, rest: seq<Block>)
    requires i < |lines| && !IsBlank(lines[i]) && ReadsBlock(g, lines, i, next, b) && next <= |lines|
    ensures Reads(g, lines, i, rest) <==> rest != [] && rest[0] == b && Reads(g, lines, next, rest[1..])
  {
    hide ReadsBlock, IsBlank;
    assert TextFrom(lines, i) == i;
    if rest != [] && Reads(g, lines, i, rest) {
      var p := FirstBlock(g, lines, i, rest);
      hide Reads;
      BlockOnce(g, lines, i, next, p, b, rest[0]);
    }
  }

  lemma GoesOnBlank(g: Grammar, lines: seq<string>, i: nat, blocks: seq<Block>, all: seq<Block>)
    requires i < |lines| && IsBlank(lines[i])
    ensures GoesOnAs(g, lines, i, blocks, all) <==> GoesOnAs(g, lines, i + 1, blocks, all)
  {
    hide Reads, IsBlank;
    if |blocks| <= |all| { ReadsBlank(g, lines, i, all[|blocks|..]); }
  }

  lemma GoesOnMore(g: Grammar, lines: seq<string>, i: nat, next: nat, b: Block, blocks: seq<Block>, all: seq<Block>)
    requires i < |lines| && !IsBlank(lines[i]) && ReadsBlock(g, lines, i, next, b) && next <= |lines|
    ensures GoesOnAs(g, lines, i, blocks, all) <==> GoesOnAs(g, lines, next, blocks + [b], all)
  {
    hide Reads, ReadsBlock, IsBlank;
    var n := |blocks|;
    if n <= |all| {
      ReadsMore(g, lines, i, next, b, all[n..]);
      if n < |all| {
        assert all[n..][0] == all[n] && all[n..][1..] == all[n + 1..];
        assert all[..n + 1] == all[..n] + [all[n]];
        assert (blocks + [b])[..n] == blocks;
        assert all[..n + 1][..n] == all[..n];
      }
    }
  }

  lemma GoesOnNowhere(g: Grammar, lines: seq<string>, i: nat, blocks: seq<Block>, all: seq<Block>)
    requires i < |lines| && !IsBlank(lines[i]) && NoBlock(g, lines, i)
    ensures !GoesOnAs(g, lines, i, blocks, all)
  {
    hide ReadsBlock, IsBlank;
    assert TextFrom(lines, i) == i;
    if GoesOnAs(g, lines, i, blocks, all) && all[|blocks|..] != [] {
      var next := FirstBlock(g, lines, i, all[|blocks|..]);
    }
  }

  // A text is one document, which is what comes out, or none, which is an error. A quote's
  // lines, and an item's, are joined and parsed as a text of their own.
  method ParseMarkdown(g: Grammar, markdown: string) returns (r: Result<seq<Block>>)
    ensures r.Ok? ==> forall all :: Reads(g, LinesOf(markdown), 0, all) <==> all == r.value
    ensures r.Unsupported? ==> forall all :: !Reads(g, LinesOf(markdown), 0, all)
    decreases Size(LinesOf(markdown)), 1
  {
    hide Reads, ReadsBlock, NoBlock, IsBlank, GoesOnAs, Size, LinesOf, Clean;
    var lines := LinesOf(markdown);
    DocumentIsClean(markdown);
    var blocks: seq<Block> := [];
    var i := 0;
    forall all ensures Reads(g, lines, 0, all) <==> GoesOnAs(g, lines, 0, [], all) {
      GoesOnStarts(g, lines, all);
    }
    while i < |lines|
      invariant 0 <= i <= |lines|
      invariant forall all :: Reads(g, lines, 0, all) <==> GoesOnAs(g, lines, i, blocks, all)
      decreases |lines| - i
    {
      if IsBlank(lines[i]) {
        forall all ensures GoesOnAs(g, lines, i, blocks, all) <==> GoesOnAs(g, lines, i + 1, blocks, all) {
          GoesOnBlank(g, lines, i, blocks, all);
        }
        i := i + 1;
        continue;
      }
      var p := ParseBlock(g, lines, i);
      if p.Unsupported? {
        forall all ensures !GoesOnAs(g, lines, i, blocks, all) {
          GoesOnNowhere(g, lines, i, blocks, all);
        }
        return Unsupported(p.line);
      }
      var b, next := p.value.node, p.value.next;
      forall all ensures GoesOnAs(g, lines, i, blocks, all) <==> GoesOnAs(g, lines, next, blocks + [b], all) {
        GoesOnMore(g, lines, i, next, b, blocks, all);
      }
      blocks := blocks + [b];
      i := next;
    }
    forall all ensures GoesOnAs(g, lines, i, blocks, all) <==> all == blocks {
      GoesOnEnds(g, lines, blocks, all);
    }
    return Ok(blocks);
  }

  lemma GoesOnStarts(g: Grammar, lines: seq<string>, all: seq<Block>)
    ensures Reads(g, lines, 0, all) <==> GoesOnAs(g, lines, 0, [], all)
  {
    hide Reads;
    assert all[0..] == all && all[..0] == [];
  }

  lemma GoesOnEnds(g: Grammar, lines: seq<string>, blocks: seq<Block>, all: seq<Block>)
    ensures GoesOnAs(g, lines, |lines|, blocks, all) <==> all == blocks
  {
    hide ReadsBlock;
    if |blocks| <= |all| {
      assert all == all[..|blocks|] + all[|blocks|..];
      if |blocks| == |all| { assert all[|blocks|..] == []; }
    }
  }

  lemma FormIs(g: Grammar, lines: seq<string>, i: nat, next: nat, b: Block)
    requires i < |lines| && ReadsBlock(g, lines, i, next, b)
    ensures FormOf(lines, i, b)
    ensures b.Heading? ==> SpeltAll(g, HeadingOf(lines[i]).value.text, b.children)
    ensures b.Table? ==> i + 1 < |lines| && TableReads(g, lines, i, next, b)
    ensures b.Quote? ==> next == Until(EndsQuote(lines), i + 1, |lines|) && Reads(g, Unquotes(lines, i, next), 0, b.blocks)
    ensures b.List? ==> IsItem(lines, i) && ItemsRead(g, lines, i, i, next, b.items)
    ensures b.Paragraph? ==> ParagraphReads(g, lines, i, next, b.children)
  {
    hide Reads, ItemsRead, Spelt, TableReads, ParagraphReads, StartsTable, Quoted, ListItem, Until, FenceReads,
      FenceOf, HeadingOf, IsThematicBreak;
  }

  method ParseBlock(g: Grammar, lines: seq<string>, i: nat) returns (r: Result<Parsed>)
    requires i < |lines| && !IsBlank(lines[i]) && Clean(lines)
    ensures BlockOk(g, lines, i, r)
    decreases Size(lines), 0, 1
  {
    hide Reads, ItemsRead, Spelt, TableReads, FenceReads, StartsTable, Quoted, ListItem, IsBlank, Until, SizeFrom, TrimText,
      Clean, LinesOf, JoinBy, FenceOf, HeadingOf, IsThematicBreak, StartsImage, StartsHtml;
    var raw := lines[i];
    if FenceOf(raw).Some? {
      r := ParseFence(g, lines, i);
      return;
    }
    forall next, b | ReadsBlock(g, lines, i, next, b)
      ensures FormOf(lines, i, b)
      ensures b.Heading? ==> SpeltAll(g, HeadingOf(lines[i]).value.text, b.children)
      ensures b.Table? ==> i + 1 < |lines| && TableReads(g, lines, i, next, b)
      ensures b.Quote? ==> next == Until(EndsQuote(lines), i + 1, |lines|) && Reads(g, Unquotes(lines, i, next), 0, b.blocks)
      ensures b.List? ==> IsItem(lines, i) && ItemsRead(g, lines, i, i, next, b.items)
      ensures b.Paragraph? ==> ParagraphReads(g, lines, i, next, b.children)
    {
      FormIs(g, lines, i, next, b);
    }
    if HeadingOf(raw).Some? {
      var children := ParseInline(g, HeadingOf(raw).value.text, i + 1);
      if children.Unsupported? { return Unsupported(children.line); }
      r := Ok(Parsed(Heading(HeadingOf(raw).value.depth, children.value), i + 1));
    } else if IsThematicBreak(raw) {
      r := Ok(Parsed(ThematicBreak, i + 1));
    } else if i + 1 < |lines| && StartsTable(raw, lines[i + 1]) {
      r := ParseTable(g, lines, i);
    } else if Quoted(raw).Some? {
      var body, next := TakeQuote(lines, i);
      SizeDrop(lines, 0, i);
      UnquotesAreClean(lines, i, next);
      BodyIsItsLines(body);
      var inner := ParseMarkdown(g, JoinBy(body, '\n'));
      if inner.Unsupported? { return Unsupported(inner.line); }
      assert Reads(g, body, 0, inner.value);
      r := Ok(Parsed(Quote(inner.value), next));
    } else if ListItem(raw).Some? {
      SizeDrop(lines, 0, i);
      r := ParseList(g, lines, i);
    } else if StartsImage(raw) {
      var children := ParseInline(g, TrimText(raw), i + 1);
      if children.Unsupported? { return Unsupported(children.line); }
      r := Ok(Parsed(Paragraph(false, children.value), i + 1));
    } else if StartsHtml(raw) {
      r := Unsupported(i + 1);
    } else {
      r := ParseParagraph(g, lines, i);
    }
  }


  // ----- Lists ----------------------------------------------------------------------------

  // Every list of the lines begins with the items but the last, has that one so far, and
  // goes on from `i`.
  ghost predicate ListGoesOnAs(g: Grammar, lines: seq<string>, start: nat, i: nat, items: seq<Item>, to_: nat, all: seq<Item>)
    requires IsItem(lines, start) && i <= |lines| && items != []
  {
    var k := |items| - 1;
    && k < |all| && all[..k] == items[..k]
    && StartsItem(items[k], all[k])
    && exists next: nat :: next <= |lines| && Belongs(g, lines, start, i, next, all[k].blocks[|items[k].blocks|..])
         && ItemsRead(g, lines, start, next, to_, all[k + 1..])
  }

  ghost predicate StartsItem(sofar: Item, item: Item) {
    |sofar.blocks| <= |item.blocks| && item.blocks[..|sofar.blocks|] == sofar.blocks
  }

  lemma BelongsMore(g: Grammar, lines: seq<string>, start: nat, i: nat, next: nat, group: seq<Block>, to_: nat, rest: seq<Block>)
    requires IsItem(lines, start) && i <= |lines| && next <= |lines|
    requires Resume(lines, i) == i && Hanging(lines, start, i) && group != [] && Hangs(g, lines, i, next, group)
    ensures Belongs(g, lines, start, i, to_, rest) <==>
              |group| <= |rest| && rest[..|group|] == group && Belongs(g, lines, start, next, to_, rest[|group|..])
  {
    hide Hangs, Hanging, ListItem, Resume;
    if rest != [] && Belongs(g, lines, start, i, to_, rest) {
      var m, p := FirstHanging(g, lines, start, i, to_, rest);
      hide Belongs;
      HangsOnce(g, lines, i, next, p, group, FirstOf(rest, m));
    } else if |group| <= |rest| && rest[..|group|] == group {
      assert FirstOf(rest, |group|) == group;
    }
  }

  // One more piece that hangs from the last item.
  function LastItem(items: seq<Item>, blocks: seq<Block>): (r: seq<Item>)
    requires items != []
    ensures |r| == |items|
  {
    items[|items| - 1 := Item(items[|items| - 1].blocks + blocks)]
  }

  lemma StartsMore(sofar: Item, group: seq<Block>, item: Item)
    ensures var n := |sofar.blocks|;
      StartsItem(Item(sofar.blocks + group), item) <==>
        StartsItem(sofar, item) && |group| <= |item.blocks[n..]| && item.blocks[n..][..|group|] == group
    ensures StartsItem(Item(sofar.blocks + group), item) ==>
        item.blocks[|sofar.blocks|..][|group|..] == item.blocks[|sofar.blocks + group|..]
  {
    var n := |sofar.blocks|;
    if n + |group| <= |item.blocks| {
      assert item.blocks[..n + |group|] == item.blocks[..n] + item.blocks[n..][..|group|];
      if StartsItem(Item(sofar.blocks + group), item) {
        assert item.blocks[..n] == item.blocks[..n + |group|][..n];
        assert item.blocks[n..][..|group|] == item.blocks[..n + |group|][n..];
      }
    }
  }

  lemma ListHangs(g: Grammar, lines: seq<string>, start: nat, i: nat, next: nat, group: seq<Block>,
                  items: seq<Item>, to_: nat, all: seq<Item>)
    requires IsItem(lines, start) && i <= |lines| && next <= |lines| && items != []
    requires Resume(lines, i) == i && Hanging(lines, start, i) && group != [] && Hangs(g, lines, i, next, group)
    ensures ListGoesOnAs(g, lines, start, i, items, to_, all) <==>
              ListGoesOnAs(g, lines, start, next, LastItem(items, group), to_, all)
  {
    hide Hangs, Hanging, ListItem, Resume, Belongs, ItemsRead;
    var k := |items| - 1;
    var more := LastItem(items, group);
    assert more[..k] == items[..k];
    if k < |all| && all[..k] == items[..k] {
      StartsMore(items[k], group, all[k]);
      forall to1
        ensures StartsItem(items[k], all[k]) && Belongs(g, lines, start, i, to1, all[k].blocks[|items[k].blocks|..]) <==>
          StartsItem(more[k], all[k]) && Belongs(g, lines, start, next, to1, all[k].blocks[|more[k].blocks|..])
      {
        if StartsItem(items[k], all[k]) {
          BelongsMore(g, lines, start, i, next, group, to1, all[k].blocks[|items[k].blocks|..]);
        }
      }
    }
  }

  lemma ResumesPast(lines: seq<string>, i: nat)
    requires i < |lines| && IsBlank(lines[i]) && IsItem(lines, i + 1)
    ensures Resume(lines, i) == i + 1 == Resume(lines, i + 1)
  {
    ItemIsText(lines, i + 1);
    hide IsBlank, ListItem;
  }

  lemma BelongsBlank(g: Grammar, lines: seq<string>, start: nat, i: nat, to_: nat, rest: seq<Block>)
    requires IsItem(lines, start) && i < |lines| && Resume(lines, i) == i + 1 == Resume(lines, i + 1)
    ensures Belongs(g, lines, start, i, to_, rest) <==> Belongs(g, lines, start, i + 1, to_, rest)
  {
    hide Hangs, Hanging, ListItem, Resume;
  }

  lemma ListBlank(g: Grammar, lines: seq<string>, start: nat, i: nat, items: seq<Item>, to_: nat, all: seq<Item>)
    requires IsItem(lines, start) && i < |lines| && items != [] && IsBlank(lines[i]) && IsItem(lines, i + 1)
    ensures ListGoesOnAs(g, lines, start, i, items, to_, all) <==> ListGoesOnAs(g, lines, start, i + 1, items, to_, all)
  {
    hide Belongs, ListItem, ItemsRead, IsBlank, Resume;
    var j := i + 1;
    ResumesPast(lines, i);
    forall next, rest
      ensures Belongs(g, lines, start, i, next, rest) <==> Belongs(g, lines, start, j, next, rest)
    {
      BelongsBlank(g, lines, start, i, next, rest);
    }
  }

  lemma ItemIsText(lines: seq<string>, i: nat)
    requires IsItem(lines, i)
    ensures !IsBlank(lines[i])
  {
  }

  // The list takes another item: its own paragraph, up to `k`.
  ghost predicate TakesItem(g: Grammar, lines: seq<string>, start: nat, i: nat, k: nat, own: Block) {
    && IsItem(lines, start) && IsItem(lines, i) && SameList(lines, start, i)
    && k == Until(EndsItem(lines), i + 1, |lines|) && !UnderlinesItem(lines, k)
    && own.Paragraph? && own.tight && SpeltAll(g, ItemText(lines, i, k), own.children)
  }

  lemma ItemMore(g: Grammar, lines: seq<string>, start: nat, i: nat, k: nat, own: Block, to_: nat, item: Item)
    requires TakesItem(g, lines, start, i, k, own)
    ensures ItemReads(g, lines, start, i, to_, item) <==>
              StartsItem(Item([own]), item) && Belongs(g, lines, start, k, to_, item.blocks[1..])
  {
    hide Spelt, Belongs, ListItem, Until;
    if item.blocks != [] && item.blocks[0].Paragraph? {
      if SpeltAll(g, ItemText(lines, i, k), item.blocks[0].children) {
        SpeltOnce(g, ItemText(lines, i, k), own.children, item.blocks[0].children);
      }
    }
    if item.blocks != [] { assert item.blocks[..1] == [item.blocks[0]]; }
  }

  // The items left of a list that takes another are that one, however it goes on, and more.
  lemma ItemsMore(g: Grammar, lines: seq<string>, start: nat, i: nat, k: nat, own: Block, to_: nat, all: seq<Item>)
    requires TakesItem(g, lines, start, i, k, own) && Resume(lines, i) == i
    ensures k <= |lines|
    ensures ItemsRead(g, lines, start, i, to_, all) <==> ListGoesOnAs(g, lines, start, k, [Item([own])], to_, all)
  {
    var items := [Item([own])];
    hide Spelt, Belongs, ListItem, Until, ItemReads, SameList, Resume, UnderlinesItem;
    if all != [] {
      assert all[..0] == items[..0];
      forall next
        ensures ItemReads(g, lines, start, i, next, all[0]) <==>
          StartsItem(items[0], all[0]) && Belongs(g, lines, start, k, next, all[0].blocks[1..])
      {
        ItemMore(g, lines, start, i, k, own, next, all[0]);
      }
    }
  }

  lemma BelongsNothing(g: Grammar, lines: seq<string>, start: nat, i: nat, to_: nat, rest: seq<Block>)
    requires IsItem(lines, start) && i <= |lines| && Resume(lines, i) == i && !Hanging(lines, start, i)
    ensures Belongs(g, lines, start, i, to_, rest) <==> rest == [] && to_ == i
  {
    hide Hangs, Hanging, ListItem, Resume;
  }

  // Past the end of the last item the list takes another, or stops.
  lemma ListNext(g: Grammar, lines: seq<string>, start: nat, i: nat, items: seq<Item>, to_: nat, all: seq<Item>)
    requires IsItem(lines, start) && i <= |lines| && items != [] && Resume(lines, i) == i && !Hanging(lines, start, i)
    ensures ListGoesOnAs(g, lines, start, i, items, to_, all) <==>
              |items| <= |all| && all[..|items|] == items && ItemsRead(g, lines, start, i, to_, all[|items|..])
  {
    hide Belongs, Hanging, ListItem, Resume, ItemsRead;
    forall next, rest
      ensures Belongs(g, lines, start, i, next, rest) <==> rest == [] && next == i
    {
      BelongsNothing(g, lines, start, i, next, rest);
    }
    var k := |items| - 1;
    if k < |all| {
      assert all[..k + 1] == all[..k] + [all[k]] && items == items[..k] + [items[k]];
      var sofar, item := items[k].blocks, all[k].blocks;
      if StartsItem(items[k], all[k]) {
        assert item == item[..|sofar|] + item[|sofar|..];
        if item[|sofar|..] == [] { assert all[k] == items[k]; }
      }
      if all[k] == items[k] {
        assert item[..|sofar|] == sofar && item[|sofar|..] == [];
        assert Belongs(g, lines, start, i, i, item[|sofar|..]);
      }
    }
  }

  lemma ListTakes(g: Grammar, lines: seq<string>, start: nat, i: nat, k: nat, own: Block,
                  items: seq<Item>, to_: nat, all: seq<Item>)
    requires TakesItem(g, lines, start, i, k, own) && items != [] && Resume(lines, i) == i && !Hanging(lines, start, i)
    ensures k <= |lines|
    ensures ListGoesOnAs(g, lines, start, i, items, to_, all) <==>
              ListGoesOnAs(g, lines, start, k, items + [Item([own])], to_, all)
  {
    hide Hanging, ListItem, Resume, ItemsRead, Belongs, SameList;
    var n := |items|;
    var more := items + [Item([own])];
    if n <= |all| {
      ItemsMore(g, lines, start, i, k, own, to_, all[n..]);
      assert more[..n] == items;
      if n < |all| {
        assert all[n..][0] == all[n] && all[n..][1..] == all[n + 1..] && all[n..][..0] == [];
      }
    }
    ListNext(g, lines, start, i, items, to_, all);
  }

  lemma ListStops(g: Grammar, lines: seq<string>, start: nat, i: nat, items: seq<Item>, to_: nat, all: seq<Item>)
    requires IsItem(lines, start) && i <= |lines| && items != [] && Resume(lines, i) == i
    requires !Hanging(lines, start, i) && !SameList(lines, start, i)
    ensures ListGoesOnAs(g, lines, start, i, items, to_, all) <==> all == items && to_ == i
  {
    ListNext(g, lines, start, i, items, to_, all);
    hide Hanging, ListItem, Resume, SameList, ItemReads, ListGoesOnAs;
    if |items| <= |all| {
      assert all == all[..|items|] + all[|items|..];
      if |items| == |all| { assert all[|items|..] == []; }
    }
  }

  // How the list goes on from `i`: with its first item, or with what comes after the last.
  ghost predicate Pending(g: Grammar, lines: seq<string>, start: nat, i: nat, items: seq<Item>, to_: nat, all: seq<Item>)
    requires IsItem(lines, start) && i <= |lines|
  {
    if items == [] then ItemsRead(g, lines, start, i, to_, all) else ListGoesOnAs(g, lines, start, i, items, to_, all)
  }

  ghost predicate NoHanging(g: Grammar, lines: seq<string>, i: nat)
    requires i <= |lines|
  {
    forall next, group :: !Hangs(g, lines, i, next, group)
  }

  ghost predicate NoItem(g: Grammar, lines: seq<string>, start: nat, i: nat)
    requires IsItem(lines, start) && IsItem(lines, i)
  {
    forall next, item :: !ItemReads(g, lines, start, i, next, item)
  }

  lemma ListHangsNowhere(g: Grammar, lines: seq<string>, start: nat, i: nat, items: seq<Item>, to_: nat, all: seq<Item>)
    requires IsItem(lines, start) && i <= |lines| && items != [] && Resume(lines, i) == i
    requires Hanging(lines, start, i) && NoHanging(g, lines, i)
    ensures !ListGoesOnAs(g, lines, start, i, items, to_, all)
  {
    hide Hangs, Hanging, ListItem, Resume, ItemsRead;
    forall next, rest
      ensures !Belongs(g, lines, start, i, next, rest)
    {
      if rest != [] && Belongs(g, lines, start, i, next, rest) {
        var m, p := FirstHanging(g, lines, start, i, next, rest);
      }
    }
    hide Belongs;
  }

  lemma ListTakesNothing(g: Grammar, lines: seq<string>, start: nat, i: nat, items: seq<Item>, to_: nat, all: seq<Item>)
    requires IsItem(lines, start) && IsItem(lines, i) && SameList(lines, start, i) && Resume(lines, i) == i
    requires !Hanging(lines, start, i) && NoItem(g, lines, start, i)
    ensures !Pending(g, lines, start, i, items, to_, all)
  {
    hide ItemReads, Hanging, ListItem, Resume, Belongs, SameList;
    forall rest
      ensures !ItemsRead(g, lines, start, i, to_, rest)
    {
      if rest != [] && ItemsRead(g, lines, start, i, to_, rest) {
        var next := FirstItem(g, lines, start, i, to_, rest);
      }
    }
    hide ItemsRead, ListGoesOnAs;
    if items != [] { ListNext(g, lines, start, i, items, to_, all); }
  }

  lemma PendingTakes(g: Grammar, lines: seq<string>, start: nat, i: nat, k: nat, own: Block,
                     items: seq<Item>, to_: nat, all: seq<Item>)
    requires TakesItem(g, lines, start, i, k, own) && Resume(lines, i) == i && !Hanging(lines, start, i)
    ensures k <= |lines|
    ensures Pending(g, lines, start, i, items, to_, all) <==>
              Pending(g, lines, start, k, items + [Item([own])], to_, all)
  {
    hide Hanging, Resume, ItemsRead, ListGoesOnAs, TakesItem, IsItem;
    if items == [] {
      assert items + [Item([own])] == [Item([own])];
      ItemsMore(g, lines, start, i, k, own, to_, all);
    } else {
      ListTakes(g, lines, start, i, k, own, items, to_, all);
    }
  }

  // An item's own lines.
  method ParseOwn(g: Grammar, lines: seq<string>, start: nat, i: nat) returns (r: Result<Block>, k: nat)
    requires IsItem(lines, start) && IsItem(lines, i) && SameList(lines, start, i)
    ensures i < k <= |lines|
    ensures r.Ok? ==> TakesItem(g, lines, start, i, k, r.value)
    ensures r.Unsupported? ==> NoItem(g, lines, start, i)
  {
    hide Spelt, ListItem, Until, Belongs, SameList, UnderlinesItem, JoinBy;
    var content;
    content, k := TakeItem(lines, i);
    if content.Unsupported? { return Unsupported(content.line), k; }
    assert JoinBy(content.value, ' ') == ItemText(lines, i, k);
    var children := ParseInline(g, JoinBy(content.value, ' '), k);
    if children.Unsupported? { return Unsupported(children.line), k; }
    return Ok(Paragraph(true, children.value)), k;
  }

  datatype Group = Group(blocks: seq<Block>, next: nat)

  lemma BodyHasBlocks(g: Grammar, lines: seq<string>, t: nat, blocks: seq<Block>)
    requires t < |lines| && t < IndentedEnd(lines, t) && !IsBlank(lines[t])
    requires Reads(g, Dedented(lines, t, IndentedEnd(lines, t), Indent(lines[t])), 0, blocks)
    ensures blocks != []
  {
    hide ReadsBlock;
    var body := Dedented(lines, t, IndentedEnd(lines, t), Indent(lines[t]));
    DedentedFirst(lines, t, IndentedEnd(lines, t), Indent(lines[t]));
    assert !IsBlank(body[0]);
    hide IsBlank;
    assert TextFrom(body, 0) == 0;
  }

  lemma {:induction false} DedentedFirst(lines: seq<string>, i: nat, k: nat, indent: nat)
    requires i < k <= |lines| && forall j :: i <= j < k ==> indent <= |lines[j]|
    ensures Dedented(lines, i, k, indent)[0] == lines[i][indent..]
  {
    if i + 1 < k { DedentedFirst(lines, i, k - 1, indent); }
  }

  lemma NestedNowhere(g: Grammar, lines: seq<string>, i: nat)
    requires IsItem(lines, i) && forall to_, items :: !ItemsRead(g, lines, i, i, to_, items)
    ensures NoHanging(g, lines, i)
  {
    hide ItemsRead, ListItem;
    forall next: nat, group: seq<Block>
      ensures !Hangs(g, lines, i, next, group)
    {
      if |group| == 1 && group[0].List? {
        assert !ItemsRead(g, lines, i, i, next, group[0].items);
      }
    }
  }

  lemma IndentedNowhere(g: Grammar, lines: seq<string>, i: nat)
    requires i < |lines| && !IsItem(lines, i) && TextFrom(lines, i) < |lines|
    requires var t := TextFrom(lines, i);
      forall all :: !Reads(g, Dedented(lines, t, IndentedEnd(lines, t), Indent(lines[t])), 0, all)
    ensures NoHanging(g, lines, i)
  {
    hide ItemsRead, ListItem, Reads, IndentedEnd, Until, Indent;
    var t := TextFrom(lines, i);
    forall next: nat, group: seq<Block>
      ensures !Hangs(g, lines, i, next, group)
    {
      assert !Reads(g, Dedented(lines, t, IndentedEnd(lines, t), Indent(lines[t])), 0, group);
    }
  }

  // What belongs to the item before `i`, if anything does.
  method ParseHanging(g: Grammar, lines: seq<string>, start: nat, i: nat) returns (r: Result<Option<Group>>)
    requires IsItem(lines, start) && start < i < |lines| && Clean(lines)
    ensures r.Ok? && r.value.None? ==> !Hanging(lines, start, i)
    ensures !(r.Ok? && r.value.None?) ==> Hanging(lines, start, i)
    ensures r.Ok? && r.value.Some? ==>
      && var m := r.value.value;
      && i < m.next <= |lines| && m.blocks != [] && Hangs(g, lines, i, m.next, m.blocks)
    ensures r.Unsupported? ==> NoHanging(g, lines, i)
    decreases SizeFrom(lines, start), 0, 0, 0
  {
    hide ListItem, IsBlank, Indent, Size, SizeFrom, ItemsRead, Reads, Until, IndentedEnd, Clean, LinesOf, JoinBy;
    if !Hanging(lines, start, i) { return Ok(None); }
    if IsItem(lines, i) {
      SizeDrop(lines, start, i);
      var nested := ParseList(g, lines, i);
      if nested.Unsupported? {
        NestedNowhere(g, lines, i);
        return Unsupported(nested.line);
      }
      return Ok(Some(Group([nested.value.node], nested.value.next)));
    }
    var t := TextFrom(lines, i);
    var body, next := TakeIndented(lines, start, t);
    DedentedAreClean(lines, t, next, Indent(lines[t]));
    BodyIsItsLines(body);
    var inner := ParseMarkdown(g, JoinBy(body, '\n'));
    if inner.Unsupported? {
      IndentedNowhere(g, lines, i);
      return Unsupported(inner.line);
    }
    assert Reads(g, body, 0, inner.value);
    BodyHasBlocks(g, lines, t, inner.value);
    return Ok(Some(Group(inner.value, next)));
  }

  lemma ListStarts(lines: seq<string>, start: nat)
    requires IsItem(lines, start)
    ensures Resume(lines, start) == start && SameList(lines, start, start) && !Hanging(lines, start, start)
  {
    ItemIsText(lines, start);
    hide IsBlank, ListItem;
  }

  lemma SameListHangsNot(lines: seq<string>, start: nat, i: nat)
    requires IsItem(lines, start) && SameList(lines, start, i)
    ensures IsItem(lines, i) && Resume(lines, i) == i && !Hanging(lines, start, i)
  {
    ItemIsText(lines, i);
    hide IsBlank, ListItem;
  }

  lemma ListIsOver(lines: seq<string>, start: nat)
    requires IsItem(lines, start)
    ensures var n := |lines|; Resume(lines, n) == n && !Hanging(lines, start, n) && !SameList(lines, start, n)
  {
    hide ListItem, Indent, IsBlank;
  }

  lemma ResumesHere(lines: seq<string>, i: nat)
    requires i < |lines| && (IsItem(lines, i) || !(IsBlank(lines[i]) && IsItem(lines, i + 1)))
    ensures Resume(lines, i) == i
  {
    if IsItem(lines, i) { ItemIsText(lines, i); }
    assert ListItem("").None?;
    hide IsBlank, ListItem;
  }

  // The list goes on from `i` after the items as it does from `j` after more.
  ghost predicate Same(g: Grammar, lines: seq<string>, start: nat, i: nat, items: seq<Item>, j: nat, more: seq<Item>)
    requires IsItem(lines, start) && i <= |lines| && j <= |lines|
  {
    forall to_, all :: Pending(g, lines, start, i, items, to_, all) <==> Pending(g, lines, start, j, more, to_, all)
  }

  lemma SameBlank(g: Grammar, lines: seq<string>, start: nat, i: nat, items: seq<Item>)
    requires IsItem(lines, start) && i < |lines| && items != [] && IsBlank(lines[i]) && IsItem(lines, i + 1)
    ensures Same(g, lines, start, i, items, i + 1, items)
  {
    hide ListGoesOnAs, ListItem, IsBlank;
    forall to_, all
      ensures ListGoesOnAs(g, lines, start, i, items, to_, all) <==> ListGoesOnAs(g, lines, start, i + 1, items, to_, all)
    {
      ListBlank(g, lines, start, i, items, to_, all);
    }
  }

  lemma SameHangs(g: Grammar, lines: seq<string>, start: nat, i: nat, items: seq<Item>, next: nat, group: seq<Block>)
    requires IsItem(lines, start) && i <= |lines| && next <= |lines| && items != []
    requires Resume(lines, i) == i && Hanging(lines, start, i) && group != [] && Hangs(g, lines, i, next, group)
    ensures Same(g, lines, start, i, items, next, LastItem(items, group))
  {
    hide ListGoesOnAs, ListItem, Resume, Hanging, Hangs, LastItem;
    forall to_, all
      ensures ListGoesOnAs(g, lines, start, i, items, to_, all) <==>
        ListGoesOnAs(g, lines, start, next, LastItem(items, group), to_, all)
    {
      ListHangs(g, lines, start, i, next, group, items, to_, all);
    }
  }

  lemma SameTakes(g: Grammar, lines: seq<string>, start: nat, i: nat, items: seq<Item>, k: nat, own: Block)
    requires TakesItem(g, lines, start, i, k, own) && Resume(lines, i) == i && !Hanging(lines, start, i)
    ensures k <= |lines| && Same(g, lines, start, i, items, k, items + [Item([own])])
  {
    PendingTakes(g, lines, start, i, k, own, items, 0, []);
    hide Pending, ListItem, Resume, Hanging, SameList, UnderlinesItem, Spelt;
    forall to_, all
      ensures Pending(g, lines, start, i, items, to_, all) <==> Pending(g, lines, start, k, items + [Item([own])], to_, all)
    {
      PendingTakes(g, lines, start, i, k, own, items, to_, all);
    }
  }

  lemma SameItself(g: Grammar, lines: seq<string>, start: nat, i: nat, items: seq<Item>)
    requires IsItem(lines, start) && i <= |lines|
    ensures Same(g, lines, start, i, items, i, items)
  {
  }

  lemma SameTrans(g: Grammar, lines: seq<string>, start: nat, i: nat, items: seq<Item>, j: nat, more: seq<Item>,
                  k: nat, most: seq<Item>)
    requires IsItem(lines, start) && i <= |lines| && j <= |lines| && k <= |lines|
    requires Same(g, lines, start, i, items, j, more) && Same(g, lines, start, j, more, k, most)
    ensures Same(g, lines, start, i, items, k, most)
  {
    hide Pending, ListItem;
  }

  // Where nothing belongs to the last item and no other follows, the items are the list.
  lemma SameStops(g: Grammar, lines: seq<string>, start: nat, i: nat, items: seq<Item>)
    requires IsItem(lines, start) && i <= |lines| && items != [] && Resume(lines, i) == i
    requires !Hanging(lines, start, i) && !SameList(lines, start, i) && Same(g, lines, start, start, [], i, items)
    ensures ItemsRead(g, lines, start, start, i, items)
  {
    hide ListItem, Resume, Hanging, SameList, ItemsRead, ListGoesOnAs;
    ListStops(g, lines, start, i, items, i, items);
    assert Pending(g, lines, start, i, items, i, items);
  }

  // Where what must follow is nothing, there is no list.
  lemma NoList(g: Grammar, lines: seq<string>, start: nat, i: nat, items: seq<Item>)
    requires IsItem(lines, start) && i <= |lines| && Same(g, lines, start, start, [], i, items)
    requires Resume(lines, i) == i
    requires
      || (items != [] && Hanging(lines, start, i) && NoHanging(g, lines, i))
      || (SameList(lines, start, i) && !Hanging(lines, start, i) && NoItem(g, lines, start, i))
    ensures forall to_, all :: !ItemsRead(g, lines, start, start, to_, all)
  {
    forall to_, all
      ensures !Pending(g, lines, start, i, items, to_, all)
    {
      hide ListItem, Resume, NoHanging, NoItem, ListGoesOnAs, ItemsRead, Same;
      if Hanging(lines, start, i) {
        ListHangsNowhere(g, lines, start, i, items, to_, all);
      } else {
        ListTakesNothing(g, lines, start, i, items, to_, all);
      }
    }
    hide ListItem, Resume, Hanging, SameList, NoHanging, NoItem, ListGoesOnAs, ItemsRead;
    forall to_, all
      ensures !ItemsRead(g, lines, start, start, to_, all)
    {
      assert ItemsRead(g, lines, start, start, to_, all) == Pending(g, lines, start, start, [], to_, all);
    }
  }

  // A list is its items and what belongs to each; a nested list always has an item to hang
  // from, for the first line of a list is an item of its own indent.
  method ParseList(g: Grammar, lines: seq<string>, start: nat) returns (r: Result<Parsed>)
    requires IsItem(lines, start) && Clean(lines)
    ensures r.Ok? ==>
      && start < r.value.next <= |lines| && r.value.node.List? && r.value.node.ordered == ListItem(lines[start]).value.ordered
      && ItemsRead(g, lines, start, start, r.value.next, r.value.node.items)
    ensures r.Unsupported? ==> forall to_, items :: !ItemsRead(g, lines, start, start, to_, items)
    decreases SizeFrom(lines, start), 0, 0, 1
  {
    hide ListItem, IsBlank, Hanging, Hangs, ItemsRead, SameList, TakesItem, NoItem, NoHanging, LastItem, Same, Resume, Clean;
    var items: seq<Item> := [];
    var i := start;
    ListStarts(lines, start);
    SameItself(g, lines, start, i, items);
    while i < |lines|
      invariant start <= i <= |lines| && (i == start <==> items == [])
      invariant i == start ==> SameList(lines, start, i)
      invariant Same(g, lines, start, start, [], i, items)
      decreases |lines| - i
    {
      if !IsItem(lines, i) && IsBlank(lines[i]) && IsItem(lines, i + 1) {
        SameBlank(g, lines, start, i, items);
        SameTrans(g, lines, start, start, [], i, items, i + 1, items);
        i := i + 1;
        continue;
      }
      ResumesHere(lines, i);
      if i > start {
        var hung := ParseHanging(g, lines, start, i);
        if hung.Unsupported? {
          NoList(g, lines, start, i, items);
          return Unsupported(hung.line);
        }
        if hung.value.Some? {
          var m := hung.value.value;
          SameHangs(g, lines, start, i, items, m.next, m.blocks);
          SameTrans(g, lines, start, start, [], i, items, m.next, LastItem(items, m.blocks));
          items, i := LastItem(items, m.blocks), m.next;
          continue;
        }
        if !SameList(lines, start, i) { break; }
      }
      SameListHangsNot(lines, start, i);
      var own, k := ParseOwn(g, lines, start, i);
      if own.Unsupported? {
        NoList(g, lines, start, i, items);
        return Unsupported(own.line);
      }
      SameTakes(g, lines, start, i, items, k, own.value);
      SameTrans(g, lines, start, start, [], i, items, k, items + [Item([own.value])]);
      items, i := items + [Item([own.value])], k;
    }
    ListIsOver(lines, start);
    SameStops(g, lines, start, i, items);
    return Ok(Parsed(List(ListItem(lines[start]).value.ordered, items), i));
  }
}
