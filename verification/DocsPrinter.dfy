/**
 Documents as they are written: paragraphs of several lines, headings, rules, code, tables,
 quotes with lazy lines and lists with nested lists and indented blocks, to any depth, with a
 blank line between two of them only where one is needed. The docs' Markdown parser reads
 the lines of such a document as exactly its blocks.
 */
module DocsPrinter {
  import opened Common
  import opened DocsInline
  import opened DocsParser

  // ----- Text -----------------------------------------------------------------------------

  // Words on one line, with no space before or after.
  ghost predicate Words(v: string) {
    v != "" && !IsSpace(v[0]) && !IsSpace(v[|v| - 1]) && NoLineBreak(v)
  }

  ghost predicate WordsAll(vs: seq<string>) {
    vs != [] && forall k :: 0 <= k < |vs| ==> Words(vs[k])
  }

  lemma MarksAreSolid(c: char)
    requires IsPunctuation(c)
    ensures !IsSpace(c)
  {
  }

  lemma {:induction false} EscapeShape(v: string)
    ensures v != "" ==>
      && Escape(v) != ""
      && Escape(v)[0] == (if IsPunctuation(v[0]) then '\\' else v[0])
      && Escape(v)[|Escape(v)| - 1] == v[|v| - 1]
    ensures NoLineBreak(v) ==> NoLineBreak(Escape(v))
  {
    if v != "" {
      var front := v[..|v| - 1];
      EscapeShape(front);
      assert NoLineBreak(v) ==> NoLineBreak(front);
      hide IsPunctuation;
    }
  }

  // The text spells itself, and nothing else.
  lemma {:induction false} EscapeSpells(g: Grammar, v: string)
    requires v != ""
    ensures SpeltAll(g, Escape(v), [Text(v)])
  {
    hide Idle, Plain, Escape, IsPunctuation;
    var t := Escape(v);
    EscapeReadsBack(v);
    EscapeShape(v);
    forall k | 0 <= k < |t| && !Behind(t, 0, k)
      ensures Idle(g, t, k)
    {
      if t[k] == '\\' {
        IdleBackslash(g, t, k);
      } else if !Idle(g, t, k) {
        OnlyMarksAreNotIdle(g, t, k);
      }
    }
    assert Spells(g, t, 0, |t|, Text(v));
    assert [Text(v)][..0] == [];
    assert Spelt(g, t, 0, []);
  }

  lemma {:induction false} EscapeConcat(a: string, b: string)
    ensures Escape(a + b) == Escape(a) + Escape(b)
    decreases |b|
  {
    if b == "" {
      assert a + b == a && Escape(a) + "" == Escape(a);
    } else {
      hide IsPunctuation;
      var front := b[..|b| - 1];
      EscapeConcat(a, front);
      assert (a + b)[..|a + b| - 1] == a + front;
    }
  }

  ghost function Escapes(vs: seq<string>): (r: seq<string>)
    ensures |r| == |vs| && forall k :: 0 <= k < |r| ==> r[k] == Escape(vs[k])
  {
    if vs == [] then [] else [Escape(vs[0])] + Escapes(vs[1..])
  }

  lemma EscapeSpace()
    ensures Escape(" ") == " " && IsSpace(' ') && !IsPunctuation(' ')
  {
    assert " "[..0] == "";
  }

  // Lines written one by one and joined are the words joined, and written.
  lemma {:induction false} EscapeJoined(vs: seq<string>)
    requires vs != []
    ensures JoinBy(Escapes(vs), ' ') == Escape(JoinBy(vs, ' '))
  {
    hide Escape;
    if |vs| > 1 {
      EscapeJoined(vs[1..]);
      var rest := JoinBy(vs[1..], ' ');
      EscapeSpace();
      EscapeConcat(vs[0], " ");
      EscapeConcat(vs[0] + " ", rest);
      assert Escapes(vs)[1..] == Escapes(vs[1..]);
      assert JoinBy(vs, ' ') == vs[0] + " " + rest;
    }
  }

  lemma {:induction false} JoinIsSomething(vs: seq<string>)
    requires vs != [] && vs[0] != ""
    ensures JoinBy(vs, ' ') != ""
  {
  }

  lemma {:induction false} LinesSpell(g: Grammar, vs: seq<string>)
    requires WordsAll(vs)
    ensures SpeltAll(g, JoinBy(Escapes(vs), ' '), [Text(JoinBy(vs, ' '))])
  {
    hide Spelt, Escape, IsSpace;
    EscapeJoined(vs);
    JoinIsSomething(vs);
    EscapeSpells(g, JoinBy(vs, ' '));
  }

  // What every line of words has: it begins and ends with no space, and begins with no mark
  // but a backslash.
  ghost predicate WordsLine(line: string) {
    && line != "" && !IsSpace(line[0]) && !IsSpace(line[|line| - 1])
    && (IsPunctuation(line[0]) ==> line[0] == '\\')
    && NoLineBreak(line)
  }

  lemma {:induction false} EscapeIsWordsLine(v: string)
    requires Words(v)
    ensures WordsLine(Escape(v))
  {
    EscapeShape(v);
    assert IsPunctuation('\\') && !IsSpace('\\');
    hide IsPunctuation, IsSpace;
  }

  lemma WordsLineIndent(line: string)
    requires line != "" && !IsSpace(line[0])
    ensures Indent(line) == 0 && line[0..] == line && !IsBlank(line)
  {
    hide IsSpace;
  }

  // Every mark of escaped text but a backslash stands right behind one.
  lemma {:induction false} MarkIsBehind(v: string, k: nat)
    requires k < |Escape(v)| && IsPunctuation(Escape(v)[k]) && Escape(v)[k] != '\\'
    ensures k > 0 && Escape(v)[k - 1] == '\\'
  {
    EscapeReadsBack(v);
    assert Behind(Escape(v), 0, k);
  }

  // ----- What is written --------------------------------------------------------------------

  // Under a table's heading: colons or none around the dashes.
  datatype Align = Align(left: bool, dashes: nat, right: bool)

  // The hashes that may close a heading, and the spaces before them and after.
  datatype Ending = Ending(before: nat, hashes: nat, after: nat)

  // A fence's marks and how many, and the spaces around its language; and what the line that
  // closes it has before its marks, beyond the first one's number of them, and after.
  datatype Fences = Fences(mark: char, length: nat, before: nat, after: nat, lead: nat, more: nat, trail: nat)

  // `lead` is how many spaces a heading has before its text, and `gaps` those between a
  // rule's marks. A quote's last `lazy` lines have no angle, and `spaced` is whether the
  // angles before the others have a space after them.
  datatype Written =
    | Prose(words: seq<string>)
    | Title(depth: nat, lead: nat, text: string, ending: Ending)
    | Rule(mark: char, gaps: seq<nat>)
    | Code(fences: Fences, lang: string, body: seq<string>)
    | Quotation(inner: seq<Piece>, lazy: nat, spaced: bool)
    | Listing(entries: seq<Entry>)
    | Grid(aligns: seq<Align>, header: seq<string>, rows: seq<seq<string>>)

  // A gap is the blank lines before, each by its width.
  datatype Piece = Piece(gap: seq<nat>, block: Written)

  // An item: its bullet, the spaces after that, its lines, the list nested under it, and the
  // blocks indented under it past blank lines, all of them `step` further in.
  datatype Entry = Entry(
    gap: seq<nat>, bullet: string, pad: nat, words: seq<string>, step: nat, nested: seq<Entry>, bodies: seq<Body>)

  datatype Body = Body(gap: seq<nat>, pieces: seq<Piece>)

  ghost function Blanks(gap: seq<nat>): (r: seq<string>)
    ensures |r| == |gap| && forall k :: 0 <= k < |r| ==> r[k] == Repeat(' ', gap[k])
  {
    if gap == [] then [] else [Repeat(' ', gap[0])] + Blanks(gap[1..])
  }

  ghost function Indented(lines: seq<string>, d: nat): (r: seq<string>)
    ensures |r| == |lines| && forall k :: 0 <= k < |r| ==> r[k] == Repeat(' ', d) + lines[k]
  {
    if lines == [] then [] else [Repeat(' ', d) + lines[0]] + Indented(lines[1..], d)
  }

  // A line behind an angle, which has a space after it at least where the line begins with one.
  ghost function Angled(line: string, spaced: bool): string {
    (if spaced || (line != "" && IsSpace(line[0])) then "> " else ">") + line
  }

  // The first `n` lines behind angles, and the others as they are.
  ghost function Marked(lines: seq<string>, n: int, spaced: bool): (r: seq<string>)
    ensures |r| == |lines| && forall k :: 0 <= k < |r| ==> r[k] == if k < n then Angled(lines[k], spaced) else lines[k]
  {
    seq(|lines|, k requires 0 <= k < |lines| => if k < n then Angled(lines[k], spaced) else lines[k])
  }

  // Marks with spaces between.
  ghost function RuleLine(mark: char, gaps: seq<nat>): string {
    if gaps == [] then [mark] else [mark] + (Repeat(' ', gaps[0]) + RuleLine(mark, gaps[1..]))
  }

  ghost function EndingText(e: Ending): string {
    Repeat(' ', e.before) + (Repeat('#', e.hashes) + Repeat(' ', e.after))
  }

  ghost function TitleLine(depth: nat, lead: nat, text: string, ending: Ending): string {
    Repeat('#', depth) + (Repeat(' ', lead) + (Escape(text) + EndingText(ending)))
  }

  ghost function OpeningLine(f: Fences, lang: string): string {
    Repeat(f.mark, f.length) + (Repeat(' ', f.before) + (lang + Repeat(' ', f.after)))
  }

  ghost function ClosingLine(f: Fences): string {
    Repeat(' ', f.lead) + (Repeat(f.mark, f.length + f.more) + Repeat(' ', f.trail))
  }

  // A row with a pipe at each end, and a space on each side of every cell.
  ghost function RowCells(cells: seq<string>): string {
    if cells == [] then "" else " " + cells[0] + " |" + RowCells(cells[1..])
  }

  ghost function RowLine(cells: seq<string>): string {
    "|" + RowCells(cells)
  }

  ghost function AlignText(a: Align): string {
    (if a.left then ":" else "") + Repeat('-', a.dashes) + if a.right then ":" else ""
  }

  ghost function AlignTexts(aligns: seq<Align>): (r: seq<string>)
    ensures |r| == |aligns| && forall k :: 0 <= k < |r| ==> r[k] == AlignText(aligns[k])
  {
    if aligns == [] then [] else [AlignText(aligns[0])] + AlignTexts(aligns[1..])
  }

  ghost function RowLines(rows: seq<seq<string>>): (r: seq<string>)
    ensures |r| == |rows| && forall k :: 0 <= k < |r| ==> r[k] == RowLine(Escapes(rows[k]))
  {
    if rows == [] then [] else [RowLine(Escapes(rows[0]))] + RowLines(rows[1..])
  }

  ghost function Print(b: Written): seq<string>
    decreases b, 0
  {
    match b
    case Prose(words) => Escapes(words)
    case Title(depth, lead, text, ending) => [TitleLine(depth, lead, text, ending)]
    case Rule(mark, gaps) => [RuleLine(mark, gaps)]
    case Code(fences, lang, body) => [OpeningLine(fences, lang)] + body + [ClosingLine(fences)]
    case Quotation(inner, lazy, spaced) => Marked(PrintAll(inner), |PrintAll(inner)| - lazy, spaced)
    case Listing(entries) => PrintEntries(entries, 0)
    case Grid(aligns, header, rows) => [RowLine(Escapes(header)), RowLine(AlignTexts(aligns))] + RowLines(rows)
  }

  ghost function PrintAll(pieces: seq<Piece>): seq<string>
    decreases pieces, 0
  {
    if pieces == [] then [] else Blanks(pieces[0].gap) + (Print(pieces[0].block) + PrintAll(pieces[1..]))
  }

  ghost function EntryLine(bullet: string, pad: nat, v: string, d: nat): string {
    Repeat(' ', d) + (bullet + (Repeat(' ', pad) + Escape(v)))
  }

  // An item's own lines.
  ghost function OwnLines(e: Entry, d: nat): seq<string> {
    if e.words == [] then [] else [EntryLine(e.bullet, e.pad, e.words[0], d)] + Indented(Escapes(e.words[1..]), d + e.step)
  }

  // Everything of an item but the gap before it.
  ghost function PrintEntry(e: Entry, d: nat): seq<string>
    decreases e, 0
  {
    OwnLines(e, d) + (PrintEntries(e.nested, d + e.step) + PrintBodies(e.bodies, d + e.step))
  }

  ghost function PrintEntries(entries: seq<Entry>, d: nat): seq<string>
    decreases entries, 0
  {
    if entries == [] then []
    else Blanks(entries[0].gap) + (PrintEntry(entries[0], d) + PrintEntries(entries[1..], d))
  }

  ghost function PrintBodies(bodies: seq<Body>, d: nat): seq<string>
    decreases bodies, 0
  {
    if bodies == [] then []
    else Blanks(bodies[0].gap) + (Indented(PrintAll(bodies[0].pieces), d) + PrintBodies(bodies[1..], d))
  }

  // ----- What may be written ----------------------------------------------------------------

  ghost predicate IsBullet(s: string) {
    || s in ["-", "*", "+"]
    || (|s| >= 2 && s[|s| - 1] in ".)" && forall k :: 0 <= k < |s| - 1 ==> IsDigit(s[k]))
  }

  // Whether a list's items are numbered.
  ghost predicate Numbered(entries: seq<Entry>) {
    entries != [] && entries[0].bullet != "" && IsDigit(entries[0].bullet[0])
  }

  // Words of a cell: a pipe in them would be written otherwise.
  ghost predicate CellsOk(cells: seq<string>) {
    cells != [] && forall k :: 0 <= k < |cells| ==> Words(cells[k]) && '|' !in cells[k]
  }

  // How many of the last lines are words that go on from the line before.
  ghost function Tail(pieces: seq<Piece>): nat {
    if pieces == [] then 0
    else match pieces[|pieces| - 1].block
      case Prose(words) => if words == [] then 0 else |words| - 1
      case Quotation(_, lazy, _) => lazy
      case _ => 0
  }

  // A line of code that is shorter than the fence, or has something else on it than its marks.
  ghost predicate StaysWithin(line: string, mark: char, length: nat) {
    |line| < length || exists j :: 0 <= j < |line| && line[j] != mark && !IsSpace(line[j])
  }

  ghost predicate Good(b: Written)
    decreases b, 0
  {
    match b
    case Prose(words) => WordsAll(words)
    case Title(depth, lead, text, _) => 1 <= depth <= 6 && lead > 0 && Words(text) && text[|text| - 1] != '#'
    case Rule(mark, gaps) => mark in "-*_" && |gaps| >= 2 && (mark != '_' ==> gaps[0] == 0)
    case Code(fences, lang, body) =>
      && fences.mark in "`~" && fences.length >= 3 && (forall k :: 0 <= k < |lang| ==> IsLangChar(lang[k]))
      && Clean(body) && forall k :: 0 <= k < |body| ==> StaysWithin(body[k], fences.mark, fences.length)
    case Quotation(inner, lazy, _) => inner != [] && GoodAll(inner) && lazy <= Tail(inner)
    case Listing(entries) => entries != [] && entries[0].gap == [] && GoodEntries(entries, Numbered(entries))
    case Grid(aligns, header, rows) =>
      && |aligns| == |header| && (forall k :: 0 <= k < |aligns| ==> aligns[k].dashes > 0)
      && CellsOk(header) && forall k :: 0 <= k < |rows| ==> CellsOk(rows[k])
  }

  // What may come after a block: anything after a blank line, but that two lists of one kind
  // need two; and with no blank line between, whatever does not go on with the block.
  ghost predicate MayFollow(b: Written, next: Piece) {
    if next.gap == [] then
      match b
      case Prose(_) => !next.block.Prose? && (next.block.Rule? ==> next.block.mark != '-')
      case Quotation(_, _, _) => !next.block.Prose? && !next.block.Quotation?
      case Listing(entries) => next.block.Listing? ==> Numbered(next.block.entries) != Numbered(entries)
      case Grid(_, _, _) => '|' !in LineAt(Print(next.block), 0)
      case _ => true
    else
      b.Listing? && next.block.Listing? ==> |next.gap| > 1 || Numbered(next.block.entries) != Numbered(b.entries)
  }

  ghost predicate GoodAll(pieces: seq<Piece>)
    decreases pieces, 0
  {
    pieces == [] ||
    (&& Good(pieces[0].block) && GoodAll(pieces[1..])
     && (|pieces| > 1 ==> MayFollow(pieces[0].block, pieces[1])))
  }

  ghost predicate GoodEntry(e: Entry, ordered: bool)
    decreases e, 0
  {
    && IsBullet(e.bullet) && IsDigit(e.bullet[0]) == ordered && WordsAll(e.words) && e.pad > 0 && e.step > 0
    && (e.nested != [] ==> e.nested[0].gap == [] && GoodEntries(e.nested, Numbered(e.nested)))
    && GoodBodies(e.bodies)
  }

  // A blank line at most before an item.
  ghost predicate GoodEntries(entries: seq<Entry>, ordered: bool)
    decreases entries, 0
  {
    entries == [] ||
    (GoodEntry(entries[0], ordered) && |entries[0].gap| <= 1 && GoodEntries(entries[1..], ordered))
  }

  // Blocks under an item have no blank line within, and begin with no list and no rule.
  ghost predicate GoodBodies(bodies: seq<Body>)
    decreases bodies, 0
  {
    bodies == [] ||
    (var b := bodies[0];
     && b.gap != [] && b.pieces != [] && GoodAll(b.pieces)
     && b.pieces[0].gap == [] && !b.pieces[0].block.Listing? && !b.pieces[0].block.Rule?
     && (forall k :: 0 <= k < |PrintAll(b.pieces)| ==> !IsBlank(PrintAll(b.pieces)[k]))
     && GoodBodies(bodies[1..]))
  }

  // ----- What it means ------------------------------------------------------------------------

  ghost function Texts(vs: seq<string>): (r: seq<seq<Inline>>)
    ensures |r| == |vs| && forall k :: 0 <= k < |r| ==> r[k] == [Text(vs[k])]
  {
    if vs == [] then [] else [[Text(vs[0])]] + Texts(vs[1..])
  }

  ghost function TextRows(rows: seq<seq<string>>): (r: seq<seq<seq<Inline>>>)
    ensures |r| == |rows| && forall k :: 0 <= k < |r| ==> r[k] == Texts(rows[k])
  {
    if rows == [] then [] else [Texts(rows[0])] + TextRows(rows[1..])
  }

  ghost function Meaning(b: Written): Block
    decreases b, 0
  {
    match b
    case Prose(words) => Paragraph(false, [Text(JoinBy(words, ' '))])
    case Title(depth, _, text, _) => Heading(depth, [Text(text)])
    case Rule(_, _) => ThematicBreak
    case Code(_, lang, body) => CodeBlock(lang, body)
    case Quotation(inner, _, _) => Quote(MeaningAll(inner))
    case Listing(entries) => List(Numbered(entries), Items(entries))
    case Grid(_, header, rows) => Table(Texts(header), TextRows(rows))
  }

  ghost function MeaningAll(pieces: seq<Piece>): (r: seq<Block>)
    ensures |r| == |pieces|
    decreases pieces, 0
  {
    if pieces == [] then [] else [Meaning(pieces[0].block)] + MeaningAll(pieces[1..])
  }

  ghost function ItemOf(e: Entry): Item
    decreases e, 0
  {
    Item([Paragraph(true, [Text(JoinBy(e.words, ' '))])]
         + ((if e.nested == [] then [] else [List(Numbered(e.nested), Items(e.nested))]) + Under(e.bodies)))
  }

  ghost function Items(entries: seq<Entry>): seq<Item>
    decreases entries, 0
  {
    if entries == [] then [] else [ItemOf(entries[0])] + Items(entries[1..])
  }

  // The blocks under an item.
  ghost function Under(bodies: seq<Body>): seq<Block>
    decreases bodies, 0
  {
    if bodies == [] then [] else MeaningAll(bodies[0].pieces) + Under(bodies[1..])
  }

  // ----- Lines --------------------------------------------------------------------------------

  ghost predicate At(lines: seq<string>, i: nat, x: seq<string>) {
    i + |x| <= |lines| && lines[i..i + |x|] == x
  }

  lemma AtSplit(lines: seq<string>, i: nat, x: seq<string>, y: seq<string>)
    requires At(lines, i, x + y)
    ensures At(lines, i, x) && At(lines, i + |x|, y)
  {
    var z := lines[i..i + |x| + |y|];
    assert z == x + y && z[..|x|] == x && z[|x|..] == y;
  }

  lemma AtIs(lines: seq<string>, i: nat, x: seq<string>, k: nat)
    requires At(lines, i, x) && k < |x|
    ensures i + k < |lines| && lines[i + k] == x[k]
  {
    assert lines[i..i + |x|][k] == lines[i + k];
  }

  // A line that stands at the margin.
  ghost predicate AtMargin(line: string) {
    line != "" && !IsSpace(line[0])
  }

  lemma MarginOf(line: string, c: char)
    requires line != "" && line[0] == c && IsPunctuation(c)
    ensures AtMargin(line)
  {
    MarksAreSolid(c);
  }

  // Which forms a line at the margin can have is told by its first character.
  lemma FirstMark(line: string)
    requires AtMargin(line)
    ensures Indent(line) == 0 && line[0..] == line && !IsBlank(line)
    ensures line[0] !in "`~" ==> FenceMarks(line) == 0 && FenceOf(line).None?
    ensures line[0] != '#' ==> !StartsHeading(line) && HeadingOf(line).None?
    ensures line[0] !in "-*_" ==> !IsThematicBreak(line)
    ensures line[0] !in "=-" ==> !IsSetextUnderline(line)
    ensures line[0] != '>' ==> Quoted(line).None?
    ensures line[0] !in "-*+" && !IsDigit(line[0]) ==> ListItem(line).None?
    ensures line[0] != '<' ==> !StartsImage(line) && !StartsHtml(line)
  {
    WordsLineIndent(line);
    hide IsSpace, Indent;
  }

  lemma NoDelimiterMark(line: string)
    requires AtMargin(line) && line[0] !in "|:-"
    ensures !IsDelimiterRow(line)
  {
    WordsLineIndent(line);
    hide IsSpace, Indent;
    assert DropOne('|', line) == line && DropOne(':', line) == line && RunOf('-', line) == 0;
  }

  lemma {:induction false} WordsAreNoItem(v: string)
    requires Words(v)
    ensures ListItem(Escape(v)).None?
  {
    var line := Escape(v);
    EscapeIsWordsLine(v);
    WordsLineIndent(line);
    assert line[0] !in "-*+";
    hide IsSpace;
    var digits := Span(IsDigit, line);
    if 0 < digits < |line| && line[digits] in ".)" {
      MarkIsBehind(v, digits);
    }
  }

  // A line of words is a paragraph's and nothing else's, and makes no table of the line above.
  lemma {:induction false} WordsForm(v: string)
    requires Words(v)
    ensures var line := Escape(v);
      && AtMargin(line) && !IsBlank(line) && TrimText(line) == line
      && FenceOf(line).None? && HeadingOf(line).None? && !IsThematicBreak(line)
      && Quoted(line).None? && ListItem(line).None? && !StartsImage(line) && !StartsHtml(line)
      && !IsSetextUnderline(line) && FenceMarks(line) == 0 && !StartsHeading(line) && !IsDelimiterRow(line)
  {
    hide TrimText, IsSpace, FenceOf, FenceMarks, HeadingOf, StartsHeading, IsThematicBreak, IsSetextUnderline, Quoted, ListItem,
      StartsImage, StartsHtml, Escape, IsDelimiterRow, NoLineBreak;
    var line := Escape(v);
    EscapeIsWordsLine(v);
    FirstMark(line);
    NoDelimiterMark(line);
    TrimTextIs(line);
    WordsAreNoItem(v);
  }

  // A line of words goes on with a paragraph or a quote, whatever comes next but a delimiter row.
  lemma {:induction false} WordsGoOn(v: string, next: string)
    requires Words(v) && !IsDelimiterRow(next)
    ensures !InterruptsParagraph(Escape(v), next)
  {
    hide StartsHeading, ListItem, Quoted, FenceMarks, IsDelimiterRow, StartsHtml, StartsImage, Escape, Cells;
    WordsForm(v);
  }

  // Words further in are no item, rule or underline either.
  lemma {:induction false} IndentedWords(v: string, d: nat)
    requires Words(v)
    ensures var line := Repeat(' ', d) + Escape(v);
      && Indent(line) == d && line[d..] == Escape(v) && !IsBlank(line) && TrimText(line) == Escape(v)
      && ListItem(line).None? && !IsThematicBreak(line) && !IsSetextUnderline(line) && !IsDelimiterRow(line)
  {
    hide IsSpace, Escape, IsPunctuation, NoLineBreak, TrimEnd, ListItem, IsThematicBreak, IsSetextUnderline, IsDelimiterRow,
      FenceOf, HeadingOf, Quoted, StartsImage, StartsHtml, FenceMarks, StartsHeading, Indent;
    var t := Escape(v);
    var line := Repeat(' ', d) + t;
    EscapeIsWordsLine(v);
    IndentOf(t, d);
    WordsForm(v);
    TrimEnds(t);
    MarkIsPunctuation('|');
    FurtherIn(t, line, d);
  }

  lemma {:induction false} TrimEnds(t: string)
    requires t != "" && !IsSpace(t[|t| - 1])
    ensures TrimEnd(t) == t
  {
  }

  lemma {:induction false} IndentOf(t: string, d: nat)
    requires t != "" && !IsSpace(t[0])
    ensures Indent(Repeat(' ', d) + t) == d && (Repeat(' ', d) + t)[d..] == t
  {
    EscapeSpace();
    hide IsSpace;
    SpanOf(IsSpace, Repeat(' ', d), t);
  }

  // Most forms are told after the spaces.
  lemma FurtherIn(t: string, line: string, d: nat)
    requires AtMargin(t) && Indent(line) == d && line[d..] == t && ListItem(t).None?
    requires !IsThematicBreak(t) && !IsSetextUnderline(t) && !IsDelimiterRow(t) && t[0] != '|'
    ensures ListItem(line).None? && !IsThematicBreak(line) && !IsSetextUnderline(line)
    ensures !IsDelimiterRow(line)
  {
    WordsLineIndent(t);
    hide IsSpace, Indent, IsBlank, Span, RunOf, HowMany, NoLineBreak;
    assert forall k :: 0 <= k < |t| ==> t[k] == line[d + k];
    if IsDelimiterRow(line) {
      NoPipe(line, d);
    }
  }

  // Spaces hold no pipe.
  lemma NoPipe(line: string, d: nat)
    requires Indent(line) == d && '|' in line
    ensures '|' in line[d..]
  {
    assert !IsSpace('|');
    hide IsSpace;
    var k :| 0 <= k < |line| && line[k] == '|';
    assert k >= d && line[d..][k - d] == '|';
  }

  lemma {:induction false} BlankLine(width: nat)
    ensures IsBlank(Repeat(' ', width))
  {
    EscapeSpace();
    hide IsSpace;
    var s := Repeat(' ', width);
    assert s + "" == s;
    SpanOf(IsSpace, s, "");
  }

  lemma BlankForm(line: string)
    requires IsBlank(line)
    ensures ListItem(line).None? && Quoted(line).None? && !IsDelimiterRow(line) && !IsRow(line)
  {
    if '|' in line {
      NoPipe(line, |line|);
    }
    hide IsSpace;
    assert line[|line|..] == "";
  }

  // ----- The first line of each block --------------------------------------------------------

  lemma {:induction false} RunIs(c: char, line: string, n: nat)
    requires n <= |line| && (forall k :: 0 <= k < n ==> line[k] == c) && (n < |line| ==> line[n] != c)
    ensures RunOf(c, line) == n
  {
    if n > 0 { RunIs(c, line[1..], n - 1); }
  }

  lemma {:induction false} RunIsOf(c: char, s: string)
    ensures forall k :: 0 <= k < RunOf(c, s) ==> s[k] == c
  {
    if s != "" && s[0] == c { RunIsOf(c, s[1..]); }
  }

  lemma SpaceThen(t: string)
    requires t != "" && !IsSpace(t[0])
    ensures Indent(" " + t) == 1 && (" " + t)[1..] == t
  {
    EscapeSpace();
    hide IsSpace;
    WordsLineIndent(t);
  }

  // Hashes, spaces, text that ends in neither, and what may close a heading.
  lemma {:induction false} HashesForm(depth: nat, lead: nat, t: string, ending: Ending)
    requires 1 <= depth <= 6 && lead > 0
    requires t != "" && !IsSpace(t[0]) && !IsSpace(t[|t| - 1]) && t[|t| - 1] != '#' && NoLineBreak(t)
    ensures var line := Repeat('#', depth) + (Repeat(' ', lead) + (t + EndingText(ending)));
      StartsHeading(line) && HeadingOf(line) == Some(HeadingLine(depth, t))
  {
    HashIsMark();
    hide IsSpace, HeadingLength, RunOf, Indent, NoLineBreak, EndingText, ClosesHeading;
    var tail := EndingText(ending);
    var spaced := Repeat(' ', lead) + (t + tail);
    var line := Repeat('#', depth) + spaced;
    RunIs('#', line, depth);
    assert line[depth..] == spaced;
    IndentOf(t + tail, lead);
    EndingCloses(ending);
    HeadingStops(t, tail);
    assert (t + tail)[..|t|] == t;
  }

  lemma EndingCloses(e: Ending)
    ensures ClosesHeading(EndingText(e))
  {
    HashIsMark();
    hide IsSpace, Indent, IsBlank, RunOf;
    var hashes := Repeat('#', e.hashes) + Repeat(' ', e.after);
    if e.hashes > 0 {
      IndentOf(hashes, e.before);
      RunIs('#', hashes, e.hashes);
      assert hashes[e.hashes..] == Repeat(' ', e.after);
      BlankLine(e.after);
    } else {
      assert EndingText(e) == Repeat(' ', e.before + e.after);
      BlankLine(e.before + e.after);
      BlankClosesHeading(EndingText(e));
    }
  }

  lemma BlankClosesHeading(s: string)
    requires IsBlank(s)
    ensures ClosesHeading(s)
  {
    assert s[|s|..] == "";
    NothingIsBlank();
  }

  lemma NothingIsBlank()
    ensures IsBlank("")
  {
  }

  // What closes a heading has only hashes and spaces.
  lemma ClosesMeans(s: string)
    requires ClosesHeading(s)
    ensures forall k :: 0 <= k < |s| ==> IsSpace(s[k]) || s[k] == '#'
  {
    hide IsSpace;
    var rest := s[Indent(s)..];
    RunIsOf('#', rest);
    var more := rest[RunOf('#', rest)..];
    forall k | 0 <= k < |s|
      ensures IsSpace(s[k]) || s[k] == '#'
    {
      if k >= Indent(s) {
        var m := k - Indent(s);
        assert s[k] == rest[m];
        if m >= RunOf('#', rest) {
          assert rest[m] == more[m - RunOf('#', rest)];
        }
      }
    }
  }

  // Text that ends in no space and no hash is all of a heading's, and nothing after it is.
  lemma {:induction false} HeadingStops(t: string, tail: string)
    requires t == "" || (!IsSpace(t[|t| - 1]) && t[|t| - 1] != '#')
    requires ClosesHeading(tail)
    ensures HeadingLength(t + tail) == |t|
  {
    hide ClosesHeading, IsSpace;
    if t == "" {
      assert t + tail == tail;
    } else {
      assert (t + tail)[|t| - 1] == t[|t| - 1];
      if ClosesHeading(t + tail) { ClosesMeans(t + tail); }
      HeadingStops(t[1..], tail);
      assert (t + tail)[1..] == t[1..] + tail;
    }
  }

  lemma HashIsMark()
    ensures IsPunctuation('#') && !IsSpace('#') && IsSpace(' ')
  {
  }

  // A hash that ends a heading's words is dropped from them, backslash or not; nothing else is.
  lemma {:induction false} HeadingKeepsItsWords(depth: nat, v: string)
    requires 1 <= depth <= 6 && Words(v)
    ensures HeadingOf(Repeat('#', depth) + " " + Escape(v)) == Some(HeadingLine(depth, Escape(v))) <==> v[|v| - 1] != '#'
  {
    if v[|v| - 1] != '#' {
      hide *;
      PlainHeading(depth, v);
    } else {
      hide *;
      HashIsLost(depth, v);
    }
  }

  lemma {:induction false} PlainHeading(depth: nat, v: string)
    requires 1 <= depth <= 6 && Words(v) && v[|v| - 1] != '#'
    ensures HeadingOf(Repeat('#', depth) + " " + Escape(v)) == Some(HeadingLine(depth, Escape(v)))
  {
    hide IsSpace, HeadingOf, StartsHeading, Escape, IsPunctuation;
    var t := Escape(v);
    EscapeIsWordsLine(v);
    EscapeShape(v);
    HashesForm(depth, 1, t, Ending(0, 0, 0));
    assert t + EndingText(Ending(0, 0, 0)) == t;
    assert Repeat('#', depth) + (Repeat(' ', 1) + t) == Repeat('#', depth) + " " + t;
  }

  lemma {:induction false} HashIsLost(depth: nat, v: string)
    requires 1 <= depth <= 6 && Words(v) && v[|v| - 1] == '#'
    ensures HeadingOf(Repeat('#', depth) + " " + Escape(v)) != Some(HeadingLine(depth, Escape(v)))
  {
    hide IsSpace, HeadingOf, Escape, ClosesHeading, IsPunctuation;
    var t := Escape(v);
    EscapeIsWordsLine(v);
    EscapeShape(v);
    assert t[|t| - 1..] == "#";
    HashCloses();
    HeadingIsShort(t, |t| - 1);
    HeadingTextOf(depth, t);
  }

  lemma HashCloses()
    ensures ClosesHeading("#")
  {
    HashIsMark();
    hide IsSpace;
    assert Indent("#") == 0 && "#"[0..] == "#" && "#"[1..] == "";
  }

  lemma {:induction false} HeadingIsShort(t: string, k: nat)
    requires k <= |t| && ClosesHeading(t[k..])
    ensures HeadingLength(t) <= k
  {
    hide ClosesHeading;
    if t != "" && !ClosesHeading(t) {
      assert k > 0 by { assert t[0..] == t; }
      assert t[1..][k - 1..] == t[k..];
      HeadingIsShort(t[1..], k - 1);
    } else if k == 0 {
      assert t[0..] == t;
    }
  }

  lemma {:induction false} HeadingTextOf(depth: nat, t: string)
    requires 1 <= depth <= 6 && t != "" && !IsSpace(t[0])
    ensures var h := HeadingOf(Repeat('#', depth) + " " + t);
      h.Some? ==> h.value.text == t[..HeadingLength(t)]
  {
    HashIsMark();
    hide IsSpace, HeadingLength, RunOf, Indent, NoLineBreak;
    var line := Repeat('#', depth) + " " + t;
    RunIs('#', line, depth);
    assert line[depth..] == " " + t;
    SpaceThen(t);
  }

  lemma {:induction false} TitleForm(depth: nat, lead: nat, v: string, ending: Ending)
    requires Good(Title(depth, lead, v, ending))
    ensures var line := TitleLine(depth, lead, v, ending);
      && AtMargin(line) && FenceOf(line).None? && HeadingOf(line) == Some(HeadingLine(depth, Escape(v)))
      && StartsHeading(line) && ListItem(line).None? && Quoted(line).None? && !IsDelimiterRow(line) && !IsThematicBreak(line)
  {
    hide Escape, FenceOf, HeadingOf, StartsHeading, Quoted, ListItem, IsSpace, IsDelimiterRow, IsPunctuation, NoLineBreak,
      IsThematicBreak, EndingText;
    var line := TitleLine(depth, lead, v, ending);
    EscapeIsWordsLine(v);
    EscapeShape(v);
    HashesForm(depth, lead, Escape(v), ending);
    HashIsMark();
    assert line[0] == '#';
    FirstMark(line);
    NoDelimiterMark(line);
  }

  lemma {:induction false} HowManyConcat(c: char, a: string, b: string)
    ensures HowMany(c, a + b) == HowMany(c, a) + HowMany(c, b)
  {
    if a == "" {
      assert a + b == b;
    } else {
      HowManyConcat(c, a[1..], b);
      assert (a + b)[1..] == a[1..] + b;
    }
  }

  lemma {:induction false} HowManySpaces(c: char, n: nat)
    requires c != ' '
    ensures HowMany(c, Repeat(' ', n)) == 0
  {
    if n > 0 {
      HowManySpaces(c, n - 1);
      assert Repeat(' ', n)[1..] == Repeat(' ', n - 1);
    }
  }

  lemma {:induction false} RuleLineIs(mark: char, gaps: seq<nat>)
    requires mark != ' '
    ensures var line := RuleLine(mark, gaps);
      && line != "" && line[0] == mark && HowMany(mark, line) == |gaps| + 1
      && (forall k :: 0 <= k < |line| ==> line[k] == mark || line[k] == ' ')
      && (gaps != [] && gaps[0] == 0 ==> |line| > 1 && line[1] == mark)
  {
    var line := RuleLine(mark, gaps);
    assert [mark][1..] == "" && HowMany(mark, "") == 0 && HowMany(mark, [mark]) == 1;
    if gaps != [] {
      var rest := RuleLine(mark, gaps[1..]);
      RuleLineIs(mark, gaps[1..]);
      HowManyConcat(mark, [mark], Repeat(' ', gaps[0]) + rest);
      HowManyConcat(mark, Repeat(' ', gaps[0]), rest);
      HowManySpaces(mark, gaps[0]);
    }
  }

  lemma {:induction false} RuleForm(mark: char, gaps: seq<nat>)
    requires Good(Rule(mark, gaps))
    ensures var line := RuleLine(mark, gaps);
      && AtMargin(line) && ListItem(line).None? && FenceOf(line).None? && HeadingOf(line).None? && Quoted(line).None?
      && IsThematicBreak(line) && !IsDelimiterRow(line) && (mark != '-' ==> !IsSetextUnderline(line))
  {
    hide IsSpace, ListItem, FenceOf, HeadingOf, Indent, Quoted, IsSetextUnderline, RuleLine, HowMany, IsThematicBreak;
    var line := RuleLine(mark, gaps);
    MarkIsPunctuation(mark);
    RuleLineIs(mark, gaps);
    MarginOf(line, mark);
    FirstMark(line);
    MarksAreARule(line, mark);
    if mark != '_' {
      RuleIsNoItem(line, mark);
    }
  }

  // Three marks or more and nothing else but spaces.
  lemma {:induction false} MarksAreARule(line: string, mark: char)
    requires mark in "-*_" && AtMargin(line) && line[0] == mark && HowMany(mark, line) >= 3
    requires forall k :: 0 <= k < |line| ==> line[k] == mark || line[k] == ' '
    ensures IsThematicBreak(line)
  {
    EscapeSpace();
    hide IsSpace, Indent, HowMany;
    WordsLineIndent(line);
  }

  lemma MarkIsPunctuation(mark: char)
    ensures mark in "-*_`~>|+" ==> IsPunctuation(mark)
  {
  }

  // A mark right after the first is no space after a bullet.
  lemma RuleIsNoItem(line: string, mark: char)
    requires mark in "-*" && |line| > 1 && line[0] == mark == line[1]
    ensures ListItem(line).None?
  {
    MarkIsPunctuation(mark);
    MarksAreSolid(mark);
    hide IsSpace, Indent, IsPunctuation;
    WordsLineIndent(line);
    WordsLineIndent(line[1..]);
  }

  lemma FenceForm(f: Fences, lang: string)
    requires f.mark in "`~" && f.length >= 3 && forall k :: 0 <= k < |lang| ==> IsLangChar(lang[k])
    ensures var line := OpeningLine(f, lang);
      && AtMargin(line) && ListItem(line).None? && Quoted(line).None? && !IsDelimiterRow(line) && !IsThematicBreak(line)
      && FenceMarks(line) == f.length && FenceOf(line) == Some(Fence(f.mark, f.length, lang))
  {
    hide IsSpace, RunOf, Indent, ListItem, IsLangChar, IsDelimiterRow, Quoted, IsThematicBreak, IsBlank, Span;
    var rest := Repeat(' ', f.before) + (lang + Repeat(' ', f.after));
    var line := OpeningLine(f, lang);
    assert line == Repeat(f.mark, f.length) + rest && line[0] == f.mark;
    MarkIsPunctuation(f.mark);
    MarginOf(line, f.mark);
    FirstMark(line);
    NoDelimiterMark(line);
    if lang != "" { LangIsSolid(lang[0]); }
    RunIs(f.mark, line, f.length);
    assert line[f.length..] == rest;
    LangForm(f.before, lang, f.after);
  }

  lemma LangIsSolid(c: char)
    requires IsLangChar(c)
    ensures !IsSpace(c) && c !in "`~"
  {
  }

  lemma SpaceIsNoLang()
    ensures !IsLangChar(' ')
  {
  }

  // The name of a language, or none, with spaces around it.
  lemma {:induction false} LangForm(before: nat, lang: string, after: nat)
    requires forall k :: 0 <= k < |lang| ==> IsLangChar(lang[k])
    ensures var rest := Repeat(' ', before) + (lang + Repeat(' ', after));
      var named := rest[Indent(rest)..];
      named[..Span(IsLangChar, named)] == lang && IsBlank(named[Span(IsLangChar, named)..])
  {
    hide *;
    if lang != "" {
      LangNamed(before, lang, after);
    } else {
      NoLang(before, after);
    }
  }

  lemma {:induction false} LangNamed(before: nat, lang: string, after: nat)
    requires lang != "" && forall k :: 0 <= k < |lang| ==> IsLangChar(lang[k])
    ensures var rest := Repeat(' ', before) + (lang + Repeat(' ', after));
      var named := rest[Indent(rest)..];
      named[..Span(IsLangChar, named)] == lang && IsBlank(named[Span(IsLangChar, named)..])
  {
    hide IsSpace, IsLangChar, Indent, IsBlank;
    var more := lang + Repeat(' ', after);
    SpaceIsNoLang();
    LangIsSolid(lang[0]);
    IndentOf(more, before);
    SpanOf(IsLangChar, lang, Repeat(' ', after));
    assert more[..|lang|] == lang && more[|lang|..] == Repeat(' ', after);
    BlankLine(after);
  }

  lemma {:induction false} NoLang(before: nat, after: nat)
    ensures var rest := Repeat(' ', before) + ("" + Repeat(' ', after));
      var named := rest[Indent(rest)..];
      named[..Span(IsLangChar, named)] == "" && IsBlank(named[Span(IsLangChar, named)..])
  {
    hide IsSpace, IsLangChar, Indent, IsBlank;
    var rest := Repeat(' ', before) + ("" + Repeat(' ', after));
    assert rest == Repeat(' ', before + after);
    BlankLine(before + after);
    AllBlank(rest);
    NothingIsBlank();
  }

  lemma AllBlank(s: string)
    requires IsBlank(s)
    ensures s[Indent(s)..] == "" && Span(IsLangChar, s[Indent(s)..]) == 0
  {
    hide IsSpace;
  }

  lemma QuoteForm(line: string, spaced: bool)
    ensures var quoted := Angled(line, spaced);
      && AtMargin(quoted) && ListItem(quoted).None? && Quoted(quoted) == Some(line) && Unquoted(quoted) == line
      && FenceOf(quoted).None? && HeadingOf(quoted).None? && !IsThematicBreak(quoted) && !IsDelimiterRow(quoted)
  {
    hide *;
    var quoted := Angled(line, spaced);
    AngledBegins(line, spaced);
    MarkIsPunctuation('>');
    MarginOf(quoted, '>');
    FirstMark(quoted);
    NoDelimiterMark(quoted);
    AngledIsQuoted(line, spaced);
  }

  lemma AngledBegins(line: string, spaced: bool)
    ensures var quoted := Angled(line, spaced); quoted != "" && quoted[0] == '>' && !IsDigit(quoted[0])
  {
    hide IsSpace;
  }

  lemma AngledIsQuoted(line: string, spaced: bool)
    requires Indent(Angled(line, spaced)) == 0
    ensures Quoted(Angled(line, spaced)) == Some(line) && Unquoted(Angled(line, spaced)) == line
  {
    EscapeSpace();
    hide IsSpace, Indent;
    var quoted := Angled(line, spaced);
    assert (" " + line)[1..] == line;
    assert quoted[1..] == line || quoted[1..] == " " + line;
  }

  // ----- Items --------------------------------------------------------------------------------

  lemma {:induction false} BulletForm(bullet: string, pad: nat, t: string, rest: string)
    requires IsBullet(bullet) && pad > 0 && rest == bullet + (Repeat(' ', pad) + t) && t != "" && !IsSpace(t[0])
    ensures var digits := Span(IsDigit, rest);
      if IsDigit(bullet[0]) then 0 < digits < |rest| && rest[digits] in ".)" && digits + 1 == |bullet|
      else digits == 0 && rest[0] in "-*+" && |bullet| == 1
    ensures var spaced := Repeat(' ', pad) + t;
      rest[|bullet|..] == spaced && Indent(spaced) == pad && spaced[pad..] == t
    ensures AtMargin(rest) && rest[0] == bullet[0]
  {
    hide IsSpace, Indent, IsPunctuation;
    IndentOf(t, pad);
    DigitsAreSolid(bullet[0]);
    MarkIsPunctuation(bullet[0]);
    assert rest[|bullet|..] == Repeat(' ', pad) + t;
    if IsDigit(bullet[0]) {
      NumberForm(bullet, Repeat(' ', pad) + t);
    } else {
      MarksAreSolid(bullet[0]);
    }
  }

  lemma NumberForm(bullet: string, more: string)
    requires IsBullet(bullet) && IsDigit(bullet[0])
    ensures var rest := bullet + more;
      Span(IsDigit, rest) == |bullet| - 1 && |bullet| > 1 && rest[|bullet| - 1] in ".)"
  {
    var n := |bullet|;
    var stop := [bullet[n - 1]] + more;
    assert bullet + more == bullet[..n - 1] + stop;
    SpanOf(IsDigit, bullet[..n - 1], stop);
  }

  lemma DigitsAreSolid(c: char)
    ensures IsDigit(c) ==> !IsSpace(c) && !IsPunctuation(c)
  {
  }

  lemma {:induction false} ItemForm(d: nat, bullet: string, pad: nat, t: string)
    requires IsBullet(bullet) && pad > 0 && t != "" && !IsSpace(t[0]) && NoLineBreak(t)
    ensures var rest := bullet + (Repeat(' ', pad) + t);
      var line := Repeat(' ', d) + rest;
      && Indent(line) == d && line[d..] == rest && AtMargin(rest)
      && ListItem(line) == Some(ListLine(d, IsDigit(bullet[0]), t))
  {
    hide IsSpace, ListItem, NoLineBreak;
    var rest := bullet + (Repeat(' ', pad) + t);
    var line := Repeat(' ', d) + rest;
    BulletForm(bullet, pad, t, rest);
    IndentOf(rest, d);
    BulletIsItem(line, d, bullet, pad, t);
  }

  lemma {:induction false} BulletIsItem(line: string, d: nat, bullet: string, pad: nat, t: string)
    requires IsBullet(bullet) && pad > 0 && t != "" && !IsSpace(t[0]) && NoLineBreak(t)
    requires Indent(line) == d && line[d..] == bullet + (Repeat(' ', pad) + t)
    ensures ListItem(line) == Some(ListLine(d, IsDigit(bullet[0]), t))
  {
    hide IsSpace, Span, NoLineBreak, Indent;
    BulletForm(bullet, pad, t, line[d..]);
    hide IsBullet, IsDigit;
  }

  // An item's line: what it is read as, and what it is not.
  lemma {:induction false} EntryForm(bullet: string, pad: nat, v: string, d: nat)
    requires IsBullet(bullet) && pad > 0 && Words(v)
    ensures var line := EntryLine(bullet, pad, v, d);
      && ListItem(line) == Some(ListLine(d, IsDigit(bullet[0]), Escape(v)))
      && Indent(line) == d && !IsBlank(line) && !IsDelimiterRow(line) && NoLineBreak(line)
  {
    hide Escape, ListItem, IsSpace, IsPunctuation, IsDelimiterRow, IsBullet, IsDigit, NoLineBreak;
    var t := Escape(v);
    EscapeIsWordsLine(v);
    ItemForm(d, bullet, pad, t);
    ItemIsNoDelimiter(bullet, pad, t, d);
    ItemIsClean(bullet, pad, t, d);
  }

  lemma {:induction false} ItemIsClean(bullet: string, pad: nat, t: string, d: nat)
    requires IsBullet(bullet) && NoLineBreak(t)
    ensures NoLineBreak(Repeat(' ', d) + (bullet + (Repeat(' ', pad) + t)))
  {
    hide NoLineBreak;
    BulletUnbroken(bullet);
    RepeatUnbroken(' ', d);
    RepeatUnbroken(' ', pad);
    JoinUnbroken(Repeat(' ', pad), t);
    JoinUnbroken(bullet, Repeat(' ', pad) + t);
    JoinUnbroken(Repeat(' ', d), bullet + (Repeat(' ', pad) + t));
  }

  lemma BulletUnbroken(bullet: string)
    requires IsBullet(bullet)
    ensures NoLineBreak(bullet)
  {
  }

  lemma JoinUnbroken(a: string, b: string)
    requires NoLineBreak(a) && NoLineBreak(b)
    ensures NoLineBreak(a + b)
  {
  }

  lemma {:induction false} RepeatUnbroken(c: char, n: nat)
    requires c !in "\n\r\U{2028}\U{2029}"
    ensures NoLineBreak(Repeat(c, n))
  {
  }

  lemma {:induction false} ItemIsNoDelimiter(bullet: string, pad: nat, t: string, d: nat)
    requires IsBullet(bullet) && pad > 0 && t != "" && !IsSpace(t[0]) && (IsPunctuation(t[0]) ==> t[0] == '\\')
    ensures !IsDelimiterRow(Repeat(' ', d) + (bullet + (Repeat(' ', pad) + t)))
  {
    hide IsSpace, IsPunctuation, Indent, DelimiterCells, IsBullet;
    var rest := bullet + (Repeat(' ', pad) + t);
    MarkIsPunctuation('|');
    BulletForm(bullet, pad, t, rest);
    BulletMark(bullet);
    IndentOf(rest, d);
    assert DropOne('|', rest) == rest;
    if bullet[0] == '-' {
      DashIsNoDelimiter(pad, t);
    } else {
      NoDash(rest);
    }
  }

  lemma BulletMark(bullet: string)
    requires IsBullet(bullet)
    ensures bullet[0] !in "|:" && (bullet[0] == '-' ==> bullet == "-") && (IsDigit(bullet[0]) <==> bullet[0] !in "-*+")
  {
  }

  lemma {:induction false} NoDash(rest: string)
    requires AtMargin(rest) && rest[0] !in ":-"
    ensures !DelimiterCells(rest)
  {
    hide IsSpace, Indent;
    WordsLineIndent(rest);
    assert DropOne(':', rest) == rest && RunOf('-', rest) == 0;
  }

  lemma {:induction false} DashIsNoDelimiter(pad: nat, t: string)
    requires pad > 0 && t != "" && !IsSpace(t[0]) && t[0] != '|'
    ensures !DelimiterCells("-" + (Repeat(' ', pad) + t))
  {
    hide IsSpace, Indent;
    var more := Repeat(' ', pad) + t;
    var rest := "-" + more;
    MarkIsPunctuation('-');
    MarginOf(rest, '-');
    WordsLineIndent(rest);
    IndentOf(t, pad);
    assert rest[1..] == more;
    assert RunOf('-', more) == 0 && RunOf('-', rest) == 1;
    assert DropOne(':', rest) == rest && DropOne(':', more) == more;
  }

  // An item's line at the margin begins a list, and no other block.
  lemma EntryStarts(bullet: string, pad: nat, v: string)
    requires IsBullet(bullet) && pad > 0 && Words(v)
    ensures var line := EntryLine(bullet, pad, v, 0);
      && AtMargin(line) && FenceOf(line).None? && HeadingOf(line).None? && !IsThematicBreak(line) && Quoted(line).None?
  {
    hide IsSpace, FenceOf, FenceMarks, HeadingOf, Quoted, Indent, IsPunctuation, ListItem, StartsImage, StartsHtml, HowMany,
      NoLineBreak, StartsHeading, IsSetextUnderline, Escape, IsBullet, IsThematicBreak;
    var t := Escape(v);
    var line := EntryLine(bullet, pad, v, 0);
    assert line == bullet + (Repeat(' ', pad) + t);
    EscapeIsWordsLine(v);
    BulletForm(bullet, pad, t, line);
    BulletMark(bullet);
    BulletIsNoRule(bullet, pad, t);
    BulletStart(bullet);
    FirstMark(line);
  }

  lemma BulletStart(bullet: string)
    requires IsBullet(bullet)
    ensures bullet[0] !in "`~#>_"
  {
  }

  lemma {:induction false} BulletIsNoRule(bullet: string, pad: nat, t: string)
    requires IsBullet(bullet) && pad > 0 && t != "" && !IsSpace(t[0]) && (IsPunctuation(t[0]) ==> t[0] == '\\')
    ensures !IsThematicBreak(bullet + (Repeat(' ', pad) + t))
  {
    hide IsSpace, Indent, HowMany, IsPunctuation, Span;
    var line := bullet + (Repeat(' ', pad) + t);
    MarkIsPunctuation(t[0]);
    BulletForm(bullet, pad, t, line);
    WordsLineIndent(line);
    assert line[|bullet| + pad] == t[0];
  }

  // ----- Tables -------------------------------------------------------------------------------

  // A cell's text: no pipe, and no backslash that is left without what it stands before.
  ghost predicate Whole(x: string)
    decreases |x|
  {
    || x == ""
    || (x[0] == '\\' && |x| > 1 && x[1] != '|' && Whole(x[2..]))
    || (x[0] !in "\\|" && Whole(x[1..]))
  }

  lemma {:induction false} WholeConcat(a: string, b: string)
    requires Whole(a) && Whole(b)
    ensures Whole(a + b)
    decreases |a|
  {
    if a == "" {
      assert a + b == b;
    } else {
      var n := if a[0] == '\\' then 2 else 1;
      WholeConcat(a[n..], b);
      assert (a + b)[n..] == a[n..] + b;
    }
  }

  lemma {:induction false} EscapeIsWhole(v: string)
    requires '|' !in v
    ensures Whole(Escape(v))
  {
    if v != "" {
      hide IsPunctuation;
      var front, c := v[..|v| - 1], v[|v| - 1];
      EscapeIsWhole(front);
      BackslashIsMark();
      assert Whole("");
      assert [c][1..] == "" && ['\\', c][2..] == "";
      WholeConcat(Escape(front), if IsPunctuation(c) then ['\\', c] else [c]);
    }
  }

  lemma {:induction false} CellReads(t: string, i: nat, x: string, sofar: string)
    requires Whole(x) && i + |x| <= |t| && t[i..i + |x|] == x
    ensures CellsFrom(t, i, sofar) == CellsFrom(t, i + |x|, sofar + x)
    decreases |x|
  {
    if x == "" {
      assert sofar + x == sofar;
    } else {
      var n := if x[0] == '\\' then 2 else 1;
      assert t[i] == t[i..i + |x|][0] && (n == 2 ==> t[i + 1] == t[i..i + |x|][1]);
      assert t[i + n..i + n + |x[n..]|] == t[i..i + |x|][n..];
      CellReads(t, i + n, x[n..], sofar + x[..n]);
      assert sofar + x[..n] + x[n..] == sofar + x;
      assert x[..n] == if n == 2 then [t[i], t[i + 1]] else [t[i]];
    }
  }

  // The cells as they stand between the pipes.
  ghost function Spaced(cells: seq<string>): (r: seq<string>)
    ensures |r| == |cells| && forall k :: 0 <= k < |r| ==> r[k] == " " + cells[k] + " "
  {
    if cells == [] then [] else [" " + cells[0] + " "] + Spaced(cells[1..])
  }

  ghost predicate WholeCells(cells: seq<string>) {
    cells != [] && forall k :: 0 <= k < |cells| ==> Whole(cells[k])
  }

  lemma {:induction false} SpaceIsWhole(x: string)
    requires Whole(x)
    ensures Whole(" " + x + " ")
  {
    assert Whole("");
    assert " "[1..] == "" && Whole(" ");
    WholeConcat(" ", x);
    WholeConcat(" " + x, " ");
  }

  lemma SplitRow(t: string, i: nat, x: string, rest: string)
    requires i <= |t| && t[i..] + "|" == x + ("|" + rest)
    ensures i + |x| <= |t| && t[i..i + |x|] == x
    ensures rest == "" ==> i + |x| == |t|
    ensures rest != "" ==> i + |x| < |t| && t[i + |x|] == '|' && t[i + |x| + 1..] + "|" == rest
  {
    var s := t[i..];
    var whole := s + "|";
    assert |s| == |x| + |rest|;
    assert whole[..|x|] == x && whole[..|x|] == s[..|x|];
    assert s[..|x|] == t[i..i + |x|];
    if rest != "" {
      assert whole[|x|] == '|' == s[|x|];
      assert whole[|x| + 1..] == rest;
      assert whole[|x| + 1..] == s[|x| + 1..] + "|";
      assert s[|x| + 1..] == t[i + |x| + 1..];
    }
  }

  // The row less its last pipe, from one cell on.
  lemma {:induction false} RowCellsRead(t: string, i: nat, cells: seq<string>)
    requires WholeCells(cells) && i <= |t| && t[i..] + "|" == RowCells(cells)
    ensures CellsFrom(t, i, "") == Spaced(cells)
    decreases |cells|
  {
    hide Whole;
    var x := " " + cells[0] + " ";
    var rest := RowCells(cells[1..]);
    var j := i + |x|;
    SpaceIsWhole(cells[0]);
    assert RowCells(cells) == x + ("|" + rest);
    SplitRow(t, i, x, rest);
    CellReads(t, i, x, "");
    assert "" + x == x;
    if |cells| > 1 {
      RowCellsEnd(cells[1..]);
      RowCellsRead(t, j + 1, cells[1..]);
      assert Spaced(cells) == [x] + Spaced(cells[1..]);
    }
  }

  lemma {:induction false} RowCellsEnd(cells: seq<string>)
    requires cells != []
    ensures RowCells(cells) != "" && RowCells(cells)[|RowCells(cells)| - 1] == '|'
  {
    if |cells| > 1 { RowCellsEnd(cells[1..]); }
  }

  lemma {:induction false} RowLineReads(cells: seq<string>)
    requires WholeCells(cells)
    ensures Cells(RowLine(cells)) == Spaced(cells)
  {
    hide RowCells, RowText;
    RowCellsEnd(cells);
    var all := RowCells(cells);
    var text := all[..|all| - 1];
    assert RowLine(cells) == "|" + text + "|" && text + "|" == all;
    RowTextOf(text);
    assert text[0..] == text;
    RowCellsRead(text, 0, cells);
  }

  lemma SpacedTrims(x: string)
    requires x != "" && !IsSpace(x[0]) && !IsSpace(x[|x| - 1])
    ensures TrimText(" " + x + " ") == x
  {
    EscapeSpace();
    hide IsSpace;
    var s := " " + x + " ";
    SpaceThen(x + " ");
    assert s == " " + (x + " ") && s[1..] == x + " ";
    assert (x + " ")[..|x|] == x;
    TrimEnds(x);
    assert TrimEnd(x + " ") == TrimEnd(x);
  }

  lemma {:induction false} WordsCellsRead(g: Grammar, cells: seq<string>)
    requires CellsOk(cells)
    ensures WholeCells(Escapes(cells)) && Cells(RowLine(Escapes(cells))) == Spaced(Escapes(cells))
    ensures RowReads(g, Spaced(Escapes(cells)), Texts(cells))
  {
    hide Spelt, Escape, Whole, Cells, RowLine, IsSpace, TrimText, IsPunctuation, NoLineBreak;
    forall k | 0 <= k < |cells|
      ensures Whole(Escape(cells[k])) && SpeltAll(g, TrimText(" " + Escape(cells[k]) + " "), [Text(cells[k])])
    {
      EscapeIsWhole(cells[k]);
      EscapeIsWordsLine(cells[k]);
      SpacedTrims(Escape(cells[k]));
      EscapeSpells(g, cells[k]);
    }
    RowLineReads(Escapes(cells));
  }

  // A row is a row, and at the margin; of words it is no delimiter row.
  lemma RowForm(cells: seq<string>)
    requires cells != []
    ensures var line := RowLine(cells);
      && AtMargin(line) && line[0] == '|' && '|' in line && IsRow(line) && ListItem(line).None? && Quoted(line).None?
      && FenceOf(line).None? && HeadingOf(line).None? && !IsThematicBreak(line)
  {
    hide IsSpace, ListItem, FenceOf, HeadingOf, IsThematicBreak, Indent, RowCells, Quoted, IsSetextUnderline, StartsHeading;
    var line := RowLine(cells);
    MarkIsPunctuation('|');
    MarginOf(line, '|');
    FirstMark(line);
  }

  lemma {:induction false} WordsRowIsNoDelimiter(cells: seq<string>)
    requires CellsOk(cells)
    ensures !IsDelimiterRow(RowLine(Escapes(cells)))
  {
    hide IsSpace, IsPunctuation, Escape, NoLineBreak, IsDelimiterRow, RowLine;
    var t := Escape(cells[0]);
    EscapeIsWordsLine(cells[0]);
    RowBegins(Escapes(cells));
    ColonIsMark();
    PipeIsNoDelimiter(t + (" |" + RowCells(Escapes(cells)[1..])));
  }

  lemma RowBegins(cells: seq<string>)
    requires cells != []
    ensures RowLine(cells) == "|" + (" " + (cells[0] + (" |" + RowCells(cells[1..]))))
  {
  }

  lemma PipeIsNoDelimiter(rest: string)
    requires AtMargin(rest) && rest[0] !in ":-"
    ensures !IsDelimiterRow("|" + (" " + rest))
  {
    hide IsSpace, Indent, DelimiterCells;
    var line := "|" + (" " + rest);
    ColonIsMark();
    WordsLineIndent(line);
    NoDashAfterSpace(rest);
    assert line[1..] == " " + rest;
  }

  lemma ColonIsMark()
    ensures IsPunctuation(':') && IsPunctuation('|') && IsPunctuation('-')
    ensures !IsSpace(':') && !IsSpace('|') && !IsSpace('-')
  {
  }

  lemma {:induction false} NoDashAfterSpace(rest: string)
    requires AtMargin(rest) && rest[0] !in ":-"
    ensures !DelimiterCells(" " + rest)
  {
    hide IsSpace, Indent;
    SpaceThen(rest);
    assert DropOne(':', rest) == rest && RunOf('-', rest) == 0;
  }

  // A colon, or none.
  ghost function Colon(on: bool): string {
    if on then ":" else ""
  }

  lemma ColonDrops(on: bool, y: string)
    requires y != "" && y[0] != ':'
    ensures DropOne(':', Colon(on) + y) == y
  {
    assert (":" + y)[1..] == y && "" + y == y;
  }

  lemma {:induction false} AlignForm(a: Align, more: string)
    requires a.dashes > 0
    ensures var s := " " + AlignText(a) + " |" + more;
      DelimiterCells(s) <== IsBlank(more) || DelimiterCells(more)
    ensures Whole(AlignText(a))
  {
    hide *;
    AlignIsWhole(a);
    AlignIs(a, more);
    var rest := "|" + more;
    var w := " " + rest;
    var z := Colon(a.right) + w;
    var y := Repeat('-', a.dashes) + z;
    var x := Colon(a.left) + y;
    AlignSolid(a, rest);
    ColonDrops(a.left, y);
    ColonDrops(a.right, w);
    RunIs('-', y, a.dashes);
    SpaceThen(x);
    SpaceThen(rest);
    assert y[a.dashes..] == z && rest[1..] == more;
    DelimiterStep(" " + x, x, y, z, w, rest, more, a.dashes);
  }

  lemma AlignSolid(a: Align, rest: string)
    requires a.dashes > 0 && rest != "" && rest[0] == '|'
    ensures var z := Colon(a.right) + (" " + rest);
      var y := Repeat('-', a.dashes) + z;
      var x := Colon(a.left) + y;
      && z != "" && z[0] != '-' && y[0] == '-' && x != "" && !IsSpace(x[0]) && !IsSpace(rest[0])
  {
    ColonIsMark();
    hide IsSpace;
  }

  lemma AlignIs(a: Align, more: string)
    ensures " " + AlignText(a) + " |" + more
         == " " + (Colon(a.left) + (Repeat('-', a.dashes) + (Colon(a.right) + (" " + ("|" + more)))))
  {
  }

  lemma {:induction false} DelimiterStep(s: string, x: string, y: string, z: string, w: string, rest: string, more: string, n: nat)
    requires s[Indent(s)..] == x && DropOne(':', x) == y && RunOf('-', y) == n > 0 && y[n..] == z
    requires DropOne(':', z) == w && w[Indent(w)..] == rest && rest != "" && rest[0] == '|' && rest[1..] == more
    ensures IsBlank(more) || DelimiterCells(more) ==> DelimiterCells(s)
  {
    hide Indent, RunOf, DropOne, IsSpace;
  }

  lemma AlignIsWhole(a: Align)
    ensures Whole(AlignText(a))
  {
    DashesAreWhole(a.dashes);
    assert Whole("") && ":"[1..] == "" && Whole(":");
    var left, right := (if a.left then ":" else ""), (if a.right then ":" else "");
    WholeConcat(left, Repeat('-', a.dashes));
    WholeConcat(left + Repeat('-', a.dashes), right);
  }

  lemma {:induction false} DashesAreWhole(n: nat)
    ensures Whole(Repeat('-', n))
  {
    if n > 0 {
      DashesAreWhole(n - 1);
      assert Repeat('-', n)[1..] == Repeat('-', n - 1);
    }
  }

  lemma {:induction false} AlignsAreDelimiters(aligns: seq<Align>)
    requires aligns != [] && forall k :: 0 <= k < |aligns| ==> aligns[k].dashes > 0
    ensures DelimiterCells(RowCells(AlignTexts(aligns)))
    ensures WholeCells(AlignTexts(aligns))
  {
    hide DelimiterCells, Whole, AlignText, IsBlank;
    var texts := AlignTexts(aligns);
    var more := RowCells(texts[1..]);
    assert texts[1..] == AlignTexts(aligns[1..]);
    assert RowCells(texts) == " " + AlignText(aligns[0]) + " |" + more;
    AlignForm(aligns[0], more);
    if |aligns| > 1 {
      AlignsAreDelimiters(aligns[1..]);
      forall k | 0 <= k < |texts|
        ensures Whole(texts[k])
      {
        if k > 0 { assert texts[k] == texts[1..][k - 1]; }
      }
    } else {
      assert more == "";
      NothingIsBlank();
    }
  }

  lemma {:induction false} AlignRowForm(aligns: seq<Align>)
    requires aligns != [] && forall k :: 0 <= k < |aligns| ==> aligns[k].dashes > 0
    ensures var line := RowLine(AlignTexts(aligns)); IsDelimiterRow(line) && |Cells(line)| == |aligns|
  {
    hide IsSpace, Indent, DelimiterCells, Cells;
    var texts := AlignTexts(aligns);
    RowForm(texts);
    var line := RowLine(texts);
    WordsLineIndent(line);
    AlignsAreDelimiters(aligns);
    RowLineReads(texts);
    assert DropOne('|', line) == RowCells(texts);
  }

  // A header over its delimiter row starts a table.
  lemma {:induction false} GridStarts(aligns: seq<Align>, header: seq<string>)
    requires |aligns| == |header| && CellsOk(header) && forall k :: 0 <= k < |aligns| ==> aligns[k].dashes > 0
    ensures StartsTable(RowLine(Escapes(header)), RowLine(AlignTexts(aligns)))
  {
    hide IsDelimiterRow, Cells, RowLine, Whole, Escape, NoLineBreak, IsSpace;
    AlignRowForm(aligns);
    RowForm(Escapes(header));
    forall k | 0 <= k < |header|
      ensures Whole(Escape(header[k]))
    {
      EscapeIsWhole(header[k]);
    }
    RowLineReads(Escapes(header));
  }

  // ----- Where a block begins -----------------------------------------------------------------

  // What the first line of a block is, with the line under it.
  ghost predicate Opens(b: Written, line: string, next: string) {
    && AtMargin(line) && !IsBlank(line) && !IsDelimiterRow(line)
    && (ListItem(line).Some? <==> b.Listing?)
    && (b.Listing? ==> ListItem(line).value.indent == 0 && ListItem(line).value.ordered == Numbered(b.entries))
    && (Quoted(line).Some? <==> b.Quotation?)
    && (IsThematicBreak(line) <==> b.Rule?) && (b.Rule? && b.mark != '-' ==> !IsSetextUnderline(line))
    && (!b.Prose? && !b.Rule? ==> InterruptsParagraph(line, next))
  }

  lemma {:induction false} FirstEntry(entries: seq<Entry>, ordered: bool, d: nat)
    requires entries != [] && entries[0].gap == [] && GoodEntries(entries, ordered)
    ensures entries[0].bullet != "" && entries[0].words != [] && entries[0].pad > 0
    ensures IsBullet(entries[0].bullet) && Words(entries[0].words[0]) && IsDigit(entries[0].bullet[0]) == ordered
    ensures Numbered(entries) == ordered
    ensures PrintEntries(entries, d) != [] && PrintEntries(entries, d)[0] == EntryLine(entries[0].bullet,
        entries[0].pad, entries[0].words[0], d)
  {
    hide IsDigit, Words, EntryLine;
    var e := entries[0];
    assert PrintEntry(e, d)[0] == EntryLine(e.bullet, e.pad, e.words[0], d);
    assert Blanks(e.gap) == [];
    assert [] + (PrintEntry(e, d) + PrintEntries(entries[1..], d)) == PrintEntry(e, d) + PrintEntries(entries[1..], d);
  }

  lemma {:induction false} FirstLine(b: Written, next: string)
    requires Good(b) && (b.Grid? ==> next == LineAt(Print(b), 1))
    ensures Print(b) != [] && Opens(b, Print(b)[0], next)
    decreases b, 0
  {
    hide Escape, ListItem, IsSpace, IsLangChar, PrintEntries, GoodEntries, PrintAll, GoodAll, Clean, FenceOf, FenceMarks, HeadingOf,
      StartsHeading, IsThematicBreak, IsSetextUnderline, Quoted, StartsTable, StartsHtml, StartsImage, IsDelimiterRow, IsBlank,
      EntryLine, RowLine, NoLineBreak, Tail, IsBullet, TitleLine, RuleLine, OpeningLine, ClosingLine, Angled;
    match b
    case Prose(words) => WordsForm(words[0]);
    case Title(depth, lead, text, ending) => TitleForm(depth, lead, text, ending); MarginHasText(Print(b)[0]);
    case Rule(mark, gaps) => RuleForm(mark, gaps); MarginHasText(Print(b)[0]);
    case Code(fences, lang, body) => FenceForm(fences, lang); MarginHasText(Print(b)[0]);
    case Quotation(inner, lazy, spaced) =>
      PrintsSomething(inner);
      QuoteForm(PrintAll(inner)[0], spaced);
      TailIsShort(inner);
      MarginHasText(Print(b)[0]);
    case Listing(entries) =>
      FirstEntry(entries, Numbered(entries), 0);
      EntryForm(entries[0].bullet, entries[0].pad, entries[0].words[0], 0);
      EntryStarts(entries[0].bullet, entries[0].pad, entries[0].words[0]);
    case Grid(aligns, header, rows) =>
      GridStarts(aligns, header);
      RowForm(Escapes(header));
      WordsRowIsNoDelimiter(header);
      MarginHasText(Print(b)[0]);
  }

  lemma {:induction false} PrintsSomething(pieces: seq<Piece>)
    requires pieces != [] && GoodAll(pieces)
    ensures PrintAll(pieces) != [] && Print(pieces[0].block) != []
    decreases pieces, 0
  {
    var b := pieces[0].block;
    FirstLine(b, LineAt(Print(b), 1));
    hide Opens, Good, Print;
  }

  // A quote has more lines than the lazy ones.
  lemma {:induction false} TailIsShort(pieces: seq<Piece>)
    requires pieces != [] && GoodAll(pieces)
    ensures Tail(pieces) < |PrintAll(pieces)|
    ensures forall j :: |PrintAll(pieces)| - Tail(pieces) <= j < |PrintAll(pieces)| ==> IsWordsOf(PrintAll(pieces)[j])
    decreases pieces, 1
  {
    hide Escape, IsWordsOf, MayFollow;
    var first, rest := Blanks(pieces[0].gap) + Print(pieces[0].block), pieces[1..];
    assert PrintAll(pieces) == first + PrintAll(rest);
    if rest == [] {
      LastBlockTail(pieces[0].block);
      assert first + [] == first;
    } else {
      TailIsShort(rest);
      assert pieces[|pieces| - 1] == rest[|rest| - 1];
      hide Print, Good;
    }
  }

  ghost predicate IsWordsOf(line: string) {
    exists v :: Words(v) && line == Escape(v)
  }

  lemma {:induction false} LastBlockTail(b: Written)
    requires Good(b)
    ensures var n := match b case Prose(words) => |words| - 1 case Quotation(_, lazy, _) => lazy case _ => 0;
      && 0 <= n < |Print(b)|
      && forall j :: |Print(b)| - n <= j < |Print(b)| ==> IsWordsOf(Print(b)[j])
    decreases b, 1
  {
    hide Escape, Opens, Tail;
    match b
    case Prose(words) =>
      forall j | 0 <= j < |words|
        ensures IsWordsOf(Print(b)[j])
      {
        assert Words(words[j]) && Print(b)[j] == Escape(words[j]);
      }
    case Quotation(inner, lazy, spaced) =>
      hide Words, IsWordsOf;
      TailIsShort(inner);
    case _ => FirstLine(b, LineAt(Print(b), 1));
  }

  lemma MarginHasText(line: string)
    requires AtMargin(line)
    ensures Indent(line) == 0 && !IsBlank(line)
  {
    WordsLineIndent(line);
  }

  // ----- Where a block ends -------------------------------------------------------------------

  // Nothing from `k` on goes on with a list at the margin.
  ghost predicate ListEnds(lines: seq<string>, k: nat, ordered: bool)
    requires k <= |lines|
  {
    && (TextFrom(lines, k) < |lines| ==> Indent(lines[TextFrom(lines, k)]) == 0)
    && (IsItem(lines, Resume(lines, k)) ==> ListItem(lines[Resume(lines, k)]).value.ordered != ordered)
  }

  // Nothing at `k` goes on with the block.
  ghost predicate Follows(lines: seq<string>, k: nat, b: Written) {
    && k <= |lines| && (k < |lines| ==> !IsDelimiterRow(lines[k]))
    && match b
       case Prose(_) => k < |lines| ==> EndsParagraph(lines)(k) && !Underlines(lines, k)
       case Quotation(_, _, _) => k < |lines| ==> EndsQuote(lines)(k)
       case Listing(entries) => ListEnds(lines, k, Numbered(entries))
       case Grid(_, _, _) => k < |lines| ==> !IsRow(lines[k])
       case _ => true
  }

  lemma {:induction false} UntilIs(stop: nat -> bool, k: nat, at: nat, n: nat)
    requires k <= at <= n && (forall j :: k <= j < at ==> !stop(j)) && (at < n ==> stop(at))
    ensures Until(stop, k, n) == at
    decreases at - k
  {
    if k < at { UntilIs(stop, k + 1, at, n); }
  }

  ghost predicate BlankTo(lines: seq<string>, k: nat, t: nat) {
    k <= t <= |lines| && forall m :: k <= m < t ==> IsBlank(lines[m])
  }

  // The first of some pieces: blank lines, and its block.
  lemma {:induction false} PieceAt(lines: seq<string>, k: nat, pieces: seq<Piece>)
    requires pieces != [] && GoodAll(pieces) && At(lines, k, PrintAll(pieces))
    ensures var t, b := k + |pieces[0].gap|, pieces[0].block;
      && Print(b) != [] && t < |lines| && lines[t] == Print(b)[0] && Opens(b, lines[t], LineAt(lines, t + 1))
      && TextFrom(lines, k) == t && BlankTo(lines, k, t)
      && At(lines, t, Print(b)) && At(lines, t + |Print(b)|, PrintAll(pieces[1..]))
  {
    hide *;
    var gap, b := pieces[0].gap, pieces[0].block;
    var t := k + |gap|;
    PrintAllIs(pieces);
    AtSplit(lines, k, Blanks(gap), Print(b) + PrintAll(pieces[1..]));
    AtSplit(lines, t, Print(b), PrintAll(pieces[1..]));
    OpensAt(lines, t, b);
    GapAt(lines, k, gap);
  }

  lemma {:induction false} PrintAllIs(pieces: seq<Piece>)
    requires pieces != []
    ensures PrintAll(pieces) == Blanks(pieces[0].gap) + (Print(pieces[0].block) + PrintAll(pieces[1..]))
    ensures GoodAll(pieces) ==> Good(pieces[0].block) && GoodAll(pieces[1..])
  {
  }

  lemma {:induction false} OpensAt(lines: seq<string>, t: nat, b: Written)
    requires Good(b) && At(lines, t, Print(b))
    ensures Print(b) != [] && t < |lines| && lines[t] == Print(b)[0] && Opens(b, lines[t], LineAt(lines, t + 1))
    ensures !IsBlank(lines[t])
  {
    hide Opens, Good, IsBlank, Print, At;
    if b.Grid? {
      GridHasTwo(b);
      AtIs(lines, t, Print(b), 1);
    }
    FirstLine(b, LineAt(Print(b), 1));
    AtIs(lines, t, Print(b), 0);
    FirstLine(b, LineAt(lines, t + 1));
    OpensWithText(b, lines[t], LineAt(lines, t + 1));
  }

  lemma TextAfterBlanks(lines: seq<string>, k: nat, t: nat)
    requires t < |lines| && !IsBlank(lines[t]) && BlankTo(lines, k, t)
    ensures TextFrom(lines, k) == t
  {
    hide IsBlank, Until;
    UntilIs(HasTextAt(lines), k, t, |lines|);
  }

  lemma {:induction false} BlanksAt(lines: seq<string>, k: nat, gap: seq<nat>)
    requires At(lines, k, Blanks(gap))
    ensures BlankTo(lines, k, k + |gap|)
    decreases |gap|
  {
    hide IsBlank, Repeat, At;
    AtEnds(lines, k, Blanks(gap));
    if gap != [] {
      AtSplit(lines, k, [Repeat(' ', gap[0])], Blanks(gap[1..]));
      AtIs(lines, k, [Repeat(' ', gap[0])], 0);
      BlankLine(gap[0]);
      BlanksAt(lines, k + 1, gap[1..]);
    }
  }

  lemma AtEnds(lines: seq<string>, k: nat, x: seq<string>)
    requires At(lines, k, x)
    ensures k + |x| <= |lines|
  {
  }

  lemma {:induction false} GapAt(lines: seq<string>, k: nat, gap: seq<nat>)
    requires At(lines, k, Blanks(gap)) && k + |gap| < |lines| && !IsBlank(lines[k + |gap|])
    ensures TextFrom(lines, k) == k + |gap| && BlankTo(lines, k, k + |gap|)
  {
    hide *;
    var t := k + |gap|;
    BlanksAt(lines, k, gap);
    TextAfterBlanks(lines, k, t);
  }

  lemma {:induction false} GridHasTwo(b: Written)
    requires b.Grid?
    ensures |Print(b)| >= 2
  {
  }

  lemma OpensWithText(b: Written, line: string, next: string)
    requires Opens(b, line, next)
    ensures !IsBlank(line) && !IsDelimiterRow(line) && AtMargin(line) && Indent(line) == 0
  {
    MarginHasText(line);
    hide IsBlank, IsDelimiterRow, InterruptsParagraph, IsSetextUnderline, IsThematicBreak, Quoted, ListItem, Indent;
  }

  lemma BlankFollows(lines: seq<string>, k: nat)
    requires k < |lines| && IsBlank(lines[k])
    ensures !IsDelimiterRow(lines[k]) && !IsRow(lines[k])
    ensures EndsParagraph(lines)(k) && !Underlines(lines, k) && EndsQuote(lines)(k)
  {
    BlankForm(lines[k]);
    hide IsDelimiterRow, InterruptsParagraph, IsSetextUnderline, IsThematicBreak, Quoted, Indent;
  }

  // With no blank line between, the next block's first line ends the one before.
  lemma {:induction false} OpeningFollows(lines: seq<string>, k: nat, b: Written, next: Written)
    requires k < |lines| && Opens(next, lines[k], LineAt(lines, k + 1)) && Print(next) != [] && lines[k] == Print(next)[0]
    requires MayFollow(b, Piece([], next)) && !b.Listing?
    ensures Follows(lines, k, b)
  {
    hide IsDelimiterRow, InterruptsParagraph, IsSetextUnderline, IsThematicBreak, Quoted, IsBlank, ListItem, Print, ListEnds;
  }

  // Whatever may follow a block does not go on with it.
  lemma {:induction false} NextFits(lines: seq<string>, k: nat, b: Written, rest: seq<Piece>)
    requires GoodAll(rest) && (rest != [] ==> MayFollow(b, rest[0]))
    requires At(lines, k, PrintAll(rest)) && k + |PrintAll(rest)| == |lines|
    ensures Follows(lines, k, b)
  {
    hide IsDelimiterRow, InterruptsParagraph, IsSetextUnderline, IsThematicBreak, Quoted, IsBlank, ListItem, Print, ListEnds,
      Opens, Good, EndsParagraph, EndsQuote, Underlines, IsRow, MayFollow;
    if rest == [] {
      NothingFollows(lines);
      if b.Listing? { NoListFollows(lines, Numbered(b.entries)); }
    } else {
      PieceAt(lines, k, rest);
      var next := rest[0];
      if next.gap != [] {
        BlankFollows(lines, k);
      }
      if b.Listing? {
        ListNextFits(lines, k, b, rest);
      } else if next.gap == [] {
        assert next == Piece([], next.block);
        OpeningFollows(lines, k, b, next.block);
      }
    }
  }

  lemma NothingFollows(lines: seq<string>)
    ensures TextFrom(lines, |lines|) == |lines| && Resume(lines, |lines|) == |lines| && !IsItem(lines, |lines|)
  {
  }

  lemma NoListFollows(lines: seq<string>, ordered: bool)
    ensures ListEnds(lines, |lines|, ordered)
  {
    NothingFollows(lines);
  }

  lemma {:induction false} ListNextFits(lines: seq<string>, k: nat, b: Written, rest: seq<Piece>)
    requires b.Listing? && rest != [] && GoodAll(rest) && MayFollow(b, rest[0]) && At(lines, k, PrintAll(rest))
    ensures k < |lines| && !IsDelimiterRow(lines[k]) && ListEnds(lines, k, Numbered(b.entries))
  {
    hide IsDelimiterRow, InterruptsParagraph, IsSetextUnderline, IsThematicBreak, Quoted, IsBlank, ListItem, Print, Good, Until, PrintAll,
      Numbered, IsSpace;
    PieceAt(lines, k, rest);
    var next := rest[0];
    var t := k + |next.gap|;
    OpensWithText(next.block, lines[t], LineAt(lines, t + 1));
    forall m | k <= m < t
      ensures ListItem(lines[m]).None? && !IsDelimiterRow(lines[m])
    {
      BlankForm(lines[m]);
    }
  }

  // ----- Paragraphs ---------------------------------------------------------------------------

  lemma {:induction false} WordsAt(lines: seq<string>, i: nat, words: seq<string>, m: nat)
    requires At(lines, i, Escapes(words)) && m < |words|
    ensures i + m < |lines| && lines[i + m] == Escape(words[m])
  {
    hide *;
    AtIs(lines, i, Escapes(words), m);
  }

  lemma WordsIn(words: seq<string>, m: nat)
    requires WordsAll(words) && m < |words|
    ensures Words(words[m])
  {
  }

  // Under a line of words comes no delimiter row.
  lemma {:induction false} NextIsPlain(lines: seq<string>, i: nat, words: seq<string>, m: nat)
    requires WordsAll(words) && At(lines, i, Escapes(words)) && m < |words|
    requires i + |words| < |lines| ==> !IsDelimiterRow(lines[i + |words|])
    ensures !IsDelimiterRow(LineAt(lines, i + m + 1))
  {
    hide IsDelimiterRow, WordsAll, At, Escapes, FenceOf, HeadingOf, IsThematicBreak, Quoted, ListItem, StartsImage, StartsHtml,
      IsSetextUnderline, StartsHeading, FenceMarks, IsBlank, AtMargin, TrimText;
    if m + 1 < |words| {
      WordsAt(lines, i, words, m + 1);
      WordsIn(words, m + 1);
      WordsForm(words[m + 1]);
    } else {
      NothingIsBlank();
      BlankForm("");
    }
  }

  lemma {:induction false} ProseGoesOn(lines: seq<string>, i: nat, words: seq<string>, m: nat)
    requires WordsAll(words) && At(lines, i, Escapes(words)) && 0 < m < |words|
    requires i + |words| < |lines| ==> !IsDelimiterRow(lines[i + |words|])
    ensures !EndsParagraph(lines)(i + m)
  {
    hide IsDelimiterRow, Words, Escape, At, InterruptsParagraph, IsBlank, IsSetextUnderline, IsThematicBreak, ListItem, Quoted,
      FenceOf, HeadingOf;
    WordsAt(lines, i, words, m);
    WordsForm(words[m]);
    NextIsPlain(lines, i, words, m);
    WordsGoOn(words[m], LineAt(lines, i + m + 1));
  }

  lemma {:induction false} TrimmedWords(lines: seq<string>, i: nat, words: seq<string>, m: nat)
    requires WordsAll(words) && At(lines, i, Escapes(words)) && m <= |words|
    ensures i + m <= |lines| && Trimmed(lines, i, i + m) == Escapes(words)[..m]
    decreases m
  {
    hide Words, Escape, TrimText, At, Escapes;
    AtEnds(lines, i, Escapes(words));
    if m > 0 {
      TrimmedWords(lines, i, words, m - 1);
      WordsAt(lines, i, words, m - 1);
      WordsForm(words[m - 1]);
    }
  }

  lemma {:induction false} ProseEnds(lines: seq<string>, i: nat, words: seq<string>, m: nat)
    requires WordsAll(words) && At(lines, i, Escapes(words)) && 0 < m <= |words|
    requires i + |words| < |lines| ==> !IsDelimiterRow(lines[i + |words|]) && EndsParagraph(lines)(i + |words|)
    ensures i + m <= |lines| && Until(EndsParagraph(lines), i + m, |lines|) == i + |words|
    decreases |words| - m
  {
    hide IsDelimiterRow, WordsAll, At, EndsParagraph, Escapes;
    AtEnds(lines, i, Escapes(words));
    if m < |words| {
      ProseGoesOn(lines, i, words, m);
      ProseEnds(lines, i, words, m + 1);
    }
  }

  lemma ProseReads(g: Grammar, lines: seq<string>, i: nat, words: seq<string>)
    requires WordsAll(words) && At(lines, i, Escapes(words)) && Follows(lines, i + |words|, Prose(words))
    ensures ReadsBlock(g, lines, i, i + |words|, Meaning(Prose(words)))
  {
    hide Spelt, Escape, IsBlank, TrimText, FenceOf, HeadingOf, IsThematicBreak, Quoted, ListItem, StartsImage, Words,
      StartsHtml, IsDelimiterRow, InterruptsParagraph, Until, IsSetextUnderline, EndsParagraph, At, Cells, Escapes;
    AtEnds(lines, i, Escapes(words));
    WordsAt(lines, i, words, 0);
    WordsForm(words[0]);
    NextIsPlain(lines, i, words, 0);
    ProseEnds(lines, i, words, 1);
    TrimmedWords(lines, i, words, |words|);
    LinesSpell(g, words);
    assert Escapes(words)[..|words|] == Escapes(words);
  }

  // ----- Headings, rules and code ---------------------------------------------------------------

  lemma TitleReads(g: Grammar, lines: seq<string>, i: nat, b: Written)
    requires b.Title? && Good(b) && At(lines, i, Print(b))
    ensures ReadsBlock(g, lines, i, i + 1, Meaning(b))
  {
    hide Spelt, Escape, FenceOf, HeadingOf, At, IsSpace, Words, TitleLine, Reads, ItemsRead, TableReads, ParagraphReads, FenceReads,
      Quoted, ListItem, StartsTable, AtMargin, IsThematicBreak;
    AtIs(lines, i, Print(b), 0);
    TitleForm(b.depth, b.lead, b.text, b.ending);
    WordsAreSome(b.text);
    EscapeSpells(g, b.text);
  }

  lemma WordsAreSome(v: string)
    requires Words(v)
    ensures v != ""
  {
  }

  lemma RuleReads(g: Grammar, lines: seq<string>, i: nat, b: Written)
    requires b.Rule? && Good(b) && At(lines, i, Print(b))
    ensures ReadsBlock(g, lines, i, i + 1, ThematicBreak)
  {
    hide FenceOf, HeadingOf, IsThematicBreak, At, RuleLine, Reads, ItemsRead, TableReads, ParagraphReads, FenceReads, Spelt, Quoted,
      ListItem, StartsTable, AtMargin;
    AtIs(lines, i, Print(b), 0);
    RuleForm(b.mark, b.gaps);
  }

  lemma {:induction false} TrimEndKeeps(s: string, j: nat)
    requires j < |s| && !IsSpace(s[j])
    ensures j < |TrimEnd(s)| <= |s| && TrimEnd(s) == s[..|TrimEnd(s)|]
  {
    if IsSpace(s[|s| - 1]) {
      TrimEndKeeps(s[..|s| - 1], j);
    }
  }

  lemma {:induction false} TrimShrinks(s: string)
    ensures |TrimEnd(s)| <= |s|
  {
    if s != "" && IsSpace(s[|s| - 1]) { TrimShrinks(s[..|s| - 1]); }
  }

  // Such a line does not close the fence.
  lemma StaysOpen(line: string, fence: Fence)
    requires StaysWithin(line, fence.marker, fence.length)
    ensures !ClosesFence(line, fence)
  {
    hide IsSpace;
    var n := Indent(line);
    TrimShrinks(line[n..]);
    if |line| >= fence.length {
      var j :| 0 <= j < |line| && line[j] != fence.marker && !IsSpace(line[j]);
      assert n <= j;
      TrimEndKeeps(line[n..], j - n);
      assert TrimText(line)[j - n] == line[j];
    }
  }

  lemma {:induction false} TrimEndOf(x: string, n: nat)
    requires x != "" && !IsSpace(x[|x| - 1])
    ensures TrimEnd(x + Repeat(' ', n)) == x
  {
    EscapeSpace();
    hide IsSpace;
    var s := x + Repeat(' ', n);
    if n == 0 {
      assert s == x;
    } else {
      TrimEndOf(x, n - 1);
      assert s[..|s| - 1] == x + Repeat(' ', n - 1);
    }
  }

  // The fence's own marks, as many or more, close it.
  lemma FenceCloses(f: Fences, lang: string)
    requires f.mark in "`~" && f.length > 0
    ensures ClosesFence(ClosingLine(f), Fence(f.mark, f.length, lang))
  {
    hide IsSpace, Indent, TrimEnd;
    var marks := Repeat(f.mark, f.length + f.more);
    MarkIsPunctuation(f.mark);
    MarksAreSolid(f.mark);
    IndentOf(marks + Repeat(' ', f.trail), f.lead);
    TrimEndOf(marks, f.trail);
  }

  lemma CodeReads(g: Grammar, lines: seq<string>, i: nat, b: Written)
    requires b.Code? && Good(b) && At(lines, i, Print(b))
    ensures ReadsBlock(g, lines, i, i + |b.body| + 2, CodeBlock(b.lang, b.body))
  {
    hide FenceOf, ClosesFence, Until, IsLangChar, Clean, At, OpeningLine, ClosingLine, StaysWithin, Reads, ItemsRead, TableReads,
      ParagraphReads, Quoted, ListItem, StartsTable, AtMargin, IsThematicBreak, HeadingOf;
    var first, last := OpeningLine(b.fences, b.lang), ClosingLine(b.fences);
    var fence := Fence(b.fences.mark, b.fences.length, b.lang);
    var at := i + 1 + |b.body|;
    FenceForm(b.fences, b.lang);
    AtSplit(lines, i, [first] + b.body, [last]);
    AtSplit(lines, i, [first], b.body);
    AtIs(lines, i, [first], 0);
    AtIs(lines, at, [last], 0);
    CodeBody(lines, i + 1, b.body);
    forall j | i + 1 <= j < at
      ensures !ClosesAt(lines, fence)(j)
    {
      assert lines[j] == lines[i + 1..at][j - i - 1];
      StaysOpen(lines[j], fence);
    }
    FenceCloses(b.fences, b.lang);
    UntilIs(ClosesAt(lines, fence), i + 1, at, |lines|);
  }

  lemma CodeBody(lines: seq<string>, i: nat, body: seq<string>)
    requires At(lines, i, body)
    ensures i + |body| <= |lines| && lines[i..i + |body|] == body
  {
  }

  // ----- Tables -------------------------------------------------------------------------------

  lemma {:induction false} RowAt(g: Grammar, lines: seq<string>, i: nat, rows: seq<seq<string>>, m: nat)
    requires At(lines, i, RowLines(rows)) && m < |rows| && CellsOk(rows[m])
    ensures i + m < |lines| && IsRow(lines[i + m]) && RowReads(g, Cells(lines[i + m]), Texts(rows[m]))
  {
    hide At, IsRow, RowReads, RowLine, Cells, CellsOk, WholeCells;
    AtIs(lines, i, RowLines(rows), m);
    CellsAreSome(rows[m]);
    RowForm(Escapes(rows[m]));
    WordsCellsRead(g, rows[m]);
  }

  lemma CellsAreSome(cells: seq<string>)
    requires CellsOk(cells)
    ensures cells != []
  {
  }

  lemma {:induction false} RowsEnd(lines: seq<string>, i: nat, rows: seq<seq<string>>, m: nat)
    requires At(lines, i, RowLines(rows)) && m <= |rows| && (forall k :: 0 <= k < |rows| ==> CellsOk(rows[k]))
    requires i + |rows| < |lines| ==> !IsRow(lines[i + |rows|])
    ensures i + m <= |lines| && Until(EndsTable(lines), i + m, |lines|) == i + |rows|
    decreases |rows| - m
  {
    hide At, IsRow, RowLine, RowLines, CellsOk;
    AtEnds(lines, i, RowLines(rows));
    if m < |rows| {
      RowStands(lines, i, rows, m);
      RowsEnd(lines, i, rows, m + 1);
    }
  }

  lemma {:induction false} RowStands(lines: seq<string>, i: nat, rows: seq<seq<string>>, m: nat)
    requires At(lines, i, RowLines(rows)) && m < |rows| && CellsOk(rows[m])
    ensures i + m < |lines| && IsRow(lines[i + m])
  {
    hide At, IsRow, RowLine, CellsOk;
    AtIs(lines, i, RowLines(rows), m);
    CellsAreSome(rows[m]);
    RowForm(Escapes(rows[m]));
  }

  lemma GridReads(g: Grammar, lines: seq<string>, i: nat, b: Written)
    requires b.Grid? && Good(b) && At(lines, i, Print(b)) && Follows(lines, i + |Print(b)|, b)
    ensures i < |lines| && ReadsBlock(g, lines, i, i + |Print(b)|, Meaning(b))
  {
    hide FenceOf, HeadingOf, IsThematicBreak, StartsTable, At, RowReads, RowLine, IsRow, Cells, CellsOk, Until, IsDelimiterRow,
      RowLines, Escapes, AlignTexts, WholeCells, Texts, TextRows;
    var top := [RowLine(Escapes(b.header)), RowLine(AlignTexts(b.aligns))];
    AtSplit(lines, i, top, RowLines(b.rows));
    AtIs(lines, i, top, 0);
    AtIs(lines, i, top, 1);
    GridStarts(b.aligns, b.header);
    CellsAreSome(b.header);
    RowForm(Escapes(b.header));
    WordsCellsRead(g, b.header);
    RowsEnd(lines, i + 2, b.rows, 0);
    TableIs(g, lines, i, b);
  }

  lemma {:induction false} TableIs(g: Grammar, lines: seq<string>, i: nat, b: Written)
    requires b.Grid? && At(lines, i + 2, RowLines(b.rows)) && i + 1 < |lines| && i + 2 <= |lines|
    requires forall k :: 0 <= k < |b.rows| ==> CellsOk(b.rows[k])
    requires RowReads(g, Cells(lines[i]), Texts(b.header))
    requires Until(EndsTable(lines), i + 2, |lines|) == i + 2 + |b.rows|
    ensures TableReads(g, lines, i, i + 2 + |b.rows|, Table(Texts(b.header), TextRows(b.rows)))
  {
    hide RowReads, Cells, CellsOk, Until, At, RowLines, IsRow, Texts, TextRows, Escapes;
    RowsRead(g, lines, i + 2, b.rows);
  }

  lemma {:induction false} RowsRead(g: Grammar, lines: seq<string>, i: nat, rows: seq<seq<string>>)
    requires At(lines, i, RowLines(rows)) && forall k :: 0 <= k < |rows| ==> CellsOk(rows[k])
    ensures i + |rows| <= |lines|
    ensures forall k :: i <= k < i + |rows| ==> RowReads(g, Cells(lines[k]), TextRows(rows)[k - i])
  {
    hide *;
    AtFits(lines, i, RowLines(rows));
    forall k | i <= k < i + |rows|
      ensures RowReads(g, Cells(lines[k]), TextRows(rows)[k - i])
    {
      var m := k - i;
      RowAt(g, lines, i, rows, m);
      assert i + m == k;
    }
  }

  lemma AtFits(lines: seq<string>, i: nat, x: seq<string>)
    requires At(lines, i, x)
    ensures i + |x| <= |lines|
  {
  }

  // ----- Quotes -------------------------------------------------------------------------------

  // One line of a quote, behind an angle or lazy.
  lemma MarkedAt(lines: seq<string>, i: nat, inner: seq<string>, n: int, spaced: bool, m: nat)
    requires At(lines, i, Marked(inner, n, spaced)) && m < |inner|
    ensures i + m < |lines| && lines[i + m] == if m < n then Angled(inner[m], spaced) else inner[m]
  {
    hide At;
    AtIs(lines, i, Marked(inner, n, spaced), m);
  }

  // Past the first `n`, the lines within are of words.
  ghost predicate LazyFrom(inner: seq<string>, n: nat) {
    n <= |inner| && forall j :: n <= j < |inner| ==> IsWordsOf(inner[j])
  }

  lemma QuoteLineForm(lines: seq<string>, i: nat, inner: seq<string>, n: nat, spaced: bool, m: nat)
    requires At(lines, i, Marked(inner, n, spaced)) && m < |inner| && LazyFrom(inner, n)
    ensures i + m < |lines| && Unquoted(lines[i + m]) == inner[m] && !IsDelimiterRow(lines[i + m])
    ensures m < n ==> Quoted(lines[i + m]).Some?
    ensures m >= n ==> IsWordsOf(lines[i + m])
  {
    hide At, IsDelimiterRow, Escape, Words, Marked, Quoted, Angled;
    MarkedAt(lines, i, inner, n, spaced, m);
    if m < n {
      QuoteForm(inner[m], spaced);
    } else {
      assert IsWordsOf(inner[m]);
      var v :| Words(v) && inner[m] == Escape(v);
      WordsForm(v);
    }
  }

  lemma QuoteGoesOn(lines: seq<string>, i: nat, inner: seq<string>, n: nat, spaced: bool, m: nat)
    requires At(lines, i, Marked(inner, n, spaced)) && m < |inner| && LazyFrom(inner, n)
    requires i + |inner| < |lines| ==> !IsDelimiterRow(lines[i + |inner|])
    ensures !EndsQuote(lines)(i + m)
  {
    hide At, IsDelimiterRow, Escape, Words, Marked, Quoted, InterruptsParagraph, IsThematicBreak, IsBlank, LazyFrom, FenceOf, HeadingOf,
      ListItem;
    QuoteLineForm(lines, i, inner, n, spaced, m);
    if m >= n {
      var v :| Words(v) && lines[i + m] == Escape(v);
      WordsForm(v);
      if m + 1 < |inner| {
        QuoteLineForm(lines, i, inner, n, spaced, m + 1);
      } else {
        NothingIsBlank();
        BlankForm("");
      }
      WordsGoOn(v, LineAt(lines, i + m + 1));
    }
  }

  lemma {:induction false} QuoteEnds(lines: seq<string>, i: nat, inner: seq<string>, n: nat, spaced: bool, m: nat)
    requires At(lines, i, Marked(inner, n, spaced)) && m <= |inner| && LazyFrom(inner, n)
    requires i + |inner| < |lines| ==> !IsDelimiterRow(lines[i + |inner|]) && EndsQuote(lines)(i + |inner|)
    ensures i + m <= |lines| && Until(EndsQuote(lines), i + m, |lines|) == i + |inner|
    decreases |inner| - m
  {
    hide At, IsDelimiterRow, Marked, LazyFrom, EndsQuote;
    AtEnds(lines, i, Marked(inner, n, spaced));
    if m < |inner| {
      QuoteGoesOn(lines, i, inner, n, spaced, m);
      QuoteEnds(lines, i, inner, n, spaced, m + 1);
    }
  }

  lemma {:induction false} UnquotesInner(lines: seq<string>, i: nat, inner: seq<string>, n: nat, spaced: bool, m: nat)
    requires At(lines, i, Marked(inner, n, spaced)) && m <= |inner| && LazyFrom(inner, n)
    ensures i + m <= |lines| && Unquotes(lines, i, i + m) == inner[..m]
    decreases m
  {
    hide *;
    AtEnds(lines, i, Marked(inner, n, spaced));
    if m == 0 {
      UnquotesNone(lines, i);
    } else {
      UnquotesInner(lines, i, inner, n, spaced, m - 1);
      QuoteLineForm(lines, i, inner, n, spaced, m - 1);
      UnquotesMore(lines, i, i + (m - 1));
      assert inner[..m - 1] + [inner[m - 1]] == inner[..m];
    }
  }

  lemma {:induction false} UnquotesNone(lines: seq<string>, i: nat)
    requires i <= |lines|
    ensures Unquotes(lines, i, i) == []
  {
  }

  lemma UnquotesMore(lines: seq<string>, i: nat, k: nat)
    requires i <= k < |lines|
    ensures Unquotes(lines, i, k + 1) == Unquotes(lines, i, k) + [Unquoted(lines[k])]
  {
    hide Unquoted;
  }

  lemma {:induction false} QuotationReads(g: Grammar, lines: seq<string>, i: nat, inner: seq<string>, n: nat,
      spaced: bool, blocks: seq<Block>)
    requires At(lines, i, Marked(inner, n, spaced)) && 0 < n && LazyFrom(inner, n) && Reads(g, inner, 0, blocks)
    requires var k := i + |inner|; k <= |lines| && (k < |lines| ==> !IsDelimiterRow(lines[k]) && EndsQuote(lines)(k))
    ensures i < |lines| && ReadsBlock(g, lines, i, i + |inner|, Quote(blocks))
  {
    hide FenceOf, HeadingOf, IsThematicBreak, ListItem, Quoted, Unquoted, Until, Reads, IsDelimiterRow, At, Marked, EndsQuote, IsWordsOf,
      Cells, LazyFrom, Angled;
    LazyStarts(inner, n);
    MarkedAt(lines, i, inner, n, spaced, 0);
    QuoteForm(inner[0], spaced);
    QuoteEnds(lines, i, inner, n, spaced, 1);
    UnquotesInner(lines, i, inner, n, spaced, |inner|);
    assert inner[..|inner|] == inner;
    if i + 1 < |lines| && 1 < |inner| {
      QuoteLineForm(lines, i, inner, n, spaced, 1);
    }
  }

  lemma LazyStarts(inner: seq<string>, n: nat)
    requires LazyFrom(inner, n)
    ensures n <= |inner|
  {
  }

  // ----- Lists --------------------------------------------------------------------------------

  // The list's first line, as the rest are held against it.
  ghost predicate HeadOf(lines: seq<string>, start: nat, d: nat, ordered: bool) {
    && IsItem(lines, start)
    && ListItem(lines[start]).value.indent == d && ListItem(lines[start]).value.ordered == ordered
  }

  // Nothing from `k` on goes on with the list, or an item of it comes next.
  ghost predicate Over(lines: seq<string>, start: nat, k: nat) {
    && IsItem(lines, start) && k <= |lines|
    && !Hanging(lines, start, Resume(lines, k)) && !SameList(lines, start, Resume(lines, k))
  }

  ghost predicate Sibling(lines: seq<string>, start: nat, k: nat) {
    IsItem(lines, start) && k <= |lines| && SameList(lines, start, Resume(lines, k))
  }

  // An item's own text is over at `k`.
  ghost predicate EndsOwn(lines: seq<string>, k: nat) {
    k <= |lines| && (k == |lines| || IsItem(lines, k) || IsBlank(lines[k]) || Indent(lines[k]) == 0)
  }

  // Lines as deep as `d` are over at `k`.
  ghost predicate Shallow(lines: seq<string>, k: nat, d: nat) {
    k <= |lines| && (k < |lines| ==> IsBlank(lines[k]) || Indent(lines[k]) < d)
  }

  lemma ResumeOnce(lines: seq<string>, k: nat)
    requires k <= |lines|
    ensures Resume(lines, Resume(lines, k)) == Resume(lines, k)
  {
    hide *;
    ResumeIsHere(lines, k);
    if Resume(lines, k) != k { ResumesHere(lines, k + 1); }
  }

  lemma ResumeIsHere(lines: seq<string>, k: nat)
    requires k <= |lines|
    ensures Resume(lines, k) == k || (k + 1 < |lines| && Resume(lines, k) == k + 1 && IsItem(lines, k + 1))
  {
    hide ListItem, IsBlank;
  }

  lemma {:induction false} BelongsResumed(g: Grammar, lines: seq<string>, start: nat, k: nat, to_: nat, blocks: seq<Block>)
    requires IsItem(lines, start) && k <= |lines|
    ensures Belongs(g, lines, start, k, to_, blocks) <==> Belongs(g, lines, start, Resume(lines, k), to_, blocks)
  {
    hide Hangs, Hanging, ListItem, Resume;
    ResumeOnce(lines, k);
  }

  lemma {:induction false} ItemsResumed(g: Grammar, lines: seq<string>, start: nat, k: nat, to_: nat, items: seq<Item>)
    requires IsItem(lines, start) && k <= |lines|
    ensures ItemsRead(g, lines, start, k, to_, items) <==> ItemsRead(g, lines, start, Resume(lines, k), to_, items)
  {
    hide ItemReads, ListItem, Resume, SameList;
    ResumeOnce(lines, k);
  }

  // A sibling does not hang from the item before it.
  lemma SiblingHangsNot(lines: seq<string>, start: nat, k: nat)
    requires Over(lines, start, k) || Sibling(lines, start, k)
    ensures IsItem(lines, start) && k <= |lines| && !Hanging(lines, start, Resume(lines, k))
  {
    hide Hanging, SameList, Resume, ListItem;
    if Sibling(lines, start, k) { SameListHangsNot(lines, start, Resume(lines, k)); }
  }

  // What ends a list ends the lists nested in it.
  lemma OverNested(lines: seq<string>, start: nat, nested: nat, k: nat, d: nat, further: nat, o: bool, p: bool)
    requires HeadOf(lines, start, d, o) && HeadOf(lines, nested, further, p) && d < further
    requires Over(lines, start, k) || Sibling(lines, start, k)
    ensures Over(lines, nested, k)
  {
    SiblingHangsNot(lines, start, k);
    hide ListItem, IsBlank, Indent, Resume, Until, TextFrom, IsThematicBreak;
  }

  // ----- An item's own lines --------------------------------------------------------------------

  lemma {:induction false} OwnAt(lines: seq<string>, p: nat, e: Entry, ordered: bool, d: nat)
    requires GoodEntry(e, ordered) && At(lines, p, OwnLines(e, d))
    ensures e.words != [] && |OwnLines(e, d)| == |e.words|
    ensures p < |lines| && lines[p] == EntryLine(e.bullet, e.pad, e.words[0], d) && HeadOf(lines, p, d, ordered)
    ensures ListItem(lines[p]).value.content == Escape(e.words[0])
    ensures At(lines, p + 1, Indented(Escapes(e.words[1..]), d + e.step))
  {
    hide At, EntryLine, ListItem, Escape, Words, IsBullet, IsDigit, GoodBodies, GoodEntries;
    AtSplit(lines, p, [EntryLine(e.bullet, e.pad, e.words[0], d)], Indented(Escapes(e.words[1..]), d + e.step));
    AtIs(lines, p, [EntryLine(e.bullet, e.pad, e.words[0], d)], 0);
    EntryForm(e.bullet, e.pad, e.words[0], d);
  }

  lemma {:induction false} MoreAt(lines: seq<string>, i: nat, words: seq<string>, d: nat, m: nat)
    requires At(lines, i, Indented(Escapes(words), d)) && m < |words| && Words(words[m]) && d > 0
    ensures i + m < |lines| && !EndsItem(lines)(i + m) && TrimText(lines[i + m]) == Escape(words[m])
  {
    hide At, Escape, Words, ListItem, IsBlank, IsSetextUnderline, IsThematicBreak, TrimText, IsDelimiterRow, Indent;
    AtIs(lines, i, Indented(Escapes(words), d), m);
    IndentedWords(words[m], d);
  }

  lemma {:induction false} OwnEnds(lines: seq<string>, i: nat, words: seq<string>, d: nat, m: nat)
    requires At(lines, i, Indented(Escapes(words), d)) && m <= |words| && (forall k :: 0 <= k < |words| ==> Words(words[k])) && d > 0
    requires EndsOwn(lines, i + |words|)
    ensures i + m <= |lines| && Until(EndsItem(lines), i + m, |lines|) == i + |words|
    decreases |words| - m
  {
    hide At, Words, EndsItem, EndsOwn, Escapes, Indented;
    AtEnds(lines, i, Indented(Escapes(words), d));
    if m < |words| {
      MoreAt(lines, i, words, d, m);
      OwnEnds(lines, i, words, d, m + 1);
    } else {
      OwnStops(lines, i + m);
    }
  }

  lemma OwnStops(lines: seq<string>, k: nat)
    requires EndsOwn(lines, k)
    ensures k <= |lines| && (k < |lines| ==> EndsItem(lines)(k)) && !UnderlinesItem(lines, k)
  {
    hide ListItem, IsBlank, Indent, IsSetextUnderline, IsThematicBreak;
  }

  lemma {:induction false} TrimmedMore(lines: seq<string>, i: nat, words: seq<string>, d: nat, m: nat)
    requires At(lines, i, Indented(Escapes(words), d)) && m <= |words| && (forall k :: 0 <= k < |words| ==> Words(words[k])) && d > 0
    ensures i + m <= |lines| && Trimmed(lines, i, i + m) == Escapes(words)[..m]
    decreases m
  {
    hide Words, Escape, TrimText, At, Escapes, EndsItem, Indented;
    AtEnds(lines, i, Indented(Escapes(words), d));
    if m > 0 {
      TrimmedMore(lines, i, words, d, m - 1);
      MoreAt(lines, i, words, d, m - 1);
    }
  }

  // The item's own paragraph is its lines.
  lemma {:induction false} OwnReads(g: Grammar, lines: seq<string>, p: nat, e: Entry, ordered: bool, d: nat)
    requires GoodEntry(e, ordered) && At(lines, p, OwnLines(e, d)) && EndsOwn(lines, p + |e.words|)
    ensures e.words != [] && HeadOf(lines, p, d, ordered)
    ensures Until(EndsItem(lines), p + 1, |lines|) == p + |e.words| <= |lines| && !UnderlinesItem(lines, p + |e.words|)
    ensures SpeltAll(g, ItemText(lines, p, p + |e.words|), [Text(JoinBy(e.words, ' '))])
  {
    hide *;
    EntryParts(e, ordered, d);
    OwnAt(lines, p, e, ordered, d);
    MoreWords(e.words);
    var rest := e.words[1..];
    OwnEnds(lines, p + 1, rest, d + e.step, 0);
    OwnStops(lines, p + |e.words|);
    TrimmedMore(lines, p + 1, rest, d + e.step, |rest|);
    HeadIsItem(lines, p, d, ordered);
    OwnText(lines, p, e.words);
    LinesSpell(g, e.words);
  }

  lemma MoreWords(words: seq<string>)
    requires WordsAll(words)
    ensures words != [] && forall k :: 0 <= k < |words[1..]| ==> Words(words[1..][k])
  {
    hide Words;
  }

  lemma {:induction false} OwnText(lines: seq<string>, p: nat, words: seq<string>)
    requires words != [] && IsItem(lines, p) && p + |words| <= |lines| && ListItem(lines[p]).value.content == Escape(words[0])
    requires Trimmed(lines, p + 1, p + |words|) == Escapes(words[1..])[..|words| - 1]
    ensures ItemText(lines, p, p + |words|) == JoinBy(Escapes(words), ' ')
  {
    hide ListItem, Escape, Trimmed, JoinBy;
    assert [Escape(words[0])] + Escapes(words[1..]) == Escapes(words);
    assert Escapes(words[1..])[..|words| - 1] == Escapes(words[1..]);
  }

  // ----- Blocks under an item -------------------------------------------------------------------

  // A line with text, further in.
  lemma {:induction false} FurtherText(line: string, d: nat)
    requires !IsBlank(line)
    ensures var l := Repeat(' ', d) + line;
      !IsBlank(l) && Indent(l) == d + Indent(line) && l[d..] == line
    ensures AtMargin(line) ==> Indent(Repeat(' ', d) + line) == d
  {
    EscapeSpace();
    hide IsSpace;
    var n := Indent(line);
    var l := Repeat(' ', d) + line;
    assert l == (Repeat(' ', d) + line[..n]) + line[n..];
    SpanOf(IsSpace, Repeat(' ', d) + line[..n], line[n..]);
    if AtMargin(line) { WordsLineIndent(line); }
  }

  lemma {:induction false} FurtherNoItem(line: string, d: nat)
    requires AtMargin(line) && ListItem(line).None? && !IsThematicBreak(line)
    ensures ListItem(Repeat(' ', d) + line).None? && !IsThematicBreak(Repeat(' ', d) + line)
  {
    WordsLineIndent(line);
    FurtherText(line, d);
    hide IsSpace, Indent, IsBlank, Span, HowMany, NoLineBreak;
  }

  lemma {:induction false} IndentedAt(lines: seq<string>, t: nat, inner: seq<string>, d: nat, m: nat)
    requires At(lines, t, Indented(inner, d)) && m < |inner| && !IsBlank(inner[m])
    ensures t + m < |lines| && !EndsIndented(lines, d)(t + m)
    ensures d <= |lines[t + m]| && lines[t + m][d..] == inner[m]
  {
    hide At, IsBlank, Indent;
    AtIs(lines, t, Indented(inner, d), m);
    FurtherText(inner[m], d);
  }

  ghost predicate NoneBlank(lines: seq<string>) {
    forall k :: 0 <= k < |lines| ==> !IsBlank(lines[k])
  }

  lemma {:induction false} IndentedEnds(lines: seq<string>, t: nat, inner: seq<string>, d: nat, m: nat)
    requires At(lines, t, Indented(inner, d)) && m <= |inner| && NoneBlank(inner) && Shallow(lines, t + |inner|, d)
    ensures t + m <= |lines| && Until(EndsIndented(lines, d), t + m, |lines|) == t + |inner|
    decreases |inner| - m
  {
    hide At, EndsIndented, Indented, IsBlank, Shallow;
    AtEnds(lines, t, Indented(inner, d));
    if m < |inner| {
      IndentedAt(lines, t, inner, d, m);
      IndentedEnds(lines, t, inner, d, m + 1);
    } else {
      ShallowEnds(lines, t + m, d);
    }
  }

  lemma ShallowEnds(lines: seq<string>, k: nat, d: nat)
    requires Shallow(lines, k, d)
    ensures k <= |lines| && (k < |lines| ==> EndsIndented(lines, d)(k))
  {
    hide IsBlank, Indent;
  }

  lemma {:induction false} DedentedInner(lines: seq<string>, t: nat, inner: seq<string>, d: nat, m: nat)
    requires At(lines, t, Indented(inner, d)) && m <= |inner| && NoneBlank(inner)
    requires t + m <= |lines| && forall j :: t <= j < t + m ==> d <= |lines[j]|
    ensures Dedented(lines, t, t + m, d) == inner[..m]
    decreases m
  {
    hide At, EndsIndented, Indented, IsBlank;
    if m > 0 {
      DedentedInner(lines, t, inner, d, m - 1);
      IndentedAt(lines, t, inner, d, m - 1);
    }
  }

  // Lines indented under an item are the blocks they would be at the margin.
  lemma {:induction false} BodyHangs(g: Grammar, lines: seq<string>, k: nat, t: nat, inner: seq<string>, d: nat, blocks: seq<Block>)
    requires k < t < |lines| && BlankTo(lines, k, t) && At(lines, t, Indented(inner, d))
    requires inner != [] && NoneBlank(inner) && AtMargin(inner[0]) && Shallow(lines, t + |inner|, d)
    requires Reads(g, inner, 0, blocks)
    ensures Hangs(g, lines, k, t + |inner|, blocks)
  {
    hide At, IsBlank, Indent, Reads, ItemsRead, Until, Indented, Shallow, AtMargin, ListItem;
    AtIs(lines, t, Indented(inner, d), 0);
    FurtherText(inner[0], d);
    BlankForm(lines[k]);
    TextAfterBlanks(lines, k, t);
    IndentedEnds(lines, t, inner, d, 0);
    var end := IndentedEnd(lines, t);
    assert end == t + |inner|;
    DedentedInner(lines, t, inner, d, |inner|);
    assert inner[..|inner|] == inner;
  }

  // Past blank lines a line further in than the item belongs to it, if it is no item and no rule.
  lemma {:induction false} BodyIsHanging(lines: seq<string>, start: nat, k: nat, t: nat, d: nat, further: nat, ordered: bool, line: string)
    requires HeadOf(lines, start, d, ordered) && d < further && k < t < |lines| && BlankTo(lines, k, t)
    requires lines[t] == Repeat(' ', further) + line && AtMargin(line) && ListItem(line).None? && !IsThematicBreak(line)
    ensures Resume(lines, k) == k && Hanging(lines, start, k)
  {
    hide At, IsBlank, Indent, Until, AtMargin, ListItem, IsThematicBreak;
    MarginHasText(line);
    FurtherText(line, further);
    FurtherNoItem(line, further);
    TextAfterBlanks(lines, k, t);
    BlankForm(lines[k]);
    if k + 1 < t { BlankForm(lines[k + 1]); }
  }

  // It is no part of the list nested there, which is no further in.
  lemma {:induction false} BodyEndsNested(lines: seq<string>, nested: nat, k: nat, t: nat, d: nat, ordered: bool, line: string)
    requires HeadOf(lines, nested, d, ordered) && k < t < |lines| && BlankTo(lines, k, t)
    requires lines[t] == Repeat(' ', d) + line && AtMargin(line) && ListItem(line).None? && !IsThematicBreak(line)
    ensures Over(lines, nested, k)
  {
    hide At, IsBlank, Indent, Until, AtMargin, ListItem, IsThematicBreak;
    MarginHasText(line);
    FurtherText(line, d);
    FurtherNoItem(line, d);
    TextAfterBlanks(lines, k, t);
    BlankForm(lines[k]);
    if k + 1 < t { BlankForm(lines[k + 1]); }
  }

  // The first of the blocks under an item: blank lines, and the lines indented.
  lemma {:induction false} BodyAt(lines: seq<string>, k: nat, bodies: seq<Body>, d: nat)
    requires bodies != [] && GoodBodies(bodies) && At(lines, k, PrintBodies(bodies, d))
    ensures var b := bodies[0];
      var inner, t := PrintAll(b.pieces), k + |b.gap|;
      && inner != [] && k < t < |lines| && BlankTo(lines, k, t) && At(lines, t, Indented(inner, d))
      && lines[t] == Repeat(' ', d) + inner[0] && AtMargin(inner[0]) && ListItem(inner[0]).None? && !IsThematicBreak(inner[0])
      && NoneBlank(inner) && At(lines, t + |inner|, PrintBodies(bodies[1..], d))
      && |PrintBodies(bodies, d)| == |b.gap| + |inner| + |PrintBodies(bodies[1..], d)|
  {
    hide *;
    var b := bodies[0];
    var inner, t := PrintAll(b.pieces), k + |b.gap|;
    BodiesPrint(bodies, d);
    BodyIsGood(bodies);
    AtSplit(lines, k, Blanks(b.gap), Indented(inner, d) + PrintBodies(bodies[1..], d));
    AtSplit(lines, t, Indented(inner, d), PrintBodies(bodies[1..], d));
    BlanksAt(lines, k, b.gap);
    BodyOpens(b);
    AtIs(lines, t, Indented(inner, d), 0);
  }

  lemma {:induction false} BodiesPrint(bodies: seq<Body>, d: nat)
    requires bodies != []
    ensures PrintBodies(bodies, d)
         == Blanks(bodies[0].gap) + (Indented(PrintAll(bodies[0].pieces), d) + PrintBodies(bodies[1..], d))
  {
  }

  lemma {:induction false} BodyIsGood(bodies: seq<Body>)
    requires bodies != [] && GoodBodies(bodies)
    ensures bodies[0].gap != [] && GoodBodies([bodies[0]]) && NoneBlank(PrintAll(bodies[0].pieces))
  {
    hide IsBlank, GoodAll, PrintAll;
    assert GoodBodies([]);
  }

  lemma BodyOpens(b: Body)
    requires GoodBodies([b])
    ensures var inner := PrintAll(b.pieces);
      inner != [] && AtMargin(inner[0]) && ListItem(inner[0]).None? && !IsThematicBreak(inner[0])
  {
    hide IsBlank, AtMargin, ListItem, IsThematicBreak, Good, Print, IsDelimiterRow, InterruptsParagraph, Quoted, IsSetextUnderline, At;
    var inner := PrintAll(b.pieces);
    assert At(inner, 0, inner) by { WholeIsAt(inner); }
    PieceAt(inner, 0, b.pieces);
  }

  lemma WholeIsAt(lines: seq<string>)
    ensures At(lines, 0, lines)
  {
  }

  lemma {:induction false} BelongsFirst(g: Grammar, lines: seq<string>, start: nat, k: nat, next: nat, to_: nat,
      first: seq<Block>, rest: seq<Block>)
    requires IsItem(lines, start) && k <= |lines| && next <= |lines| && first != []
    requires Resume(lines, k) == k && Hanging(lines, start, k) && Hangs(g, lines, k, next, first)
    requires Belongs(g, lines, start, next, to_, rest)
    ensures Belongs(g, lines, start, k, to_, first + rest)
  {
    hide Hangs, Hanging, Resume, ListItem;
    var all, m := first + rest, |first|;
    assert FirstOf(all, m) == first && all[m..] == rest;
  }

  lemma {:induction false} BelongsNothing(g: Grammar, lines: seq<string>, start: nat, k: nat)
    requires Over(lines, start, k) || Sibling(lines, start, k)
    ensures IsItem(lines, start) && k <= |lines| && Belongs(g, lines, start, k, Resume(lines, k), [])
  {
    hide Hangs, Hanging, SameList, Resume, ListItem;
    SiblingHangsNot(lines, start, k);
  }

  lemma {:induction false} BodiesParts(bodies: seq<Body>)
    requires bodies != [] && GoodBodies(bodies)
    ensures bodies[0].pieces != [] && GoodAll(bodies[0].pieces) && GoodBodies(bodies[1..])
    ensures Under(bodies) == MeaningAll(bodies[0].pieces) + Under(bodies[1..])
    ensures bodies[1..] != [] ==> bodies[1..][0].gap != []
  {
    hide GoodAll, PrintAll, IsBlank, MeaningAll;
  }

  lemma HeadIsItem(lines: seq<string>, start: nat, d: nat, ordered: bool)
    requires HeadOf(lines, start, d, ordered)
    ensures IsItem(lines, start)
  {
  }

  lemma SiblingHere(lines: seq<string>, start: nat, k: nat)
    requires Over(lines, start, k) || Sibling(lines, start, k)
    ensures k <= |lines|
  {
  }

  lemma BlankIsShallow(lines: seq<string>, k: nat, t: nat, d: nat)
    requires k < t < |lines| && BlankTo(lines, k, t)
    ensures Shallow(lines, k, d) && IsBlank(lines[k]) && EndsOwn(lines, k)
  {
    hide IsBlank, ListItem;
  }

  // The blocks written under an item belong to it.
  lemma {:induction false} BodiesBelong(g: Grammar, lines: seq<string>, start: nat, k: nat, j: nat, bodies: seq<Body>,
                                        d: nat, further: nat, ordered: bool)
    requires HeadOf(lines, start, d, ordered) && d < further && GoodBodies(bodies) && At(lines, k, PrintBodies(bodies, further))
    requires j == k + |PrintBodies(bodies, further)| && (Over(lines, start, j) || Sibling(lines, start, j)) && Shallow(lines, j, further)
    ensures IsItem(lines, start) && k <= j <= |lines| && Belongs(g, lines, start, k, Resume(lines, j), Under(bodies))
    decreases bodies, 0
  {
    hide *;
    HeadIsItem(lines, start, d, ordered);
    AtEnds(lines, k, PrintBodies(bodies, further));
    if bodies == [] {
      NoBodies(further);
      BelongsNothing(g, lines, start, k);
    } else {
      var b, rest := bodies[0], bodies[1..];
      var inner, t := PrintAll(b.pieces), k + |b.gap|;
      var next := t + |inner|;
      BodiesParts(bodies);
      BodyAt(lines, k, bodies, further);
      WholeIsAt(inner);
      PiecesRead(g, inner, 0, b.pieces);
      BodiesBelong(g, lines, start, next, j, rest, d, further, ordered);
      if rest == [] {
        NoBodies(further);
      } else {
        BodyAt(lines, next, rest, further);
        BlankIsShallow(lines, next, next + |rest[0].gap|, further);
      }
      BodyIsHanging(lines, start, k, t, d, further, ordered, inner[0]);
      BodyHangs(g, lines, k, t, inner, further, MeaningAll(b.pieces));
      BelongsFirst(g, lines, start, k, next, Resume(lines, j), MeaningAll(b.pieces), Under(rest));
    }
  }

  lemma {:induction false} NoBodies(d: nat)
    ensures PrintBodies([], d) == [] && Under([]) == []
  {
  }

  lemma {:induction false} EntryParts(e: Entry, ordered: bool, d: nat)
    requires GoodEntry(e, ordered)
    ensures PrintEntry(e, d) == OwnLines(e, d) + (PrintEntries(e.nested, d + e.step) + PrintBodies(e.bodies, d + e.step))
    ensures GoodBodies(e.bodies) && WordsAll(e.words) && e.step > 0 && e.pad > 0
    ensures e.nested != [] ==> e.nested[0].gap == [] && GoodEntries(e.nested, Numbered(e.nested))
    ensures ItemOf(e).blocks == [Paragraph(true, [Text(JoinBy(e.words, ' '))])]
      + ((if e.nested == [] then [] else [List(Numbered(e.nested), Items(e.nested))]) + Under(e.bodies))
  {
    hide GoodEntries, GoodBodies, WordsAll, IsBullet, IsDigit, OwnLines, PrintEntries, PrintBodies, JoinBy, Items, Under, Numbered;
  }

  lemma {:induction false} ItemIs(g: Grammar, lines: seq<string>, start: nat, p: nat, q: nat, to_: nat, item: Item,
      children: seq<Inline>, rest: seq<Block>)
    requires IsItem(lines, start) && IsItem(lines, p) && q <= |lines| && item.blocks == [Paragraph(true, children)] + rest
    requires Until(EndsItem(lines), p + 1, |lines|) == q && !UnderlinesItem(lines, q) && p < q
    requires SpeltAll(g, ItemText(lines, p, q), children)
    requires Belongs(g, lines, start, q, to_, rest)
    ensures ItemReads(g, lines, start, p, to_, item)
  {
    hide Spelt, Belongs, ListItem, Until, UnderlinesItem;
    assert item.blocks[1..] == rest;
  }

  lemma NestedHangs(lines: seq<string>, start: nat, q: nat, d: nat, further: nat, o: bool, p: bool)
    requires HeadOf(lines, start, d, o) && HeadOf(lines, q, further, p) && d < further
    ensures IsItem(lines, start) && Resume(lines, q) == q && Hanging(lines, start, q) && EndsOwn(lines, q)
  {
    ItemIsText(lines, q);
    hide IsBlank, ListItem, Indent;
  }

  lemma {:induction false} ListHangsHere(g: Grammar, lines: seq<string>, q: nat, to_: nat, items: seq<Item>, ordered: bool, d: nat)
    requires HeadOf(lines, q, d, ordered) && ItemsRead(g, lines, q, q, to_, items)
    ensures Hangs(g, lines, q, to_, [List(ordered, items)])
  {
    hide ItemsRead, ListItem;
  }

  lemma ShallowMore(lines: seq<string>, k: nat, d: nat, further: nat)
    requires Shallow(lines, k, d) && d <= further
    ensures Shallow(lines, k, further)
  {
    hide IsBlank, Indent;
  }

  // Where the first item of a list stands.
  lemma {:induction false} EntriesStart(lines: seq<string>, q: nat, entries: seq<Entry>, d: nat)
    requires entries != [] && entries[0].gap == [] && GoodEntries(entries, Numbered(entries)) && At(lines, q, PrintEntries(entries, d))
    ensures HeadOf(lines, q, d, Numbered(entries))
  {
    hide At, EntryLine, ListItem, IsDigit, IsBullet, Words, IsDelimiterRow, IsBlank, NoLineBreak, Indent, PrintEntries;
    FirstEntry(entries, Numbered(entries), d);
    EntryForm(entries[0].bullet, entries[0].pad, entries[0].words[0], d);
    AtIs(lines, q, PrintEntries(entries, d), 0);
  }

  lemma {:induction false} NoEntries(d: nat)
    ensures PrintEntries([], d) == [] && Items([]) == []
  {
  }

  // After an item's own lines come the list nested under it and the blocks under it, if any.
  lemma {:induction false} RestBelongs(g: Grammar, lines: seq<string>, start: nat, q: nat, j: nat, e: Entry, d: nat, ordered: bool)
    requires HeadOf(lines, start, d, ordered) && GoodEntry(e, ordered)
    requires At(lines, q, PrintEntries(e.nested, d + e.step) + PrintBodies(e.bodies, d + e.step))
    requires j == q + |PrintEntries(e.nested, d + e.step)| + |PrintBodies(e.bodies, d + e.step)|
    requires (Over(lines, start, j) || Sibling(lines, start, j)) && EndsOwn(lines, j) && Shallow(lines, j, d + 1)
    ensures q <= j <= |lines| && EndsOwn(lines, q) && IsItem(lines, start)
    ensures Belongs(g, lines, start, q, Resume(lines, j),
              (if e.nested == [] then [] else [List(Numbered(e.nested), Items(e.nested))]) + Under(e.bodies))
    decreases e, 0
  {
    hide *;
    EntryParts(e, ordered, d);
    var further := d + e.step;
    var m := q + |PrintEntries(e.nested, further)|;
    ShallowMore(lines, j, d + 1, further);
    AtSplit(lines, q, PrintEntries(e.nested, further), PrintBodies(e.bodies, further));
    BodiesBelong(g, lines, start, m, j, e.bodies, d, further, ordered);
    BodiesBegin(lines, m, j, e.bodies, further);
    if e.nested == [] {
      NoEntries(further);
      assert [] + Under(e.bodies) == Under(e.bodies);
    } else {
      var o := Numbered(e.nested);
      EntriesStart(lines, q, e.nested, further);
      HeadIsItem(lines, q, further, o);
      NestedIsOver(lines, start, q, m, j, e.bodies, d, further, ordered, o);
      EntriesRead(g, lines, q, q, m, e.nested, further, o);
      NestedHangs(lines, start, q, d, further, ordered, o);
      ListHangsHere(g, lines, q, Resume(lines, m), Items(e.nested), o, further);
      BelongsResumed(g, lines, start, m, Resume(lines, j), Under(e.bodies));
      BelongsFirst(g, lines, start, q, Resume(lines, m), Resume(lines, j), [List(o, Items(e.nested))], Under(e.bodies));
    }
  }

  // Where the blocks under an item begin, or where it ends if there are none.
  lemma {:induction false} BodiesBegin(lines: seq<string>, m: nat, j: nat, bodies: seq<Body>, further: nat)
    requires GoodBodies(bodies) && At(lines, m, PrintBodies(bodies, further)) && j == m + |PrintBodies(bodies, further)|
    requires EndsOwn(lines, j) && Shallow(lines, j, further)
    ensures EndsOwn(lines, m) && Shallow(lines, m, further)
  {
    hide *;
    if bodies == [] {
      NoBodies(further);
    } else {
      BodyAt(lines, m, bodies, further);
      BlankIsShallow(lines, m, m + |bodies[0].gap|, further);
    }
  }

  lemma NestedIsOver(lines: seq<string>, start: nat, q: nat, m: nat, j: nat, bodies: seq<Body>, d: nat, further: nat,
      ordered: bool, o: bool)
    requires HeadOf(lines, start, d, ordered) && HeadOf(lines, q, further, o) && d < further
    requires GoodBodies(bodies) && At(lines, m, PrintBodies(bodies, further)) && j == m + |PrintBodies(bodies, further)|
    requires (Over(lines, start, j) || Sibling(lines, start, j)) && Shallow(lines, m, further)
    ensures Over(lines, q, m) && Shallow(lines, m, further + 1)
  {
    hide *;
    ShallowMore(lines, m, further, further + 1);
    if bodies == [] {
      NoBodies(further);
      OverNested(lines, start, q, j, d, further, ordered, o);
    } else {
      BodyAt(lines, m, bodies, further);
      BodyEndsNested(lines, q, m, m + |bodies[0].gap|, further, o, PrintAll(bodies[0].pieces)[0]);
    }
  }

  lemma {:induction false} EntryReads(g: Grammar, lines: seq<string>, start: nat, p: nat, j: nat, e: Entry, d: nat, ordered: bool)
    requires HeadOf(lines, start, d, ordered) && GoodEntry(e, ordered)
    requires At(lines, p, PrintEntry(e, d)) && j == p + |PrintEntry(e, d)|
    requires (Over(lines, start, j) || Sibling(lines, start, j)) && EndsOwn(lines, j) && Shallow(lines, j, d + 1)
    ensures IsItem(lines, start) && j <= |lines| && HeadOf(lines, p, d, ordered) && IsItem(lines, p)
    ensures ItemReads(g, lines, start, p, Resume(lines, j), ItemOf(e))
    decreases e, 1
  {
    hide *;
    EntryParts(e, ordered, d);
    AtEnds(lines, p, PrintEntry(e, d));
    AtSplit(lines, p, OwnLines(e, d), PrintEntries(e.nested, d + e.step) + PrintBodies(e.bodies, d + e.step));
    OwnAt(lines, p, e, ordered, d);
    var q := p + |e.words|;
    RestBelongs(g, lines, start, q, j, e, d, ordered);
    OwnReads(g, lines, p, e, ordered, d);
    HeadIsItem(lines, p, d, ordered);
    ItemIs(g, lines, start, p, q, Resume(lines, j), ItemOf(e), [Text(JoinBy(e.words, ' '))],
      (if e.nested == [] then [] else [List(Numbered(e.nested), Items(e.nested))]) + Under(e.bodies));
  }

  lemma {:induction false} EntriesParts(entries: seq<Entry>, d: nat, ordered: bool)
    requires entries != [] && GoodEntries(entries, ordered)
    ensures GoodEntry(entries[0], ordered) && |entries[0].gap| <= 1 && GoodEntries(entries[1..], ordered)
    ensures PrintEntries(entries, d) == Blanks(entries[0].gap) + (PrintEntry(entries[0], d) + PrintEntries(entries[1..], d))
    ensures Items(entries) == [ItemOf(entries[0])] + Items(entries[1..])
  {
    hide GoodEntry, PrintEntry, ItemOf;
  }

  // The next item of the list, past a blank line or not.
  lemma {:induction false} EntryNext(lines: seq<string>, start: nat, i: nat, entries: seq<Entry>, d: nat, ordered: bool)
    requires HeadOf(lines, start, d, ordered) && entries != [] && GoodEntries(entries, ordered) && At(lines, i, PrintEntries(entries, d))
    ensures var p := i + |entries[0].gap|;
      && i <= |lines| && HeadOf(lines, p, d, ordered) && Resume(lines, i) == p && Sibling(lines, start, i) && SameList(lines, start, p)
      && EndsOwn(lines, i) && Shallow(lines, i, d + 1)
      && At(lines, p, PrintEntry(entries[0], d)) && At(lines, p + |PrintEntry(entries[0], d)|, PrintEntries(entries[1..], d))
  {
    hide *;
    var e := entries[0];
    var p := i + |e.gap|;
    EntriesParts(entries, d, ordered);
    EntryParts(e, ordered, d);
    AtSplit(lines, i, Blanks(e.gap), PrintEntry(e, d) + PrintEntries(entries[1..], d));
    AtSplit(lines, p, PrintEntry(e, d), PrintEntries(entries[1..], d));
    AtSplit(lines, p, OwnLines(e, d), PrintEntries(e.nested, d + e.step) + PrintBodies(e.bodies, d + e.step));
    OwnAt(lines, p, e, ordered, d);
    BlanksAt(lines, i, e.gap);
    EntryComes(lines, start, i, p, d, ordered);
  }

  lemma EntryComes(lines: seq<string>, start: nat, i: nat, p: nat, d: nat, ordered: bool)
    requires HeadOf(lines, start, d, ordered) && HeadOf(lines, p, d, ordered) && BlankTo(lines, i, p) && p <= i + 1
    ensures i <= |lines| && Resume(lines, i) == p && Sibling(lines, start, i) && SameList(lines, start, p)
    ensures EndsOwn(lines, i) && Shallow(lines, i, d + 1)
  {
    hide *;
    HeadIsItem(lines, p, d, ordered);
    HeadIsItem(lines, start, d, ordered);
    ResumesTo(lines, i, p);
    ItemDepth(lines, p, d, ordered);
    ComesSoon(lines, i, p, d);
    SameHeads(lines, start, p, d, ordered);
    SiblingAt(lines, start, i);
  }

  lemma SiblingAt(lines: seq<string>, start: nat, i: nat)
    requires IsItem(lines, start) && i <= |lines| && SameList(lines, start, Resume(lines, i))
    ensures Sibling(lines, start, i)
  {
    hide SameList, ListItem, Resume;
  }

  lemma SameHeads(lines: seq<string>, start: nat, p: nat, d: nat, ordered: bool)
    requires HeadOf(lines, start, d, ordered) && HeadOf(lines, p, d, ordered)
    ensures SameList(lines, start, p)
  {
    hide ListItem;
  }

  lemma ResumesTo(lines: seq<string>, i: nat, p: nat)
    requires BlankTo(lines, i, p) && p <= i + 1 && IsItem(lines, p)
    ensures i <= |lines| && Resume(lines, i) == p
  {
    hide IsBlank, ListItem;
    ItemIsText(lines, p);
    if p == i + 1 {
      assert IsBlank(lines[i]) && LineAt(lines, i + 1) == lines[p];
    }
  }

  lemma ComesSoon(lines: seq<string>, i: nat, p: nat, d: nat)
    requires BlankTo(lines, i, p) && p <= i + 1 && IsItem(lines, p) && Indent(lines[p]) == d
    ensures EndsOwn(lines, i) && Shallow(lines, i, d + 1)
  {
    hide IsBlank, ListItem, Indent;
  }

  lemma ItemDepth(lines: seq<string>, p: nat, d: nat, ordered: bool)
    requires HeadOf(lines, p, d, ordered)
    ensures p < |lines| && Indent(lines[p]) == d
  {
  }

  lemma {:induction false} ItemsReadFirst(g: Grammar, lines: seq<string>, start: nat, i: nat, next: nat, to_: nat,
      item: Item, rest: seq<Item>)
    requires IsItem(lines, start) && i <= |lines| && next <= |lines|
    requires SameList(lines, start, Resume(lines, i)) && IsItem(lines, Resume(lines, i))
    requires ItemReads(g, lines, start, Resume(lines, i), next, item)
    requires ItemsRead(g, lines, start, next, to_, rest)
    ensures ItemsRead(g, lines, start, i, to_, [item] + rest)
  {
    hide ItemReads, ListItem, Resume, SameList;
    assert ([item] + rest)[1..] == rest && ([item] + rest)[0] == item;
  }

  lemma {:induction false} ItemsReadNothing(g: Grammar, lines: seq<string>, start: nat, k: nat)
    requires Over(lines, start, k)
    ensures IsItem(lines, start) && k <= |lines| && ItemsRead(g, lines, start, k, Resume(lines, k), [])
  {
    hide ListItem, Resume, SameList, Hanging;
  }

  lemma {:induction false} EntriesRead(g: Grammar, lines: seq<string>, start: nat, i: nat, k: nat, entries: seq<Entry>,
      d: nat, ordered: bool)
    requires HeadOf(lines, start, d, ordered) && GoodEntries(entries, ordered)
    requires At(lines, i, PrintEntries(entries, d)) && k == i + |PrintEntries(entries, d)|
    requires Over(lines, start, k) && EndsOwn(lines, k) && Shallow(lines, k, d + 1)
    ensures IsItem(lines, start) && i <= k <= |lines| && ItemsRead(g, lines, start, i, Resume(lines, k), Items(entries))
    decreases entries, 0
  {
    hide *;
    HeadIsItem(lines, start, d, ordered);
    AtEnds(lines, i, PrintEntries(entries, d));
    if entries == [] {
      NoEntries(d);
      ItemsReadNothing(g, lines, start, k);
    } else {
      var e, rest := entries[0], entries[1..];
      var p := i + |e.gap|;
      var j := p + |PrintEntry(e, d)|;
      EntriesParts(entries, d, ordered);
      EntryNext(lines, start, i, entries, d, ordered);
      if rest == [] {
        NoEntries(d);
      } else {
        EntryNext(lines, start, j, rest, d, ordered);
      }
      EntryReads(g, lines, start, p, j, e, d, ordered);
      EntriesRead(g, lines, start, j, k, rest, d, ordered);
      ItemsResumed(g, lines, start, j, Resume(lines, k), Items(rest));
      ItemsReadFirst(g, lines, start, i, Resume(lines, j), Resume(lines, k), ItemOf(e), Items(rest));
    }
  }

  // What follows a list at the margin ends it.
  lemma ListIsDone(lines: seq<string>, start: nat, k: nat, ordered: bool)
    requires HeadOf(lines, start, 0, ordered) && k <= |lines| && ListEnds(lines, k, ordered)
    ensures Over(lines, start, k) && EndsOwn(lines, k) && Shallow(lines, k, 1)
  {
    hide ListItem, Indent, IsBlank, IsThematicBreak;
    var r := Resume(lines, k);
    if IsItem(lines, r) {
      ItemIsText(lines, r);
      if r == k + 1 { TextAfterBlanks(lines, k, r); }
      ItemIndent(lines, r);
    }
  }

  lemma ItemIndent(lines: seq<string>, r: nat)
    requires IsItem(lines, r)
    ensures ListItem(lines[r]).value.indent == Indent(lines[r])
  {
  }

  // The line under a list's first makes no table of it.
  lemma {:induction false} SecondIsPlain(lines: seq<string>, i: nat, entries: seq<Entry>, ordered: bool)
    requires entries != [] && entries[0].gap == [] && GoodEntries(entries, ordered) && At(lines, i, PrintEntries(entries, 0))
    requires var k := i + |PrintEntries(entries, 0)|; k <= |lines| && (k < |lines| ==> !IsDelimiterRow(lines[k]))
    ensures i + 1 < |lines| ==> !IsDelimiterRow(lines[i + 1])
  {
    hide *;
    var e, rest := entries[0], entries[1..];
    EntriesParts(entries, 0, ordered);
    EntryParts(e, ordered, 0);
    NoGap(e);
    AtSplit(lines, i, Blanks(e.gap), PrintEntry(e, 0) + PrintEntries(rest, 0));
    AtSplit(lines, i, PrintEntry(e, 0), PrintEntries(rest, 0));
    AtSplit(lines, i, OwnLines(e, 0), PrintEntries(e.nested, e.step) + PrintBodies(e.bodies, e.step));
    OwnAt(lines, i, e, ordered, 0);
    if |e.words| > 1 {
      WordsIn(e.words, 1);
      assert e.words[1..][0] == e.words[1];
      MoreIsPlain(lines, i + 1, e.words[1..], e.step);
    } else if i + 1 < |lines| {
      AtSplit(lines, i + 1, PrintEntries(e.nested, e.step), PrintBodies(e.bodies, e.step));
      if e.nested != [] {
        ItemIsPlain(lines, i + 1, e.nested, e.step);
      } else {
        NoEntries(e.step);
        if e.bodies != [] {
          BodyAt(lines, i + 1, e.bodies, e.step);
          BlankIsPlain(lines, i + 1, i + 1 + |e.bodies[0].gap|);
        } else {
          NoBodies(e.step);
          if rest != [] {
            RestIsPlain(lines, i + 1, rest, ordered);
          } else {
            NoEntries(0);
          }
        }
      }
    }
  }

  lemma NoGap(e: Entry)
    requires e.gap == []
    ensures Blanks(e.gap) == []
  {
  }

  lemma {:induction false} MoreIsPlain(lines: seq<string>, i: nat, words: seq<string>, d: nat)
    requires words != [] && Words(words[0]) && At(lines, i, Indented(Escapes(words), d))
    ensures i < |lines| && !IsDelimiterRow(lines[i])
  {
    hide At, Escape, Words, ListItem, IsBlank, IsSetextUnderline, IsThematicBreak, TrimText, IsDelimiterRow, Indent;
    AtIs(lines, i, Indented(Escapes(words), d), 0);
    IndentedWords(words[0], d);
  }

  lemma {:induction false} ItemIsPlain(lines: seq<string>, i: nat, entries: seq<Entry>, d: nat)
    requires entries != [] && entries[0].gap == [] && GoodEntries(entries, Numbered(entries)) && At(lines, i, PrintEntries(entries, d))
    ensures i < |lines| && !IsDelimiterRow(lines[i])
  {
    hide At, EntryLine, ListItem, IsDigit, IsBullet, Words, IsDelimiterRow, IsBlank, NoLineBreak, Indent, PrintEntries;
    FirstEntry(entries, Numbered(entries), d);
    EntryForm(entries[0].bullet, entries[0].pad, entries[0].words[0], d);
    AtIs(lines, i, PrintEntries(entries, d), 0);
  }

  lemma BlankIsPlain(lines: seq<string>, k: nat, t: nat)
    requires k < t < |lines| && BlankTo(lines, k, t)
    ensures !IsDelimiterRow(lines[k])
  {
    hide IsBlank, IsDelimiterRow;
    BlankForm(lines[k]);
  }

  lemma {:induction false} RestIsPlain(lines: seq<string>, i: nat, entries: seq<Entry>, ordered: bool)
    requires entries != [] && GoodEntries(entries, ordered) && At(lines, i, PrintEntries(entries, 0))
    ensures i < |lines| && !IsDelimiterRow(lines[i])
  {
    hide *;
    var e := entries[0];
    EntriesParts(entries, 0, ordered);
    EntryParts(e, ordered, 0);
    AtSplit(lines, i, Blanks(e.gap), PrintEntry(e, 0) + PrintEntries(entries[1..], 0));
    var p := i + |e.gap|;
    AtSplit(lines, p, PrintEntry(e, 0), PrintEntries(entries[1..], 0));
    AtSplit(lines, p, OwnLines(e, 0), PrintEntries(e.nested, e.step) + PrintBodies(e.bodies, e.step));
    OwnAt(lines, p, e, ordered, 0);
    if e.gap == [] {
      NoGap(e);
      EntryIsPlain(e, ordered);
    } else {
      BlanksAt(lines, i, e.gap);
      BlankIsPlain(lines, i, p);
    }
  }

  lemma {:induction false} EntryIsPlain(e: Entry, ordered: bool)
    requires GoodEntry(e, ordered)
    ensures e.words != [] && !IsDelimiterRow(EntryLine(e.bullet, e.pad, e.words[0], 0))
  {
    hide EntryLine, IsDigit, IsBullet, Words, IsDelimiterRow, GoodEntries, GoodBodies;
    EntryForm(e.bullet, e.pad, e.words[0], 0);
  }

  lemma ListingReads(g: Grammar, lines: seq<string>, i: nat, entries: seq<Entry>)
    requires Good(Listing(entries)) && At(lines, i, PrintEntries(entries, 0))
    requires i + |PrintEntries(entries, 0)| <= |lines| && ListEnds(lines, i + |PrintEntries(entries, 0)|, Numbered(entries))
    requires var k := i + |PrintEntries(entries, 0)|; k < |lines| ==> !IsDelimiterRow(lines[k])
    ensures var k := i + |PrintEntries(entries, 0)|;
      k <= |lines| && i < |lines| && ReadsBlock(g, lines, i, Resume(lines, k), List(Numbered(entries), Items(entries)))
    decreases entries, 1
  {
    hide At, ListItem, FenceOf, HeadingOf, IsThematicBreak, Quoted, StartsTable, ItemsRead, PrintEntries, GoodEntries, EntryLine,
      Numbered, IsDigit, Over, EndsOwn, Shallow, ListEnds, Resume, Words, IsBullet, Items;
    var ordered := Numbered(entries);
    var k := i + |PrintEntries(entries, 0)|;
    EntriesStart(lines, i, entries, 0);
    FirstEntry(entries, ordered, 0);
    AtIs(lines, i, PrintEntries(entries, 0), 0);
    EntryStarts(entries[0].bullet, entries[0].pad, entries[0].words[0]);
    ListIsDone(lines, i, k, ordered);
    EntriesRead(g, lines, i, i, k, entries, 0, ordered);
    SecondIsPlain(lines, i, entries, ordered);
    if i + 1 < |lines| { PlainMakesNoTable(lines[i], lines[i + 1]); }
    ResumeMoves(lines, k);
  }

  lemma PlainMakesNoTable(line: string, next: string)
    requires !IsDelimiterRow(next)
    ensures !StartsTable(line, next)
  {
    hide IsDelimiterRow, Cells;
  }

  lemma ResumeMoves(lines: seq<string>, k: nat)
    requires k <= |lines|
    ensures k <= Resume(lines, k) <= |lines|
  {
  }

  // ----- Documents ----------------------------------------------------------------------------

  // Where the parser goes on after a block.
  ghost function After(lines: seq<string>, k: nat, b: Written): nat
    requires k <= |lines|
  {
    if b.Listing? then Resume(lines, k) else k
  }

  lemma {:induction false} QuoteParts(b: Written)
    requires b.Quotation? && Good(b)
    ensures b.inner != [] && GoodAll(b.inner)
    ensures var inner := PrintAll(b.inner);
      b.lazy < |inner| && LazyFrom(inner, |inner| - b.lazy) && Print(b) == Marked(inner, |inner| - b.lazy, b.spaced)
  {
    hide GoodAll, PrintAll, IsWordsOf, Tail;
    TailIsShort(b.inner);
  }

  lemma FollowsIs(lines: seq<string>, k: nat, b: Written)
    requires Follows(lines, k, b)
    ensures k <= |lines| && (k < |lines| ==> !IsDelimiterRow(lines[k]))
    ensures b.Quotation? && k < |lines| ==> EndsQuote(lines)(k)
    ensures b.Listing? ==> ListEnds(lines, k, Numbered(b.entries))
  {
    hide IsDelimiterRow, EndsQuote, ListEnds, EndsParagraph, Underlines, IsRow, Numbered;
  }

  lemma {:induction false} BlockReads(g: Grammar, lines: seq<string>, i: nat, b: Written)
    requires Good(b) && At(lines, i, Print(b)) && Follows(lines, i + |Print(b)|, b)
    ensures var k := i + |Print(b)|;
      k <= |lines| && i < |lines| && ReadsBlock(g, lines, i, After(lines, k, b), Meaning(b))
    decreases b, 0
  {
    hide ReadsBlock, Follows, Reads, At, GoodAll, PrintAll, PrintEntries, GoodEntries, ListEnds, EndsQuote, IsDelimiterRow, Resume, Escapes,
      WordsAll, Marked, LazyFrom, RowLine, CellsOk, RowLines, Words, Escape, Clean, IsLangChar, Items, Numbered, Tail,
          TitleLine, RuleLine, OpeningLine,
      ClosingLine, StaysWithin;
    FollowsIs(lines, i + |Print(b)|, b);
    match b
    case Prose(words) => WordsAreLines(words); ProseReads(g, lines, i, words);
    case Title(_, _, _, _) => AtEnds(lines, i, Print(b)); TitleReads(g, lines, i, b);
    case Rule(_, _) => AtEnds(lines, i, Print(b)); RuleReads(g, lines, i, b);
    case Code(_, _, _) => AtEnds(lines, i, Print(b)); CodeReads(g, lines, i, b);
    case Quotation(inner, lazy, spaced) =>
      QuoteParts(b);
      WholeIsAt(PrintAll(inner));
      PiecesRead(g, PrintAll(inner), 0, inner);
      QuotationReads(g, lines, i, PrintAll(inner), |PrintAll(inner)| - lazy, spaced, MeaningAll(inner));
    case Listing(entries) => ListingReads(g, lines, i, entries);
    case Grid(_, _, _) => GridReads(g, lines, i, b);
  }

  lemma WordsAreLines(words: seq<string>)
    requires WordsAll(words)
    ensures words != []
  {
  }

  lemma {:induction false} PiecesParts(pieces: seq<Piece>)
    requires pieces != [] && GoodAll(pieces)
    ensures Good(pieces[0].block) && GoodAll(pieces[1..]) && (pieces[1..] != [] ==> MayFollow(pieces[0].block, pieces[1..][0]))
    ensures |PrintAll(pieces)| == |pieces[0].gap| + |Print(pieces[0].block)| + |PrintAll(pieces[1..])|
    ensures MeaningAll(pieces) == [Meaning(pieces[0].block)] + MeaningAll(pieces[1..])
  {
    hide Good, Print, MayFollow, Meaning;
  }

  lemma {:induction false} ReadsFirst(g: Grammar, lines: seq<string>, i: nat, t: nat, next: nat, b: Block, rest: seq<Block>)
    requires i <= |lines| && TextFrom(lines, i) == t < |lines| && next <= |lines|
    requires ReadsBlock(g, lines, t, next, b) && Reads(g, lines, next, rest)
    ensures Reads(g, lines, i, [b] + rest)
  {
    hide ReadsBlock;
    assert ([b] + rest)[0] == b && ([b] + rest)[1..] == rest;
  }

  lemma {:induction false} ReadsAfter(g: Grammar, lines: seq<string>, k: nat, b: Written, blocks: seq<Block>)
    requires k <= |lines| && Reads(g, lines, k, blocks)
    ensures After(lines, k, b) <= |lines| && Reads(g, lines, After(lines, k, b), blocks)
  {
    hide Reads, ListItem, IsBlank;
    if After(lines, k, b) == k + 1 { ReadsBlank(g, lines, k, blocks); }
  }

  lemma {:induction false} NoPieces(g: Grammar, lines: seq<string>)
    ensures PrintAll([]) == [] && MeaningAll([]) == [] && Reads(g, lines, |lines|, [])
  {
    hide IsBlank;
  }

  // Lines that end with the pieces written are read as their blocks from there.
  lemma {:induction false} PiecesRead(g: Grammar, lines: seq<string>, i: nat, pieces: seq<Piece>)
    requires GoodAll(pieces) && At(lines, i, PrintAll(pieces)) && i + |PrintAll(pieces)| == |lines|
    ensures Reads(g, lines, i, MeaningAll(pieces))
    decreases pieces, 0
  {
    hide *;
    if pieces == [] {
      NoPieces(g, lines);
    } else {
      var b, rest := pieces[0].block, pieces[1..];
      var t := i + |pieces[0].gap|;
      var k := t + |Print(b)|;
      PieceAt(lines, i, pieces);
      PiecesParts(pieces);
      PiecesRead(g, lines, k, rest);
      NextFits(lines, k, b, rest);
      BlockReads(g, lines, t, b);
      ReadsAfter(g, lines, k, b, MeaningAll(rest));
      ReadsFirst(g, lines, i, t, After(lines, k, b), Meaning(b), MeaningAll(rest));
    }
  }

  // ----- As text --------------------------------------------------------------------------------

  lemma LineIsClean(line: string)
    requires NoLineBreak(line)
    ensures Lacks(line, '\n') && Lacks(line, '\r')
  {
  }

  lemma CleanBoth(x: seq<string>, y: seq<string>)
    requires Clean(x) && Clean(y)
    ensures Clean(x + y)
  {
    hide Lacks;
  }

  // Lines that hold no line break at all are clean.
  ghost predicate Unbroken(lines: seq<string>) {
    forall k :: 0 <= k < |lines| ==> NoLineBreak(lines[k])
  }

  lemma UnbrokenIsClean(lines: seq<string>)
    requires Unbroken(lines)
    ensures Clean(lines)
  {
    hide NoLineBreak, Lacks;
    forall k | 0 <= k < |lines|
      ensures Lacks(lines[k], '\n') && Lacks(lines[k], '\r')
    {
      LineIsClean(lines[k]);
    }
  }

  lemma {:induction false} EscapesUnbroken(words: seq<string>)
    requires forall k :: 0 <= k < |words| ==> Words(words[k])
    ensures Unbroken(Escapes(words))
  {
    hide Escape, NoLineBreak;
    forall k | 0 <= k < |words|
      ensures NoLineBreak(Escape(words[k]))
    {
      EscapeShape(words[k]);
    }
  }

  lemma {:induction false} RowUnbroken(cells: seq<string>)
    requires Unbroken(cells)
    ensures NoLineBreak(RowCells(cells)) && NoLineBreak(RowLine(cells))
  {
    hide NoLineBreak;
    PartsUnbroken();
    if cells != [] {
      assert Unbroken(cells[1..]);
      RowUnbroken(cells[1..]);
      JoinUnbroken(" ", cells[0]);
      JoinUnbroken(" " + cells[0], " |");
      JoinUnbroken(" " + cells[0] + " |", RowCells(cells[1..]));
    }
    JoinUnbroken("|", RowCells(cells));
  }

  lemma PartsUnbroken()
    ensures NoLineBreak("") && NoLineBreak(" ") && NoLineBreak(" |") && NoLineBreak("|") && NoLineBreak("> ")
        && NoLineBreak(">") && NoLineBreak(":")
  {
  }

  lemma AlignUnbroken(a: Align)
    ensures NoLineBreak(AlignText(a))
  {
    hide NoLineBreak;
    PartsUnbroken();
    RepeatUnbroken('-', a.dashes);
    var left, right := (if a.left then ":" else ""), (if a.right then ":" else "");
    JoinUnbroken(left, Repeat('-', a.dashes));
    JoinUnbroken(left + Repeat('-', a.dashes), right);
  }

  lemma {:induction false} GridUnbroken(b: Written)
    requires b.Grid? && Good(b)
    ensures Unbroken(Print(b))
  {
    hide NoLineBreak, RowLine, Escape, Words, Escapes, AlignTexts, AlignText;
    CellsUnbroken(b.header);
    var aligns := AlignTexts(b.aligns);
    forall k | 0 <= k < |aligns|
      ensures NoLineBreak(aligns[k])
    {
      AlignUnbroken(b.aligns[k]);
    }
    RowUnbroken(aligns);
    forall k | 0 <= k < |b.rows|
      ensures NoLineBreak(RowLines(b.rows)[k])
    {
      CellsUnbroken(b.rows[k]);
    }
  }

  lemma {:induction false} CellsUnbroken(cells: seq<string>)
    requires CellsOk(cells)
    ensures NoLineBreak(RowLine(Escapes(cells)))
  {
    hide NoLineBreak, RowLine, Escape, Words;
    EscapesUnbroken(cells);
    RowUnbroken(Escapes(cells));
  }

  lemma {:induction false} BlanksAreClean(gap: seq<nat>)
    ensures Clean(Blanks(gap))
  {
    hide NoLineBreak, Clean;
    forall k | 0 <= k < |gap|
      ensures NoLineBreak(Blanks(gap)[k])
    {
      RepeatUnbroken(' ', gap[k]);
    }
    UnbrokenIsClean(Blanks(gap));
  }

  lemma PrefixIsClean(c: char, before: string, line: string)
    requires Lacks(before, c) && Lacks(line, c)
    ensures Lacks(before + line, c)
  {
  }

  lemma {:induction false} IndentedAreClean(lines: seq<string>, d: nat)
    requires Clean(lines)
    ensures Clean(Indented(lines, d))
  {
    hide Lacks;
    forall k | 0 <= k < |lines|
      ensures Lacks(Indented(lines, d)[k], '\n') && Lacks(Indented(lines, d)[k], '\r')
    {
      RepeatUnbroken(' ', d);
      LineIsClean(Repeat(' ', d));
      PrefixIsClean('\n', Repeat(' ', d), lines[k]);
      PrefixIsClean('\r', Repeat(' ', d), lines[k]);
    }
  }

  lemma MarkedAreClean(lines: seq<string>, n: int, spaced: bool)
    requires Clean(lines)
    ensures Clean(Marked(lines, n, spaced))
  {
    hide Lacks, NoLineBreak, IsSpace;
    PartsUnbroken();
    LineIsClean("> ");
    LineIsClean(">");
    forall k | 0 <= k < |lines|
      ensures Lacks(Marked(lines, n, spaced)[k], '\n') && Lacks(Marked(lines, n, spaced)[k], '\r')
    {
      PrefixIsClean('\n', "> ", lines[k]);
      PrefixIsClean('\r', "> ", lines[k]);
      PrefixIsClean('\n', ">", lines[k]);
      PrefixIsClean('\r', ">", lines[k]);
    }
  }

  lemma OpeningIsUnbroken(f: Fences, lang: string)
    requires f.mark in "`~" && forall k :: 0 <= k < |lang| ==> IsLangChar(lang[k])
    ensures NoLineBreak(OpeningLine(f, lang)) && NoLineBreak(ClosingLine(f))
  {
    LangIsUnbroken(lang);
    hide NoLineBreak, IsLangChar;
    RepeatUnbroken(f.mark, f.length);
    RepeatUnbroken(f.mark, f.length + f.more);
    RepeatUnbroken(' ', f.before);
    RepeatUnbroken(' ', f.after);
    RepeatUnbroken(' ', f.lead);
    RepeatUnbroken(' ', f.trail);
    JoinUnbroken(lang, Repeat(' ', f.after));
    JoinUnbroken(Repeat(' ', f.before), lang + Repeat(' ', f.after));
    JoinUnbroken(Repeat(f.mark, f.length), Repeat(' ', f.before) + (lang + Repeat(' ', f.after)));
    JoinUnbroken(Repeat(f.mark, f.length + f.more), Repeat(' ', f.trail));
    JoinUnbroken(Repeat(' ', f.lead), Repeat(f.mark, f.length + f.more) + Repeat(' ', f.trail));
  }

  lemma LangIsUnbroken(lang: string)
    requires forall k :: 0 <= k < |lang| ==> IsLangChar(lang[k])
    ensures NoLineBreak(lang)
  {
    LangChars();
    hide IsLangChar;
  }

  lemma LangChars()
    ensures forall c: char :: IsLangChar(c) ==> c !in "\n\r\U{2028}\U{2029}"
  {
  }

  lemma TitleIsUnbroken(b: Written)
    requires b.Title? && Words(b.text)
    ensures NoLineBreak(TitleLine(b.depth, b.lead, b.text, b.ending))
  {
    hide NoLineBreak, Escape;
    EscapeShape(b.text);
    var e := b.ending;
    RepeatUnbroken('#', b.depth);
    RepeatUnbroken(' ', b.lead);
    RepeatUnbroken(' ', e.before);
    RepeatUnbroken('#', e.hashes);
    RepeatUnbroken(' ', e.after);
    JoinUnbroken(Repeat('#', e.hashes), Repeat(' ', e.after));
    JoinUnbroken(Repeat(' ', e.before), Repeat('#', e.hashes) + Repeat(' ', e.after));
    JoinUnbroken(Escape(b.text), EndingText(e));
    JoinUnbroken(Repeat(' ', b.lead), Escape(b.text) + EndingText(e));
    JoinUnbroken(Repeat('#', b.depth), Repeat(' ', b.lead) + (Escape(b.text) + EndingText(e)));
  }

  lemma OneIsClean(line: string)
    requires NoLineBreak(line)
    ensures Clean([line])
  {
    hide NoLineBreak, Lacks;
    LineIsClean(line);
  }

  lemma {:induction false} RuleIsUnbroken(mark: char, gaps: seq<nat>)
    requires mark in "-*_"
    ensures NoLineBreak(RuleLine(mark, gaps))
  {
    hide RuleLine;
    RuleLineIs(mark, gaps);
  }

  lemma {:induction false} BlockIsClean(b: Written)
    requires Good(b)
    ensures Clean(Print(b))
    decreases b, 0
  {
    hide Clean, Escape, IsLangChar, PrintEntries, GoodEntries, PrintAll, GoodAll, NoLineBreak, Words, Marked, Escapes, Unbroken, RowLine,
      RowLines, Tail, Lacks, TitleLine, RuleLine, OpeningLine, ClosingLine, StaysWithin;
    match b
    case Prose(words) => EscapesUnbroken(words); UnbrokenIsClean(Escapes(words));
    case Title(_, _, _, _) => TitleIsUnbroken(b); OneIsClean(Print(b)[0]);
    case Rule(mark, gaps) => RuleIsUnbroken(mark, gaps); OneIsClean(RuleLine(mark, gaps));
    case Code(fences, lang, body) =>
      OpeningIsUnbroken(fences, lang);
      OneIsClean(OpeningLine(fences, lang));
      OneIsClean(ClosingLine(fences));
      CleanBoth([OpeningLine(fences, lang)], body);
      CleanBoth([OpeningLine(fences, lang)] + body, [ClosingLine(fences)]);
    case Quotation(inner, lazy, spaced) =>
      PiecesAreClean(inner);
      MarkedAreClean(PrintAll(inner), |PrintAll(inner)| - lazy, spaced);
    case Listing(entries) => EntriesAreClean(entries, Numbered(entries), 0);
    case Grid(_, _, _) => GridUnbroken(b); UnbrokenIsClean(Print(b));
  }

  lemma {:induction false} PiecesAreClean(pieces: seq<Piece>)
    requires GoodAll(pieces)
    ensures Clean(PrintAll(pieces))
    decreases pieces, 0
  {
    hide Clean, Good, Print, Blanks;
    if pieces == [] {
      NothingIsClean();
    } else {
      BlanksAreClean(pieces[0].gap);
      BlockIsClean(pieces[0].block);
      PiecesAreClean(pieces[1..]);
      CleanBoth(Print(pieces[0].block), PrintAll(pieces[1..]));
      CleanBoth(Blanks(pieces[0].gap), Print(pieces[0].block) + PrintAll(pieces[1..]));
    }
  }

  lemma NothingIsClean()
    ensures Clean([])
  {
  }

  lemma {:induction false} OwnIsClean(e: Entry, ordered: bool, d: nat)
    requires GoodEntry(e, ordered)
    ensures Clean(OwnLines(e, d))
  {
    hide Clean, Words, NoLineBreak, EntryLine, Escapes, Indented, GoodEntries, GoodBodies, IsBullet, IsDigit;
    FirstIsClean(e.bullet, e.pad, e.words[0], d);
    MoreIsClean(e.words[1..], d + e.step);
    CleanBoth([EntryLine(e.bullet, e.pad, e.words[0], d)], Indented(Escapes(e.words[1..]), d + e.step));
  }

  lemma FirstIsClean(bullet: string, pad: nat, v: string, d: nat)
    requires IsBullet(bullet) && pad > 0 && Words(v)
    ensures Clean([EntryLine(bullet, pad, v, d)])
  {
    hide *;
    EntryForm(bullet, pad, v, d);
    OneIsClean(EntryLine(bullet, pad, v, d));
  }

  lemma {:induction false} MoreIsClean(words: seq<string>, d: nat)
    requires forall k :: 0 <= k < |words| ==> Words(words[k])
    ensures Clean(Indented(Escapes(words), d))
  {
    hide *;
    EscapesUnbroken(words);
    UnbrokenIsClean(Escapes(words));
    IndentedAreClean(Escapes(words), d);
  }

  lemma {:induction false} EntryIsClean(e: Entry, ordered: bool, d: nat)
    requires GoodEntry(e, ordered)
    ensures Clean(PrintEntry(e, d))
    decreases e, 0
  {
    hide *;
    EntryParts(e, ordered, d);
    OwnIsClean(e, ordered, d);
    if e.nested == [] {
      NoEntries(d + e.step);
      NothingIsClean();
    } else {
      EntriesAreClean(e.nested, Numbered(e.nested), d + e.step);
    }
    BodiesAreClean(e.bodies, d + e.step);
    CleanBoth(PrintEntries(e.nested, d + e.step), PrintBodies(e.bodies, d + e.step));
    CleanBoth(OwnLines(e, d), PrintEntries(e.nested, d + e.step) + PrintBodies(e.bodies, d + e.step));
  }

  lemma {:induction false} EntriesAreClean(entries: seq<Entry>, ordered: bool, d: nat)
    requires GoodEntries(entries, ordered)
    ensures Clean(PrintEntries(entries, d))
    decreases entries, 0
  {
    hide *;
    if entries == [] {
      NoEntries(d);
      NothingIsClean();
    } else {
      EntriesParts(entries, d, ordered);
      BlanksAreClean(entries[0].gap);
      EntryIsClean(entries[0], ordered, d);
      EntriesAreClean(entries[1..], ordered, d);
      CleanBoth(PrintEntry(entries[0], d), PrintEntries(entries[1..], d));
      CleanBoth(Blanks(entries[0].gap), PrintEntry(entries[0], d) + PrintEntries(entries[1..], d));
    }
  }

  lemma {:induction false} BodiesAreClean(bodies: seq<Body>, d: nat)
    requires GoodBodies(bodies)
    ensures Clean(PrintBodies(bodies, d))
    decreases bodies, 0
  {
    hide *;
    if bodies == [] {
      NoBodies(d);
      NothingIsClean();
    } else {
      BodiesParts(bodies);
      BodiesPrint(bodies, d);
      var inner := PrintAll(bodies[0].pieces);
      BlanksAreClean(bodies[0].gap);
      PiecesAreClean(bodies[0].pieces);
      IndentedAreClean(inner, d);
      BodiesAreClean(bodies[1..], d);
      CleanBoth(Indented(inner, d), PrintBodies(bodies[1..], d));
      CleanBoth(Blanks(bodies[0].gap), Indented(inner, d) + PrintBodies(bodies[1..], d));
    }
  }

  // A document as it is written, joined into a text, is read as exactly its blocks and as
  // nothing else.
  lemma WrittenReadsBack(g: Grammar, pieces: seq<Piece>)
    requires pieces != [] && GoodAll(pieces)
    ensures var text := JoinBy(PrintAll(pieces), '\n');
      forall all :: Reads(g, LinesOf(text), 0, all) <==> all == MeaningAll(pieces)
  {
    hide Reads, LinesOf, JoinBy, Clean, PrintAll, GoodAll, MeaningAll;
    var lines := PrintAll(pieces);
    PrintsSomething(pieces);
    PiecesAreClean(pieces);
    BodyIsItsLines(lines);
    WholeIsAt(lines);
    PiecesRead(g, lines, 0, pieces);
    forall all | Reads(g, lines, 0, all)
      ensures all == MeaningAll(pieces)
    {
      ReadsOnce(g, lines, 0, all, MeaningAll(pieces));
    }
  }

  // ----- Texts that are no document -----------------------------------------------------------

  // The first block of what is read, where there is text on the first line.
  lemma ReadsFromTop(g: Grammar, lines: seq<string>, i: nat, all: seq<Block>) returns (next: nat)
    requires i < |lines| && !IsBlank(lines[i]) && Reads(g, lines, i, all)
    ensures all != [] && next <= |lines| && ReadsBlock(g, lines, i, next, all[0]) && Reads(g, lines, next, all[1..])
  {
    hide ReadsBlock, IsBlank, Until;
    UntilIs(HasTextAt(lines), i, i, |lines|);
    next :| next <= |lines| && ReadsBlock(g, lines, i, next, all[0]) && Reads(g, lines, next, all[1..]);
  }

  // What reads as a paragraph, by none of the other forms.
  ghost predicate OnlyProse(lines: seq<string>, i: nat)
    requires i < |lines|
  {
    && FenceOf(lines[i]).None? && HeadingOf(lines[i]).None? && !IsThematicBreak(lines[i])
    && (i + 1 < |lines| ==> !StartsTable(lines[i], lines[i + 1]))
    && Quoted(lines[i]).None? && ListItem(lines[i]).None?
  }

  lemma {:induction false} ProseMust(g: Grammar, lines: seq<string>, i: nat, to_: nat, b: Block)
    requires i < |lines| && OnlyProse(lines, i) && ReadsBlock(g, lines, i, to_, b)
    ensures b.Paragraph? && !b.tight && ParagraphReads(g, lines, i, to_, b.children)
  {
    hide FenceOf, HeadingOf, IsThematicBreak, StartsTable, Quoted, ListItem, ParagraphReads, TableReads, FenceReads, ItemsRead, Spelt;
  }

  ghost predicate IsTag(line: string) {
    && |line| >= 2 && line[0] == '<' && '|' !in line
    && ((IsLetter(line[1]) && line[1] !in "iI") || (line[1] == '/' && |line| >= 3 && IsLetter(line[2])))
  }

  lemma AngleForm(line: string)
    requires line != "" && line[0] == '<'
    ensures AtMargin(line) && Indent(line) == 0 && line[0..] == line && !IsBlank(line)
    ensures FenceOf(line).None? && HeadingOf(line).None? && !IsThematicBreak(line) && Quoted(line).None? && ListItem(line).None?
    ensures !IsDelimiterRow(line) && !IsSetextUnderline(line) && !StartsHeading(line) && FenceMarks(line) == 0
  {
    hide IsSpace, FenceOf, HeadingOf, IsThematicBreak, Quoted, ListItem, IsDelimiterRow, IsSetextUnderline, StartsHeading, FenceMarks;
    assert IsPunctuation('<') by { AngleIsMark(); }
    MarginOf(line, '<');
    FirstMark(line);
    NoDelimiterMark(line);
  }

  lemma AngleIsMark()
    ensures IsPunctuation('<') && IsPunctuation('`') && IsPunctuation('=')
  {
  }

  lemma TagForm(line: string)
    requires IsTag(line)
    ensures StartsHtml(line) && !StartsImage(line)
  {
    hide *;
    TagBegins(line);
    AngleForm(line);
    TagIsNoImage(line);
  }

  lemma TagIsNoImage(line: string)
    requires IsTag(line) && Indent(line) == 0 && line[0..] == line
    ensures StartsHtml(line) && !StartsImage(line)
  {
    hide Indent, IsWord;
  }

  lemma TickForm(code: string)
    requires code != "" && code[0] != '`'
    ensures var line := "`" + code;
      && AtMargin(line) && !IsBlank(line) && FenceOf(line).None? && HeadingOf(line).None? && !IsThematicBreak(line)
      && Quoted(line).None? && ListItem(line).None? && !StartsImage(line)
  {
    hide IsSpace, HeadingOf, IsThematicBreak, Quoted, ListItem, StartsImage, Indent;
    var line := "`" + code;
    AngleIsMark();
    MarginOf(line, '`');
    FirstMark(line);
    assert line[1..] == code && RunOf('`', code) == 0 && RunOf('`', line) == 1;
  }

  // A line that begins with a tag, other than an image's, ends the text before it, where it
  // could have gone on with it as code; and no block begins with it.
  lemma {:induction false} TagIsNoDocument(g: Grammar, code: string, tag: string, rest: seq<string>, all: seq<Block>)
    requires code != "" && code[0] != '`' && IsTag(tag)
    ensures !Reads(g, ["`" + code, tag] + rest, 0, all)
  {
    hide IsSpace, FenceOf, HeadingOf, IsThematicBreak, Quoted, ListItem, StartsImage, StartsHtml, Indent, Reads, ReadsBlock, IsTag,
      IsDelimiterRow, IsBlank, IsSetextUnderline, Cells, Spelt, Until, StartsHeading, FenceMarks;
    var lines := ["`" + code, tag] + rest;
    TickForm(code);
    AngleForm(tag) by { TagBegins(tag); }
    TagForm(tag);
    TagHasNoPipe(tag);
    if Reads(g, lines, 0, all) {
      var next := ReadsFromTop(g, lines, 0, all);
      ProseMust(g, lines, 0, next, all[0]);
      UntilIs(EndsParagraph(lines), 1, 1, |lines|);
      var after := ReadsFromTop(g, lines, 1, all[1..]);
      ProseMust(g, lines, 1, after, all[1..][0]);
      assert false;
    }
  }

  lemma TagBegins(tag: string)
    requires IsTag(tag)
    ensures tag != "" && tag[0] == '<'
  {
  }

  lemma TagHasNoPipe(tag: string)
    requires IsTag(tag)
    ensures '|' !in tag
  {
  }

  // An image's tag goes on with the paragraph.
  lemma {:induction false} ImageGoesOn(g: Grammar, v: string, more: string, children: seq<Inline>)
    requires Words(v) && (more != "" ==> !IsWord(more[0]) && !IsSpace(more[|more| - 1]))
    ensures var tag := "<img" + more;
      Reads(g, [Escape(v), tag], 0, [Paragraph(false, children)]) <==> SpeltAll(g, Escape(v) + " " + tag, children)
  {
    hide IsSpace, FenceOf, HeadingOf, IsThematicBreak, Quoted, ListItem, StartsImage, StartsHtml, Indent, Reads, ReadsBlock,
      IsDelimiterRow, IsBlank, IsSetextUnderline, Cells, Spelt, Until, StartsHeading, FenceMarks, Words, Escape, TrimText;
    var tag := "<img" + more;
    var lines := [Escape(v), tag];
    WordsForm(v);
    AngleForm(tag);
    ImageForm(more);
    NothingIsBlank();
    BlankForm("");
    UntilIs(EndsParagraph(lines), 1, 2, 2);
    ImageText(lines, v, tag);
    if Reads(g, lines, 0, [Paragraph(false, children)]) {
      var next := ReadsFromTop(g, lines, 0, [Paragraph(false, children)]);
      ProseMust(g, lines, 0, next, Paragraph(false, children));
    }
    if SpeltAll(g, Escape(v) + " " + tag, children) {
      ProseIs(g, lines, 0, 2, children);
      NoPieces(g, lines);
      TextFromHere(lines, 0);
      ReadsFirst(g, lines, 0, 0, 2, Paragraph(false, children), []);
      assert [Paragraph(false, children)] + [] == [Paragraph(false, children)];
    }
  }

  lemma TextFromHere(lines: seq<string>, i: nat)
    requires i < |lines| && !IsBlank(lines[i])
    ensures TextFrom(lines, i) == i
  {
    hide IsBlank, Until;
    UntilIs(HasTextAt(lines), i, i, |lines|);
  }

  lemma {:induction false} ProseIs(g: Grammar, lines: seq<string>, i: nat, to_: nat, children: seq<Inline>)
    requires i < to_ <= |lines| && OnlyProse(lines, i) && ParagraphReads(g, lines, i, to_, children)
    ensures ReadsBlock(g, lines, i, to_, Paragraph(false, children))
  {
    hide FenceOf, HeadingOf, IsThematicBreak, StartsTable, Quoted, ListItem, ParagraphReads;
  }

  lemma ImageForm(more: string)
    requires more != "" ==> !IsWord(more[0]) && !IsSpace(more[|more| - 1])
    ensures StartsImage("<img" + more) && TrimText("<img" + more) == "<img" + more
  {
    hide *;
    var tag := "<img" + more;
    AngleForm(tag);
    LastOfTag(more);
    TrimTextIs(tag);
    ImageIs(tag, more);
  }

  lemma ImageIs(tag: string, more: string)
    requires tag == "<img" + more && Indent(tag) == 0 && tag[0..] == tag && (more != "" ==> !IsWord(more[0]))
    ensures StartsImage(tag)
  {
    hide Indent, IsWord;
    assert tag[1] == 'i' && tag[2] == 'm' && tag[3] == 'g' && (more != "" ==> tag[4] == more[0]);
  }

  lemma LastOfTag(more: string)
    requires more != "" ==> !IsSpace(more[|more| - 1])
    ensures var tag := "<img" + more; !IsSpace(tag[0]) && !IsSpace(tag[|tag| - 1])
  {
  }

  lemma {:induction false} ImageText(lines: seq<string>, v: string, tag: string)
    requires lines == [Escape(v), tag] && TrimText(Escape(v)) == Escape(v) && TrimText(tag) == tag
    ensures JoinBy(Trimmed(lines, 0, 2), ' ') == Escape(v) + " " + tag
  {
    hide TrimText, Escape;
    assert Trimmed(lines, 0, 0) == [];
    assert Trimmed(lines, 0, 1) == [Escape(v)];
    assert Trimmed(lines, 0, 2) == [Escape(v), tag];
    assert [Escape(v), tag][1..] == [tag];
    assert JoinBy([tag], ' ') == tag;
  }

  // Dashes or equals signs and nothing else.
  lemma {:induction false} UnderlineForm(mark: char, n: nat, next: string)
    requires mark in "=-" && n > 0
    ensures var line := Repeat(mark, n);
      && AtMargin(line) && !IsBlank(line) && !IsDelimiterRow(line) && IsSetextUnderline(line) && ListItem(line).None?
      && !InterruptsParagraph(line, next)
  {
    hide IsSpace, Indent, IsDelimiterRow, ListItem, Quoted, FenceMarks, StartsHeading, FenceOf, HeadingOf, IsThematicBreak, Cells,
      StartsHtml, StartsImage, IsSetextUnderline;
    var line := Repeat(mark, n);
    AngleIsMark();
    MarkIsPunctuation(mark);
    MarginOf(line, mark);
    FirstMark(line);
    UnderlineIs(line, mark, n);
    NoPipeInRun(mark, n);
  }

  lemma {:induction false} NoPipeInRun(mark: char, n: nat)
    requires mark != '|'
    ensures '|' !in Repeat(mark, n) && !IsDelimiterRow(Repeat(mark, n))
  {
    hide DelimiterCells;
  }

  lemma {:induction false} UnderlineIs(line: string, mark: char, n: nat)
    requires mark in "=-" && n > 0 && line == Repeat(mark, n) && AtMargin(line)
    ensures IsSetextUnderline(line) && ListItem(line).None?
  {
    hide IsSpace, Indent, IsBlank;
    WordsLineIndent(line);
    RunIs(mark, line, n);
    assert line[n..] == "";
    NothingIsBlank();
    DashIsNoItem(line, mark);
  }

  lemma DashIsNoItem(line: string, mark: char)
    requires mark in "=-" && line != "" && forall k :: 0 <= k < |line| ==> line[k] == mark
    ensures ListItem(line).None?
  {
    AngleIsMark();
    MarkIsPunctuation(mark);
    MarksAreSolid(mark);
    hide IsSpace, Indent, IsPunctuation;
    WordsLineIndent(line);
    if line[1..] != "" { WordsLineIndent(line[1..]); } else { NothingIsIndented(); }
  }

  lemma NothingIsIndented()
    ensures Indent("") == 0
  {
  }

  // Text underlined would be a heading elsewhere; here it is no document.
  lemma {:induction false} UnderlinedIsNoDocument(g: Grammar, words: seq<string>, mark: char, n: nat, rest: seq<string>, all: seq<Block>)
    requires WordsAll(words) && mark in "=-" && n > 0
    ensures !Reads(g, Escapes(words) + [Repeat(mark, n)] + rest, 0, all)
  {
    hide *;
    var line := Repeat(mark, n);
    var lines := Escapes(words) + [line] + rest;
    var k := |words|;
    assert lines[0..k] == Escapes(words);
    SliceIsAt(lines, Escapes(words));
    UnderlineForm(mark, n, LineAt(lines, k + 1));
    assert lines[k] == line;
    UnderlineEnds(lines, k);
    ProseEnds(lines, 0, words, 1) by { WordsAreLines(words); }
    WordsAreLines(words);
    TopOfWords(lines, words);
    if Reads(g, lines, 0, all) {
      var next := ReadsFromTop(g, lines, 0, all);
      ProseMust(g, lines, 0, next, all[0]);
      ProseIsUnderlined(g, lines, 0, k, next, all[0].children);
      assert false;
    }
  }

  lemma SliceIsAt(lines: seq<string>, x: seq<string>)
    requires |x| <= |lines| && lines[0..|x|] == x
    ensures At(lines, 0, x)
  {
  }

  lemma UnderlineEnds(lines: seq<string>, k: nat)
    requires k < |lines| && IsSetextUnderline(lines[k]) && !IsBlank(lines[k]) && !InterruptsParagraph(lines[k], LineAt(lines, k + 1))
    ensures EndsParagraph(lines)(k) && Underlines(lines, k)
  {
    hide IsSetextUnderline, IsBlank, InterruptsParagraph;
  }

  // The first of some lines of words, with no delimiter row under it.
  lemma {:induction false} TopOfWords(lines: seq<string>, words: seq<string>)
    requires WordsAll(words) && At(lines, 0, Escapes(words)) && |words| < |lines| && !IsDelimiterRow(lines[|words|])
    ensures OnlyProse(lines, 0) && !IsBlank(lines[0]) && !StartsImage(lines[0])
  {
    hide *;
    WordsAreLines(words);
    WordsIn(words, 0);
    WordsAt(lines, 0, words, 0);
    WordsForm(words[0]);
    NextIsPlain(lines, 0, words, 0);
    OnlyProseHere(lines);
  }

  lemma OnlyProseHere(lines: seq<string>)
    requires |lines| > 1 && FenceOf(lines[0]).None? && HeadingOf(lines[0]).None? && !IsThematicBreak(lines[0])
    requires Quoted(lines[0]).None? && ListItem(lines[0]).None? && !IsDelimiterRow(LineAt(lines, 1))
    ensures OnlyProse(lines, 0)
  {
    hide FenceOf, HeadingOf, IsThematicBreak, Quoted, ListItem, IsDelimiterRow, Cells;
  }

  lemma {:induction false} ProseIsUnderlined(g: Grammar, lines: seq<string>, i: nat, k: nat, to_: nat, children: seq<Inline>)
    requires i < |lines| && !StartsImage(lines[i]) && Until(EndsParagraph(lines), i + 1, |lines|) == k && Underlines(lines, k)
    ensures !ParagraphReads(g, lines, i, to_, children)
  {
    hide StartsImage, StartsHtml, EndsParagraph, Underlines, Spelt;
  }

  // Nor is an item with such a line under it.
  lemma {:induction false} UnderlinedItemIsNoDocument(g: Grammar, bullet: string, pad: nat, v: string, d: nat, mark: char, n: nat,
                                   rest: seq<string>, all: seq<Block>)
    requires IsBullet(bullet) && pad > 0 && Words(v) && d > 0 && mark in "=-" && n > 0
    ensures !Reads(g, [EntryLine(bullet, pad, v, 0), Repeat(' ', d) + Repeat(mark, n)] + rest, 0, all)
  {
    hide *;
    var under := Repeat(' ', d) + Repeat(mark, n);
    var lines := [EntryLine(bullet, pad, v, 0), under] + rest;
    EntryForm(bullet, pad, v, 0);
    EntryStarts(bullet, pad, v);
    ItemHere(lines);
    IndentedUnderline(mark, n, d);
    ItemIsUnderlined(lines);
    if Reads(g, lines, 0, all) {
      var next := ReadsFromTop(g, lines, 0, all);
      ListMust(g, lines, next, all[0]);
      assert false;
    }
  }

  lemma ItemHere(lines: seq<string>)
    requires lines != [] && ListItem(lines[0]).Some?
    ensures IsItem(lines, 0)
  {
    hide ListItem;
  }

  lemma {:induction false} IndentedUnderline(mark: char, n: nat, d: nat)
    requires mark in "=-" && n > 0
    ensures var line := Repeat(' ', d) + Repeat(mark, n);
      && Indent(line) == d && !IsBlank(line) && IsSetextUnderline(line) && ListItem(line).None? && !IsDelimiterRow(line)
  {
    UnderlineForm(mark, n, "");
    FurtherText(Repeat(mark, n), d);
    hide IsSpace, Indent, IsBlank, Span, RunOf, NoLineBreak, StartsTable, InterruptsParagraph, IsDelimiterRow;
    var t := Repeat(mark, n);
    var line := Repeat(' ', d) + t;
    MarginIndent(t);
    PipesAreNone(mark, n, d);
  }

  lemma MarginIndent(t: string)
    requires AtMargin(t)
    ensures Indent(t) == 0 && t[0..] == t
  {
    WordsLineIndent(t);
  }

  lemma {:induction false} PipesAreNone(mark: char, n: nat, d: nat)
    requires mark != '|'
    ensures !IsDelimiterRow(Repeat(' ', d) + Repeat(mark, n))
  {
    hide DelimiterCells;
  }

  lemma {:induction false} ItemIsUnderlined(lines: seq<string>)
    requires |lines| > 1 && IsItem(lines, 0)
    requires Indent(lines[1]) > 0 && !IsBlank(lines[1]) && IsSetextUnderline(lines[1]) && ListItem(lines[1]).None?
    ensures Until(EndsItem(lines), 1, |lines|) == 1 && UnderlinesItem(lines, 1)
  {
    hide Indent, IsBlank, IsSetextUnderline, ListItem, Until;
    UntilIs(EndsItem(lines), 1, 1, |lines|);
  }

  lemma {:induction false} ListMust(g: Grammar, lines: seq<string>, to_: nat, b: Block)
    requires |lines| > 1 && IsItem(lines, 0) && FenceOf(lines[0]).None? && HeadingOf(lines[0]).None? && !IsThematicBreak(lines[0])
    requires Quoted(lines[0]).None? && !IsDelimiterRow(lines[1])
    requires Until(EndsItem(lines), 1, |lines|) == 1 && UnderlinesItem(lines, 1)
    ensures !ReadsBlock(g, lines, 0, to_, b)
  {
    hide *;
    ResumesHere(lines, 0);
    if ReadsBlock(g, lines, 0, to_, b) {
      ItemsMust(g, lines, to_, b);
      if b.items == [] {
        NoItems(g, lines, to_);
      } else {
        var next := FirstItem(g, lines, 0, 0, to_, b.items);
        UnderlinedItem(g, lines, next, b.items[0]);
      }
      assert false;
    }
  }

  lemma {:induction false} ItemsMust(g: Grammar, lines: seq<string>, to_: nat, b: Block)
    requires |lines| > 1 && IsItem(lines, 0) && FenceOf(lines[0]).None? && HeadingOf(lines[0]).None? && !IsThematicBreak(lines[0])
    requires Quoted(lines[0]).None? && !IsDelimiterRow(lines[1]) && ReadsBlock(g, lines, 0, to_, b)
    ensures b.List? && to_ > 0 && ItemsRead(g, lines, 0, 0, to_, b.items)
  {
    hide FenceOf, HeadingOf, IsThematicBreak, Quoted, ListItem, IsDelimiterRow, Cells, ItemsRead, Reads, Spelt;
  }

  lemma {:induction false} NoItems(g: Grammar, lines: seq<string>, to_: nat)
    requires IsItem(lines, 0) && Resume(lines, 0) == 0 && to_ > 0
    ensures !ItemsRead(g, lines, 0, 0, to_, [])
  {
    hide Resume, ListItem, ItemReads;
  }

  lemma {:induction false} UnderlinedItem(g: Grammar, lines: seq<string>, to_: nat, item: Item)
    requires IsItem(lines, 0) && Until(EndsItem(lines), 1, |lines|) == 1 && UnderlinesItem(lines, 1)
    ensures !ItemReads(g, lines, 0, 0, to_, item)
  {
    hide ListItem, Until, UnderlinesItem, Belongs, Spelt;
  }

  // ----- Which form comes first ---------------------------------------------------------------

  // Marks with any spaces between are a rule, though a dash or a star with a space after it
  // begins an item too.
  lemma {:induction false} RuleBeforeItem(g: Grammar, mark: char, gaps: seq<nat>, all: seq<Block>)
    requires mark in "-*_" && |gaps| >= 2
    ensures Reads(g, [RuleLine(mark, gaps)], 0, all) <==> all == [ThematicBreak]
  {
    hide *;
    var line := RuleLine(mark, gaps);
    var lines := [line];
    RuleIsSolid(mark, gaps);
    RuleReadsAnyway(g, lines, line);
    TextFromHere(lines, 0);
    NoPieces(g, lines);
    ReadsFirst(g, lines, 0, 0, 1, ThematicBreak, []);
    assert [ThematicBreak] + [] == [ThematicBreak];
    if Reads(g, lines, 0, all) {
      ReadsOnce(g, lines, 0, all, [ThematicBreak]);
    }
  }

  lemma {:induction false} RuleIsSolid(mark: char, gaps: seq<nat>)
    requires mark in "-*_" && |gaps| >= 2
    ensures var line := RuleLine(mark, gaps);
      !IsBlank(line) && FenceOf(line).None? && HeadingOf(line).None? && IsThematicBreak(line)
  {
    hide IsSpace, FenceOf, HeadingOf, Indent, RuleLine, HowMany, IsThematicBreak, ListItem, Quoted;
    var line := RuleLine(mark, gaps);
    MarkIsPunctuation(mark);
    RuleLineIs(mark, gaps);
    MarginOf(line, mark);
    FirstMark(line);
    MarksAreARule(line, mark);
  }

  lemma {:induction false} RuleReadsAnyway(g: Grammar, lines: seq<string>, line: string)
    requires lines == [line] && FenceOf(line).None? && HeadingOf(line).None? && IsThematicBreak(line)
    ensures ReadsBlock(g, lines, 0, 1, ThematicBreak)
  {
    hide FenceOf, HeadingOf, IsThematicBreak;
  }

  // A line over a delimiter row of as many cells is a table's, whether it begins as a quote, an
  // item or text.
  lemma {:induction false} TableBeforeQuote(g: Grammar, line: string, aligns: seq<Align>, all: seq<Block>)
    requires AtMargin(line) && line[0] !in "`~#" && '|' in line && |Cells(line)| == |aligns|
    requires aligns != [] && forall k :: 0 <= k < |aligns| ==> aligns[k].dashes > 0
    requires Reads(g, [line, RowLine(AlignTexts(aligns))], 0, all)
    ensures |all| == 1 && all[0].Table?
  {
    hide *;
    var lines := [line, RowLine(AlignTexts(aligns))];
    FirstMark(line);
    PipeIsNoRule(line);
    AlignRowForm(aligns);
    var next := ReadsFromTop(g, lines, 0, all);
    TableMust(g, lines, next, all[0]);
    NoneLeft(g, lines, all[1..]);
    assert all == [all[0]] + all[1..];
  }

  lemma {:induction false} NoneLeft(g: Grammar, lines: seq<string>, all: seq<Block>)
    requires Reads(g, lines, |lines|, all)
    ensures all == []
  {
    hide ReadsBlock, IsBlank;
  }

  lemma PipeIsNoRule(line: string)
    requires '|' in line
    ensures !IsThematicBreak(line)
  {
    if IsThematicBreak(line) { NoPipe(line, Indent(line)); }
    assert !IsSpace('|');
    hide IsSpace, Indent, HowMany;
  }

  lemma {:induction false} TableMust(g: Grammar, lines: seq<string>, to_: nat, b: Block)
    requires |lines| == 2 && FenceOf(lines[0]).None? && HeadingOf(lines[0]).None? && !IsThematicBreak(lines[0])
    requires '|' in lines[0] && IsDelimiterRow(lines[1]) && |Cells(lines[0])| == |Cells(lines[1])|
    requires ReadsBlock(g, lines, 0, to_, b)
    ensures b.Table? && to_ == 2
  {
    hide FenceOf, HeadingOf, IsThematicBreak, IsDelimiterRow, Cells, RowReads, Quoted, ListItem;
  }

  // A heading is one whatever is under it.
  lemma {:induction false} HeadingBeforeTable(g: Grammar, b: Written, rest: seq<string>, all: seq<Block>)
    requires b.Title? && Good(b) && Reads(g, Print(b) + rest, 0, all)
    ensures all != [] && all[0] == Heading(b.depth, [Text(b.text)])
  {
    hide *;
    var lines := Print(b) + rest;
    TitleStands(g, lines, b, rest);
    var next := ReadsFromTop(g, lines, 0, all);
    BlockOnce(g, lines, 0, next, 1, all[0], Heading(b.depth, [Text(b.text)]));
  }

  lemma {:induction false} TitleStands(g: Grammar, lines: seq<string>, b: Written, rest: seq<string>)
    requires b.Title? && Good(b) && lines == Print(b) + rest
    ensures lines != [] && !IsBlank(lines[0]) && ReadsBlock(g, lines, 0, 1, Heading(b.depth, [Text(b.text)]))
  {
    hide ReadsBlock, IsBlank, FenceOf, HeadingOf, ListItem, Quoted, IsThematicBreak, IsDelimiterRow, TitleLine;
    assert lines[0..1] == Print(b);
    TitleForm(b.depth, b.lead, b.text, b.ending);
    MarginHasText(lines[0]);
    TitleReads(g, lines, 0, b);
  }

  // ----- Tables without the outer pipes ----------------------------------------------------------

  lemma {:induction false} JoinedCellsRead(t: string, i: nat, cells: seq<string>)
    requires WholeCells(cells) && i <= |t| && t[i..] == JoinBy(cells, '|')
    ensures CellsFrom(t, i, "") == cells
    decreases |cells|
  {
    hide Whole;
    var x := cells[0];
    assert |cells| > 1 ==> JoinBy(cells, '|') == x + ("|" + JoinBy(cells[1..], '|'));
    PrefixAt(t, i, x, JoinBy(cells, '|'));
    CellReads(t, i, x, "");
    assert "" + x == x;
    if |cells| > 1 {
      PipeAt(t, i, x, JoinBy(cells[1..], '|'));
      JoinedCellsRead(t, i + |x| + 1, cells[1..]);
      assert cells == [x] + cells[1..];
    } else {
      assert i + |x| == |t|;
    }
  }

  lemma PrefixAt(t: string, i: nat, x: string, s: string)
    requires i <= |t| && t[i..] == s && x <= s
    ensures i + |x| <= |t| && t[i..i + |x|] == x
  {
    assert t[i..][..|x|] == t[i..i + |x|];
  }

  lemma PipeAt(t: string, i: nat, x: string, more: string)
    requires i <= |t| && t[i..] == x + ("|" + more)
    ensures i + |x| < |t| && t[i + |x|] == '|' && t[i + |x| + 1..] == more
  {
    var s := t[i..];
    assert s[|x|] == '|' && s[|x| + 1..] == more;
    assert s[|x| + 1..] == t[i + |x| + 1..];
  }

  // Text that begins and ends with neither a space nor a pipe is the row's own.
  lemma BareText(s: string)
    requires s != "" && !IsSpace(s[0]) && !IsSpace(s[|s| - 1]) && s[0] != '|' && s[|s| - 1] != '|'
    ensures RowText(s) == s
  {
    TrimTextIs(s);
    hide IsSpace, TrimText;
  }

  lemma {:induction false} JoinEnds(cells: seq<string>)
    requires cells != [] && forall k :: 0 <= k < |cells| ==> cells[k] != ""
    ensures var s := JoinBy(cells, '|');
      && s != "" && s[0] == cells[0][0] && s[|s| - 1] == cells[|cells| - 1][|cells[|cells| - 1]| - 1]
      && (|cells| > 1 ==> '|' in s)
  {
    if |cells| > 1 {
      JoinEnds(cells[1..]);
      var s := JoinBy(cells, '|');
      assert s[|cells[0]|] == '|';
    }
  }

  // A cell that begins and ends with neither a space nor a pipe.
  ghost predicate Firm(x: string) {
    x != "" && !IsSpace(x[0]) && !IsSpace(x[|x| - 1]) && x[0] != '|' && x[|x| - 1] != '|'
  }

  lemma {:induction false} BareCellsRead(cells: seq<string>)
    requires WholeCells(cells) && forall k :: 0 <= k < |cells| ==> Firm(cells[k])
    ensures Cells(JoinBy(cells, '|')) == cells
  {
    hide Whole, RowText, IsSpace;
    var s := JoinBy(cells, '|');
    assert Firm(cells[0]) && Firm(cells[|cells| - 1]);
    JoinEnds(cells);
    BareText(s);
    assert s[0..] == s;
    JoinedCellsRead(s, 0, cells);
  }

  lemma {:induction false} BareDelimiters(aligns: seq<Align>)
    requires aligns != [] && forall k :: 0 <= k < |aligns| ==> aligns[k].dashes > 0
    ensures DelimiterCells(JoinBy(AlignTexts(aligns), '|'))
    ensures WholeCells(AlignTexts(aligns)) && forall k :: 0 <= k < |aligns| ==> Firm(AlignText(aligns[k]))
  {
    hide DelimiterCells, Whole, AlignText, Firm;
    var texts := AlignTexts(aligns);
    assert texts[1..] == AlignTexts(aligns[1..]);
    forall k | 0 <= k < |aligns|
      ensures Whole(texts[k]) && Firm(AlignText(aligns[k]))
    {
      AlignIsWhole(aligns[k]);
      AlignIsFirm(aligns[k]);
    }
    if |aligns| > 1 {
      BareDelimiters(aligns[1..]);
      JoinNext(texts);
      BareAlign(aligns[0], "|" + JoinBy(texts[1..], '|'));
    } else {
      BareAlign(aligns[0], "");
      assert AlignText(aligns[0]) + "" == AlignText(aligns[0]);
    }
  }

  lemma {:induction false} JoinNext(texts: seq<string>)
    requires |texts| > 1
    ensures var more := JoinBy(texts[1..], '|');
      JoinBy(texts, '|') == texts[0] + ("|" + more) && ("|" + more) != "" && ("|" + more)[0] == '|' && ("|" + more)[1..] == more
  {
  }

  lemma AlignIsFirm(a: Align)
    requires a.dashes > 0
    ensures Firm(AlignText(a))
  {
    ColonIsMark();
    hide IsSpace;
    var t := AlignText(a);
    assert t[0] in ":-" && t[|t| - 1] in ":-";
  }

  lemma {:induction false} BareAlign(a: Align, rest: string)
    requires a.dashes > 0 && (rest == "" || (rest[0] == '|' && DelimiterCells(rest[1..])))
    ensures DelimiterCells(AlignText(a) + rest)
  {
    hide *;
    var z := Colon(a.right) + rest;
    var y := Repeat('-', a.dashes) + z;
    var x := Colon(a.left) + y;
    BareSolid(a, rest);
    ColonDrops(a.left, y);
    ColonEnds(a.right, rest);
    RunIs('-', y, a.dashes);
    assert y[a.dashes..] == z;
    BareStep(x, y, z, rest, a.dashes);
  }

  lemma ColonEnds(on: bool, rest: string)
    requires rest == "" || rest[0] != ':'
    ensures DropOne(':', Colon(on) + rest) == rest
  {
    assert (":" + rest)[1..] == rest && "" + rest == rest;
  }

  lemma BareSolid(a: Align, rest: string)
    requires a.dashes > 0 && (rest == "" || rest[0] == '|')
    ensures var z := Colon(a.right) + rest;
      var y := Repeat('-', a.dashes) + z;
      var x := Colon(a.left) + y;
      && (z != "" ==> z[0] != '-') && y != "" && y[0] == '-' && x != "" && Indent(x) == 0 && x[0..] == x
      && (rest == "" || (Indent(rest) == 0 && rest[0..] == rest)) && AlignText(a) + rest == x
  {
    hide *;
    var z := Colon(a.right) + rest;
    var y := Repeat('-', a.dashes) + z;
    ColonBehind(a.right, rest);
    ColonInFront(a.left, y);
    ColonStands(Colon(a.left) + y);
    if rest != "" { ColonStands(rest); }
    AlignParts(a);
    Regroup(Colon(a.left), Repeat('-', a.dashes), Colon(a.right), rest);
  }

  lemma AlignParts(a: Align)
    ensures AlignText(a) == Colon(a.left) + Repeat('-', a.dashes) + Colon(a.right)
  {
  }

  lemma Regroup(x: string, y: string, z: string, rest: string)
    ensures x + y + z + rest == x + (y + (z + rest))
  {
  }

  lemma ColonBehind(on: bool, rest: string)
    requires rest == "" || rest[0] == '|'
    ensures var z := Colon(on) + rest; z != "" ==> z[0] != '-'
  {
  }

  lemma ColonInFront(on: bool, y: string)
    requires y != "" && y[0] == '-'
    ensures var x := Colon(on) + y; x != "" && x[0] in ":-"
  {
  }

  lemma ColonStands(x: string)
    requires x != "" && x[0] in ":-|"
    ensures Indent(x) == 0 && x[0..] == x
  {
    ColonIsMark();
    hide IsSpace;
    WordsLineIndent(x);
  }

  lemma {:induction false} BareStep(x: string, y: string, z: string, rest: string, n: nat)
    requires x != "" && Indent(x) == 0 && x[0..] == x && DropOne(':', x) == y && RunOf('-', y) == n > 0 && y[n..] == z
    requires DropOne(':', z) == rest && (rest == "" || (Indent(rest) == 0 && rest[0..] == rest))
    requires rest == "" || (rest[0] == '|' && DelimiterCells(rest[1..]))
    ensures DelimiterCells(x)
  {
    hide RunOf, DropOne, IsSpace;
  }

  lemma {:induction false} BareHeader(g: Grammar, header: seq<string>)
    requires CellsOk(header) && |header| > 1
    ensures var line := JoinBy(Escapes(header), '|');
      && Cells(line) == Escapes(header) && RowReads(g, Escapes(header), Texts(header)) && '|' in line && AtMargin(line)
      && line[0] !in "`~#"
  {
    hide Spelt, Escape, Whole, Cells, IsSpace, TrimText, NoLineBreak, JoinBy, IsPunctuation;
    forall k | 0 <= k < |header|
      ensures Whole(Escape(header[k])) && Firm(Escape(header[k]))
      ensures SpeltAll(g, TrimText(Escape(header[k])), [Text(header[k])])
    {
      CellIsFirm(header[k]);
      EscapeSpells(g, header[k]);
    }
    BareCellsRead(Escapes(header));
    JoinEnds(Escapes(header));
    EscapeIsWordsLine(header[0]);
    TicksAreMarks();
  }

  lemma TicksAreMarks()
    ensures IsPunctuation('`') && IsPunctuation('~') && IsPunctuation('#')
  {
  }

  lemma {:induction false} CellIsFirm(v: string)
    requires Words(v) && '|' !in v
    ensures var t := Escape(v); Whole(t) && Firm(t) && TrimText(t) == t
  {
    hide Escape, Whole, IsSpace, TrimText, IsPunctuation, NoLineBreak;
    var t := Escape(v);
    EscapeIsWhole(v);
    EscapeIsWordsLine(v);
    EscapeShape(v);
    MarkIsPunctuation('|');
    TrimTextIs(t);
    assert t[|t| - 1] == v[|v| - 1] && v[|v| - 1] in v;
  }

  // A header and its delimiter row need no pipes at their ends, where there are two columns
  // or more.
  lemma {:induction false} BareTableReadsBack(g: Grammar, header: seq<string>, aligns: seq<Align>, all: seq<Block>)
    requires CellsOk(header) && |header| == |aligns| > 1 && forall k :: 0 <= k < |aligns| ==> aligns[k].dashes > 0
    ensures Reads(g, [JoinBy(Escapes(header), '|'), JoinBy(AlignTexts(aligns), '|')], 0, all)
      <==> all == [Table(Texts(header), [])]
  {
    hide *;
    var line, under := JoinBy(Escapes(header), '|'), JoinBy(AlignTexts(aligns), '|');
    var lines := [line, under];
    var table := Table(Texts(header), []);
    BareHeader(g, header);
    BareUnder(aligns);
    FirstMark(line);
    PipeIsNoRule(line);
    BareTableIs(g, lines, Texts(header));
    TextFromHere(lines, 0);
    NoPieces(g, lines);
    ReadsFirst(g, lines, 0, 0, 2, table, []);
    assert [table] + [] == [table];
    if Reads(g, lines, 0, all) {
      ReadsOnce(g, lines, 0, all, [table]);
    }
  }

  lemma {:induction false} BareUnder(aligns: seq<Align>)
    requires |aligns| > 1 && forall k :: 0 <= k < |aligns| ==> aligns[k].dashes > 0
    ensures var under := JoinBy(AlignTexts(aligns), '|'); IsDelimiterRow(under) && |Cells(under)| == |aligns|
  {
    hide IsSpace, Indent, DelimiterCells, Cells, AlignText, Whole, JoinBy;
    var texts := AlignTexts(aligns);
    var under := JoinBy(texts, '|');
    BareDelimiters(aligns);
    assert Firm(AlignText(aligns[0]));
    JoinEnds(texts);
    WordsLineIndent(under);
    BareCellsRead(texts);
    assert DropOne('|', under) == under;
  }

  lemma {:induction false} BareTableIs(g: Grammar, lines: seq<string>, header: seq<seq<Inline>>)
    requires |lines| == 2 && FenceOf(lines[0]).None? && HeadingOf(lines[0]).None? && !IsThematicBreak(lines[0])
    requires '|' in lines[0] && IsDelimiterRow(lines[1]) && |Cells(lines[0])| == |Cells(lines[1])|
    requires RowReads(g, Cells(lines[0]), header)
    ensures ReadsBlock(g, lines, 0, 2, Table(header, []))
  {
    hide FenceOf, HeadingOf, IsThematicBreak, IsDelimiterRow, Cells, RowReads;
  }
}
