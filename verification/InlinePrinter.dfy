/**
 Inline text as it is written: words behind backslashes, code, emphasis, links, images and
 allowed tags, within one another to any depth. The inline parser reads such a text as exactly
 its nodes; and marks that open nothing are read as text.
 */
module InlinePrinter {
  import opened Common
  import opened DocsInline

  // ----- What is written ----------------------------------------------------------------

  // Where a link leads, and a title in quotation marks; with the spaces around them.
  datatype Address = Address(before: nat, href: string, gap: nat, title: Option<string>, after: nat)

  datatype Phrase =
    | Words(text: string)
    | Coded(ticks: nat, code: string)
    | Stressed(mark: char, inner: seq<Phrase>)
    | Doubled(mark: char, inner: seq<Phrase>)
    | Linked(inner: seq<Phrase>, address: Address)
    | Shown(alt: string, address: Address)
    | Tag(text: string)

  ghost function TitleText(a: Address): string {
    if a.title.None? then "" else Repeat(' ', a.gap) + ("\"" + a.title.value + "\"")
  }

  ghost function AddressText(a: Address): string {
    Repeat(' ', a.before) + (a.href + TitleText(a) + Repeat(' ', a.after))
  }

  ghost function Write(p: Phrase): string
    decreases p, 0
  {
    match p
    case Words(text) => Escape(text)
    case Coded(ticks, code) => Repeat('`', ticks) + (code + Repeat('`', ticks))
    case Stressed(mark, inner) => [mark] + (WriteAll(inner) + [mark])
    case Doubled(mark, inner) => [mark, mark] + (WriteAll(inner) + [mark, mark])
    case Linked(inner, address) => "[" + (WriteAll(inner) + ("](" + (AddressText(address) + ")")))
    case Shown(alt, address) => "!" + ("[" + (alt + ("](" + (AddressText(address) + ")"))))
    case Tag(text) => text
  }

  ghost function WriteAll(ps: seq<Phrase>): string
    decreases ps, 0
  {
    if ps == [] then "" else WriteAll(ps[..|ps| - 1]) + Write(ps[|ps| - 1])
  }

  // ----- What may be written --------------------------------------------------------------

  // No bracket, and no backslash that would hide one.
  ghost predicate Unbracketed(s: string) {
    forall k :: 0 <= k < |s| ==> s[k] !in "[]\\"
  }

  // Every parenthesis is closed that was opened, or was open `depth` deep before, and no other.
  ghost predicate Balanced(s: string, depth: nat) {
    if s == "" then depth == 0
    else if s[0] == '(' then Balanced(s[1..], depth + 1)
    else if s[0] == ')' then depth > 0 && Balanced(s[1..], depth - 1)
    else Balanced(s[1..], depth)
  }

  ghost predicate Unquoted(s: string) {
    forall k :: 0 <= k < |s| ==> s[k] !in "\"\\"
  }

  // Parentheses in an address balance; in a title they need not.
  ghost predicate GoodAddress(a: Address) {
    && Unquoted(a.href) && Balanced(a.href, 0) && (forall k :: 0 <= k < |a.href| ==> !IsSpace(a.href[k]))
    && (a.title.Some? ==> a.href != "" && a.gap > 0 && Unquoted(a.title.value))
  }

  // Nowhere two of the mark side by side, nor one at the end.
  ghost predicate Single(s: string, mark: char) {
    forall k :: 0 <= k < |s| && s[k] == mark ==> k + 1 < |s| && s[k + 1] != mark
  }

  ghost predicate Here(t: string, i: nat, s: string) {
    i + |s| <= |t| && t[i..i + |s|] == s
  }

  // No run of backticks as long as the fence, nor any at either end.
  ghost predicate GoodCode(ticks: nat, code: string) {
    && ticks > 0 && code != "" && code[0] != '`' && code[|code| - 1] != '`'
    && forall k :: 0 <= k <= |code| ==> !Here(code, k, Repeat('`', ticks))
  }

  // Every bracket in it that counts is one of a pair.
  ghost predicate Labelled(p: Phrase)
    decreases p, 0
  {
    match p
    case Words(_) => true
    case Coded(_, code) => Unbracketed(code)
    case Stressed(_, inner) => LabelledAll(inner)
    case Doubled(_, inner) => LabelledAll(inner)
    case Linked(inner, address) => LabelledAll(inner) && Unbracketed(AddressText(address))
    case Shown(_, address) => Unbracketed(AddressText(address))
    case Tag(text) => Unbracketed(text)
  }

  ghost predicate LabelledAll(ps: seq<Phrase>)
    decreases ps, 0
  {
    ps == [] || (LabelledAll(ps[..|ps| - 1]) && Labelled(ps[|ps| - 1]))
  }

  ghost predicate Good(g: Grammar, p: Phrase)
    decreases p, 0
  {
    match p
    case Words(text) => text != ""
    case Coded(ticks, code) => GoodCode(ticks, code)
    // The first mark after it closes it, behind a backslash or not, and in code too.
    case Stressed(mark, inner) => mark in "*_" && inner != [] && GoodAll(g, inner) && mark !in WriteAll(inner)
    case Doubled(mark, inner) => mark in "*_" && GoodAll(g, inner) && Single(WriteAll(inner), mark)
    case Linked(inner, address) => GoodAll(g, inner) && LabelledAll(inner) && GoodAddress(address)
    case Shown(alt, address) => Unbracketed(alt) && GoodAddress(address)
    case Tag(text) => "<img" <= text && IsTag(text) && g.imageTag(text)
  }

  ghost predicate IsTag(text: string) {
    text != "" && text[|text| - 1] == '>' && forall k :: 0 <= k < |text| - 1 ==> text[k] != '>'
  }

  // Words do not stand side by side, and an underscore after a word opens nothing.
  ghost predicate MayFollow(front: seq<Phrase>, p: Phrase) {
    && (p.Words? && front != [] ==> !front[|front| - 1].Words?)
    && (p.Stressed? && p.mark == '_' && WriteAll(front) != "" ==> !IsWord(WriteAll(front)[|WriteAll(front)| - 1]))
  }

  ghost predicate GoodAll(g: Grammar, ps: seq<Phrase>)
    decreases ps, 0
  {
    ps == [] ||
    (var k := |ps| - 1; GoodAll(g, ps[..k]) && Good(g, ps[k]) && MayFollow(ps[..k], ps[k]))
  }

  // ----- What it means --------------------------------------------------------------------

  ghost function TargetIs(a: Address): Target {
    Target(a.href, a.title)
  }

  ghost function Mean(p: Phrase): Inline
    decreases p, 0
  {
    match p
    case Words(text) => Text(text)
    case Coded(_, code) => Code(code)
    case Stressed(_, inner) => Em(MeanAll(inner))
    case Doubled(_, inner) => Strong(MeanAll(inner))
    case Linked(inner, address) => Link(TargetIs(address), MeanAll(inner))
    case Shown(alt, address) => Image(TargetIs(address), alt)
    case Tag(text) => Picture(text)
  }

  ghost function MeanAll(ps: seq<Phrase>): (r: seq<Inline>)
    ensures |r| == |ps|
    decreases ps, 0
  {
    if ps == [] then [] else MeanAll(ps[..|ps| - 1]) + [Mean(ps[|ps| - 1])]
  }

  // ----- In the middle of a text ------------------------------------------------------------

  lemma HereSplit(t: string, i: nat, a: string, b: string)
    requires Here(t, i, a + b)
    ensures Here(t, i, a) && Here(t, i + |a|, b)
  {
    var z := t[i..i + |a| + |b|];
    assert z == a + b && z[..|a|] == a && z[|a|..] == b;
  }

  lemma HereAt(t: string, i: nat, s: string, k: nat)
    requires Here(t, i, s) && k < |s|
    ensures i + k < |t| && t[i + k] == s[k]
  {
    assert t[i..i + |s|][k] == t[i + k];
  }

  lemma HereFits(t: string, i: nat, s: string)
    requires Here(t, i, s)
    ensures i + |s| <= |t|
  {
  }

  // What goes before counts for nothing.
  lemma {:induction false} Local(t: string, from: nat, e: string, i: nat)
    requires Here(t, from, e) && i <= |e|
    ensures from + i <= |t| && Slashes(t, from, from + i) == Slashes(e, 0, i) && Plain(t, from, from + i) == Plain(e, 0, i)
    decreases i
  {
    hide IsPunctuation, Here;
    HereFits(t, from, e);
    if i > 0 {
      var k := i - 1;
      HereAt(t, from, e, k);
      Local(t, from, e, k);
      if k > 0 { Local(t, from, e, k - 1); }
      LocalStep(t, from, e, k);
    }
  }

  lemma LocalStep(t: string, from: nat, e: string, k: nat)
    requires k < |e| && from + k < |t| && t[from + k] == e[k]
    requires Slashes(t, from, from + k) == Slashes(e, 0, k) && Plain(t, from, from + k) == Plain(e, 0, k)
    requires k > 0 ==> Plain(t, from, from + k - 1) == Plain(e, 0, k - 1)
    ensures Slashes(t, from, from + k + 1) == Slashes(e, 0, k + 1)
    ensures Plain(t, from, from + k + 1) == Plain(e, 0, k + 1)
  {
    hide IsPunctuation;
  }

  lemma {:induction false} FindIs(t: string, sub: string, from: nat, r: nat)
    requires from <= r <= |t| && StartsWith(t, r, sub) && forall k :: from <= k < r ==> !StartsWith(t, k, sub)
    ensures Find(t, sub, from) == Some(r)
  {
    hide StartsWith;
    var f := Find(t, sub, from);
    assert f.Some?;
  }

  lemma {:induction false} FindNothing(t: string, sub: string, from: nat)
    requires from <= |t| && forall k :: from <= k <= |t| ==> !StartsWith(t, k, sub)
    ensures Find(t, sub, from).None?
  {
    hide StartsWith;
  }

  // ----- Words ------------------------------------------------------------------------------

  lemma WordsIdle(g: Grammar, t: string, from: nat, e: string, k: nat)
    requires Here(t, from, e) && Escaped(e) && k < |e| && !Behind(t, from, from + k)
    ensures from + k < |t| && Idle(g, t, from + k)
  {
    hide Idle, IsPunctuation, Plain;
    HereAt(t, from, e, k);
    Local(t, from, e, k);
    if t[from + k] == '\\' {
      IdleBackslash(g, t, from + k);
    } else if !Idle(g, t, from + k) {
      OnlyMarksAreNotIdle(g, t, from + k);
    }
  }

  lemma WordsSpell(g: Grammar, t: string, from: nat, text: string)
    requires text != "" && Here(t, from, Escape(text))
    ensures Spells(g, t, from, from + |Escape(text)|, Text(text))
  {
    hide Idle, IsPunctuation, Escape, Escaped, Plain;
    var e := Escape(text);
    EscapeReadsBack(text);
    EscapeIsSomething(text);
    Local(t, from, e, |e|);
    assert AllIdle(g, t, from, from + |e|) by {
      forall k | from <= k < from + |e| && !Behind(t, from, k)
        ensures Idle(g, t, k)
      {
        WordsIdle(g, t, from, e, k - from);
      }
    }
  }

  lemma {:induction false} EscapeIsSomething(text: string)
    requires text != ""
    ensures Escape(text) != ""
  {
  }

  // ----- Code and tags ------------------------------------------------------------------------

  // In code and the run that closes it, that run comes first where the code ends.
  lemma {:induction false} RunIsLast(ticks: nat, code: string, k: nat)
    requires GoodCode(ticks, code) && k < |code|
    ensures !Here(code + Repeat('`', ticks), k, Repeat('`', ticks))
  {
    var run := Repeat('`', ticks);
    if k + ticks <= |code| {
      HereInFront(code, run, k, run);
    } else if Here(code + run, k, run) {
      HereAt(code + run, k, run, |code| - 1 - k);
    }
  }

  lemma HereInFront(a: string, b: string, k: nat, u: string)
    requires k + |u| <= |a|
    ensures Here(a + b, k, u) <==> Here(a, k, u)
  {
    assert (a + b)[k..k + |u|] == a[k..k + |u|];
  }

  lemma {:induction false} TicksAre(t: string, from: nat, n: nat)
    requires Here(t, from, Repeat('`', n)) && (from + n < |t| ==> t[from + n] != '`')
    ensures from <= |t| && Ticks(t, from) == Repeat('`', n)
  {
    var run := Repeat('`', n);
    var rest := t[from..][n..];
    assert t[from..] == run + rest;
    assert forall k :: 0 <= k < n ==> IsTick(run[k]);
    assert rest != "" ==> rest[0] == t[from + n];
    SpanOf(IsTick, run, rest);
  }

  // What is here of a part is here of the whole, and the other way round.
  lemma HereWithin(t: string, i: nat, s: string, k: nat, u: string)
    requires Here(t, i, s) && k + |u| <= |s|
    ensures Here(s, k, u) <==> Here(t, i + k, u)
  {
    var x, y := t[i..i + |s|][k..k + |u|], t[i + k..i + k + |u|];
    forall j | 0 <= j < |u|
      ensures x[j] == y[j]
    {
      assert x[j] == t[i..i + |s|][k + j];
    }
    assert x == y;
  }

  lemma HereStarts(t: string, i: nat, s: string)
    requires i <= |t|
    ensures StartsWith(t, i, s) <==> Here(t, i, s)
  {
  }

  lemma {:induction false} CodeCloses(t: string, from: nat, ticks: nat, code: string)
    requires GoodCode(ticks, code) && Here(t, from, code + Repeat('`', ticks))
    ensures Find(t, Repeat('`', ticks), from) == Some(from + |code|)
  {
    hide Find, Here, StartsWith, GoodCode;
    var run := Repeat('`', ticks);
    HereSplit(t, from, code, run);
    HereFits(t, from, code + run);
    forall k | from <= k < from + |code|
      ensures !StartsWith(t, k, run)
    {
      RunIsLast(ticks, code, k - from);
      HereWithin(t, from, code + run, k - from, run);
      HereStarts(t, k, run);
    }
    HereStarts(t, from + |code|, run);
    FindIs(t, run, from, from + |code|);
  }

  lemma CodeSpells(g: Grammar, t: string, from: nat, ticks: nat, code: string)
    requires GoodCode(ticks, code) && Here(t, from, Write(Coded(ticks, code)))
    ensures Spells(g, t, from, from + |Write(Coded(ticks, code))|, Code(code))
  {
    hide Find, Ticks, Here, Spells, GoodCode;
    var run := Repeat('`', ticks);
    HereSplit(t, from, run, code + run);
    CodeEdges(ticks, code);
    HereSplit(t, from + ticks, code, run);
    HereAt(t, from, run, 0);
    HereAt(t, from + ticks, code, 0);
    TicksAre(t, from, ticks);
    CodeCloses(t, from + ticks, ticks, code);
    CodeIs(g, t, from, ticks, code);
  }

  lemma CodeEdges(ticks: nat, code: string)
    requires GoodCode(ticks, code)
    ensures ticks > 0 && code != "" && code[0] != '`'
  {
  }

  lemma CodeIs(g: Grammar, t: string, from: nat, ticks: nat, code: string)
    requires ticks > 0 && from < |t| && t[from] == '`' && Ticks(t, from) == Repeat('`', ticks) && from + ticks <= |t|
    requires Find(t, Repeat('`', ticks), from + ticks) == Some(from + ticks + |code|)
    requires Here(t, from + ticks, code + Repeat('`', ticks)) && Here(t, from + ticks, code)
    ensures Spells(g, t, from, from + (ticks + (|code| + ticks)), Code(code))
  {
    hide Find, Ticks;
  }

  lemma {:induction false} TagSpells(g: Grammar, t: string, from: nat, tag: string)
    requires "<img" <= tag && IsTag(tag) && g.imageTag(tag) && Here(t, from, tag)
    ensures Spells(g, t, from, from + |tag|, Picture(tag))
  {
    hide Find;
    var close := from + |tag| - 1;
    assert tag[..4] == "<img" && t[from..from + |tag|][..4] == t[from..from + 4];
    forall k | from <= k < close
      ensures !StartsWith(t, k, ">")
    {
      HereAt(t, from, tag, k - from);
      assert t[k] == tag[k - from] != '>';
    }
    HereAt(t, from, tag, |tag| - 1);
    assert t[close..close + 1] == ">";
    FindIs(t, ">", from, close);
  }

  // ----- Emphasis -------------------------------------------------------------------------------

  lemma OneHere(t: string, k: nat, mark: char)
    requires k <= |t|
    ensures StartsWith(t, k, [mark]) <==> k < |t| && t[k] == mark
  {
    if k < |t| { assert t[k..k + 1] == [t[k]]; }
  }

  lemma TwoHere(t: string, k: nat, mark: char)
    requires k <= |t|
    ensures StartsWith(t, k, [mark, mark]) <==> k + 1 < |t| && t[k] == mark && t[k + 1] == mark
  {
    if k + 1 < |t| { assert t[k..k + 2] == [t[k], t[k + 1]]; }
  }

  lemma EmCloses(t: string, from: nat, w: string, mark: char)
    requires w != "" && mark !in w && Here(t, from, [mark] + (w + [mark])) && !(mark == '_' && from > 0 && IsWord(t[from - 1]))
    ensures t[from] == mark && from + 1 <= from + 1 + |w| <= |t| && t[from + 1..from + 1 + |w|] == w
    ensures StrongEnd(t, from).None? && EmEnd(t, from) == Some(from + |w| + 2)
  {
    hide Find, StartsWith, IsWord;
    var s := [mark] + (w + [mark]);
    HereSplit(t, from, [mark], w + [mark]);
    HereSplit(t, from + 1, w, [mark]);
    HereAt(t, from, s, 0);
    HereAt(t, from, s, 1);
    HereAt(t, from, s, 1 + |w|);
    TwoHere(t, from, mark);
    forall k | from + 1 <= k < from + 1 + |w|
      ensures !StartsWith(t, k, [mark])
    {
      HereAt(t, from + 1, w, k - from - 1);
      OneHere(t, k, mark);
    }
    OneHere(t, from + 1 + |w|, mark);
    FindIs(t, [mark], from + 1, from + 1 + |w|);
  }

  lemma StrongCloses(t: string, from: nat, w: string, mark: char)
    requires Single(w, mark) && Here(t, from, [mark, mark] + (w + [mark, mark]))
    ensures t[from] == mark && from + 2 + |w| <= |t| && t[from + 2..from + 2 + |w|] == w
    ensures StrongEnd(t, from) == Some(from + |w| + 4)
  {
    hide Find, StartsWith;
    var s := [mark, mark] + (w + [mark, mark]);
    HereSplit(t, from, [mark, mark], w + [mark, mark]);
    HereSplit(t, from + 2, w, [mark, mark]);
    HereAt(t, from, s, 0);
    HereAt(t, from, s, 1);
    HereAt(t, from, s, 2 + |w|);
    HereAt(t, from, s, 3 + |w|);
    TwoHere(t, from, mark);
    forall k | from + 2 <= k < from + 2 + |w|
      ensures !StartsWith(t, k, [mark, mark])
    {
      SingleHere(t, from + 2, w, mark, k - from - 2);
      TwoHere(t, k, mark);
    }
    TwoHere(t, from + 2 + |w|, mark);
    FindIs(t, [mark, mark], from + 2, from + 2 + |w|);
  }

  lemma SingleHere(t: string, i: nat, w: string, mark: char, k: nat)
    requires Single(w, mark) && Here(t, i, w) && k < |w|
    ensures i + k < |t| && (t[i + k] == mark ==> i + k + 1 < |t| && t[i + k + 1] != mark)
  {
    HereAt(t, i, w, k);
    if w[k] == mark { HereAt(t, i, w, k + 1); }
  }

  lemma {:induction false} EmSpells(g: Grammar, t: string, from: nat, w: string, mark: char, children: seq<Inline>)
    requires mark in "*_" && w != "" && mark !in w && Here(t, from, [mark] + (w + [mark])) && SpeltAll(g, w, children)
    requires !(mark == '_' && from > 0 && IsWord(t[from - 1]))
    ensures Spells(g, t, from, from + |w| + 2, Em(children))
  {
    EmCloses(t, from, w, mark);
    hide StrongEnd, EmEnd, Spelt, Here, IsWord;
    assert t[from + 1..from + |w| + 2 - 1] == w;
  }

  lemma {:induction false} StrongSpells(g: Grammar, t: string, from: nat, w: string, mark: char, children: seq<Inline>)
    requires mark in "*_" && Single(w, mark) && Here(t, from, [mark, mark] + (w + [mark, mark])) && SpeltAll(g, w, children)
    ensures Spells(g, t, from, from + |w| + 4, Strong(children))
  {
    StrongCloses(t, from, w, mark);
    hide StrongEnd, EmEnd, Spelt, Here, Single;
    assert t[from + 2..from + |w| + 4 - 2] == w;
  }

  // ----- Labels -----------------------------------------------------------------------------------

  // Brackets opened less those closed.
  ghost function Depth(t: string, s: nat, i: nat): int
    requires s <= i <= |t|
  {
    Count(t, s, i, '[') - Count(t, s, i, ']')
  }

  // From `i` to `j` every bracket that closes one opens there too, and the other way round.
  ghost predicate Level(t: string, s: nat, i: nat, j: nat) {
    && s <= i <= j <= |t| && !Behind(t, s, i) && !Behind(t, s, j) && Depth(t, s, j) == Depth(t, s, i)
    && forall k :: i <= k <= j ==> Depth(t, s, k) >= Depth(t, s, i)
  }

  lemma LevelJoin(t: string, s: nat, i: nat, j: nat, k: nat)
    requires Level(t, s, i, j) && Level(t, s, j, k)
    ensures Level(t, s, i, k)
  {
    hide Depth, Behind;
  }

  lemma LevelChar(t: string, s: nat, i: nat)
    requires s <= i < |t| && !Behind(t, s, i) && t[i] !in "[]\\"
    ensures Level(t, s, i, i + 1)
  {
  }

  lemma LevelPair(t: string, s: nat, i: nat)
    requires s <= i && i + 1 < |t| && !Behind(t, s, i) && t[i] == '\\'
    ensures Level(t, s, i, i + 2)
  {
    PairCounts(t, s, i);
    hide Behind, Count;
  }

  lemma {:induction false} LevelRun(t: string, s: nat, i: nat, w: string)
    requires s <= i && Here(t, i, w) && Unbracketed(w) && i <= |t| && !Behind(t, s, i)
    ensures Level(t, s, i, i + |w|)
    decreases |w|
  {
    hide Behind, Depth;
    if w != "" {
      var front := w[..|w| - 1];
      assert w == front + [w[|w| - 1]];
      HereSplit(t, i, front, [w[|w| - 1]]);
      HereAt(t, i, w, |w| - 1);
      LevelRun(t, s, i, front);
      LevelChar(t, s, i + |front|);
      LevelJoin(t, s, i, i + |front|, i + |w|);
    }
  }

  lemma BracketsAreMarks()
    ensures IsPunctuation('[') && IsPunctuation(']') && IsPunctuation('\\')
  {
  }

  ghost function Written(c: char): string {
    if IsPunctuation(c) then ['\\', c] else [c]
  }

  lemma LevelWritten(t: string, s: nat, i: nat, c: char)
    requires s <= i && Here(t, i, Written(c)) && i <= |t| && !Behind(t, s, i)
    ensures Level(t, s, i, i + |Written(c)|)
  {
    BracketsAreMarks();
    hide Behind, Level, IsPunctuation;
    HereAt(t, i, Written(c), 0);
    if IsPunctuation(c) {
      HereAt(t, i, Written(c), 1);
      LevelPair(t, s, i);
    } else {
      LevelChar(t, s, i);
    }
  }

  lemma {:induction false} EscapeLast(text: string)
    requires text != ""
    ensures Escape(text) == Escape(text[..|text| - 1]) + Written(text[|text| - 1])
  {
  }

  lemma {:induction false} LevelWords(t: string, s: nat, i: nat, text: string)
    requires s <= i && Here(t, i, Escape(text)) && i <= |t| && !Behind(t, s, i)
    ensures Level(t, s, i, i + |Escape(text)|)
    decreases |text|
  {
    if text == "" {
      LevelNothing(t, s, i);
    } else {
      hide *;
      var front, c := text[..|text| - 1], text[|text| - 1];
      EscapeLast(text);
      HereSplit(t, i, Escape(front), Written(c));
      LevelWords(t, s, i, front);
      var j := i + |Escape(front)|;
      LevelFree(t, s, i, j);
      LevelWritten(t, s, j, c);
      LevelJoin(t, s, i, j, j + |Written(c)|);
    }
  }

  lemma LevelBrackets(t: string, s: nat, i: nat, j: nat)
    requires s <= i < j < |t| && t[i] == '[' && t[j] == ']' && !Behind(t, s, i)
    requires !Behind(t, s, i + 1) ==> Level(t, s, i + 1, j)
    ensures Level(t, s, i, j + 1)
  {
    assert !Behind(t, s, i + 1);
    assert Depth(t, s, i + 1) == Depth(t, s, i) + 1;
    assert Depth(t, s, j + 1) == Depth(t, s, j) - 1 && !Behind(t, s, j + 1);
    hide Behind, Depth;
  }

  lemma {:induction false} LevelPhrase(g: Grammar, t: string, s: nat, i: nat, p: Phrase)
    requires s <= i && Here(t, i, Write(p)) && Good(g, p) && Labelled(p) && i <= |t| && !Behind(t, s, i)
    ensures Level(t, s, i, i + |Write(p)|)
    decreases p, 0
  {
    hide Level, Behind, Here, GoodAddress, AddressText, Unbracketed, WriteAll, LabelledAll, GoodAll, Single, GoodCode, IsTag, Escape;
    match p
    case Words(text) => LevelWords(t, s, i, text);
    case Coded(ticks, code) => LevelCode(t, s, i, ticks, code);
    case Stressed(mark, inner) =>
      StarsAreFree(t, s, i, [mark], WriteAll(inner));
      LevelAll(g, t, s, i + 1, inner);
      LevelAround(t, s, i, [mark], WriteAll(inner));
    case Doubled(mark, inner) =>
      StarsAreFree(t, s, i, [mark, mark], WriteAll(inner));
      LevelAll(g, t, s, i + 2, inner);
      LevelAround(t, s, i, [mark, mark], WriteAll(inner));
    case Linked(inner, address) =>
      LinkParts(t, i, WriteAll(inner), address);
      FreeBracket(t, s, i);
      LevelAll(g, t, s, i + 1, inner);
      LevelLink(t, s, i, WriteAll(inner), address);
    case Shown(alt, address) =>
      HereSplit(t, i, "!", "[" + (alt + ("](" + (AddressText(address) + ")"))));
      HereAt(t, i, "!", 0);
      LevelChar(t, s, i);
      LevelFree(t, s, i, i + 1);
      LinkParts(t, i + 1, alt, address);
      FreeBracket(t, s, i + 1);
      LevelRun(t, s, i + 2, alt);
      LevelLink(t, s, i + 1, alt, address);
      LevelJoin(t, s, i, i + 1, i + |Write(p)|);
    case Tag(text) => LevelRun(t, s, i, text);
  }

  lemma LevelFree(t: string, s: nat, i: nat, j: nat)
    requires Level(t, s, i, j)
    ensures s <= j <= |t| && !Behind(t, s, j)
  {
  }

  lemma FreeBracket(t: string, s: nat, i: nat)
    requires s <= i < |t| && t[i] == '['
    ensures !Behind(t, s, i + 1)
  {
  }

  lemma LevelThrice(t: string, s: nat, i: nat, j: nat, k: nat, m: nat)
    requires Level(t, s, i, j) && Level(t, s, j, k) && Level(t, s, k, m)
    ensures Level(t, s, i, m)
  {
    hide Level;
    LevelJoin(t, s, i, j, k);
    LevelJoin(t, s, i, k, m);
  }

  ghost predicate Stars(s: string) {
    forall k :: 0 <= k < |s| ==> s[k] in "*_"
  }

  lemma StarsAreLevel(t: string, s: nat, i: nat, stars: string)
    requires s <= i && i <= |t| && !Behind(t, s, i) && Here(t, i, stars) && Stars(stars)
    ensures Level(t, s, i, i + |stars|)
  {
    hide Behind, Level, Here;
    LevelRun(t, s, i, stars);
  }

  lemma StarsAreFree(t: string, s: nat, i: nat, stars: string, w: string)
    requires s <= i && i <= |t| && !Behind(t, s, i) && Here(t, i, stars + (w + stars)) && Stars(stars)
    ensures i + |stars| <= |t| && !Behind(t, s, i + |stars|) && Here(t, i + |stars|, w)
  {
    hide *;
    HereSplit(t, i, stars, w + stars);
    HereSplit(t, i + |stars|, w, stars);
    StarsAreLevel(t, s, i, stars);
    LevelFree(t, s, i, i + |stars|);
  }

  lemma LevelAround(t: string, s: nat, i: nat, stars: string, w: string)
    requires s <= i && i <= |t| && !Behind(t, s, i) && Here(t, i, stars + (w + stars)) && Stars(stars)
    requires Level(t, s, i + |stars|, i + |stars| + |w|)
    ensures Level(t, s, i, i + |stars + (w + stars)|)
  {
    hide *;
    var j := i + |stars|;
    HereSplit(t, i, stars, w + stars);
    HereSplit(t, j, w, stars);
    StarsAreLevel(t, s, i, stars);
    LevelFree(t, s, j, j + |w|);
    StarsAreLevel(t, s, j + |w|, stars);
    LevelThrice(t, s, i, j, j + |w|, j + |w| + |stars|);
  }

  lemma LevelCode(t: string, s: nat, i: nat, ticks: nat, code: string)
    requires s <= i && i <= |t| && !Behind(t, s, i) && Unbracketed(code) && Here(t, i, Write(Coded(ticks, code)))
    ensures Level(t, s, i, i + |Write(Coded(ticks, code))|)
  {
    hide Behind, Level, Here;
    LevelRun(t, s, i, Write(Coded(ticks, code)));
  }

  // A bracketed text with an address after it, piece by piece.
  ghost predicate LinkHere(t: string, i: nat, w: string, a: Address) {
    var e := i + 1 + |w|;
    var close := e + 2 + |AddressText(a)|;
    && close < |t| && t[i] == '[' && Here(t, i + 1, w) && t[e] == ']' && t[e + 1] == '(' && Here(t, e + 2, AddressText(a))
    && t[close] == ')'
  }

  lemma LinkParts(t: string, i: nat, w: string, a: Address)
    requires Here(t, i, "[" + (w + ("](" + (AddressText(a) + ")"))))
    ensures LinkHere(t, i, w, a)
  {
    hide Here, AddressText;
    var text := AddressText(a);
    var e := i + 1 + |w|;
    HereSplit(t, i, "[", w + ("](" + (text + ")")));
    HereSplit(t, i + 1, w, "](" + (text + ")"));
    HereSplit(t, e, "](", text + ")");
    HereSplit(t, e + 2, text, ")");
    HereAt(t, i, "[", 0);
    HereAt(t, e, "](", 0);
    HereAt(t, e, "](", 1);
    HereAt(t, e + 2 + |text|, ")", 0);
  }

  lemma LevelLink(t: string, s: nat, i: nat, w: string, a: Address)
    requires s <= i < |t| && LinkHere(t, i, w, a) && !Behind(t, s, i) && Unbracketed(AddressText(a))
    requires Level(t, s, i + 1, i + 1 + |w|)
    ensures Level(t, s, i, i + |w| + 4 + |AddressText(a)|)
  {
    hide Behind, Level, Here, AddressText, Unbracketed;
    var e := i + 1 + |w|;
    var close := e + 2 + |AddressText(a)|;
    LevelBrackets(t, s, i, e);
    LevelFree(t, s, i, e + 1);
    LevelChar(t, s, e + 1);
    LevelFree(t, s, e + 1, e + 2);
    LevelRun(t, s, e + 2, AddressText(a));
    LevelFree(t, s, e + 2, close);
    LevelChar(t, s, close);
    LevelThrice(t, s, i, e + 1, e + 2, close);
    LevelJoin(t, s, i, close, close + 1);
  }

  lemma {:induction false} LevelAll(g: Grammar, t: string, s: nat, i: nat, ps: seq<Phrase>)
    requires s <= i && Here(t, i, WriteAll(ps)) && GoodAll(g, ps) && LabelledAll(ps) && i <= |t| && !Behind(t, s, i)
    ensures Level(t, s, i, i + |WriteAll(ps)|)
    decreases ps, 0
  {
    hide Behind, Level, Here, Write, Good, Labelled, MayFollow;
    if ps == [] {
      LevelNothing(t, s, i);
    } else {
      var front, p := ps[..|ps| - 1], ps[|ps| - 1];
      HereSplit(t, i, WriteAll(front), Write(p));
      LevelAll(g, t, s, i, front);
      var j := i + |WriteAll(front)|;
      LevelFree(t, s, i, j);
      LevelPhrase(g, t, s, j, p);
      LevelJoin(t, s, i, j, j + |Write(p)|);
    }
  }

  lemma LevelNothing(t: string, s: nat, i: nat)
    requires s <= i <= |t| && !Behind(t, s, i)
    ensures Level(t, s, i, i)
  {
    hide Behind, Depth;
  }

  // A level label ends at the bracket after it.
  lemma LabelIs(t: string, from: nat, e: nat)
    requires from < e < |t| && t[from] == '[' && t[e] == ']' && Level(t, from, from + 1, e)
    ensures LabelEnds(t, from, e)
  {
    assert Depth(t, from, from) == 0 && Depth(t, from, from + 1) == 1;
    assert Depth(t, from, e + 1) == Depth(t, from, e) - 1;
    forall k | from < k <= e
      ensures Count(t, from, k, '[') > Count(t, from, k, ']')
    {
      assert Depth(t, from, k) >= 1;
    }
  }

  // ----- Addresses ---------------------------------------------------------------------------------

  // Outside any title, with `n` parentheses open and none ever closed in vain.
  ghost predicate Outside(t: string, f: nat, i: nat, n: int) {
    f <= i <= |t| && !Behind(t, f, i) && !InTitle(t, f, i) && Nesting(t, f, i) == n && StaysOpen(t, f, i)
  }

  ghost predicate Within(t: string, f: nat, i: nat, n: int) {
    f <= i <= |t| && !Behind(t, f, i) && InTitle(t, f, i) && Nesting(t, f, i) == n && StaysOpen(t, f, i)
  }

  lemma OutsideStep(t: string, f: nat, i: nat, n: int)
    requires Outside(t, f, i, n) && i < |t| && t[i] !in "\"\\"
    ensures var m := if t[i] == '(' then n + 1 else if t[i] == ')' then n - 1 else n;
      m >= 0 ==> Outside(t, f, i + 1, m)
  {
  }

  lemma {:induction false} OutsideHref(t: string, f: nat, i: nat, s: string, n: nat)
    requires Outside(t, f, i, n) && Here(t, i, s) && Unquoted(s) && Balanced(s, n)
    ensures Outside(t, f, i + |s|, 0)
    decreases |s|
  {
    if s != "" {
      hide Outside;
      HereAt(t, i, s, 0);
      OutsideStep(t, f, i, n);
      assert s == [s[0]] + s[1..];
      HereSplit(t, i, [s[0]], s[1..]);
      var m := if s[0] == '(' then n + 1 else if s[0] == ')' then n - 1 else n;
      OutsideHref(t, f, i + 1, s[1..], m);
    }
  }

  lemma {:induction false} OutsideSpaces(t: string, f: nat, i: nat, n: nat, spaces: nat)
    requires Outside(t, f, i, n) && Here(t, i, Repeat(' ', spaces))
    ensures Outside(t, f, i + spaces, n)
    decreases spaces
  {
    if spaces > 0 {
      hide Outside;
      HereAt(t, i, Repeat(' ', spaces), 0);
      HereSplit(t, i, " ", Repeat(' ', spaces - 1));
      OutsideStep(t, f, i, n);
      OutsideSpaces(t, f, i + 1, n, spaces - 1);
    }
  }

  lemma TitleOpens(t: string, f: nat, i: nat, n: int)
    requires Outside(t, f, i, n) && i < |t| && t[i] == '"'
    ensures Within(t, f, i + 1, n)
  {
  }

  lemma TitleCloses(t: string, f: nat, i: nat, n: int)
    requires Within(t, f, i, n) && i < |t| && t[i] == '"'
    ensures Outside(t, f, i + 1, n)
  {
  }

  lemma WithinStep(t: string, f: nat, i: nat, n: int)
    requires Within(t, f, i, n) && i < |t| && t[i] !in "\"\\"
    ensures Within(t, f, i + 1, n)
  {
  }

  lemma {:induction false} WithinTitle(t: string, f: nat, i: nat, s: string, n: int)
    requires Within(t, f, i, n) && Here(t, i, s) && Unquoted(s)
    ensures Within(t, f, i + |s|, n)
    decreases |s|
  {
    if s != "" {
      hide Within;
      HereAt(t, i, s, 0);
      assert s == [s[0]] + s[1..];
      HereSplit(t, i, [s[0]], s[1..]);
      WithinStep(t, f, i, n);
      WithinTitle(t, f, i + 1, s[1..], n);
    }
  }

  lemma {:induction false} TitlePasses(t: string, f: nat, i: nat, gap: nat, title: string)
    requires Outside(t, f, i, 0) && Unquoted(title) && Here(t, i, Repeat(' ', gap) + ("\"" + title + "\""))
    ensures Outside(t, f, i + gap + |title| + 2, 0)
  {
    hide Outside, Within, Here, Unquoted;
    var j := i + gap;
    HereSplit(t, i, Repeat(' ', gap), "\"" + title + "\"");
    HereSplit(t, j, "\"" + title, "\"");
    HereSplit(t, j, "\"", title);
    HereAt(t, j, "\"", 0);
    HereAt(t, j + 1 + |title|, "\"", 0);
    OutsideSpaces(t, f, i, 0, gap);
    TitleOpens(t, f, j, 0);
    WithinTitle(t, f, j + 1, title, 0);
    TitleCloses(t, f, j + 1 + |title|, 0);
  }

  lemma AddressPasses(t: string, f: nat, a: Address)
    requires f <= |t| && GoodAddress(a) && Here(t, f, AddressText(a))
    ensures Outside(t, f, f + |AddressText(a)|, 0)
  {
    hide Outside, Here, Unquoted, Balanced, IsSpace;
    NothingYet(t, f);
    var before, after := Repeat(' ', a.before), Repeat(' ', a.after);
    var i := f + a.before;
    var j := i + |a.href|;
    var k := j + |TitleText(a)|;
    HereSplit(t, f, before, a.href + TitleText(a) + after);
    HereSplit(t, i, a.href + TitleText(a), after);
    HereSplit(t, i, a.href, TitleText(a));
    OutsideSpaces(t, f, f, 0, a.before);
    OutsideHref(t, f, i, a.href, 0);
    if a.title.Some? { TitlePasses(t, f, j, a.gap, a.title.value); }
    OutsideSpaces(t, f, k, 0, a.after);
  }

  lemma NothingYet(t: string, f: nat)
    requires f <= |t|
    ensures Outside(t, f, f, 0)
  {
  }

  lemma DestinationIs(t: string, f: nat, close: nat)
    requires Outside(t, f, close, 0) && close < |t| && t[close] == ')'
    ensures DestinationEnds(t, f, close)
  {
  }

  lemma {:induction false} TrimSpacesAfter(s: string, n: nat)
    requires s != "" ==> !IsSpace(s[|s| - 1])
    ensures TrimEnd(s + Repeat(' ', n)) == s
    decreases n
  {
    var t := s + Repeat(' ', n);
    if n == 0 {
      assert t == s;
    } else {
      assert IsSpace(' ');
      hide IsSpace;
      TrimSpacesAfter(s, n - 1);
      assert t[..|t| - 1] == s + Repeat(' ', n - 1);
    }
  }

  lemma {:induction false} TrimSpaces(before: nat, s: string, after: nat)
    requires s != "" ==> !IsSpace(s[0]) && !IsSpace(s[|s| - 1])
    ensures TrimText(Repeat(' ', before) + (s + Repeat(' ', after))) == s
  {
    assert IsSpace(' ');
    hide IsSpace, TrimEnd;
    var t := Repeat(' ', before) + (s + Repeat(' ', after));
    if s == "" {
      SpanOf(IsSpace, t, "");
      assert t + "" == t && t[|t|..] == "";
      TrimSpacesAfter("", 0);
      assert "" + Repeat(' ', 0) == "";
    } else {
      SpanOf(IsSpace, Repeat(' ', before), s + Repeat(' ', after));
      assert t[before..] == s + Repeat(' ', after);
      TrimSpacesAfter(s, after);
    }
  }

  lemma AddressIs(a: Address)
    requires GoodAddress(a)
    ensures TargetOf(TrimText(AddressText(a))) == Target(a.href, a.title)
  {
    hide TrimText, TargetOf, Balanced;
    AddressEnds(a);
    TrimSpaces(a.before, a.href + TitleText(a), a.after);
    if a.title.Some? {
      TitledIs(a.href, a.gap, a.title.value);
    } else {
      assert a.href + "" == a.href;
      UntitledIs(a.href);
    }
  }

  lemma AddressEnds(a: Address)
    requires GoodAddress(a)
    ensures var s := a.href + TitleText(a); s != "" ==> !IsSpace(s[0]) && !IsSpace(s[|s| - 1])
  {
    assert !IsSpace('"');
    hide IsSpace, Balanced;
  }

  lemma {:induction false} TitledIs(href: string, gap: nat, title: string)
    requires href != "" && gap > 0 && Unquoted(title) && forall k :: 0 <= k < |href| ==> !IsSpace(href[k])
    ensures TargetOf(href + (Repeat(' ', gap) + ("\"" + title + "\""))) == Target(href, Some(title))
  {
    SpaceIs();
    hide *;
    assert forall k :: 0 <= k < |title| ==> title[k] != '"' by { NoQuote(title); }
    TargetReadsBack(href, Repeat(' ', gap), title) by { SolidIs(href); }
    Regroup(href, Repeat(' ', gap), "\"" + title + "\"");
  }

  lemma SpaceIs()
    ensures IsSpace(' ')
  {
  }

  lemma SolidIs(s: string)
    requires forall k :: 0 <= k < |s| ==> !IsSpace(s[k])
    ensures forall k :: 0 <= k < |s| ==> IsSolid(s[k])
  {
    hide IsSpace;
  }

  lemma NoQuote(s: string)
    requires Unquoted(s)
    ensures forall k :: 0 <= k < |s| ==> s[k] != '"'
  {
  }

  lemma Regroup(x: string, y: string, z: string)
    ensures x + y + z == x + (y + z)
  {
  }

  lemma UntitledIs(href: string)
    requires forall k :: 0 <= k < |href| ==> !IsSpace(href[k])
    ensures TargetOf(href) == Target(href, None)
  {
    hide IsSpace;
    SpanOf(IsSolid, href, "");
    assert href + "" == href && href[|href|..] == "";
  }

  // ----- Links and images ------------------------------------------------------------------------------

  lemma LinkIs(t: string, i: nat, w: string, a: Address)
    requires LinkHere(t, i, w, a) && LabelEnds(t, i, i + 1 + |w|) && GoodAddress(a)
    ensures var e := i + 1 + |w|;
      var next := e + 3 + |AddressText(a)|;
      && next <= |t| && LinkAt(t, i, e, next) && t[i + 1..e] == w && TargetOf(TrimText(t[e + 2..next - 1])) == TargetIs(a)
  {
    hide LabelEnds, GoodAddress, AddressText, TargetOf, TrimText, DestinationEnds;
    var e := i + 1 + |w|;
    AddressPasses(t, e + 2, a);
    DestinationIs(t, e + 2, e + 2 + |AddressText(a)|);
    AddressIs(a);
  }

  lemma {:induction false} ImageSpells(g: Grammar, t: string, from: nat, alt: string, a: Address)
    requires Good(g, Shown(alt, a)) && Here(t, from, Write(Shown(alt, a)))
    ensures Spells(g, t, from, from + |Write(Shown(alt, a))|, Mean(Shown(alt, a)))
  {
    hide Here, AddressText, GoodAddress, Unbracketed, LabelEnds, LinkAt, TargetOf, TrimText, LinkHere, Behind, Level;
    HereSplit(t, from, "!", "[" + (alt + ("](" + (AddressText(a) + ")"))));
    HereAt(t, from, "!", 0);
    LinkParts(t, from + 1, alt, a);
    LinkBegins(t, from + 1, alt, a);
    FreeBracket(t, from + 1, from + 1);
    LevelRun(t, from + 1, from + 2, alt);
    LabelIs(t, from + 1, from + 2 + |alt|);
    LinkIs(t, from + 1, alt, a);
  }

  lemma LinkBegins(t: string, i: nat, w: string, a: Address)
    requires LinkHere(t, i, w, a)
    ensures var e := i + 1 + |w|; e < |t| && t[i] == '[' && t[e] == ']' && Here(t, i + 1, w)
  {
  }

  lemma {:induction false} LinkSpells(g: Grammar, t: string, from: nat, inner: seq<Phrase>, a: Address)
    requires Good(g, Linked(inner, a)) && Here(t, from, Write(Linked(inner, a)))
    requires SpeltAll(g, WriteAll(inner), MeanAll(inner))
    ensures Spells(g, t, from, from + |Write(Linked(inner, a))|, Link(TargetIs(a), MeanAll(inner)))
  {
    hide Here, AddressText, GoodAddress, LabelEnds, LinkAt, TargetOf, TrimText, LinkHere, Behind, Level, WriteAll, MeanAll, Spelt, GoodAll,
      LabelledAll, Spells;
    var w := WriteAll(inner);
    LinkParts(t, from, w, a);
    LinkBegins(t, from, w, a);
    FreeBracket(t, from, from);
    LevelAll(g, t, from, from + 1, inner);
    LabelIs(t, from, from + 1 + |w|);
    LinkIs(t, from, w, a);
    var e := from + 1 + |w|;
    SpellsLink(g, t, from, e, e + 3 + |AddressText(a)|, MeanAll(inner));
  }

  // ----- Read back ---------------------------------------------------------------------------------------

  lemma {:induction false} PhraseSpells(g: Grammar, t: string, from: nat, p: Phrase)
    requires Good(g, p) && Here(t, from, Write(p))
    requires p.Stressed? && p.mark == '_' && 0 < from <= |t| ==> !IsWord(t[from - 1])
    ensures Spells(g, t, from, from + |Write(p)|, Mean(p))
    decreases p, 0
  {
    hide Here, Spells, Spelt, Escape, GoodCode, IsTag, Single, GoodAddress, LabelledAll, GoodAll, WriteAll, MeanAll, AddressText, IsWord,
      Unbracketed;
    HereFits(t, from, Write(p));
    match p
    case Words(text) => WordsSpell(g, t, from, text);
    case Coded(ticks, code) => CodeSpells(g, t, from, ticks, code);
    case Stressed(mark, inner) =>
      WholeIsHere(WriteAll(inner));
      PhrasesSpell(g, WriteAll(inner), inner);
      SomethingWritten(g, inner);
      EmSpells(g, t, from, WriteAll(inner), mark, MeanAll(inner));
    case Doubled(mark, inner) =>
      WholeIsHere(WriteAll(inner));
      PhrasesSpell(g, WriteAll(inner), inner);
      StrongSpells(g, t, from, WriteAll(inner), mark, MeanAll(inner));
    case Linked(inner, address) =>
      WholeIsHere(WriteAll(inner));
      PhrasesSpell(g, WriteAll(inner), inner);
      LinkSpells(g, t, from, inner, address);
    case Shown(alt, address) => ImageSpells(g, t, from, alt, address);
    case Tag(text) => TagSpells(g, t, from, text);
  }

  lemma WholeIsHere(t: string)
    ensures Here(t, 0, t)
  {
    assert t[0..0 + |t|] == t;
  }

  lemma {:induction false} SomethingWritten(g: Grammar, ps: seq<Phrase>)
    requires ps != [] && GoodAll(g, ps)
    ensures WriteAll(ps) != ""
  {
    var p := ps[|ps| - 1];
    if p.Words? { EscapeIsSomething(p.text); }
  }

  lemma Unfolded(ps: seq<Phrase>)
    requires ps != []
    ensures var front, p := ps[..|ps| - 1], ps[|ps| - 1];
      WriteAll(ps) == WriteAll(front) + Write(p) && MeanAll(ps) == MeanAll(front) + [Mean(p)]
  {
  }

  // What the phrases spell at the beginning of a text does not depend on the rest of it.
  lemma {:induction false} PhrasesSpell(g: Grammar, t: string, ps: seq<Phrase>)
    requires GoodAll(g, ps) && Here(t, 0, WriteAll(ps))
    ensures Spelt(g, t, |WriteAll(ps)|, MeanAll(ps))
    decreases ps, 1
  {
    hide *;
    if ps == [] {
      NothingSpelt(g, t);
    } else {
      var front, p := ps[..|ps| - 1], ps[|ps| - 1];
      var from := |WriteAll(front)|;
      Unfolded(ps);
      LastIsGood(g, ps);
      HereSplit(t, 0, WriteAll(front), Write(p));
      PhrasesSpell(g, t, front);
      UnderscoreFree(t, front, p);
      PhraseSpells(g, t, from, p);
      NoTwoTexts(front, p);
      SpeltMore(g, t, from, from + |Write(p)|, MeanAll(front), Mean(p));
    }
  }

  lemma {:induction false} NothingSpelt(g: Grammar, t: string)
    ensures Spelt(g, t, |WriteAll([])|, MeanAll([]))
  {
  }

  lemma LastIsGood(g: Grammar, ps: seq<Phrase>)
    requires ps != [] && GoodAll(g, ps)
    ensures var front, p := ps[..|ps| - 1], ps[|ps| - 1]; GoodAll(g, front) && Good(g, p) && MayFollow(front, p)
  {
  }

  lemma {:induction false} UnderscoreFree(t: string, front: seq<Phrase>, p: Phrase)
    requires MayFollow(front, p) && Here(t, 0, WriteAll(front))
    ensures |WriteAll(front)| <= |t|
    ensures var from := |WriteAll(front)|; p.Stressed? && p.mark == '_' && 0 < from ==> !IsWord(t[from - 1])
  {
    hide Here, IsWord, WriteAll;
    BeforeIs(t, WriteAll(front));
  }

  lemma BeforeIs(t: string, w: string)
    requires Here(t, 0, w)
    ensures |w| <= |t| && (w != "" ==> t[|w| - 1] == w[|w| - 1])
  {
    if w != "" { HereAt(t, 0, w, |w| - 1); }
  }

  lemma {:induction false} NoTwoTexts(front: seq<Phrase>, p: Phrase)
    requires MayFollow(front, p)
    ensures !(Mean(p).Text? && EndsInText(MeanAll(front)))
  {
    hide WriteAll;
  }

  // What is written is read as exactly its nodes, and as nothing else.
  lemma {:induction false} InlineReadsBack(g: Grammar, ps: seq<Phrase>)
    requires GoodAll(g, ps)
    ensures forall nodes :: SpeltAll(g, WriteAll(ps), nodes) <==> nodes == MeanAll(ps)
  {
    hide Spelt, GoodAll, WriteAll, MeanAll;
    var t := WriteAll(ps);
    WholeIsHere(t);
    PhrasesSpell(g, t, ps);
    forall nodes | SpeltAll(g, t, nodes)
      ensures nodes == MeanAll(ps)
    {
      SpeltOnce(g, t, nodes, MeanAll(ps));
    }
  }

  // ----- Marks that open nothing -----------------------------------------------------------------------

  lemma {:induction false} OneReading(g: Grammar, t: string, n: Inline)
    requires t != "" && n.Text? && Spells(g, t, 0, |t|, n)
    ensures forall nodes :: SpeltAll(g, t, nodes) <==> nodes == [n]
  {
    hide Spells;
    assert Spelt(g, t, 0, []);
    assert [n][..0] == [] && Spelt(g, t, |t|, [n]);
    hide Spelt;
    forall nodes | SpeltAll(g, t, nodes)
      ensures nodes == [n]
    {
      SpeltOnce(g, t, nodes, [n]);
    }
  }

  lemma {:induction false} PlainIs(t: string, i: nat)
    requires i <= |t| && '\\' !in t
    ensures Slashes(t, 0, i) == 0 && Plain(t, 0, i) == t[..i]
  {
    if i > 0 {
      PlainIs(t, i - 1);
      assert t[i - 1] in t;
      assert t[..i] == t[..i - 1] + [t[i - 1]];
    }
  }

  // A letter, a digit or anything else that is no mark, and single underscores behind one.
  ghost predicate SnakeCase(t: string) {
    forall k :: 0 <= k < |t| && IsPunctuation(t[k]) ==>
      t[k] == '_' && k > 0 && IsWord(t[k - 1]) && t[k - 1] != '_'
  }

  lemma SnakeIdle(g: Grammar, t: string, k: nat)
    requires SnakeCase(t) && k < |t|
    ensures Idle(g, t, k)
  {
    if !Idle(g, t, k) {
      OnlyMarksAreNotIdle(g, t, k);
      UnderscoreIdle(g, t, k);
      assert false;
    }
  }

  lemma UnderscoreIdle(g: Grammar, t: string, k: nat)
    requires SnakeCase(t) && k < |t| && t[k] == '_' && k > 0 && IsWord(t[k - 1])
    ensures Idle(g, t, k)
  {
    assert IsPunctuation('_');
    hide Find, IsPunctuation, IsWord;
    TwoHere(t, k, '_');
    NoTagThere(t, k);
  }

  // Underscores within words are only text.
  lemma SnakeCaseIsText(g: Grammar, t: string)
    requires t != "" && SnakeCase(t)
    ensures forall nodes :: SpeltAll(g, t, nodes) <==> nodes == [Text(t)]
  {
    hide Idle, SnakeCase;
    assert '\\' !in t by { SnakesAreNoBackslash(t); }
    forall k | 0 <= k < |t|
      ensures Idle(g, t, k)
    {
      SnakeIdle(g, t, k);
    }
    PlainIs(t, |t|);
    assert t[..|t|] == t;
    assert Spells(g, t, 0, |t|, Text(t));
    OneReading(g, t, Text(t));
  }

  lemma SnakesAreNoBackslash(t: string)
    requires SnakeCase(t)
    ensures '\\' !in t
  {
    BracketsAreMarks();
    hide IsPunctuation, IsWord;
  }

  // A mark that nothing later in the text can close, or that opens nothing.
  ghost predicate Lone(c: char, v: string) {
    && IsPunctuation(c) && c !in v
    && (c == '[' ==> ']' !in v)
    && (c == '<' && v != "" ==> !IsLetter(v[0]))
    && (c == '\\' && v != "" ==> !IsPunctuation(v[0]))
  }

  lemma {:induction false} EscapeHas(v: string, c: char)
    requires c !in v && c != '\\'
    ensures c !in Escape(v)
  {
    if v != "" {
      hide IsPunctuation;
      var front := v[..|v| - 1];
      assert c !in front;
      EscapeHas(front, c);
    }
  }

  lemma {:induction false} EscapeBegins(v: string)
    requires v != ""
    ensures Escape(v) != "" && Escape(v)[0] == if IsPunctuation(v[0]) then '\\' else v[0]
  {
    hide IsPunctuation;
    if |v| > 1 { EscapeBegins(v[..|v| - 1]); }
  }

  lemma {:induction false} Shifted(c: char, e: string, i: nat)
    requires 0 < i <= |e| && (c == '\\' ==> e[0] != '\\' && !IsPunctuation(e[0]))
    ensures Slashes([c] + e, 0, 1 + i) == Slashes(e, 0, i) && Plain([c] + e, 0, 1 + i) == [c] + Plain(e, 0, i)
    decreases i
  {
    var t := [c] + e;
    assert Slashes(t, 0, 0) == 0 && Plain(t, 0, 0) == "" && Plain(t, 0, 1) == [c] && Slashes(e, 0, 0) == 0 && Plain(e, 0, 0) == "";
    assert t[i] == e[i - 1];
    hide IsPunctuation;
    if i > 1 {
      Shifted(c, e, i - 1);
      if i > 2 { Shifted(c, e, i - 2); }
    }
  }

  lemma {:induction false} LoneIdle(g: Grammar, c: char, v: string)
    requires Lone(c, v)
    ensures Idle(g, [c] + Escape(v), 0)
  {
    var t := [c] + Escape(v);
    hide Idle, IsPunctuation, IsLetter, Escape;
    if v != "" { EscapeBegins(v); }
    if c == '\\' {
      IdleBackslash(g, t, 0);
    } else {
      EscapeHas(v, c);
      if c == '`' {
        LoneTick(g, t);
      } else if c in "*_" {
        LoneStar(g, t);
      } else if c == '[' {
        EscapeHas(v, ']');
        LoneBracket(g, t);
      } else if c == '!' {
        LoneBang(g, t, v);
      } else if c == '<' {
        LoneAngle(g, t, v);
      } else {
        NoTagThere(t, 0);
        PlainCharOk(g, t, 0);
      }
    }
  }

  lemma LoneTick(g: Grammar, t: string)
    requires t != "" && t[0] == '`' && '`' !in t[1..]
    ensures Idle(g, t, 0)
  {
    forall k | 1 <= k < |t|
      ensures t[k] != '`'
    {
      assert t[k] == t[1..][k - 1];
    }
    assert Repeat('`', 1) == "`";
    assert t[0..1] == "`";
    TicksAre(t, 0, 1);
    forall k | 1 <= k <= |t|
      ensures !StartsWith(t, k, "`")
    {
      OneHere(t, k, '`');
    }
    FindNothing(t, "`", 1);
    hide Find, Ticks, StartsWith;
    TicksOk(g, t, 0);
  }

  lemma LoneStar(g: Grammar, t: string)
    requires t != "" && t[0] in "*_" && t[0] !in t[1..]
    ensures Idle(g, t, 0)
  {
    forall k | 1 <= k < |t|
      ensures t[k] != t[0]
    {
      assert t[k] == t[1..][k - 1];
    }
    TwoHere(t, 0, t[0]);
    forall k | 1 <= k <= |t|
      ensures !StartsWith(t, k, [t[0]])
    {
      OneHere(t, k, t[0]);
    }
    FindNothing(t, [t[0]], 1);
    hide Find, StartsWith;
    NoEmphasisOk(g, t, 0);
  }

  lemma {:induction false} NoneClosed(t: string, i: nat)
    requires i <= |t| && t != "" && t[0] == '[' && forall k :: 1 <= k < |t| ==> t[k] != ']'
    ensures Count(t, 0, i, ']') == 0 && (i > 0 ==> Count(t, 0, i, '[') > 0)
    decreases i
  {
    if i > 0 { NoneClosed(t, i - 1); }
  }

  lemma LoneBracket(g: Grammar, t: string)
    requires t != "" && t[0] == '[' && ']' !in t[1..]
    ensures Idle(g, t, 0)
  {
    forall k | 1 <= k < |t|
      ensures t[k] != ']'
    {
      assert t[k] == t[1..][k - 1];
    }
    forall e: nat, next: nat
      ensures !LinkAt(t, 0, e, next)
    {
      if LabelEnds(t, 0, e) {
        NoneClosed(t, e + 1);
        assert false;
      }
    }
    hide LinkAt;
    NoLinkOk(g, t, 0);
  }

  lemma {:induction false} LoneBang(g: Grammar, t: string, v: string)
    requires t == "!" + Escape(v) && (v != "" ==> Escape(v) != "" && Escape(v)[0] == if IsPunctuation(v[0]) then '\\' else v[0])
    ensures Idle(g, t, 0)
  {
    BracketsAreMarks();
    hide IsPunctuation;
    assert v == "" ==> Escape(v) == "";
    hide Escape;
    assert |t| > 1 ==> t[1] != '[';
    forall e: nat, next: nat
      ensures !LinkAt(t, 1, e, next)
    {
      hide Count, DestinationEnds, StaysUnclosed;
    }
    hide LinkAt;
    NoLinkOk(g, t, 0);
  }

  lemma {:induction false} LoneAngle(g: Grammar, t: string, v: string)
    requires t == "<" + Escape(v) && (v != "" ==> Escape(v) != "" && Escape(v)[0] == if IsPunctuation(v[0]) then '\\' else v[0])
    requires v != "" ==> !IsLetter(v[0])
    ensures Idle(g, t, 0)
  {
    AngleFacts(t);
    assert v == "" ==> Escape(v) == "";
    hide Escape, StartsWith;
    if StartsWith(t, 0, "<img") { TagSecond(t); }
    assert t[0..] == t;
    hide Indent;
    PlainCharOk(g, t, 0);
  }

  lemma AngleFacts(t: string)
    requires t != "" && t[0] == '<'
    ensures Indent(t) == 0 && t[0..] == t && IsPunctuation('/') && !IsLetter('\\') && IsLetter('i')
  {
    assert !IsSpace('<');
    hide IsSpace;
  }

  lemma TagSecond(t: string)
    requires StartsWith(t, 0, "<img")
    ensures |t| > 1 && t[1] == 'i'
  {
    assert t[0..4][1] == t[1];
  }

  // A mark that opens nothing is text, with the words after it.
  lemma {:induction false} LoneMarkIsText(g: Grammar, c: char, v: string)
    requires Lone(c, v)
    ensures forall nodes :: SpeltAll(g, [c] + Escape(v), nodes) <==> nodes == [Text([c] + v)]
  {
    hide Escape, Idle, IsPunctuation, Escaped;
    var e := Escape(v);
    var t := [c] + e;
    LoneIdle(g, c, v);
    LonePlain(c, v);
    EscapeReadsBack(v);
    assert AllIdle(g, t, 0, |t|) by {
      forall k | 0 <= k < |t| && !Behind(t, 0, k)
        ensures Idle(g, t, k)
      {
        if k > 0 { LoneRest(g, c, v, k); }
      }
    }
    assert Spells(g, t, 0, |t|, Text([c] + v));
    OneReading(g, t, Text([c] + v));
  }

  lemma {:induction false} LonePlain(c: char, v: string)
    requires Lone(c, v)
    ensures var t := [c] + Escape(v); Plain(t, 0, |t|) == [c] + v
  {
    var e := Escape(v);
    EscapeReadsBack(v);
    if v == "" {
      assert [c] + e == [c];
    } else {
      EscapeBegins(v);
      hide Escape, IsPunctuation, Escaped;
      Shifted(c, e, |e|);
    }
  }

  lemma {:induction false} LoneRest(g: Grammar, c: char, v: string, k: nat)
    requires Lone(c, v) && 0 < k <= |Escape(v)| && !Behind([c] + Escape(v), 0, k)
    ensures Idle(g, [c] + Escape(v), k)
  {
    var e := Escape(v);
    var t := [c] + e;
    EscapeReadsBack(v);
    if v == "" {
    } else {
      EscapeBegins(v);
      hide Escape, IsPunctuation, Idle;
      assert t[k] == e[k - 1];
      if k > 1 { Shifted(c, e, k - 1); }
      if t[k] == '\\' {
        IdleBackslash(g, t, k);
      } else if !Idle(g, t, k) {
        OnlyMarksAreNotIdle(g, t, k);
      }
    }
  }

  // ----- Tags that are refused ---------------------------------------------------------------------------

  // Words, and what is then neither text nor any construct: no reading at all.
  lemma {:induction false} RefusedAfterWords(g: Grammar, v: string, rest: string)
    requires rest != "" && Refused(g, Escape(v) + rest, |Escape(v)|)
    ensures Unreadable(g, Escape(v) + rest)
  {
    hide *;
    WordsRead(g, v, rest);
    RefusedText(g, Escape(v) + rest, 0, |Escape(v)|, [], v);
  }

  lemma {:induction false} WordsRead(g: Grammar, v: string, rest: string)
    ensures Read(g, Escape(v) + rest, 0, |Escape(v)|, [], v)
  {
    hide Idle, Escape, IsPunctuation;
    var e := Escape(v);
    var t := e + rest;
    assert Spelt(g, t, 0, []);
    if v == "" {
      NothingEscaped();
    } else {
      assert t[0..0 + |e|] == e;
      WordsSpell(g, t, 0, v);
    }
  }

  lemma NothingEscaped()
    ensures Escape("") == ""
  {
  }

  // A tag but an image's has no reading behind any words, nor has an image's that is not
  // closed or not allowed.
  lemma {:induction false} TagHasNoReading(g: Grammar, v: string, rest: string)
    requires |rest| >= 2 && rest[0] == '<'
    requires if "<img" <= rest then (forall k :: 0 <= k < |rest| ==> rest[k] != '>') || UnfitTag(g, rest)
             else IsLetter(rest[1]) || (rest[1] == '/' && |rest| >= 3 && IsLetter(rest[2]))
    ensures forall nodes :: !SpeltAll(g, Escape(v) + rest, nodes)
  {
    hide Escape, IsLetter, Refused, IsTag;
    var t := Escape(v) + rest;
    var i := |Escape(v)|;
    assert t[i..] == rest;
    HereStarts(t, i, "<img");
    ImageHere(t, i, rest);
    if "<img" <= rest {
      if !UnfitTag(g, rest) {
        forall k | i <= k <= |t|
          ensures !StartsWith(t, k, ">")
        {
          OneHere(t, k, '>');
        }
        FindNothing(t, ">", i);
      } else {
        UnfitIs(g, t, i, rest);
      }
    } else {
      AngleFacts(rest);
    }
    hide Find, StartsWith, Indent, UnfitTag;
    RefusedTag(g, t, i);
    RefusedAfterWords(g, v, rest);
  }

  // The first tag in it is not allowed.
  ghost predicate UnfitTag(g: Grammar, rest: string) {
    exists n: nat :: n <= |rest| && IsTag(rest[..n]) && !g.imageTag(rest[..n])
  }

  lemma ImageHere(t: string, i: nat, rest: string)
    requires i <= |t| && t[i..] == rest
    ensures StartsWith(t, i, "<img") <==> "<img" <= rest
  {
    if i + 4 <= |t| { assert t[i..i + 4] == rest[..4]; }
  }

  lemma {:induction false} UnfitIs(g: Grammar, t: string, i: nat, rest: string)
    requires i <= |t| && t[i..] == rest && UnfitTag(g, rest)
    ensures var close := Find(t, ">", i); close.Some? && close.value < |t| && !g.imageTag(t[i..close.value + 1])
  {
    var n: nat :| n <= |rest| && IsTag(rest[..n]) && !g.imageTag(rest[..n]);
    var tag := rest[..n];
    var close := i + n - 1;
    forall k | i <= k < close
      ensures !StartsWith(t, k, ">")
    {
      OneHere(t, k, '>');
      assert t[k] == tag[k - i];
    }
    OneHere(t, close, '>');
    assert t[close] == tag[n - 1];
    FindIs(t, ">", i, close);
    assert t[i..close + 1] == tag;
  }
}
