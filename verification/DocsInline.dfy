/**
 The inline half of the docs' Markdown parser: text into code spans, images, links,
 emphasis and plain text.

 What a text means is a relation: it spells a sequence of nodes stretch by stretch. No
 text is spelt in two ways, and the parser finds the one reading, or fails on a text
 that has none.
 */
module DocsInline {
  import opened Common

  datatype Inline =
    | Text(value: string)
    | Code(value: string)
    | Image(target: Target, alt: string)
    | Picture(tag: string)
    | Link(target: Target, children: seq<Inline>)
    | Strong(children: seq<Inline>)
    | Em(children: seq<Inline>)

  // A construct outside the subset is an error at a line.
  datatype Result<+T> = Ok(value: T) | Unsupported(line: nat)

  // ----- Characters -----------------------------------------------------------------

  predicate IsSpace(c: char) {
    c in " \t\n\r\U{B}\U{C}\U{A0}\U{1680}\U{2028}\U{2029}\U{202F}\U{205F}\U{3000}\U{FEFF}"
    || '\U{2000}' <= c <= '\U{200A}'
  }

  predicate IsDigit(c: char) {
    '0' <= c <= '9'
  }

  predicate IsPunctuation(c: char) {
    '!' <= c <= '/' || ':' <= c <= '@' || '[' <= c <= '`' || '{' <= c <= '~'
  }

  predicate IsLetter(c: char) {
    'a' <= c <= 'z' || 'A' <= c <= 'Z'
  }

  predicate IsWord(c: char) {
    IsDigit(c) || IsLetter(c) || c == '_'
  }

  // How many of the first characters satisfy `p`.
  function Span(p: char -> bool, s: string): (n: nat)
    ensures n <= |s|
    ensures (forall k :: 0 <= k < n ==> p(s[k])) && (n < |s| ==> !p(s[n]))
  {
    if s == "" || !p(s[0]) then 0 else 1 + Span(p, s[1..])
  }

  function Indent(line: string): (n: nat)
    ensures n <= |line|
  {
    Span(IsSpace, line)
  }

  predicate IsBlank(line: string) {
    Indent(line) == |line|
  }

  function TrimEnd(s: string): string {
    if s != "" && IsSpace(s[|s| - 1]) then TrimEnd(s[..|s| - 1]) else s
  }

  function TrimText(s: string): string {
    TrimEnd(s[Indent(s)..])
  }

  function StartsWith(t: string, from: nat, sub: string): bool
    requires from <= |t|
  {
    from + |sub| <= |t| && t[from..from + |sub|] == sub
  }

  // The first place at or after `from` where `sub` is.
  function Find(t: string, sub: string, from: nat): (r: Option<nat>)
    ensures r.Some? ==> from <= r.value <= |t| && StartsWith(t, r.value, sub)
    ensures forall k :: from <= k <= |t| && (r.Some? ==> k < r.value) ==> !StartsWith(t, k, sub)
    decreases |t| - from
  {
    if from > |t| then None
    else if StartsWith(t, from, sub) then Some(from)
    else Find(t, sub, from + 1)
  }

  // ----- What is only asked about ---------------------------------------------------------

  // Whether the attributes of an <img> tag are all allowed.
  datatype Grammar = Grammar(imageTag: string -> bool)

  // A tag, after spaces.
  predicate StartsHtml(line: string) {
    var rest := line[Indent(line)..];
    && |rest| >= 2 && rest[0] == '<'
    && (IsLetter(rest[1]) || (rest[1] == '/' && |rest| >= 3 && IsLetter(rest[2])))
  }

  // ----- Backslashes --------------------------------------------------------------------

  // How many backslashes stand right before `i`, back to `from`.
  ghost function Slashes(t: string, from: nat, i: nat): nat
    requires from <= i <= |t|
    decreases i
  {
    if i > from && t[i - 1] == '\\' then 1 + Slashes(t, from, i - 1) else 0
  }

  // Whether what stands at `i` stands behind a backslash of its own: an odd run of them.
  ghost predicate Behind(t: string, from: nat, i: nat)
    requires from <= i <= |t|
  {
    Slashes(t, from, i) % 2 == 1
  }

  // ----- Links ------------------------------------------------------------------------

  // How many `c` stand between `from` and `i`, those behind a backslash left out.
  ghost function Count(t: string, from: nat, i: nat, c: char): nat
    requires from <= i <= |t|
    decreases i
  {
    if i == from then 0
    else Count(t, from, i - 1, c) + if t[i - 1] == c && !Behind(t, from, i - 1) then 1 else 0
  }

  // Within a title: behind an odd number of quotation marks.
  ghost predicate InTitle(t: string, from: nat, i: nat)
    requires from <= i <= |t|
  {
    Count(t, from, i, '"') % 2 == 1
  }

  // Parentheses opened less those closed, titles left out.
  ghost function Nesting(t: string, from: nat, i: nat): int
    requires from <= i <= |t|
    decreases i
  {
    if i == from then 0
    else
      Nesting(t, from, i - 1) +
      if InTitle(t, from, i - 1) || Behind(t, from, i - 1) then 0
      else if t[i - 1] == '(' then 1
      else if t[i - 1] == ')' then -1
      else 0
  }

  ghost predicate StaysOpen(t: string, from: nat, i: nat)
    requires from <= i <= |t|
  {
    forall k :: from <= k <= i ==> Nesting(t, from, k) >= 0
  }

  // The first parenthesis that closes more than was opened.
  ghost predicate DestinationEnds(t: string, from: nat, close: nat) {
    && from <= close < |t|
    && Nesting(t, from, close + 1) < 0
    && StaysOpen(t, from, close)
  }

  // A backslash and what stands behind it, if anything does, count for nothing.
  lemma PairCounts(t: string, from: nat, i: nat)
    requires from <= i < |t| && t[i] == '\\' && !Behind(t, from, i)
    ensures i + 2 <= |t| ==> !Behind(t, from, i + 2)
    ensures forall k, c :: i <= k <= i + 2 && k <= |t| && c != '\\' ==> Count(t, from, k, c) == Count(t, from, i, c)
    ensures forall k :: i <= k <= i + 2 && k <= |t| ==> Nesting(t, from, k) == Nesting(t, from, i)
  {
    assert Behind(t, from, i + 1);
    forall k, c | i <= k <= i + 2 && k <= |t| && c != '\\'
      ensures Count(t, from, k, c) == Count(t, from, i, c)
    {
    }
    forall k | i <= k <= i + 2 && k <= |t|
      ensures Nesting(t, from, k) == Nesting(t, from, i)
    {
    }
  }

  // The parenthesis that closes the destination opened at `open`, or none where nothing
  // closes more than was opened.
  method MatchDestination(text: string, open: nat) returns (close: Option<nat>)
    requires open < |text|
    ensures close.Some? ==> DestinationEnds(text, open + 1, close.value)
    ensures close.None? ==> StaysOpen(text, open + 1, |text|)
  {
    var depth, inTitle := 1, false;
    var i := open + 1;
    while i < |text|
      invariant open < i <= |text| + 1
      invariant i <= |text| ==> !Behind(text, open + 1, i)
      invariant var j := if i <= |text| then i else |text|;
        && depth == 1 + Nesting(text, open + 1, j) > 0
        && inTitle == InTitle(text, open + 1, j)
        && StaysOpen(text, open + 1, j)
    {
      var ch := text[i];
      if ch == '\\' {
        PairCounts(text, open + 1, i);
        i := i + 2;
        continue;
      }
      if ch == '"' {
        inTitle := !inTitle;
      } else if !inTitle {
        if ch == '(' {
          depth := depth + 1;
        } else if ch == ')' {
          depth := depth - 1;
          if depth == 0 { return Some(i); }
        }
      }
      i := i + 1;
    }
    return None;
  }

  ghost predicate StaysUnclosed(t: string, start: nat, i: nat)
    requires start <= i <= |t|
  {
    forall k :: start < k <= i ==> Count(t, start, k, '[') > Count(t, start, k, ']')
  }

  // The bracket that closes the one at `start`.
  ghost predicate LabelEnds(t: string, start: nat, e: nat) {
    && start <= e < |t| && t[start] == '['
    && Count(t, start, e + 1, '[') == Count(t, start, e + 1, ']')
    && StaysUnclosed(t, start, e)
  }

  // A label from `start` to `e`, and a destination in parentheses up to `next`.
  ghost predicate LinkAt(t: string, start: nat, e: nat, next: nat) {
    && LabelEnds(t, start, e)
    && e + 2 < next && e + 1 < |t| && t[e + 1] == '('
    && DestinationEnds(t, e + 2, next - 1)
  }

  ghost predicate NoLink(t: string, start: nat) {
    forall e, next :: !LinkAt(t, start, e, next)
  }

  // An address, and the title in quotation marks after it.
  datatype Target = Target(href: string, title: Option<string>)

  predicate IsSolid(c: char) {
    !IsSpace(c)
  }

  lemma {:induction false} SpanOf(p: char -> bool, a: string, b: string)
    requires (forall k :: 0 <= k < |a| ==> p(a[k])) && (b != "" ==> !p(b[0]))
    ensures Span(p, a + b) == |a|
  {
    if a == "" {
      assert a + b == b;
    } else {
      SpanOf(p, a[1..], b);
      assert (a + b)[1..] == a[1..] + b;
    }
  }

  function TargetOf(s: string): Target {
    var n := Span(IsSolid, s);
    var gap := Indent(s[n..]);
    var rest := s[n + gap..];
    if n > 0 && gap > 0 && |rest| >= 2 && rest[0] == '"' && rest[|rest| - 1] == '"' && '"' !in rest[1..|rest| - 1] then
      Target(s[..n], Some(rest[1..|rest| - 1]))
    else Target(s, None)
  }

  lemma SpansOfTarget(href: string, gap: string, quoted: string)
    requires forall k :: 0 <= k < |href| ==> IsSolid(href[k])
    requires gap != "" && forall k :: 0 <= k < |gap| ==> IsSpace(gap[k])
    requires quoted != "" && !IsSpace(quoted[0])
    ensures var s := href + gap + quoted;
      Span(IsSolid, s) == |href| && Indent(s[|href|..]) == |gap|
  {
    var s := href + gap + quoted;
    assert forall c :: IsSolid(c) <==> !IsSpace(c);
    hide IsSpace, IsSolid, Span;
    assert s == href + (gap + quoted) && s[|href|..] == gap + quoted;
    SpanOf(IsSolid, href, gap + quoted);
    SpanOf(IsSpace, gap, quoted);
  }

  // Every address and title are told apart again.
  lemma TargetReadsBack(href: string, gap: string, title: string)
    requires href != "" && forall k :: 0 <= k < |href| ==> IsSolid(href[k])
    requires gap != "" && forall k :: 0 <= k < |gap| ==> IsSpace(gap[k])
    requires '"' !in title
    ensures TargetOf(href + gap + ("\"" + title + "\"")) == Target(href, Some(title))
  {
    var quoted := "\"" + title + "\"";
    var s := href + gap + quoted;
    SpansOfTarget(href, gap, quoted);
    assert s[..|href|] == href && s[|href| + |gap|..] == quoted && quoted[1..|quoted| - 1] == title;
    hide IsSpace, IsSolid, Span, Indent;
  }

  datatype LinkMatch = LinkMatch(words: string, target: Target, end: nat)

  // The bracket that closes the label opened at `start`, if one does.
  method MatchLabel(text: string, start: nat) returns (r: Option<nat>)
    requires start < |text|
    ensures r.Some? ==> start < r.value && LabelEnds(text, start, r.value)
    ensures r.None? ==> forall e :: !LabelEnds(text, start, e)
  {
    if text[start] != '[' { return None; }
    var depth := 0;
    var i := start;
    while i < |text|
      invariant start <= i <= |text| + 1
      invariant i <= |text| ==> !Behind(text, start, i)
      invariant var j := if i <= |text| then i else |text|;
        depth == Count(text, start, j, '[') - Count(text, start, j, ']') && StaysUnclosed(text, start, j)
    {
      if text[i] == '\\' {
        PairCounts(text, start, i);
        i := i + 2;
        continue;
      }
      if text[i] == '[' {
        depth := depth + 1;
      } else if text[i] == ']' {
        depth := depth - 1;
        if depth == 0 { return Some(i); }
      }
      i := i + 1;
    }
    return None;
  }

  lemma LabelEndsOnce(text: string, start: nat, e: nat)
    requires LabelEnds(text, start, e)
    ensures forall k :: LabelEnds(text, start, k) ==> k == e
  {
  }

  lemma NothingCloses(text: string, from: nat)
    requires from <= |text| && StaysOpen(text, from, |text|)
    ensures forall c :: !DestinationEnds(text, from, c)
  {
  }

  // The link whose label opens at `start`, or none where there is none.
  method MatchLink(text: string, start: nat) returns (m: Option<LinkMatch>)
    requires start < |text|
    ensures m.Some? ==>
      && var e := start + 1 + |m.value.words|;
      && LinkAt(text, start, e, m.value.end) && e + 2 < m.value.end <= |text|
      && m.value.words == text[start + 1..e]
      && m.value.target == TargetOf(TrimText(text[e + 2..m.value.end - 1]))
    ensures m.None? ==> NoLink(text, start)
  {
    hide TargetOf, TrimText, StaysUnclosed, StaysOpen, Count, Nesting;
    var bracket := MatchLabel(text, start);
    if bracket.None? { return None; }
    var i := bracket.value;
    LabelEndsOnce(text, start, i);
    if i + 1 >= |text| || text[i + 1] != '(' { return None; }
    var close := MatchDestination(text, i + 1);
    if close.None? {
      NothingCloses(text, i + 2);
      return None;
    }
    m := Some(LinkMatch(text[start + 1..i], TargetOf(TrimText(text[i + 2..close.value])), close.value + 1));
  }

  // ----- Inline ---------------------------------------------------------------------------

  // The text of the stretch, less the backslashes that punctuation stands behind.
  ghost function Plain(t: string, from: nat, i: nat): (r: string)
    requires from <= i <= |t|
    ensures r == "" <==> i == from
    decreases i
  {
    if i == from then ""
    else if i - 1 > from && IsPunctuation(t[i - 1]) && Behind(t, from, i - 1) then Plain(t, from, i - 2) + [t[i - 1]]
    else Plain(t, from, i - 1) + [t[i - 1]]
  }

  predicate IsTick(c: char) {
    c == '`'
  }

  // The backticks from `i` on.
  function Ticks(t: string, i: nat): (r: string)
    requires i <= |t|
    ensures i + |r| <= |t|
  {
    t[i..i + Span(IsTick, t[i..])]
  }

  // The closing run of backticks, if there is one.
  function CodeEnd(t: string, i: nat): (r: Option<nat>)
    requires i < |t|
    ensures r.Some? ==> i + |Ticks(t, i)| <= r.value <= |t| - |Ticks(t, i)|
  {
    Find(t, Ticks(t, i), i + |Ticks(t, i)|)
  }

  // An underscore within a word opens nothing.
  predicate InWord(t: string, i: nat)
    requires i < |t|
  {
    t[i] == '_' && i > 0 && IsWord(t[i - 1])
  }

  // The end of what a doubled mark at `i` opens, and of what a single one opens.
  function StrongEnd(t: string, i: nat): (r: Option<nat>)
    requires i < |t|
    ensures r.Some? ==> i + 4 <= r.value <= |t|
  {
    var mark := [t[i], t[i]];
    if !StartsWith(t, i, mark) then None
    else match Find(t, mark, i + 2) case Some(k) => Some(k + 2) case None => None
  }

  function EmEnd(t: string, i: nat): (r: Option<nat>)
    requires i < |t|
    ensures r.Some? ==> i + 2 <= r.value <= |t|
  {
    if InWord(t, i) then None
    else match Find(t, [t[i]], i + 1) case Some(k) => Some(k + 1) case None => None
  }

  // No construct starts at `i`, and nothing is refused there.
  ghost predicate Idle(g: Grammar, t: string, i: nat)
    requires i < |t|
  {
    && (t[i] == '`' ==> CodeEnd(t, i).None?)
    && !StartsWith(t, i, "<img")
    && (t[i] == '<' ==> !StartsHtml(t[i..]))
    && (t[i] == '!' ==> NoLink(t, i + 1))
    && (t[i] == '[' ==> NoLink(t, i))
    && (t[i] in "*_" ==> StrongEnd(t, i).None? && EmEnd(t, i).None?)
  }

  // In the stretch no construct starts, but at punctuation behind a backslash.
  ghost predicate AllIdle(g: Grammar, t: string, from: nat, i: nat)
    requires from <= i <= |t|
  {
    forall k :: from <= k < i && !Behind(t, from, k) ==> Idle(g, t, k)
  }

  // No punctuation at `i` is taken from the backslash before it.
  ghost predicate Settled(t: string, from: nat, i: nat)
    requires from <= i <= |t|
  {
    i < |t| && IsPunctuation(t[i]) ==> !Behind(t, from, i)
  }

  // The stretch of the text spells the node.
  ghost predicate Spells(g: Grammar, t: string, from: nat, to_: nat, n: Inline)
    decreases n, 0
  {
    from < to_ <= |t| &&
    match n
    case Text(value) =>
      value == Plain(t, from, to_) && AllIdle(g, t, from, to_) && Settled(t, from, to_)
    case Code(value) =>
      && t[from] == '`'
      && var start := from + |Ticks(t, from)|;
      && CodeEnd(t, from) == Some(start + |value|)
      && to_ == start + |value| + |Ticks(t, from)|
      && value == t[start..start + |value|]
    case Picture(tag) =>
      StartsWith(t, from, "<img") && tag == t[from..to_] && g.imageTag(tag) && Find(t, ">", from) == Some(to_ - 1)
    case Image(target, alt) =>
      && t[from] == '!'
      && var e := from + 2 + |alt|;
      && LinkAt(t, from + 1, e, to_)
      && alt == t[from + 2..e] && target == TargetOf(TrimText(t[e + 2..to_ - 1]))
    case Link(target, children) =>
      exists e: nat :: LabelSpells(g, t, from, e, to_, target, children)
    case Strong(children) =>
      && t[from] in "*_" && StrongEnd(t, from) == Some(to_)
      && Spelt(g, t[from + 2..to_ - 2], to_ - from - 4, children)
    case Em(children) =>
      && t[from] in "*_" && StrongEnd(t, from).None? && EmEnd(t, from) == Some(to_)
      && Spelt(g, t[from + 1..to_ - 1], to_ - from - 2, children)
  }

  // The same of a link whose label ends at `e`: its children are read from the label alone.
  ghost predicate LabelSpells(g: Grammar, t: string, from: nat, e: nat, to_: nat, target: Target, children: seq<Inline>)
    decreases children, 1
  {
    && LinkAt(t, from, e, to_) && from < e && e + 2 < to_ <= |t|
    && target == TargetOf(TrimText(t[e + 2..to_ - 1]))
    && Spelt(g, t[from + 1..e], e - from - 1, children)
  }

  // The text up to `to_` spells the nodes, stretch by stretch, no two texts side by side.
  ghost predicate Spelt(g: Grammar, t: string, to_: nat, nodes: seq<Inline>)
    decreases nodes, 0
  {
    to_ <= |t| &&
    if nodes == [] then to_ == 0
    else
      var front, n := nodes[..|nodes| - 1], nodes[|nodes| - 1];
      && !(n.Text? && EndsInText(front))
      && exists from :: Spelt(g, t, from, front) && Spells(g, t, from, to_, n)
  }

  predicate EndsInText(nodes: seq<Inline>) {
    nodes != [] && nodes[|nodes| - 1].Text?
  }

  ghost predicate SpeltAll(g: Grammar, t: string, nodes: seq<Inline>) {
    Spelt(g, t, |t|, nodes)
  }

  lemma SpeltMore(g: Grammar, t: string, from: nat, to_: nat, nodes: seq<Inline>, n: Inline)
    requires Spelt(g, t, from, nodes) && Spells(g, t, from, to_, n) && !(n.Text? && EndsInText(nodes))
    ensures Spelt(g, t, to_, nodes + [n])
  {
    assert (nodes + [n])[..|nodes|] == nodes;
  }

  function Flushed(nodes: seq<Inline>, buf: string): seq<Inline> {
    if buf == "" then nodes else nodes + [Text(buf)]
  }

  // Up to `from` the text spells the nodes, and from there to `i` it is in the buffer.
  ghost predicate Read(g: Grammar, t: string, from: nat, i: nat, nodes: seq<Inline>, buf: string) {
    && from <= i <= |t|
    && Spelt(g, t, from, nodes) && !EndsInText(nodes)
    && buf == Plain(t, from, i) && AllIdle(g, t, from, i) && Settled(t, from, i)
  }

  lemma ReadFlush(g: Grammar, t: string, from: nat, i: nat, nodes: seq<Inline>, buf: string)
    requires Read(g, t, from, i, nodes, buf)
    ensures Spelt(g, t, i, Flushed(nodes, buf))
  {
    if from < i {
      assert Spells(g, t, from, i, Text(buf));
      hide Spells, Spelt;
      SpeltMore(g, t, from, i, nodes, Text(buf));
    }
  }

  lemma SpellsBounds(g: Grammar, t: string, from: nat, to_: nat, n: Inline)
    requires Spells(g, t, from, to_, n)
    ensures from < to_ <= |t|
  {
  }

  lemma ReadNode(g: Grammar, t: string, from: nat, i: nat, next: nat, nodes: seq<Inline>, buf: string, n: Inline)
    requires Read(g, t, from, i, nodes, buf) && Spells(g, t, i, next, n) && !n.Text?
    ensures Read(g, t, next, next, Flushed(nodes, buf) + [n], "")
  {
    hide Spelt, Idle, Spells, IsPunctuation;
    ReadFlush(g, t, from, i, nodes, buf);
    SpellsBounds(g, t, i, next, n);
    SpeltMore(g, t, i, next, Flushed(nodes, buf), n);
  }

  lemma StartsThere(t: string, i: nat, sub: string)
    requires i < |t| && StartsWith(t, i, sub) && sub != ""
    ensures t[i] == sub[0]
  {
    assert t[i..i + |sub|][0] == t[i];
  }

  lemma IdleBackslash(g: Grammar, t: string, i: nat)
    requires i < |t| && t[i] == '\\'
    ensures Idle(g, t, i)
  {
    if StartsWith(t, i, "<img") {
      StartsThere(t, i, "<img");
    }
  }

  lemma ReadEscape(g: Grammar, t: string, from: nat, i: nat, nodes: seq<Inline>, buf: string)
    requires Read(g, t, from, i, nodes, buf)
    requires i + 1 < |t| && t[i] == '\\' && IsPunctuation(t[i + 1])
    ensures Read(g, t, from, i + 2, nodes, buf + [t[i + 1]])
  {
    hide Spelt, StrongEnd, EmEnd;
    IdleBackslash(g, t, i);
    hide StartsWith;
    assert Behind(t, from, i + 1);
    PairCounts(t, from, i);
    hide Idle;
  }

  lemma ReadChar(g: Grammar, t: string, from: nat, i: nat, nodes: seq<Inline>, buf: string)
    requires Read(g, t, from, i, nodes, buf) && i < |t| && Idle(g, t, i)
    requires t[i] == '\\' && i + 1 < |t| ==> !IsPunctuation(t[i + 1])
    ensures Read(g, t, from, i + 1, nodes, buf + [t[i]])
  {
    hide Spelt, Idle;
  }

  lemma SpellsLink(g: Grammar, t: string, from: nat, e: nat, to_: nat, children: seq<Inline>)
    requires from < e && LinkAt(t, from, e, to_) && e + 2 < to_ <= |t| && SpeltAll(g, t[from + 1..e], children)
    ensures Spells(g, t, from, to_, Link(TargetOf(TrimText(t[e + 2..to_ - 1])), children))
  {
    hide LinkAt, TargetOf, TrimText, Spelt;
    assert LabelSpells(g, t, from, e, to_, TargetOf(TrimText(t[e + 2..to_ - 1])), children);
  }

  lemma NoLinkAtTheEnd(t: string)
    ensures NoLink(t, |t|)
  {
  }

  // ----- One reading ------------------------------------------------------------------------

  // A text at the end of the nodes goes on as far as it can.
  ghost predicate Ended(g: Grammar, t: string, to_: nat, nodes: seq<Inline>) {
    EndsInText(nodes) && to_ < |t| ==> !Idle(g, t, to_)
  }

  lemma OnlyMarksAreNotIdle(g: Grammar, t: string, i: nat)
    requires i < |t| && !Idle(g, t, i)
    ensures IsPunctuation(t[i])
  {
    if StartsWith(t, i, "<img") {
      StartsThere(t, i, "<img");
    }
  }

  // Where a construct starts, no text does.
  lemma SpanIsNotIdle(g: Grammar, t: string, from: nat, to_: nat, n: Inline)
    requires Spells(g, t, from, to_, n)
    ensures from < |t| && (n.Text? <==> Idle(g, t, from))
  {
  }

  // A text stops where, and only where, a construct starts.
  lemma TextOnce(g: Grammar, t: string, from: nat, a: nat, b: nat, m: Inline, n: Inline)
    requires m.Text? && n.Text? && Spells(g, t, from, a, m) && Spells(g, t, from, b, n)
    requires (a < |t| ==> !Idle(g, t, a)) && (b < |t| ==> !Idle(g, t, b))
    ensures a == b && m == n
  {
    if a < |t| { OnlyMarksAreNotIdle(g, t, a); }
    if b < |t| { OnlyMarksAreNotIdle(g, t, b); }
    hide Idle, Plain;
  }

  lemma LinkOnce(t: string, start: nat, e1: nat, next1: nat, e2: nat, next2: nat)
    requires LinkAt(t, start, e1, next1) && LinkAt(t, start, e2, next2)
    ensures e1 == e2 && next1 == next2
  {
    LabelEndsOnce(t, start, e1);
  }

  lemma LinkSpanOnce(g: Grammar, t: string, from: nat, a: nat, b: nat, m: Inline, n: Inline)
    requires m.Link? && n.Link? && Spells(g, t, from, a, m) && Spells(g, t, from, b, n)
    ensures a == b && m.target == n.target
    ensures exists words :: SpeltAll(g, words, m.children) && SpeltAll(g, words, n.children)
  {
    hide LinkAt, TargetOf, TrimText, Spelt;
    var e: nat :| LabelSpells(g, t, from, e, a, m.target, m.children);
    var f: nat :| LabelSpells(g, t, from, f, b, n.target, n.children);
    LinkOnce(t, from, e, a, f, b);
    assert SpeltAll(g, t[from + 1..e], m.children) && SpeltAll(g, t[from + 1..e], n.children);
  }

  lemma ImageOnce(g: Grammar, t: string, from: nat, a: nat, b: nat, m: Inline, n: Inline)
    requires m.Image? && n.Image? && Spells(g, t, from, a, m) && Spells(g, t, from, b, n)
    ensures a == b && m == n
  {
    hide LinkAt, TargetOf, TrimText;
    LinkOnce(t, from + 1, from + 2 + |m.alt|, a, from + 2 + |n.alt|, b);
  }

  lemma LinkOpens(g: Grammar, t: string, i: nat, to_: nat, n: Inline)
    requires Spells(g, t, i, to_, n) && n.Link?
    ensures t[i] == '['
  {
    hide TargetOf, TrimText, Spelt, DestinationEnds;
  }

  // Which construct starts is told by the text.
  lemma SameKind(g: Grammar, t: string, from: nat, a: nat, b: nat, m: Inline, n: Inline)
    requires Spells(g, t, from, a, m) && Spells(g, t, from, b, n) && !m.Text? && !n.Text?
    ensures m.Code? <==> n.Code?
    ensures m.Picture? <==> n.Picture?
    ensures m.Image? <==> n.Image?
    ensures m.Link? <==> n.Link?
    ensures m.Strong? <==> n.Strong?
  {
    hide LinkAt, TargetOf, TrimText, StartsWith, Spelt, CodeEnd, Ticks, StrongEnd, EmEnd, Plain, AllIdle, Settled, Find;
    if m.Link? { LinkOpens(g, t, from, a, m); }
    if n.Link? { LinkOpens(g, t, from, b, n); }
    if m.Picture? || n.Picture? { StartsThere(t, from, "<img"); }
  }

  lemma {:induction false} SpanOnce(g: Grammar, t: string, from: nat, a: nat, b: nat, m: Inline, n: Inline)
    requires Spells(g, t, from, a, m) && Spells(g, t, from, b, n) && !m.Text? && !n.Text?
    ensures a == b && m == n
    decreases m
  {
    SameKind(g, t, from, a, b, m, n);
    if m.Link? {
      LinkSpanOnce(g, t, from, a, b, m, n);
      var words :| SpeltAll(g, words, m.children) && SpeltAll(g, words, n.children);
      hide Spells, Spelt;
      SpeltOnce(g, words, m.children, n.children);
    } else if m.Image? {
      ImageOnce(g, t, from, a, b, m, n);
    } else if m.Strong? || m.Em? {
      hide Spelt, StrongEnd, EmEnd, LinkAt;
      SpeltOnce(g, if m.Strong? then t[from + 2..a - 2] else t[from + 1..a - 1], m.children, n.children);
    } else {
      hide Spelt, Find, StartsWith, LinkAt;
    }
  }

  // The last node, and the nodes before it up to where it begins.
  lemma LastSpelt(g: Grammar, t: string, to_: nat, nodes: seq<Inline>) returns (p: nat)
    requires Spelt(g, t, to_, nodes) && nodes != []
    ensures var k := |nodes| - 1;
      && Spelt(g, t, p, nodes[..k]) && Ended(g, t, p, nodes[..k]) && Spells(g, t, p, to_, nodes[k])
      && p < |t| && (nodes[k].Text? <==> Idle(g, t, p))
  {
    var k := |nodes| - 1;
    p :| Spelt(g, t, p, nodes[..k]) && Spells(g, t, p, to_, nodes[k]);
    SpanIsNotIdle(g, t, p, to_, nodes[k]);
    hide Spells, Idle;
  }

  // The first `k` nodes are spelt on their own, up to where the next begins.
  lemma {:induction false} Prefix(g: Grammar, t: string, to_: nat, nodes: seq<Inline>, k: nat) returns (p: nat, next: nat)
    requires Spelt(g, t, to_, nodes) && k < |nodes|
    ensures Spelt(g, t, p, nodes[..k]) && Ended(g, t, p, nodes[..k]) && Spells(g, t, p, next, nodes[k])
    ensures p < next <= to_
  {
    var last := LastSpelt(g, t, to_, nodes);
    SpellsBounds(g, t, last, to_, nodes[|nodes| - 1]);
    hide Spelt, Spells, Ended;
    if k == |nodes| - 1 {
      p, next := last, to_;
    } else {
      p, next := Prefix(g, t, last, nodes[..|nodes| - 1], k);
      assert nodes[..|nodes| - 1][..k] == nodes[..k];
    }
  }

  lemma {:induction false} SameSpelling(g: Grammar, t: string, a: nat, b: nat, m: seq<Inline>, n: seq<Inline>)
    requires Spelt(g, t, a, m) && Spelt(g, t, b, n) && |m| == |n|
    requires Ended(g, t, a, m) && Ended(g, t, b, n)
    ensures a == b && m == n
    decreases m, 0
  {
    if m != [] {
      hide Spelt, Spells, Idle;
      var k := |m| - 1;
      var p := LastSpelt(g, t, a, m);
      var q := LastSpelt(g, t, b, n);
      assert m[k].Text? && a < |t| ==> !Idle(g, t, a);
      assert n[k].Text? && b < |t| ==> !Idle(g, t, b);
      hide *;
      SameSpelling(g, t, p, q, m[..k], n[..k]);
      if m[k].Text? {
        TextOnce(g, t, p, a, b, m[k], n[k]);
      } else {
        SpanOnce(g, t, p, a, b, m[k], n[k]);
      }
      SameEnds(m, n);
    }
  }

  lemma SameEnds<T>(m: seq<T>, n: seq<T>)
    requires |m| == |n| > 0
    requires m[..|m| - 1] == n[..|n| - 1] && m[|m| - 1] == n[|n| - 1]
    ensures m == n
  {
    assert m == m[..|m| - 1] + [m[|m| - 1]];
  }

  // A reading that has come to `to_`, where the text ends or a construct should start, is
  // how every reading of the whole text begins.
  lemma BeginsAlike(g: Grammar, t: string, to_: nat, m: seq<Inline>, n: seq<Inline>)
    requires Spelt(g, t, to_, m) && (to_ < |t| ==> !Idle(g, t, to_)) && SpeltAll(g, t, n)
    ensures if to_ == |t| then m == n else |m| < |n| && exists next :: Spells(g, t, to_, next, n[|m|])
    decreases m, 1
  {
    assert to_ <= |t|;
    hide Spelt, Spells, Idle;
    if |m| < |n| {
      var p, next := Prefix(g, t, |t|, n, |m|);
      SameSpelling(g, t, to_, p, m, n[..|m|]);
    } else if |n| < |m| {
      var p, next := Prefix(g, t, to_, m, |n|);
      SameSpelling(g, t, p, |t|, m[..|n|], n);
      assert false;
    } else {
      SameSpelling(g, t, to_, |t|, m, n);
    }
  }

  // No text is spelt in two ways.
  lemma {:induction false} SpeltOnce(g: Grammar, t: string, m: seq<Inline>, n: seq<Inline>)
    requires SpeltAll(g, t, m) && SpeltAll(g, t, n)
    ensures m == n
    decreases m, 2
  {
    BeginsAlike(g, t, |t|, m, n);
  }

  // ----- No reading -------------------------------------------------------------------------

  ghost predicate Unreadable(g: Grammar, t: string) {
    forall nodes :: !SpeltAll(g, t, nodes)
  }

  // Something is at `i` that is neither text nor any construct.
  ghost predicate Refused(g: Grammar, t: string, i: nat)
    requires i < |t|
  {
    !Idle(g, t, i) && forall next, n :: !Spells(g, t, i, next, n)
  }

  // Where an angle stands, only an allowed tag does.
  lemma TagOfAngle(g: Grammar, t: string, i: nat, next: nat, n: Inline)
    requires Spells(g, t, i, next, n) && !n.Text? && t[i] == '<'
    ensures StartsWith(t, i, "<img") && next <= |t| && Find(t, ">", i) == Some(next - 1) && g.imageTag(t[i..next])
  {
    hide Spelt, CodeEnd, StrongEnd, EmEnd, LinkAt, Plain, AllIdle, Settled, StartsWith, Find, TargetOf, TrimText;
    if n.Link? { LinkOpens(g, t, i, next, n); }
  }

  lemma RefusedTag(g: Grammar, t: string, i: nat)
    requires i < |t| && t[i] == '<'
    requires if StartsWith(t, i, "<img") then Find(t, ">", i).None? || !g.imageTag(t[i..Find(t, ">", i).value + 1])
             else StartsHtml(t[i..])
    ensures Refused(g, t, i)
  {
    hide Spells, StartsWith, Find, StartsHtml;
    assert !Idle(g, t, i);
    hide Idle;
    forall next, n
      ensures !Spells(g, t, i, next, n)
    {
      if Spells(g, t, i, next, n) {
        SpanIsNotIdle(g, t, i, next, n);
        TagOfAngle(g, t, i, next, n);
      }
    }
  }

  lemma RefusedLink(g: Grammar, t: string, i: nat, e: nat, next: nat)
    requires i < e && LinkAt(t, i, e, next) && e + 2 < next <= |t|
    requires Unreadable(g, t[i + 1..e])
    ensures Refused(g, t, i)
  {
    assert t[i] == '[';
    forall to_, n
      ensures !Spells(g, t, i, to_, n)
    {
      if Spells(g, t, i, to_, n) {
        SpanIsNotIdle(g, t, i, to_, n);
        LabelOfLink(g, t, i, to_, n, e, next);
      }
    }
  }

  lemma LabelOfLink(g: Grammar, t: string, i: nat, to_: nat, n: Inline, e: nat, next: nat)
    requires Spells(g, t, i, to_, n) && !n.Text? && LinkAt(t, i, e, next) && i < e && e + 2 < next <= |t|
    ensures n.Link? && SpeltAll(g, t[i + 1..e], n.children)
  {
    assert t[i] == '[';
    hide LinkAt, TargetOf, TrimText, Spelt, StrongEnd, EmEnd, Find, Plain, AllIdle, Settled;
    if n.Picture? { StartsThere(t, i, "<img"); }
    hide StartsWith;
    if n.Link? {
      var f: nat :| LabelSpells(g, t, i, f, to_, n.target, n.children);
      LinkOnce(t, i, e, next, f, to_);
    }
  }

  // What the marks at `i` stand around.
  function Inside(t: string, i: nat): string
    requires i < |t| && (StrongEnd(t, i).Some? || EmEnd(t, i).Some?)
  {
    if StrongEnd(t, i).Some? then t[i + 2..StrongEnd(t, i).value - 2] else t[i + 1..EmEnd(t, i).value - 1]
  }

  lemma EmphasisOfInside(g: Grammar, t: string, i: nat, to_: nat, n: Inline)
    requires Spells(g, t, i, to_, n) && !n.Text? && t[i] in "*_" && (StrongEnd(t, i).Some? || EmEnd(t, i).Some?)
    ensures (n.Strong? || n.Em?) && SpeltAll(g, Inside(t, i), n.children)
  {
    hide LinkAt, TargetOf, TrimText, Spelt, StrongEnd, EmEnd, Find, Plain, AllIdle, Settled, StartsWith;
    if n.Link? { LinkOpens(g, t, i, to_, n); }
    if n.Picture? { StartsThere(t, i, "<img"); }
  }

  lemma RefusedEmphasis(g: Grammar, t: string, i: nat)
    requires i < |t| && t[i] in "*_" && (StrongEnd(t, i).Some? || EmEnd(t, i).Some?)
    requires Unreadable(g, Inside(t, i))
    ensures Refused(g, t, i)
  {
    hide Spells, Spelt, Inside;
    forall next, n
      ensures !Spells(g, t, i, next, n)
    {
      if Spells(g, t, i, next, n) {
        SpanIsNotIdle(g, t, i, next, n);
        EmphasisOfInside(g, t, i, next, n);
      }
    }
  }

  // Text read as far as something refused has no reading.
  lemma RefusedText(g: Grammar, t: string, from: nat, i: nat, nodes: seq<Inline>, buf: string)
    requires Read(g, t, from, i, nodes, buf) && i < |t| && Refused(g, t, i)
    ensures Unreadable(g, t)
  {
    ReadFlush(g, t, from, i, nodes, buf);
    hide Spelt, Spells, Idle;
    forall all
      ensures !SpeltAll(g, t, all)
    {
      if SpeltAll(g, t, all) {
        BeginsAlike(g, t, i, Flushed(nodes, buf), all);
      }
    }
  }

  datatype SpanMatch = SpanMatch(node: Inline, next: nat)

  // What was found at `i`: one construct, or none, or something that is refused.
  ghost predicate SpanOk(g: Grammar, text: string, i: nat, line: nat, r: Result<Option<SpanMatch>>)
    requires i < |text|
  {
    match r
    case Ok(None) => Idle(g, text, i)
    case Ok(Some(m)) => i < m.next <= |text| && !m.node.Text? && Spells(g, text, i, m.next, m.node)
    case Unsupported(at) => Refused(g, text, i) && at == line
  }

  lemma NoTagThere(t: string, i: nat)
    requires i < |t| && t[i] != '<'
    ensures !StartsWith(t, i, "<img")
  {
    if StartsWith(t, i, "<img") {
      StartsThere(t, i, "<img");
    }
  }

  lemma TicksOk(g: Grammar, t: string, i: nat)
    requires i < |t| && t[i] == '`'
    ensures match CodeEnd(t, i)
            case None => Idle(g, t, i)
            case Some(close) =>
              var ticks := |Ticks(t, i)|;
              0 < ticks && Spells(g, t, i, close + ticks, Code(t[i + ticks..close]))
  {
    NoTagThere(t, i);
    hide Find, StartsWith;
  }

  lemma TagOk(g: Grammar, t: string, i: nat, close: nat)
    requires i < |t| && StartsWith(t, i, "<img") && Find(t, ">", i) == Some(close) && close < |t|
    requires g.imageTag(t[i..close + 1])
    ensures i < close + 1 && Spells(g, t, i, close + 1, Picture(t[i..close + 1]))
  {
    hide Find, StartsWith;
  }

  lemma ImageOk(g: Grammar, t: string, i: nat, e: nat, next: nat)
    requires i + 2 <= e && e + 2 < next <= |t| && t[i] == '!' && LinkAt(t, i + 1, e, next)
    ensures Spells(g, t, i, next, Image(TargetOf(TrimText(t[e + 2..next - 1])), t[i + 2..e]))
  {
    hide LinkAt, TargetOf, TrimText;
  }

  // Where a bracket, or a bracket after an exclamation mark, begins no link.
  lemma NoLinkOk(g: Grammar, t: string, i: nat)
    requires i < |t| && if t[i] == '!' then NoLink(t, i + 1) else t[i] == '[' && NoLink(t, i)
    ensures Idle(g, t, i)
  {
    NoTagThere(t, i);
    hide LinkAt, StartsWith;
  }

  lemma PlainCharOk(g: Grammar, t: string, i: nat)
    requires i < |t| && t[i] !in "`![*_" && !StartsWith(t, i, "<img") && !(t[i] == '<' && StartsHtml(t[i..]))
    ensures Idle(g, t, i)
  {
    hide StartsWith;
  }

  lemma EmphasisOk(g: Grammar, t: string, i: nat, children: seq<Inline>)
    requires i < |t| && t[i] in "*_" && (StrongEnd(t, i).Some? || EmEnd(t, i).Some?)
    requires SpeltAll(g, Inside(t, i), children)
    ensures if StrongEnd(t, i).Some? then Spells(g, t, i, StrongEnd(t, i).value, Strong(children))
            else Spells(g, t, i, EmEnd(t, i).value, Em(children))
  {
    hide StrongEnd, EmEnd, Spelt;
  }

  lemma NoEmphasisOk(g: Grammar, t: string, i: nat)
    requires i < |t| && t[i] in "*_" && StrongEnd(t, i).None? && EmEnd(t, i).None?
    ensures Idle(g, t, i)
  {
    NoTagThere(t, i);
    hide StartsWith, StrongEnd, EmEnd;
  }

  // A code span, tag, image, link or emphasis starting at `i`, or none where none starts.
  method ParseSpan(g: Grammar, text: string, i: nat, line: nat) returns (r: Result<Option<SpanMatch>>)
    requires i < |text|
    ensures SpanOk(g, text, i, line, r)
    decreases |text|, 0, 1
  {
    var ch := text[i];
    hide Find, StartsWith, Idle, Refused, Spells, Ticks, CodeEnd;
    if ch == '`' {
      TicksOk(g, text, i);
      var close := CodeEnd(text, i);
      if close.None? { return Ok(None); }
      var ticks := |Ticks(text, i)|;
      return Ok(Some(SpanMatch(Code(text[i + ticks..close.value]), close.value + ticks)));
    }
    if StartsWith(text, i, "<img") {
      r := ParseTag(g, text, i, line);
      return;
    }
    if ch == '<' && StartsHtml(text[i..]) {
      RefusedTag(g, text, i);
      return Unsupported(line);
    }
    if ch == '!' {
      r := ParseImage(g, text, i, line);
    } else if ch == '[' {
      r := ParseLink(g, text, i, line);
    } else if ch == '*' || ch == '_' {
      r := ParseEmphasis(g, text, i, line);
    } else {
      PlainCharOk(g, text, i);
      r := Ok(None);
    }
  }

  method ParseTag(g: Grammar, text: string, i: nat, line: nat) returns (r: Result<Option<SpanMatch>>)
    requires i < |text| && StartsWith(text, i, "<img")
    ensures SpanOk(g, text, i, line, r)
  {
    StartsThere(text, i, "<img");
    var close := Find(text, ">", i);
    assert close.Some? ==> StartsWith(text, close.value, ">");
    if close.None? || !g.imageTag(text[i..close.value + 1]) {
      RefusedTag(g, text, i);
      return Unsupported(line);
    }
    hide Find, StartsWith, Spells;
    TagOk(g, text, i, close.value);
    return Ok(Some(SpanMatch(Picture(text[i..close.value + 1]), close.value + 1)));
  }

  // What an exclamation mark before a bracket opens.
  method ParseImage(g: Grammar, text: string, i: nat, line: nat) returns (r: Result<Option<SpanMatch>>)
    requires i < |text| && text[i] == '!'
    ensures SpanOk(g, text, i, line, r)
  {
    hide LinkAt, NoLink, TargetOf, TrimText, Spells, Spelt, Idle, Refused, StartsWith, Find, IsPunctuation;
    NoLinkAtTheEnd(text);
    if i + 1 < |text| {
      var link := MatchLink(text, i + 1);
      if link.Some? {
        ImageOk(g, text, i, i + 2 + |link.value.words|, link.value.end);
        return Ok(Some(SpanMatch(Image(link.value.target, link.value.words), link.value.end)));
      }
    }
    NoLinkOk(g, text, i);
    return Ok(None);
  }

  // What a bracket opens.
  method ParseLink(g: Grammar, text: string, i: nat, line: nat) returns (r: Result<Option<SpanMatch>>)
    requires i < |text| && text[i] == '['
    ensures SpanOk(g, text, i, line, r)
    decreases |text|, 0, 0
  {
    hide LinkAt, NoLink, TargetOf, TrimText, Spells, Spelt, Idle, Refused;
    var link := MatchLink(text, i);
    if link.None? {
      NoLinkOk(g, text, i);
      return Ok(None);
    }
    var children := ParseInline(g, link.value.words, line);
    if children.Unsupported? {
      RefusedLink(g, text, i, i + 1 + |link.value.words|, link.value.end);
      return Unsupported(children.line);
    }
    SpellsLink(g, text, i, i + 1 + |link.value.words|, link.value.end, children.value);
    return Ok(Some(SpanMatch(Link(link.value.target, children.value), link.value.end)));
  }

  // What a star or an underscore opens: two of them first, if two close it.
  method ParseEmphasis(g: Grammar, text: string, i: nat, line: nat) returns (r: Result<Option<SpanMatch>>)
    requires i < |text| && (text[i] == '*' || text[i] == '_')
    ensures SpanOk(g, text, i, line, r)
    decreases |text|, 0, 0
  {
    hide StrongEnd, EmEnd, Spells, Spelt, Idle, Refused;
    if StrongEnd(text, i).None? && EmEnd(text, i).None? {
      NoEmphasisOk(g, text, i);
      return Ok(None);
    }
    var children := ParseInline(g, Inside(text, i), line);
    if children.Unsupported? {
      RefusedEmphasis(g, text, i);
      return Unsupported(children.line);
    }
    EmphasisOk(g, text, i, children.value);
    var m := if StrongEnd(text, i).Some? then SpanMatch(Strong(children.value), StrongEnd(text, i).value)
             else SpanMatch(Em(children.value), EmEnd(text, i).value);
    return Ok(Some(m));
  }

  // Every punctuation mark of the text stands behind a backslash, or is one.
  ghost predicate Escaped(t: string) {
    forall i :: 0 <= i < |t| && IsPunctuation(t[i]) && !Behind(t, 0, i) ==>
      t[i] == '\\' && i + 1 < |t| && IsPunctuation(t[i + 1])
  }

  lemma OnlyMarksStart(g: Grammar, text: string, i: nat, line: nat, r: Result<Option<SpanMatch>>)
    requires i < |text| && SpanOk(g, text, i, line, r) && !(r.Ok? && r.value.None?)
    ensures IsPunctuation(text[i])
  {
    if r.Ok? { SpanIsNotIdle(g, text, i, r.value.value.next, r.value.value.node); }
    hide Idle, Spells;
    OnlyMarksAreNotIdle(g, text, i);
  }

  // The text with a backslash put before every punctuation mark.
  ghost function Escape(v: string): string {
    if v == "" then ""
    else
      var c := v[|v| - 1];
      Escape(v[..|v| - 1]) + if IsPunctuation(c) then ['\\', c] else [c]
  }

  lemma {:induction false} PrefixOfText(t: string, more: string, i: nat)
    requires i <= |t|
    ensures Slashes(t + more, 0, i) == Slashes(t, 0, i)
    ensures Plain(t + more, 0, i) == Plain(t, 0, i)
  {
    if i > 0 {
      PrefixOfText(t, more, i - 1);
      if i > 1 { PrefixOfText(t, more, i - 2); }
    }
  }

  lemma BackslashIsMark()
    ensures IsPunctuation('\\')
  {
  }

  // Escaped text with one more character is escaped, and stands for one more.
  lemma EscapeStep(e: string, c: char)
    requires Escaped(e) && !Behind(e, 0, |e|)
    ensures var t := e + if IsPunctuation(c) then ['\\', c] else [c];
      Escaped(t) && Plain(t, 0, |t|) == Plain(e, 0, |e|) + [c] && !Behind(t, 0, |t|)
  {
    BackslashIsMark();
    hide IsPunctuation;
    var more := if IsPunctuation(c) then ['\\', c] else [c];
    var t := e + more;
    PrefixOfText(e, more, |e|);
    if |more| == 2 { assert Behind(t, 0, |e| + 1); }
    assert Escaped(t) by {
      hide Plain;
      forall i | 0 <= i < |e|
        ensures t[i] == e[i] && Behind(t, 0, i) == Behind(e, 0, i)
      {
        PrefixOfText(e, more, i);
      }
    }
  }

  // Whatever the text, it can be written so that nothing in it is taken for a construct.
  lemma {:induction false} EscapeReadsBack(v: string)
    ensures var t := Escape(v);
      Escaped(t) && Plain(t, 0, |t|) == v && !Behind(t, 0, |t|)
  {
    if v != "" {
      EscapeReadsBack(v[..|v| - 1]);
      EscapeStep(Escape(v[..|v| - 1]), v[|v| - 1]);
      assert v == v[..|v| - 1] + [v[|v| - 1]];
    }
  }

  // What comes out is the one reading the text has, and an error says that it has none;
  // fully escaped text comes out as itself.
  method ParseInline(g: Grammar, text: string, line: nat) returns (r: Result<seq<Inline>>)
    ensures r.Ok? ==> SpeltAll(g, text, r.value)
    ensures r.Unsupported? ==> r.line == line && Unreadable(g, text)
    ensures Escaped(text) ==> r == Ok(Flushed([], Plain(text, 0, |text|)))
    decreases |text|, 1
  {
    var nodes: seq<Inline> := [];
    var buf := "";
    var i: nat := 0;
    ghost var from: nat := 0;
    hide Spelt, Spells, Idle, Plain, AllIdle;
    while i < |text|
      invariant Read(g, text, from, i, nodes, buf)
      invariant Escaped(text) ==> nodes == [] && from == 0
      decreases |text| - i
    {
      var ch := text[i];
      if ch == '\\' && i + 1 < |text| && IsPunctuation(text[i + 1]) {
        ReadEscape(g, text, from, i, nodes, buf);
        buf := buf + [text[i + 1]];
        i := i + 2;
        continue;
      }
      var span := ParseSpan(g, text, i, line);
      if !(span.Ok? && span.value.None?) { OnlyMarksStart(g, text, i, line, span); }
      if span.Unsupported? {
        RefusedText(g, text, from, i, nodes, buf);
        return Unsupported(span.line);
      }
      if span.value.Some? {
        var m := span.value.value;
        ReadNode(g, text, from, i, m.next, nodes, buf, m.node);
        nodes := Flushed(nodes, buf) + [m.node];
        buf := "";
        i := m.next;
        from := i;
        continue;
      }
      ReadChar(g, text, from, i, nodes, buf);
      buf := buf + [ch];
      i := i + 1;
    }
    ReadFlush(g, text, from, i, nodes, buf);
    return Ok(Flushed(nodes, buf));
  }
}
