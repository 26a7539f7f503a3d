/** From documents to events: what the parser reports of elements, attributes and texts that are written out, whatever
    blanks are around them. */
module XmlTrees {
  import opened XmlSyntax
  import opened XmlEvents

  // ---------------------------------------------------------------- documents as trees

  predicate Blank(text: string) { forall i :: 0 <= i < |text| ==> text[i] == ' ' || '\t' <= text[i] <= '\r' }

  predicate Letter(c: char) { 'a' <= c <= 'z' || 'A' <= c <= 'Z' || c == '_' }

  predicate NameChar(c: char) { Letter(c) || '0' <= c <= '9' || c == '-' || c == '.' || c == ':' }

  predicate Named(name: string) { name != "" && Letter(name[0]) && forall i :: 0 <= i < |name| ==> NameChar(name[i]) }

  /** No delimiter but behind a backslash, which protects any character. */
  predicate Quotable(value: string, quote: char) {
    if value == "" then true
    else if value[0] == '\\' then |value| > 1 && Quotable(value[2..], quote)
    else value[0] != quote && Quotable(value[1..], quote)
  }

  /** An attribute as it is written, with the blanks before its key and around its equal sign. */
  datatype Mark = Mark(before: string, key: string, afterKey: string, beforeValue: string, value: string, quote: char) {
    predicate Valid() {
      && Blank(before) && Named(key) && Blank(afterKey) && Blank(beforeValue)
      && (quote == '"' || quote == '\'') && Quotable(value, quote)
    }

    /** From the key on. */
    function Pair(): string { key + (afterKey + ("=" + (beforeValue + ([quote] + (value + [quote]))))) }

    function Written(): string { before + Pair() }
  }

  function AllWritten(marks: seq<Mark>): string {
    if marks == [] then "" else marks[0].Written() + AllWritten(marks[1..])
  }

  function Attributes(marks: seq<Mark>): (attributes: seq<Attribute>)
    ensures |attributes| == |marks|
  {
    seq(|marks|, i requires 0 <= i < |marks| => Attribute(marks[i].key, marks[i].value))
  }

  /** A blank separates the name from the first attribute. */
  predicate AllValid(marks: seq<Mark>) {
    (forall i :: 0 <= i < |marks| ==> marks[i].Valid()) && (marks != [] ==> marks[0].before != "")
  }

  datatype Item =
    | Empty(name: string, marks: seq<Mark>, gap: string)
    | Element(name: string, marks: seq<Mark>, gap: string, content: Content, endGap: string)
    | Info(name: string, marks: seq<Mark>, gap: string)

  /** Texts, and items between them. */
  datatype Content = Last(text: string) | Then(text: string, item: Item, rest: Content)

  function Head(item: Item): string { item.name + (AllWritten(item.marks) + item.gap) }

  function StartText(item: Item, close: string): string { "<" + (Head(item) + close) }

  function EndText(name: string, gap: string): string { "</" + (name + (gap + ">")) }

  function Written(item: Item): string {
    match item
    case Empty(_, _, _) => StartText(item, "/>")
    case Info(_, _, _) => "<?" + (Head(item) + "?>")
    case Element(name, _, _, content, endGap) => StartText(item, ">") + (Text(content) + EndText(name, endGap))
  }

  function Text(content: Content): string {
    match content
    case Last(text) => text
    case Then(text, item, rest) => text + (Written(item) + Text(rest))
  }

  predicate ItemValid(item: Item) {
    && Named(item.name) && AllValid(item.marks) && Blank(item.gap)
    && (item.Element? ==> ContentValid(item.content) && Blank(item.endGap))
  }

  predicate NoTag(text: string) { forall i :: 0 <= i < |text| ==> text[i] != '<' }

  predicate ContentValid(content: Content) {
    match content
    case Last(text) => NoTag(text)
    case Then(text, item, rest) => NoTag(text) && ItemValid(item) && ContentValid(rest)
  }

  /** Nothing but blanks between the items. */
  predicate OnlyItems(content: Content) {
    match content
    case Last(text) => Blank(text)
    case Then(text, item, rest) => Blank(text) && OnlyItems(rest)
  }

  function TrimStart(text: string): string {
    if text != "" && Blank([text[0]]) then TrimStart(text[1..]) else text
  }

  function TrimEnd(text: string): string {
    if text != "" && Blank([text[|text| - 1]]) then TrimEnd(text[..|text| - 1]) else text
  }

  function Trim(text: string): string { TrimEnd(TrimStart(text)) }

  // ---------------------------------------------------------------- what is to be reported

  function TextEvents(name: string, text: string): seq<Event> {
    if Trim(text) == "" then [] else [Inner(name, Trim(text))]
  }

  function ItemEvents(item: Item): seq<Event>
    decreases item
  {
    match item
    case Empty(name, marks, _) => [Start(name, Attributes(marks)), End(name)]
    case Info(name, marks, _) => [Infos(name, Attributes(marks))]
    case Element(name, marks, _, content, _) =>
      [Start(name, Attributes(marks))] + (ContentEvents(name, content) + [End(name)])
  }

  /** The events of the content of the element `name`. */
  function ContentEvents(name: string, content: Content): seq<Event>
    decreases content
  {
    match content
    case Last(text) => TextEvents(name, text)
    case Then(text, item, rest) => TextEvents(name, text) + (ItemEvents(item) + ContentEvents(name, rest))
  }

  // ---------------------------------------------------------------- pieces of a text

  predicate At(text: string, i: nat, piece: string) { i + |piece| <= |text| && text[i..i + |piece|] == piece }

  lemma AtBoth(text: string, i: nat, a: string, b: string)
    requires At(text, i, a + b)
    ensures At(text, i, a) && At(text, i + |a|, b)
  {
    assert text[i..i + |a|] == (a + b)[..|a|];
    assert text[i + |a|..i + |a| + |b|] == (a + b)[|a|..];
  }

  lemma AtFirst(text: string, i: nat, piece: string)
    requires At(text, i, piece) && piece != ""
    ensures i < |text| && text[i] == piece[0] && At(text, i + 1, piece[1..])
  {
    assert text[i] == text[i..i + |piece|][0];
    assert text[i + 1..i + |piece|] == text[i..i + |piece|][1..];
  }

  lemma AtIs(text: string, i: nat, piece: string)
    requires At(text, i, piece)
    ensures i + |piece| <= |text| && text[i..i + |piece|] == piece
  {
  }

  lemma {:induction false} BlankIsSkipped(text: string, i: nat, blank: string)
    requires At(text, i, blank) && Blank(blank)
    ensures SkipSpaces(text, i) == SkipSpaces(text, i + |blank|)
    decreases |blank|
  {
    if blank != "" {
      AtFirst(text, i, blank);
      BlankIsSkipped(text, i + 1, blank[1..]);
    }
  }

  lemma {:induction false} NameIsRead(text: string, i: nat, name: string)
    requires At(text, i, name) && forall k :: 0 <= k < |name| ==> NameChar(name[k])
    ensures NameEnd(text, i) == NameEnd(text, i + |name|)
    decreases |name|
  {
    if name != "" {
      AtFirst(text, i, name);
      assert IsXml(text[i]);
      NameIsRead(text, i + 1, name[1..]);
    }
  }

  /** A name ends where something else than a name goes on. */
  lemma NameIs(text: string, i: nat, name: string, markers: string)
    requires At(text, i, name) && Named(name)
    requires i + |name| < |text| && !NameChar(text[i + |name|]) && EndsName(text[i + |name|], markers)
    ensures ScanName(text, i, markers) == NameAt(i, |name|)
  {
    AtFirst(text, i, name);
    NameIsRead(text, i + 1, name[1..]);
    var j := i + |name|;
    assert !IsXml(text[j]);
    assert NameEnd(text, j) == j;
  }

  // ---------------------------------------------------------------- attributes

  lemma {:induction false} EqualIs(text: string, i: nat, blank: string)
    requires At(text, i, blank + "=") && Blank(blank)
    ensures i < |text| && EqualSign(text, i) == Some(i + |blank|)
    decreases |blank|
  {
    AtBoth(text, i, blank, "=");
    if blank == "" {
      AtFirst(text, i, "=");
    } else {
      AtFirst(text, i, blank);
      AtFirst(text, i, blank + "=");
      assert (blank + "=")[1..] == blank[1..] + "=";
      EqualIs(text, i + 1, blank[1..]);
    }
  }

  lemma {:induction false} ValueIs(text: string, i: nat, value: string, quote: char)
    requires At(text, i, value + [quote]) && Quotable(value, quote) && quote != '\\'
    ensures i < |text| && ValueEnd(text, i, quote) == Some(i + |value|)
    decreases |value|
  {
    AtFirst(text, i, value + [quote]);
    if value != "" {
      var width := if value[0] == '\\' then 2 else 1;
      assert (value + [quote])[width..] == value[width..] + [quote];
      AtBoth(text, i, value[..width], value[width..] + [quote]);
      assert value + [quote] == value[..width] + (value[width..] + [quote]);
      ValueIs(text, i + width, value[width..], quote);
    }
  }

  /** `key="value"`, with blanks around the equal sign, is this key with this value, whatever follows. */
  lemma AttributeIs(text: string, i: nat, m: Mark)
    requires At(text, i, m.Pair()) && m.Valid()
    ensures i < |text| && ScanAttribute(text, i) == AttributeAt(Attribute(m.key, m.value), i + |m.Pair()|)
  {
    var k := i + |m.key|;
    var e := k + |m.afterKey|;
    var q := e + 1 + |m.beforeValue|;
    KeyIs(text, i, m, k, e, q);
    QuoteIs(text, i, m, k, e, q);
    ValueFound(text, i, m, k, e, q);
    hide At, Mark.Pair, Mark.Valid, ScanName, EqualSign, ValueEnd, SkipSpaces;
    ScanIs(text, i, m, k, e, q);
  }

  lemma ScanIs(text: string, i: nat, m: Mark, k: nat, e: nat, q: nat)
    requires i < |text| && k == i + |m.key| && k < |text| && ScanName(text, i, "=") == NameAt(i, |m.key|) && text[i..k] == m.key
    requires EqualSign(text, k) == Some(e) && e + 1 < |text| && SkipSpaces(text, e + 1) == q && q + 1 < |text|
    requires text[q] == m.quote && (m.quote == '"' || m.quote == '\'')
    requires ValueEnd(text, q + 1, m.quote) == Some(q + 1 + |m.value|) && text[q + 1..q + 1 + |m.value|] == m.value
    ensures ScanAttribute(text, i) == AttributeAt(Attribute(m.key, m.value), q + 1 + |m.value| + 1)
  {
    hide ScanName, EqualSign, ValueEnd, SkipSpaces;
  }

  lemma KeyIs(text: string, i: nat, m: Mark, k: nat, e: nat, q: nat)
    requires At(text, i, m.Pair()) && m.Valid()
    requires k == i + |m.key| && e == k + |m.afterKey| && q == e + 1 + |m.beforeValue|
    ensures i < k < |text| && ScanName(text, i, "=") == NameAt(i, |m.key|) && text[i..k] == m.key
    ensures EqualSign(text, k) == Some(e)
  {
    PairParts(text, i, m, k, e, q);
    hide At, Mark.Pair, ScanName, EqualSign, Quotable;
    EqualIs(text, k, m.afterKey);
    KeyEnds(text, k, m.afterKey);
    NameIs(text, i, m.key, "=");
    AtIs(text, i, m.key);
  }

  lemma QuoteIs(text: string, i: nat, m: Mark, k: nat, e: nat, q: nat)
    requires At(text, i, m.Pair()) && m.Valid()
    requires k == i + |m.key| && e == k + |m.afterKey| && q == e + 1 + |m.beforeValue|
    ensures q + 1 < |text| && SkipSpaces(text, e + 1) == q && text[q] == m.quote && (m.quote == '"' || m.quote == '\'')
    ensures q + 1 + |m.value| + 1 == i + |m.Pair()|
  {
    PairParts(text, i, m, k, e, q);
    hide At, Mark.Pair, Quotable, Named, SkipSpaces, Blank;
    BlankThen(text, e + 1, m.beforeValue, q);
  }

  lemma ValueFound(text: string, i: nat, m: Mark, k: nat, e: nat, q: nat)
    requires At(text, i, m.Pair()) && m.Valid()
    requires k == i + |m.key| && e == k + |m.afterKey| && q == e + 1 + |m.beforeValue|
    ensures q + 1 < |text| && ValueEnd(text, q + 1, m.quote) == Some(q + 1 + |m.value|)
    ensures q + 1 + |m.value| <= |text| && text[q + 1..q + 1 + |m.value|] == m.value
  {
    PairParts(text, i, m, k, e, q);
    hide At, Mark.Pair, Quotable, Named, ValueEnd, Blank;
    ValueIs(text, q + 1, m.value, m.quote);
    AtIs(text, q + 1, m.value);
  }

  lemma BlankThen(text: string, i: nat, blank: string, j: nat)
    requires At(text, i, blank) && Blank(blank) && j == i + |blank| && j < |text| && !IsSpace(text[j])
    ensures SkipSpaces(text, i) == j
  {
    BlankIsSkipped(text, i, blank);
    NoBlank(text, j);
  }

  lemma NoBlank(text: string, i: nat)
    requires i < |text| && !IsSpace(text[i])
    ensures SkipSpaces(text, i) == i
  {
  }

  lemma KeyEnds(text: string, k: nat, blank: string)
    requires At(text, k, blank + "=") && Blank(blank)
    ensures k < |text| && !NameChar(text[k]) && EndsName(text[k], "=")
  {
    AtFirst(text, k, blank + "=");
  }

  /** The pieces of a written attribute. */
  lemma PairParts(text: string, i: nat, m: Mark, k: nat, e: nat, q: nat)
    requires At(text, i, m.Pair())
    requires k == i + |m.key| && e == k + |m.afterKey| && q == e + 1 + |m.beforeValue|
    ensures At(text, i, m.key) && At(text, k, m.afterKey + "=") && At(text, e + 1, m.beforeValue)
    ensures q + 1 < |text| && text[q] == m.quote && At(text, q + 1, m.value + [m.quote]) && At(text, q + 1, m.value)
    ensures q + 1 + |m.value| + 1 == i + |m.Pair()|
  {
    hide At;
    var tail := m.value + [m.quote];
    var fromQuote := [m.quote] + tail;
    var fromBlank := m.beforeValue + fromQuote;
    var fromEqual := "=" + fromBlank;
    AtBoth(text, i, m.key, m.afterKey + fromEqual);
    Regroup(m.afterKey, "=", fromBlank);
    AtBoth(text, k, m.afterKey + "=", fromBlank);
    AtBoth(text, e + 1, m.beforeValue, fromQuote);
    AtBoth(text, q, [m.quote], tail);
    AtFirst(text, q, [m.quote]);
    AtBoth(text, q + 1, m.value, [m.quote]);
    AtFirst(text, q + 1 + |m.value|, [m.quote]);
  }

  lemma Regroup(a: string, b: string, c: string)
    ensures a + (b + c) == (a + b) + c
  {
  }

  /** What ends a tag: `close` is `>`, `/>` or, for an information, `?>`. */
  predicate Closes(close: string, infos: bool) { close == ">" || close == "/>" || (infos && close == "?>") }

  lemma CloseIs(text: string, i: nat, close: string, infos: bool, name: string)
    requires At(text, i, close) && Closes(close, infos)
    ensures i < |text| && !IsSpace(text[i]) && !NameChar(text[i])
    ensures ScanClose(text, i, infos, name) == CloseAt(close == "/>", i + |close| - 1)
  {
    AtFirst(text, i, close);
    if |close| == 2 {
      AtFirst(text, i + 1, close[1..]);
    }
  }

  /** Attributes, a blank and the end of the tag. */
  lemma {:induction false} ListIs(text: string, i: nat, marks: seq<Mark>, gap: string, close: string, infos: bool, name: string,
                                  read: seq<Attribute>)
    requires At(text, i, AllWritten(marks) + (gap + close)) && Blank(gap) && Closes(close, infos)
    requires forall k :: 0 <= k < |marks| ==> marks[k].Valid()
    ensures ScanList(text, i, infos, name, read)
            == ListAt(read + Attributes(marks), close == "/>", i + |AllWritten(marks)| + |gap| + |close| - 1)
    decreases |marks|
  {
    hide At, Mark.Pair, ScanClose, ScanAttribute, SkipSpaces, Mark.Valid;
    if marks == [] {
      NothingWritten(text, i, gap, close);
      BlankIsSkipped(text, i, gap);
      CloseIs(text, i + |gap|, close, infos, name);
      NoBlank(text, i + |gap|);
      assert read + Attributes(marks) == read;
    } else {
      var m, more := marks[0], AllWritten(marks[1..]) + (gap + close);
      FirstWritten(text, i, marks, gap + close);
      var j := i + |m.before|;
      MarkIsBlank(m);
      BlankIsSkipped(text, i, m.before);
      AttributeIs(text, j, m);
      AttributeStarts(text, j, m);
      NoBlank(text, j);
      NotClosedAt(text, j, infos, name);
      var read' := read + [Attribute(m.key, m.value)];
      ListIs(text, i + |m.Written()|, marks[1..], gap, close, infos, name, read');
      assert read' + Attributes(marks[1..]) == read + Attributes(marks);
      AllWrittenIs(marks);
    }
  }

  lemma NothingWritten(text: string, i: nat, gap: string, close: string)
    requires At(text, i, AllWritten([]) + (gap + close)) && close != ""
    ensures At(text, i, gap) && At(text, i + |gap|, close) && i < |text| && AllWritten([]) == ""
  {
    assert AllWritten([]) + (gap + close) == gap + close;
    AtBoth(text, i, gap, close);
  }

  lemma MarkIsBlank(m: Mark)
    requires m.Valid()
    ensures Blank(m.before)
  {
  }

  lemma AllWrittenIs(marks: seq<Mark>)
    requires marks != []
    ensures AllWritten(marks) == marks[0].Written() + AllWritten(marks[1..])
    ensures |marks[0].Written()| == |marks[0].before| + |marks[0].Pair()|
  {
  }

  lemma FirstWritten(text: string, i: nat, marks: seq<Mark>, tail: string)
    requires At(text, i, AllWritten(marks) + tail) && marks != []
    ensures At(text, i, marks[0].before) && At(text, i + |marks[0].before|, marks[0].Pair())
    ensures At(text, i + |marks[0].Written()|, AllWritten(marks[1..]) + tail)
    ensures |marks[0].Written()| == |marks[0].before| + |marks[0].Pair()|
  {
    var m, more := marks[0], AllWritten(marks[1..]);
    hide At, Mark.Pair;
    Regroup(m.Written(), more, tail);
    AtBoth(text, i, m.Written(), more + tail);
    AtBoth(text, i, m.before, m.Pair());
  }

  lemma AttributeStarts(text: string, i: nat, m: Mark)
    requires At(text, i, m.Pair()) && m.Valid()
    ensures i < |text| && Letter(text[i]) && !IsSpace(text[i])
  {
    var k := i + |m.key|;
    PairParts(text, i, m, k, k + |m.afterKey|, k + |m.afterKey| + 1 + |m.beforeValue|);
    AtFirst(text, i, m.key);
  }

  lemma NotClosedAt(text: string, i: nat, infos: bool, name: string)
    requires i < |text| && Letter(text[i])
    ensures ScanClose(text, i, infos, name) == NotClosed
  {
  }

  lemma NameEnds(text: string, j: nat, marks: seq<Mark>, gap: string, close: string, infos: bool)
    requires At(text, j, AllWritten(marks) + (gap + close)) && AllValid(marks) && Blank(gap) && Closes(close, infos)
    requires infos ==> close == "?>"
    requires !infos ==> close != "?>"
    ensures j < |text| && !NameChar(text[j]) && EndsName(text[j], if infos then "?" else "/>")
  {
    AtFirst(text, j, AllWritten(marks) + (gap + close));
    if marks != [] {
      assert (AllWritten(marks) + (gap + close))[0] == marks[0].before[0];
    } else if gap != "" {
      assert (AllWritten(marks) + (gap + close))[0] == gap[0];
    } else {
      assert AllWritten(marks) + (gap + close) == close;
    }
  }

  /** A start tag, or an information behind its question mark, from the name on. */
  lemma StartIs(text: string, i: nat, item: Item, close: string, start: nat, end: nat)
    requires Named(item.name) && AllValid(item.marks) && Blank(item.gap)
    requires Closes(close, item.Info?) && (item.Info? <==> close == "?>")
    requires start == (if item.Info? then i + 1 else i) && end == start + |Head(item) + close|
    requires At(text, start, Head(item) + close) && i < |text| && (item.Info? <==> text[i] == '?')
    ensures ScanStart(text, i)
            == StartAt(item.Info?, Tag(start, |item.name|, close == "/>"), Attributes(item.marks), SkipSpaces(text, end))
  {
    var name, list := item.name, AllWritten(item.marks) + (item.gap + close);
    var j := start + |name|;
    HeadIs(item, close);
    hide At, ScanName, ScanList, ScanStart, AllWritten, Named, AllValid, Head, SkipSpaces, Attributes, Blank, EndsName, NameChar;
    AtBoth(text, start, name, list);
    AtIs(text, start, name);
    NameEnds(text, j, item.marks, item.gap, close, item.Info?);
    NameIs(text, start, name, if item.Info? then "?" else "/>");
    NamedIsNotEmpty(name);
    ListEnds(text, j, item, close, end);
    ScanStartIs(text, i, item.Info?, start, name, Attributes(item.marks), close == "/>", end);
  }

  lemma ListEnds(text: string, j: nat, item: Item, close: string, end: nat)
    requires At(text, j, AllWritten(item.marks) + (item.gap + close)) && AllValid(item.marks) && Blank(item.gap)
    requires Closes(close, item.Info?) && end == j + |AllWritten(item.marks) + (item.gap + close)|
    ensures ScanList(text, j, item.Info?, item.name, []) == ListAt(Attributes(item.marks), close == "/>", end - 1) && end <= |text|
  {
    AtIs(text, j, AllWritten(item.marks) + (item.gap + close));
    MarksAreValid(item.marks);
    hide At, AllWritten, AllValid, ScanList;
    ListIs(text, j, item.marks, item.gap, close, item.Info?, item.name, []);
    assert [] + Attributes(item.marks) == Attributes(item.marks);
  }

  lemma ScanStartIs(text: string, i: nat, infos: bool, start: nat, name: string, attributes: seq<Attribute>, full: bool, end: nat)
    requires i < |text| && (infos <==> text[i] == '?') && start == (if infos then i + 1 else i)
    requires name != "" && start + |name| < |text| && text[start..start + |name|] == name
    requires ScanName(text, start, if infos then "?" else "/>") == NameAt(start, |name|)
    requires 0 < end <= |text| && ScanList(text, start + |name|, infos, name, []) == ListAt(attributes, full, end - 1)
    ensures ScanStart(text, i) == StartAt(infos, Tag(start, |name|, full), attributes, SkipSpaces(text, end))
  {
    hide ScanName, ScanList, SkipSpaces;
  }

  lemma NamedIsNotEmpty(name: string)
    requires Named(name)
    ensures name != ""
  {
  }

  lemma HeadIs(item: Item, close: string)
    ensures Head(item) + close == item.name + (AllWritten(item.marks) + (item.gap + close))
  {
    hide AllWritten;
    Regroup(AllWritten(item.marks), item.gap, close);
    Regroup(item.name, AllWritten(item.marks) + item.gap, close);
  }

  lemma MarksAreValid(marks: seq<Mark>)
    requires AllValid(marks)
    ensures forall k :: 0 <= k < |marks| ==> marks[k].Valid()
  {
  }

  /** An end tag, from its slash on. */
  lemma EndIs(text: string, i: nat, name: string, gap: string)
    requires At(text, i, "/" + (name + (gap + ">"))) && Blank(gap)
    ensures i < |text| && ScanEnd(text, i, name) == EndAt(SkipSpaces(text, i + |"/" + (name + (gap + ">"))|))
  {
    var j := i + 1 + |name|;
    var k := j + |gap|;
    hide At, SkipSpaces, Blank;
    AtBoth(text, i, "/", name + (gap + ">"));
    AtBoth(text, i + 1, name, gap + ">");
    AtBoth(text, j, gap, ">");
    AtIs(text, i + 1, name);
    AtFirst(text, k, ">");
    BlankThen(text, j, gap, k);
  }

  // ---------------------------------------------------------------- from one point of the document to another

  /** From `s` the parser reports `events` and is at `t`. */
  ghost predicate Leads(doc: Document, s: State, events: seq<Event>, t: State) {
    Wf(doc, s) && Wf(doc, t) && Trace(doc, s) == events + Trace(doc, t)
  }

  lemma LeadsEmit(doc: Document, s: State, event: Event, t: State)
    requires Wf(doc, s) && NextMove(doc, s) == Emit(event, t)
    ensures Leads(doc, s, [event], t)
  {
    hide NextMove;
  }

  lemma LeadsSilent(doc: Document, s: State, t: State)
    requires Wf(doc, s) && NextMove(doc, s) == Silent(t)
    ensures Leads(doc, s, [], t)
  {
    hide NextMove;
    assert [] + Trace(doc, t) == Trace(doc, t);
  }

  lemma LeadsBoth(doc: Document, s: State, a: seq<Event>, t: State, b: seq<Event>, u: State)
    requires Leads(doc, s, a, t) && Leads(doc, t, b, u)
    ensures Leads(doc, s, a + b, u)
  {
    hide Wf;
    assert a + (b + Trace(doc, u)) == (a + b) + Trace(doc, u);
  }

  /** And silently on. */
  lemma LeadsOn(doc: Document, s: State, a: seq<Event>, t: State, u: State)
    requires Leads(doc, s, a, t) && Leads(doc, t, [], u)
    ensures Leads(doc, s, a, u)
  {
    hide Leads;
    LeadsBoth(doc, s, a, t, [], u);
    assert a + [] == a;
  }

  lemma LeadsFrom(doc: Document, s: State, t: State, b: seq<Event>, u: State)
    requires Leads(doc, s, [], t) && Leads(doc, t, b, u)
    ensures Leads(doc, s, b, u)
  {
    hide Leads;
    LeadsBoth(doc, s, [], t, b, u);
    assert [] + b == b;
  }

  lemma LeadsNowhere(doc: Document, s: State)
    requires Wf(doc, s)
    ensures Leads(doc, s, [], s)
  {
    hide Wf;
    assert [] + Trace(doc, s) == Trace(doc, s);
  }

  /** Between two items: nothing collected, nothing to close. */
  ghost predicate Ready(doc: Document, s: State) {
    Wf(doc, s) && s.started && s.inner == None && !TopFull(s) && s.current <= |doc.text|
  }

  function To(s: State, i: nat): State { s.(current := i) }

  lemma ReadyThere(doc: Document, s: State, i: nat)
    requires Ready(doc, s) && i <= |doc.text|
    ensures Ready(doc, To(s, i)) && Wf(doc, s)
  {
  }

  /** The name of the innermost element. */
  function TopOf(doc: Document, tags: seq<Tag>): string {
    if tags == [] then "" else
      var tag := tags[|tags| - 1];
      if tag.start + tag.size <= |doc.text| then Name(doc, tag) else ""
  }

  lemma {:induction false} SpacesAreSilent(doc: Document, s: State)
    requires Ready(doc, s)
    ensures Leads(doc, s, [], To(s, SkipSpaces(doc.text, s.current)))
    decreases |doc.text| - s.current
  {
    if s.current < |doc.text| && IsSpace(doc.text[s.current]) {
      var t, end := To(s, s.current + 1), To(s, SkipSpaces(doc.text, s.current));
      assert To(t, SkipSpaces(doc.text, t.current)) == end;
      hide Leads, SkipSpaces, Wf, TopFull;
      SpaceIsSilent(doc, s);
      SpacesAreSilent(doc, t);
      LeadsOn(doc, s, [], t, end);
    } else {
      LeadsNowhere(doc, s);
    }
  }

  lemma SpaceIsSilent(doc: Document, s: State)
    requires Ready(doc, s) && s.current < |doc.text| && IsSpace(doc.text[s.current])
    ensures Ready(doc, To(s, s.current + 1)) && Leads(doc, s, [], To(s, s.current + 1))
  {
    assert NextMove(doc, s) == Silent(To(s, s.current + 1));
    LeadsSilent(doc, s, To(s, s.current + 1));
  }

  /** Two points with only blanks between them. */
  lemma SamePoint(doc: Document, s: State, i: nat)
    requires Ready(doc, s) && i <= |doc.text| && SkipSpaces(doc.text, s.current) == SkipSpaces(doc.text, i)
    ensures Leads(doc, s, [], To(s, i)) && Leads(doc, To(s, i), [], s)
  {
    var t, end := To(s, i), To(s, SkipSpaces(doc.text, i));
    ReadyThere(doc, s, i);
    hide Ready, SkipSpaces;
    SpacesAreSilent(doc, s);
    SpacesAreSilent(doc, t);
    assert To(t, SkipSpaces(doc.text, i)) == end;
    hide Wf;
    assert [] + Trace(doc, end) == Trace(doc, end) && [] + Trace(doc, s) == Trace(doc, s) && [] + Trace(doc, t) == Trace(doc, t);
  }

  const OPENED: State := Init.(started := true)

  lemma {:induction false} NotStarted(doc: Document, i: nat)
    requires i <= |doc.text|
    ensures Leads(doc, To(Init, i), [], To(Init, SkipSpaces(doc.text, i)))
    decreases |doc.text| - i
  {
    var s := To(Init, i);
    if i < |doc.text| && IsSpace(doc.text[i]) {
      assert NextMove(doc, s) == Silent(To(Init, i + 1));
      LeadsSilent(doc, s, To(Init, i + 1));
      NotStarted(doc, i + 1);
      hide Leads;
      LeadsOn(doc, s, [], To(Init, i + 1), To(Init, SkipSpaces(doc.text, i)));
    } else {
      LeadsNowhere(doc, s);
    }
  }

  /** The document starts at its first tag, or at its end. */
  lemma Opening(doc: Document, blank: string)
    requires At(doc.text, 0, blank) && Blank(blank)
    requires |blank| == |doc.text| || doc.text[|blank|] == '<'
    ensures Ready(doc, OPENED) && Leads(doc, Init, [StartDocument], OPENED)
  {
    var i := |blank|;
    BlankIsSkipped(doc.text, 0, blank);
    assert SkipSpaces(doc.text, i) == i;
    var s, t := To(Init, i), To(OPENED, i);
    NotStarted(doc, 0);
    assert To(Init, 0) == Init && Ready(doc, OPENED);
    assert NextMove(doc, s) == Emit(StartDocument, t);
    hide SkipSpaces, At, NextMove;
    LeadsEmit(doc, s, StartDocument, t);
    SamePoint(doc, OPENED, i);
    hide Leads;
    LeadsFrom(doc, Init, s, [StartDocument], t);
    LeadsOn(doc, Init, [StartDocument], t, OPENED);
  }

  // ---------------------------------------------------------------- texts

  /** What is collected, without the spaces that can be dropped: those at the end that are behind the first `n`
      characters, which a CDATA section protects. */
  ghost predicate Kept(p: Pending, n: nat) {
    n + p.spaces <= |p.content| && p.content[n..|p.content| - p.spaces] == TrimEnd(p.content[n..])
  }

  lemma BlankOne(c: char)
    ensures Blank([c]) <==> IsSpace(c)
  {
    assert [c][0] == c;
  }

  lemma TrimOneMore(text: string, c: char)
    ensures TrimEnd(text + [c]) == if IsSpace(c) then TrimEnd(text) else text + [c]
  {
    BlankOne(c);
    assert (text + [c])[..|text|] == text;
  }

  lemma OneMore(p: Pending, n: nat, c: char)
    requires Kept(p, n)
    ensures Kept(Pending(p.content + [c], if IsSpace(c) then p.spaces + 1 else 0), n)
  {
    hide TrimEnd, IsSpace;
    TrimOneMore(p.content[n..], c);
    Sliced(p.content, n, |p.content| - p.spaces, c);
  }

  lemma Sliced(a: string, n: nat, k: nat, c: char)
    requires n <= k <= |a|
    ensures (a + [c])[n..k] == a[n..k] && (a + [c])[n..] == a[n..] + [c] && (a + [c])[n..|a| + 1] == a[n..] + [c]
  {
  }

  /** What is reported of a text whose first `n` characters are protected. */
  function Reported(text: string, n: nat): string
    requires n <= |text|
  {
    text[..n] + TrimEnd(text[n..])
  }

  lemma KeptIsReported(p: Pending, n: nat)
    requires Kept(p, n)
    ensures n + p.spaces <= |p.content| && p.content[..|p.content| - p.spaces] == Reported(p.content, n)
  {
    var k := |p.content| - p.spaces;
    hide TrimEnd;
    assert p.content[..k] == p.content[..n] + p.content[n..k];
  }

  /** In a text that has begun. */
  ghost predicate Collecting(doc: Document, s: State, n: nat) {
    Wf(doc, s) && s.started && s.inner.Some? && Kept(s.inner.value, n)
  }

  function Collected(s: State, c: char): State
    requires s.inner.Some?
  {
    var p := s.inner.value;
    s.(current := s.current + 1, inner := Some(Pending(p.content + [c], if IsSpace(c) then p.spaces + 1 else 0)))
  }

  lemma CollectOne(doc: Document, s: State, n: nat)
    requires Collecting(doc, s, n) && s.current < |doc.text| && doc.text[s.current] != '<'
    ensures var t := Collected(s, doc.text[s.current]);
      Collecting(doc, t, n) && Leads(doc, s, [], t)
  {
    var t := Collected(s, doc.text[s.current]);
    OneMore(s.inner.value, n, doc.text[s.current]);
    hide Kept;
    assert NextMove(doc, s) == Silent(t);
    LeadsSilent(doc, s, t);
  }

  function Flushed(s: State, i: nat): State { s.(current := i, inner := None) }

  /** The rest of a text that has begun, up to the next tag. */
  lemma {:induction false} Collect(doc: Document, s: State, n: nat, text: string, i: nat)
    requires Collecting(doc, s, n) && At(doc.text, s.current, text) && NoTag(text)
    requires i == s.current + |text| && i < |doc.text| && doc.text[i] == '<' && !OpensCdata(doc.text, i)
    ensures n <= |s.inner.value.content| && Ready(doc, Flushed(s, i))
    ensures Leads(doc, s, [Inner(TopOf(doc, s.tags), Reported(s.inner.value.content + text, n))], Flushed(s, i))
    decreases |text|
  {
    var p := s.inner.value;
    if text == "" {
      assert p.content + text == p.content;
      Flush(doc, s, n);
    } else {
      AtFirst(doc.text, s.current, text);
      NoTagFirst(text);
      var t := Collected(s, text[0]);
      CollectedText(s, text, i);
      hide At, Collecting, OpensCdata, Ready, NoTag, Leads, TopOf, Reported, Collected, Flushed;
      CollectOne(doc, s, n);
      CollectingIs(doc, s, n);
      Collect(doc, t, n, text[1..], i);
      LeadsFrom(doc, s, t, [Inner(TopOf(doc, s.tags), Reported(p.content + text, n))], Flushed(s, i));
    }
  }

  lemma CollectingIs(doc: Document, s: State, n: nat)
    requires Collecting(doc, s, n)
    ensures s.inner.Some? && n <= |s.inner.value.content|
  {
  }

  lemma CollectedText(s: State, text: string, i: nat)
    requires s.inner.Some? && text != ""
    ensures var t := Collected(s, text[0]);
      && t.current == s.current + 1 && t.tags == s.tags && t.inner.Some? && Flushed(t, i) == Flushed(s, i)
      && t.inner.value.content + text[1..] == s.inner.value.content + text
  {
    assert s.inner.value.content + text == (s.inner.value.content + [text[0]]) + text[1..];
  }

  lemma NoTagFirst(text: string)
    requires NoTag(text) && text != ""
    ensures text[0] != '<' && NoTag(text[1..])
  {
  }

  lemma Flush(doc: Document, s: State, n: nat)
    requires Collecting(doc, s, n) && s.current < |doc.text| && doc.text[s.current] == '<' && !OpensCdata(doc.text, s.current)
    ensures n <= |s.inner.value.content| && Ready(doc, Flushed(s, s.current))
    ensures Leads(doc, s, [Inner(TopOf(doc, s.tags), Reported(s.inner.value.content, n))], Flushed(s, s.current))
  {
    var event, t := Inner(TopOf(doc, s.tags), Reported(s.inner.value.content, n)), Flushed(s, s.current);
    KeptIsReported(s.inner.value, n);
    hide OpensCdata, Kept, Reported;
    assert NextMove(doc, s) == Emit(event, t);
    LeadsEmit(doc, s, event, t);
  }

  lemma {:induction false} TrimOfBlank(text: string)
    ensures Blank(text) <==> Trim(text) == ""
    ensures Blank(text) ==> TrimStart(text) == ""
    decreases |text|
  {
    if text != "" {
      TrimOfBlank(text[1..]);
      assert text == [text[0]] + text[1..];
      BlankBoth([text[0]], text[1..]);
      if !Blank([text[0]]) {
        EndStays(text, 0);
      }
    } else {
      assert TrimEnd("") == "";
    }
  }

  lemma BlankBoth(a: string, b: string)
    ensures Blank(a + b) <==> Blank(a) && Blank(b)
  {
    assert Blank(a + b) ==> Blank(a) && Blank(b) by {
      assert forall k :: 0 <= k < |a| ==> (a + b)[k] == a[k];
      assert forall k :: 0 <= k < |b| ==> (a + b)[|a| + k] == b[k];
    }
  }

  /** What ends a text at most up to a character that is no blank. */
  lemma {:induction false} EndStays(text: string, i: nat)
    requires i < |text| && !Blank([text[i]])
    ensures TrimEnd(text) != ""
    decreases |text|
  {
    if i < |text| - 1 && Blank([text[|text| - 1]]) {
      EndStays(text[..|text| - 1], i);
    }
  }

  /** A text that is not blank, from its first character that is no blank. */
  lemma {:induction false} Begun(text: string) returns (before: string, rest: string)
    requires !Blank(text)
    ensures rest != "" && !Blank([rest[0]]) && Blank(before) && text == before + rest && TrimStart(text) == rest
    decreases |text|
  {
    if Blank([text[0]]) {
      assert text == [text[0]] + text[1..];
      before, rest := Begun(text[1..]);
      before := [text[0]] + before;
    } else {
      before, rest := "", text;
    }
  }

  /** A text between two tags, or a blank one anywhere. */
  lemma TextIs(doc: Document, s: State, text: string, i: nat)
    requires Ready(doc, s) && At(doc.text, s.current, text) && NoTag(text) && i == s.current + |text|
    requires Blank(text) || (s.tags != [] && i < |doc.text| && doc.text[i] == '<' && !OpensCdata(doc.text, i))
    ensures Ready(doc, To(s, i)) && Leads(doc, s, TextEvents(TopOf(doc, s.tags), text), To(s, i))
  {
    AtIs(doc.text, s.current, text);
    TrimOfBlank(text);
    ReadyThere(doc, s, i);
    hide Ready, At, OpensCdata, Leads;
    if Blank(text) {
      BlankIsSkipped(doc.text, s.current, text);
      SamePoint(doc, s, i);
    } else {
      var before, rest := Begun(text);
      hide Blank, NoTag, TrimStart, TrimEnd;
      WordIs(doc, s, before, rest, i);
    }
  }

  lemma WordIs(doc: Document, s: State, before: string, rest: string, i: nat)
    requires Ready(doc, s) && s.tags != [] && At(doc.text, s.current, before + rest) && NoTag(before + rest)
    requires Blank(before) && rest != "" && !Blank([rest[0]])
    requires i == s.current + |before + rest| && i < |doc.text| && doc.text[i] == '<' && !OpensCdata(doc.text, i)
    ensures Leads(doc, s, [Inner(TopOf(doc, s.tags), TrimEnd(rest))], To(s, i))
  {
    var j := s.current + |before|;
    var u, event := To(s, j), Inner(TopOf(doc, s.tags), TrimEnd(rest));
    AtBoth(doc.text, s.current, before, rest);
    AtIs(doc.text, s.current, before);
    BlankIsSkipped(doc.text, s.current, before);
    NoTagBehind(before, rest);
    ReadyThere(doc, s, j);
    hide Ready, At, OpensCdata, Leads, SkipSpaces, NoTag, Blank, TopOf;
    SamePoint(doc, s, j);
    WordBegins(doc, u, rest, i);
    LeadsFrom(doc, s, u, [event], To(s, i));
  }

  lemma WordBegins(doc: Document, s: State, rest: string, i: nat)
    requires Ready(doc, s) && s.tags != [] && At(doc.text, s.current, rest) && NoTag(rest) && rest != "" && !Blank([rest[0]])
    requires i == s.current + |rest| && i < |doc.text| && doc.text[i] == '<' && !OpensCdata(doc.text, i)
    ensures Leads(doc, s, [Inner(TopOf(doc, s.tags), TrimEnd(rest))], To(s, i))
  {
    var v := Opened(s, rest[0]);
    AtFirst(doc.text, s.current, rest);
    NoTagFirst(rest);
    FirstOfWord(doc, s);
    assert s.inner == None && Flushed(v, i) == To(s, i);
    hide Ready, At, OpensCdata, Leads, NoTag, Blank, TopOf, Collecting, Reported;
    Collect(doc, v, 0, rest[1..], i);
    NothingKept(rest);
    LeadsFrom(doc, s, v, [Inner(TopOf(doc, s.tags), TrimEnd(rest))], To(s, i));
  }

  lemma NothingKept(text: string)
    requires text != ""
    ensures [text[0]] + text[1..] == text && Reported(text, 0) == TrimEnd(text)
  {
    assert text[0..] == text && text[..0] == "" && "" + TrimEnd(text) == TrimEnd(text);
  }

  lemma NoTagBehind(before: string, rest: string)
    requires NoTag(before + rest)
    ensures NoTag(rest)
  {
    assert forall k :: 0 <= k < |rest| ==> rest[k] == (before + rest)[|before| + k];
  }

  function Opened(s: State, c: char): State { s.(current := s.current + 1, inner := Some(Pending([c], 0))) }

  lemma FirstOfWord(doc: Document, s: State)
    requires Ready(doc, s) && s.tags != [] && s.current < |doc.text| && doc.text[s.current] != '<'
    requires !Blank([doc.text[s.current]])
    ensures var v := Opened(s, doc.text[s.current]);
      Collecting(doc, v, 0) && Leads(doc, s, [], v)
  {
    var c := doc.text[s.current];
    assert !IsSpace(c);
    assert NextMove(doc, s) == Silent(Opened(s, c));
    BlankOne(c);
    assert TrimEnd([c]) == [c] == [c][0..] == [c][0..1];
    LeadsSilent(doc, s, Opened(s, c));
  }

  // ---------------------------------------------------------------- CDATA sections and comments

  /** The state behind a CDATA section of which `copied` was kept. */
  function Joined(s: State, copied: string, next: nat): State {
    var before := if s.inner.Some? then s.inner.value.content else "";
    s.(current := next, inner := Some(Pending(before + copied, 0)))
  }

  /** A CDATA section, alone or behind a text: what it keeps joins the text, and protects its spaces. */
  lemma CdataIs(doc: Document, s: State, n: nat, length: nat, copied: string)
    requires if s.inner == None then Ready(doc, s) && s.tags != [] else Collecting(doc, s, n)
    requires At(doc.text, s.current, "<![CDATA[") && doc.cdata(s.current + 9) == Ends(length, copied)
    ensures var t := Joined(s, copied, s.current + 9 + length + 1);
      Collecting(doc, t, |t.inner.value.content|) && Leads(doc, s, [], t)
  {
    var t := Joined(s, copied, s.current + 9 + length + 1);
    CdataOpens(doc.text, s.current);
    ProtectedIsKept(t.inner.value.content);
    hide Kept, OpensCdata;
    assert NextMove(doc, s) == Tagged(doc, s) == MarkupMove(doc, s) == Silent(t);
    LeadsSilent(doc, s, t);
  }

  lemma ProtectedIsKept(content: string)
    ensures Kept(Pending(content, 0), |content|)
  {
    assert content[|content|..] == "" && TrimEnd("") == "";
  }

  lemma CdataOpens(text: string, i: nat)
    requires At(text, i, "<![CDATA[")
    ensures OpensCdata(text, i) && i + 9 <= |text| && text[i] == '<' && text[i + 1] == '!' && text[i + 2..i + 9] == "[CDATA["
  {
    AtIs(text, i, "<![CDATA[");
    assert text[i..i + 9][0] == text[i] && text[i..i + 9][1] == text[i + 1] && text[i..i + 9][2..] == text[i + 2..i + 9];
  }

  /** A CDATA section between a text and another one, up to a tag: one text is reported, without the blanks in front of the
      first and behind the second, but with all that the section keeps. */
  lemma CdataInText(doc: Document, s: State, word: string, length: nat, copied: string, rest: string, i: nat)
    requires Ready(doc, s) && s.tags != [] && word != "" && !Blank([word[0]]) && NoTag(word) && NoTag(rest)
    requires At(doc.text, s.current, word) && At(doc.text, s.current + |word|, "<![CDATA[")
    requires doc.cdata(s.current + |word| + 9) == Ends(length, copied)
    requires At(doc.text, s.current + |word| + 9 + length + 1, rest) && i == s.current + |word| + 9 + length + 1 + |rest|
    requires i < |doc.text| && doc.text[i] == '<' && !OpensCdata(doc.text, i)
    ensures Leads(doc, s, [Inner(TopOf(doc, s.tags), word + copied + TrimEnd(rest))], To(s, i))
  {
    hide At, Ready, OpensCdata, Leads, NoTag, Blank, TopOf, Collecting, Reported, Joined;
    var u := WordCollected(doc, s, word);
    CollectingIs(doc, u, 0);
    CdataIs(doc, u, 0, length, copied);
    JoinedIs(u, copied, u.current + 9 + length + 1);
    var t := Joined(u, copied, u.current + 9 + length + 1);
    Collect(doc, t, |word + copied|, rest, i);
    ContentBehind(word + copied, rest);
    LeadsOn(doc, s, [], u, t);
    SameFlush(s, u, t, i);
    LeadsFrom(doc, s, t, [Inner(TopOf(doc, s.tags), word + copied + TrimEnd(rest))], To(s, i));
  }

  lemma JoinedIs(s: State, copied: string, next: nat)
    requires s.inner.Some?
    ensures var t := Joined(s, copied, next);
      t.inner.Some? && t.inner.value.content == s.inner.value.content + copied && t.current == next && t.tags == s.tags
      && t == s.(current := next, inner := t.inner)
  {
  }

  lemma SameFlush(s: State, u: State, t: State, i: nat)
    requires s.inner == None && u == s.(current := u.current, inner := u.inner) && t == u.(current := t.current, inner := t.inner)
    ensures Flushed(t, i) == To(s, i)
  {
  }

  /** A text up to what follows it. */
  lemma WordCollected(doc: Document, s: State, word: string) returns (u: State)
    requires Ready(doc, s) && s.tags != [] && word != "" && !Blank([word[0]]) && NoTag(word) && At(doc.text, s.current, word)
    ensures Collecting(doc, u, 0) && Leads(doc, s, [], u) && u.inner.Some? && u.inner.value.content == word && s.inner == None
    ensures u.current == s.current + |word| && u == s.(current := u.current, inner := u.inner)
  {
    var v := Opened(s, word[0]);
    AtFirst(doc.text, s.current, word);
    NoTagFirst(word);
    FirstOfWord(doc, s);
    assert s.inner == None && v.inner.value.content == [word[0]];
    hide At, Ready, Leads, NoTag, Blank, Collecting;
    u := CollectAll(doc, v, 0, word[1..]);
    assert [word[0]] + word[1..] == word;
    LeadsOn(doc, s, [], v, u);
  }

  lemma ContentBehind(before: string, rest: string)
    ensures Reported(before + rest, |before|) == before + TrimEnd(rest)
  {
    assert (before + rest)[..|before|] == before && (before + rest)[|before|..] == rest;
  }

  lemma {:induction false} CollectAll(doc: Document, s: State, n: nat, text: string) returns (t: State)
    requires Collecting(doc, s, n) && At(doc.text, s.current, text) && NoTag(text)
    ensures Collecting(doc, t, n) && Leads(doc, s, [], t) && s.inner.Some? && t.inner.Some?
    ensures t.inner.value.content == s.inner.value.content + text
    ensures t.current == s.current + |text| && t == s.(current := t.current, inner := t.inner)
    decreases |text|
  {
    if text == "" {
      t := s;
      LeadsNowhere(doc, s);
      assert s.inner.value.content + text == s.inner.value.content;
    } else {
      AtFirst(doc.text, s.current, text);
      NoTagFirst(text);
      CollectingIs(doc, s, n);
      var u := Collected(s, text[0]);
      CollectedText(s, text, 0);
      assert u == s.(current := u.current, inner := u.inner);
      hide At, Collecting, NoTag, Leads, Collected, Flushed;
      CollectOne(doc, s, n);
      t := CollectAll(doc, u, n, text[1..]);
      LeadsOn(doc, s, [], u, t);
    }
  }

  /** A comment is passed over. */
  lemma CommentIs(doc: Document, s: State, length: nat, copied: string)
    requires Ready(doc, s) && At(doc.text, s.current, "<!") && !OpensCdata(doc.text, s.current) && s.current + 3 < |doc.text|
    requires doc.comment(s.current + 2) == Ends(length, copied) && s.current + 3 + length + 1 <= |doc.text|
    ensures Ready(doc, To(s, s.current + 3 + length + 1)) && Leads(doc, s, [], To(s, s.current + 3 + length + 1))
  {
    var end := s.current + 3 + length + 1;
    AtFirst(doc.text, s.current, "<!");
    AtFirst(doc.text, s.current + 1, "!");
    ReadyThere(doc, s, end);
    CommentMove(doc, s, length, copied);
    LeadsSilent(doc, s, To(s, SkipSpaces(doc.text, end)));
    hide At, Ready, Leads, SkipSpaces, NextMove, OpensCdata, Wf;
    BackTo(doc, s, [], s, end);
  }

  lemma CommentMove(doc: Document, s: State, length: nat, copied: string)
    requires Ready(doc, s) && !OpensCdata(doc.text, s.current) && s.current + 3 < |doc.text|
    requires doc.text[s.current] == '<' && doc.text[s.current + 1] == '!'
    requires doc.comment(s.current + 2) == Ends(length, copied) && s.current + 3 + length + 1 <= |doc.text|
    ensures NextMove(doc, s) == Silent(To(s, SkipSpaces(doc.text, s.current + 3 + length + 1)))
  {
    var end := s.current + 3 + length + 1;
    CommentScan(doc, s.current + 1, s.tags != [], length, copied);
    hide ScanStart, ScanEnd, ScanMarkup, SkipSpaces, OpensCdata;
    assert NextMove(doc, s) == Tagged(doc, s) == MarkupMove(doc, s);
  }

  lemma CommentScan(doc: Document, i: nat, parent: bool, length: nat, copied: string)
    requires 0 < i && i + 2 < |doc.text| && doc.text[i - 1] == '<' && doc.text[i] == '!' && !OpensCdata(doc.text, i - 1)
    requires doc.comment(i + 1) == Ends(length, copied) && i + 2 + length + 1 <= |doc.text|
    ensures ScanMarkup(doc, i, parent, false) == CommentAt(SkipSpaces(doc.text, i + 2 + length + 1))
  {
    NoCdata(doc.text, i - 1);
    assert SkipSpaces(doc.text, |doc.text|) == |doc.text|;
    hide SkipSpaces, OpensCdata;
  }

  lemma NoCdata(text: string, i: nat)
    requires !OpensCdata(text, i) && i + 1 < |text| && text[i] == '<' && text[i + 1] == '!'
    ensures i + 9 <= |text| ==> text[i + 2..i + 9] != "[CDATA["
  {
    if i + 9 <= |text| {
      assert text[i..i + 9] == "<!" + text[i + 2..i + 9];
    }
  }

  // ---------------------------------------------------------------- tags

  /** The move on a `<` that opens an element or an information. */
  lemma StartsWith(doc: Document, s: State, infos: bool, tag: Tag, attributes: seq<Attribute>, next: nat, name: string)
    requires Ready(doc, s) && s.current + 1 < |doc.text| && doc.text[s.current] == '<'
    requires doc.text[s.current + 1] != '!' && doc.text[s.current + 1] != '/'
    requires ScanStart(doc.text, s.current + 1) == StartAt(infos, tag, attributes, next)
    requires tag.start + tag.size <= |doc.text| && doc.text[tag.start..tag.start + tag.size] == name
    ensures var t := s.(tags := if infos then s.tags else s.tags + [tag], current := next);
      && Wf(doc, t) && (!infos ==> TopOf(doc, t.tags) == name)
      && Leads(doc, s, [if infos then Infos(name, attributes) else Start(name, attributes)], t)
  {
    var t := s.(tags := if infos then s.tags else s.tags + [tag], current := next);
    var event := if infos then Infos(name, attributes) else Start(name, attributes);
    hide ScanStart, ScanEnd, ScanMarkup;
    assert NextMove(doc, s) == StartMove(doc, s) == Emit(event, t);
    LeadsEmit(doc, s, event, t);
  }

  /** An information, up to `end`. */
  lemma InfoIs(doc: Document, s: State, item: Item, end: nat)
    requires Ready(doc, s) && item.Info? && ItemValid(item) && At(doc.text, s.current, Written(item))
    requires end == s.current + |Written(item)|
    ensures Ready(doc, To(s, end)) && Leads(doc, s, ItemEvents(item), To(s, end))
  {
    InfoScan(doc.text, s.current, item, end);
    hide At, ItemValid, Written, Ready, Leads, ItemEvents, To, Scanned;
    InfoGoes(doc, s, item, end);
  }

  /** An information is scanned from the `<` at `i` to `end`. */
  ghost predicate Scanned(text: string, i: nat, item: Item, end: nat) {
    && end <= |text| && i + 1 < |text| && text[i] == '<' && text[i + 1] == '?'
    && i + 2 + |item.name| <= |text| && text[i + 2..i + 2 + |item.name|] == item.name
    && ScanStart(text, i + 1) == StartAt(true, Tag(i + 2, |item.name|, false), Attributes(item.marks), SkipSpaces(text, end))
  }

  lemma InfoGoes(doc: Document, s: State, item: Item, end: nat)
    requires Ready(doc, s) && item.Info? && Scanned(doc.text, s.current, item, end)
    ensures Ready(doc, To(s, end)) && Leads(doc, s, ItemEvents(item), To(s, end))
  {
    var next := SkipSpaces(doc.text, end);
    ReadyThere(doc, s, end);
    hide ScanStart, SkipSpaces, Ready, Leads, Attributes, Wf, TopOf, To;
    InfoLeads(doc, s, item, end, next);
    BackTo(doc, s, ItemEvents(item), s, end);
  }

  lemma InfoLeads(doc: Document, s: State, item: Item, end: nat, next: nat)
    requires Ready(doc, s) && item.Info? && Scanned(doc.text, s.current, item, end) && next == SkipSpaces(doc.text, end)
    ensures Leads(doc, s, ItemEvents(item), To(s, next))
  {
    hide ScanStart, SkipSpaces, Ready, Leads, Attributes, Wf, TopOf;
    StartsWith(doc, s, true, Tag(s.current + 2, |item.name|, false), Attributes(item.marks), next, item.name);
    assert s.(tags := s.tags, current := next) == To(s, next);
  }

  /** The parser skips the blanks behind a tag; it is as if it had not. */
  lemma BackTo(doc: Document, s: State, events: seq<Event>, t: State, end: nat)
    requires Ready(doc, To(t, end)) && end <= |doc.text| && Leads(doc, s, events, To(t, SkipSpaces(doc.text, end)))
    ensures Leads(doc, s, events, To(t, end))
  {
    var next := SkipSpaces(doc.text, end);
    SkippedOnce(doc.text, end);
    hide Ready, Leads, SkipSpaces;
    SamePoint(doc, To(t, end), next);
    assert To(To(t, end), next) == To(t, next);
    LeadsOn(doc, s, events, To(t, next), To(t, end));
  }

  lemma {:induction false} SkippedOnce(text: string, i: nat)
    requires i <= |text|
    ensures SkipSpaces(text, SkipSpaces(text, i)) == SkipSpaces(text, i)
    decreases |text| - i
  {
    if i < |text| && IsSpace(text[i]) {
      SkippedOnce(text, i + 1);
    }
  }

  lemma InfoScan(text: string, i: nat, item: Item, end: nat)
    requires item.Info? && ItemValid(item) && At(text, i, Written(item)) && end == i + |Written(item)|
    ensures Scanned(text, i, item, end)
  {
    InfoSize(text, i, item, end);
    InfoHead(text, i, item);
    hide At, ScanStart, Head, SkipSpaces, Named, AllValid, Written, Attributes, Blank;
    HeadAt(text, i + 2, item, "?>");
    StartIs(text, i + 1, item, "?>", i + 2, end);
  }

  lemma InfoSize(text: string, i: nat, item: Item, end: nat)
    requires item.Info? && At(text, i, Written(item)) && end == i + |Written(item)|
    ensures end == i + 2 + |Head(item) + "?>"| && end <= |text|
  {
    hide Head;
  }

  lemma InfoHead(text: string, i: nat, item: Item)
    requires item.Info? && At(text, i, Written(item))
    ensures i + 1 < |text| && text[i] == '<' && text[i + 1] == '?' && At(text, i + 2, Head(item) + "?>")
  {
    hide At, Head;
    AtBoth(text, i, "<?", Head(item) + "?>");
    AtFirst(text, i, "<?");
    AtFirst(text, i + 1, "?");
  }

  lemma HeadAt(text: string, i: nat, item: Item, close: string)
    requires At(text, i, Head(item) + close) && close != ""
    ensures i + |item.name| <= |text| && text[i..i + |item.name|] == item.name
  {
    HeadIs(item, close);
    hide At, Head, AllWritten;
    AtBoth(text, i, item.name, AllWritten(item.marks) + (item.gap + close));
    AtIs(text, i, item.name);
  }

  /** The state behind a start tag. */
  function Entered(s: State, item: Item, full: bool, next: nat): State {
    s.(tags := s.tags + [Tag(s.current + 1, |item.name|, full)], current := next)
  }

  /** The start tag of an element. */
  lemma TagIs(doc: Document, s: State, item: Item, close: string, next: nat)
    requires Ready(doc, s) && !item.Info? && (close == ">" || close == "/>")
    requires ItemValid(item) && At(doc.text, s.current, StartText(item, close)) && next == s.current + |StartText(item, close)|
    ensures next <= |doc.text|
    ensures var t := Entered(s, item, close == "/>", SkipSpaces(doc.text, next));
      Wf(doc, t) && TopOf(doc, t.tags) == item.name && Leads(doc, s, [Start(item.name, Attributes(item.marks))], t)
  {
    var i := s.current;
    var tag := Tag(i + 1, |item.name|, close == "/>");
    TagScan(doc.text, i, item, close, next);
    hide At, ScanStart, StartText, ItemValid, SkipSpaces, Attributes, Leads, Wf, Ready, TopOf;
    StartsWith(doc, s, false, tag, Attributes(item.marks), SkipSpaces(doc.text, next), item.name);
  }

  lemma TagScan(text: string, i: nat, item: Item, close: string, next: nat)
    requires !item.Info? && (close == ">" || close == "/>") && ItemValid(item)
    requires At(text, i, StartText(item, close)) && next == i + |StartText(item, close)|
    ensures next <= |text| && i + 1 < |text| && text[i] == '<' && text[i + 1] != '!' && text[i + 1] != '/'
    ensures i + 1 + |item.name| <= |text| && text[i + 1..i + 1 + |item.name|] == item.name
    ensures ScanStart(text, i + 1)
            == StartAt(false, Tag(i + 1, |item.name|, close == "/>"), Attributes(item.marks), SkipSpaces(text, next))
  {
    StartSize(text, i, item, close);
    HeadBehind(text, i, item, close);
    hide At, ScanStart, Head, SkipSpaces, Named, AllValid, StartText, Blank;
    HeadStarts(text, i + 1, item, close);
    HeadAt(text, i + 1, item, close);
    StartIs(text, i + 1, item, close, i + 1, next);
  }

  lemma StartSize(text: string, i: nat, item: Item, close: string)
    requires At(text, i, StartText(item, close))
    ensures |StartText(item, close)| == 1 + |Head(item) + close| && i + |StartText(item, close)| <= |text|
  {
    hide Head;
  }

  lemma HeadBehind(text: string, i: nat, item: Item, close: string)
    requires At(text, i, StartText(item, close))
    ensures i < |text| && text[i] == '<' && At(text, i + 1, Head(item) + close)
  {
    hide At, Head;
    AtBoth(text, i, "<", Head(item) + close);
    AtFirst(text, i, "<");
  }

  lemma HeadStarts(text: string, i: nat, item: Item, close: string)
    requires At(text, i, Head(item) + close) && Named(item.name)
    ensures i < |text| && Letter(text[i])
  {
    HeadIs(item, close);
    hide At, Head, AllWritten;
    AtBoth(text, i, item.name, AllWritten(item.marks) + (item.gap + close));
    AtFirst(text, i, item.name);
  }

  /** An element without content, up to `end`. */
  lemma EmptyIs(doc: Document, s: State, item: Item, end: nat)
    requires Ready(doc, s) && item.Empty? && ItemValid(item) && At(doc.text, s.current, Written(item))
    requires end == s.current + |Written(item)|
    ensures Ready(doc, To(s, end)) && Leads(doc, s, ItemEvents(item), To(s, end))
  {
    var next := SkipSpaces(doc.text, end);
    TagIs(doc, s, item, "/>", end);
    ReadyThere(doc, s, end);
    var u := Entered(s, item, true, next);
    hide At, ItemValid, SkipSpaces, Ready, Leads, Attributes, Wf, StartText, Entered, TopOf;
    FullEnds(doc, s, item, next);
    LeadsBoth(doc, s, [Start(item.name, Attributes(item.marks))], u, [End(item.name)], To(s, next));
    assert [Start(item.name, Attributes(item.marks))] + [End(item.name)] == ItemEvents(item);
    BackTo(doc, s, ItemEvents(item), s, end);
  }

  lemma FullEnds(doc: Document, s: State, item: Item, next: nat)
    requires var u := Entered(s, item, true, next); Wf(doc, u) && TopOf(doc, u.tags) == item.name
    ensures Leads(doc, Entered(s, item, true, next), [End(item.name)], To(s, next))
  {
    var u := Entered(s, item, true, next);
    assert u.tags[..|u.tags| - 1] == s.tags;
    assert NextMove(doc, u) == Emit(End(item.name), To(s, next));
    LeadsEmit(doc, u, End(item.name), To(s, next));
  }

  /** The end tag of the innermost element, up to `end`. */
  lemma LeaveIs(doc: Document, s: State, name: string, gap: string, end: nat)
    requires Ready(doc, s) && s.tags != [] && TopOf(doc, s.tags) == name && Blank(gap)
    requires At(doc.text, s.current, EndText(name, gap)) && end == s.current + |EndText(name, gap)|
    ensures Ready(doc, To(Popped(s), end)) && Leads(doc, s, [End(name)], To(Popped(s), end))
  {
    EndScanned(doc.text, s.current, name, gap);
    PoppedIsReady(doc, s, end);
    hide At, ScanEnd, EndText, Ready, Leads, SkipSpaces, TopOf;
    EndsWith(doc, s, name, SkipSpaces(doc.text, end));
    BackTo(doc, s, [End(name)], Popped(s), end);
  }

  lemma PoppedIsReady(doc: Document, s: State, next: nat)
    requires Ready(doc, s) && s.tags != [] && next <= |doc.text|
    ensures Ready(doc, To(Popped(s), next))
  {
  }

  /** The move on a `</`. */
  lemma EndsWith(doc: Document, s: State, name: string, next: nat)
    requires Ready(doc, s) && s.tags != [] && TopOf(doc, s.tags) == name
    requires s.current + 1 < |doc.text| && doc.text[s.current] == '<' && doc.text[s.current + 1] == '/'
    requires ScanEnd(doc.text, s.current + 1, name) == EndAt(next)
    ensures Leads(doc, s, [End(name)], To(Popped(s), next))
  {
    hide ScanStart, ScanEnd, ScanMarkup;
    assert TopName(doc, s) == name;
    assert NextMove(doc, s) == EndMove(doc, s) == Emit(End(name), To(Popped(s), next));
    LeadsEmit(doc, s, End(name), To(Popped(s), next));
  }

  lemma EndScanned(text: string, i: nat, name: string, gap: string)
    requires At(text, i, EndText(name, gap)) && Blank(gap)
    ensures i + |EndText(name, gap)| <= |text| && i + 1 < |text| && text[i] == '<' && text[i + 1] == '/'
    ensures ScanEnd(text, i + 1, name) == EndAt(SkipSpaces(text, i + |EndText(name, gap)|))
  {
    var w := name + (gap + ">");
    AtIs(text, i, EndText(name, gap));
    assert |EndText(name, gap)| == 2 + |w| && |"/" + w| == 1 + |w|;
    hide At, ScanEnd, SkipSpaces;
    AtBoth(text, i, "</", w);
    AtFirst(text, i, "</");
    AtFirst(text, i + 1, "/");
    Regroup("<", "/", w);
    assert "<" + "/" == "</";
    AtBoth(text, i, "<", "/" + w);
    EndIs(text, i + 1, name, gap);
  }

  // ---------------------------------------------------------------- trees

  /** What may follow the content: an end tag, or the end of the document when no element is open. */
  ghost predicate Follows(doc: Document, tags: seq<Tag>, end: nat) {
    end <= |doc.text| && if tags == [] then end == |doc.text| else At(doc.text, end, "</")
  }

  lemma {:induction false} ItemIs(doc: Document, s: State, item: Item, end: nat)
    requires Ready(doc, s) && ItemValid(item) && At(doc.text, s.current, Written(item)) && end == s.current + |Written(item)|
    ensures Ready(doc, To(s, end)) && Leads(doc, s, ItemEvents(item), To(s, end))
    decreases item, 1
  {
    hide Ready, ItemValid, At, Written, Leads, ItemEvents;
    match item
    case Empty(_, _, _) => EmptyIs(doc, s, item, end);
    case Info(_, _, _) => InfoIs(doc, s, item, end);
    case Element(_, _, _, content, _) => ElementIs(doc, s, item, end);
  }

  lemma {:induction false} ElementIs(doc: Document, s: State, item: Item, end: nat)
    requires Ready(doc, s) && item.Element? && ItemValid(item) && At(doc.text, s.current, Written(item))
    requires end == s.current + |Written(item)|
    ensures Ready(doc, To(s, end)) && Leads(doc, s, ItemEvents(item), To(s, end))
    decreases item, 0
  {
    hide Ready, ItemValid, At, Written, Leads, ItemEvents, Text, TopOf, Entered, ContentValid, Follows;
    var body, inside := ElementBegins(doc, s, item, end);
    var u := Entered(s, item, false, body);
    ContentIs(doc, u, item.content, inside);
    ElementEnds(doc, s, item, body, inside, end);
  }

  /** The start tag of an element; its content goes from `body` to `inside`, its end tag from there to `end`. */
  lemma ElementBegins(doc: Document, s: State, item: Item, end: nat) returns (body: nat, inside: nat)
    requires Ready(doc, s) && item.Element? && ItemValid(item) && At(doc.text, s.current, Written(item))
    requires end == s.current + |Written(item)|
    ensures inside == body + |Text(item.content)| && ContentValid(item.content) && Blank(item.endGap)
    ensures At(doc.text, inside, EndText(item.name, item.endGap)) && end == inside + |EndText(item.name, item.endGap)|
    ensures var u := Entered(s, item, false, body);
      && Ready(doc, u) && u.tags != [] && u.current == body && TopOf(doc, u.tags) == item.name
      && At(doc.text, u.current, Text(item.content)) && Follows(doc, u.tags, inside)
      && Leads(doc, s, [Start(item.name, Attributes(item.marks))], u)
  {
    body := s.current + |StartText(item, ">")|;
    inside := body + |Text(item.content)|;
    ElementParts(doc.text, s.current, item, body, inside);
    ElementValid(item);
    AtIs(doc.text, inside, "</");
    hide At, Ready, Leads, Attributes, StartText, EndText, Text, Written, ContentValid, ItemValid, TopOf, Blank;
    ElementEnters(doc, s, item, body);
  }

  lemma ElementEnters(doc: Document, s: State, item: Item, body: nat)
    requires Ready(doc, s) && item.Element? && ItemValid(item) && At(doc.text, s.current, StartText(item, ">"))
    requires body == s.current + |StartText(item, ">")|
    ensures var u := Entered(s, item, false, body);
      Ready(doc, u) && TopOf(doc, u.tags) == item.name && Leads(doc, s, [Start(item.name, Attributes(item.marks))], u)
  {
    TagIs(doc, s, item, ">", body);
    hide At, StartText, ItemValid, Leads, Attributes, SkipSpaces;
    var u := Entered(s, item, false, body);
    EnteredIsReady(doc, s, item, body);
    hide Ready, Wf;
    assert To(u, SkipSpaces(doc.text, body)) == Entered(s, item, false, SkipSpaces(doc.text, body)) && To(u, body) == u;
    BackTo(doc, s, [Start(item.name, Attributes(item.marks))], u, body);
  }

  lemma EnteredIsReady(doc: Document, s: State, item: Item, body: nat)
    requires Ready(doc, s) && body <= |doc.text| && Wf(doc, Entered(s, item, false, SkipSpaces(doc.text, body)))
    ensures Ready(doc, Entered(s, item, false, body))
  {
  }

  lemma ElementEnds(doc: Document, s: State, item: Item, body: nat, inside: nat, end: nat)
    requires Ready(doc, s) && item.Element? && Blank(item.endGap)
    requires At(doc.text, inside, EndText(item.name, item.endGap)) && end == inside + |EndText(item.name, item.endGap)|
    requires var u := Entered(s, item, false, body);
      && Ready(doc, To(u, inside)) && u.tags != [] && TopOf(doc, u.tags) == item.name
      && Leads(doc, s, [Start(item.name, Attributes(item.marks))], u)
      && Leads(doc, u, ContentEvents(TopOf(doc, u.tags), item.content), To(u, inside))
    ensures Ready(doc, To(s, end)) && Leads(doc, s, ItemEvents(item), To(s, end))
  {
    var u := Entered(s, item, false, body);
    var v := To(u, inside);
    assert u.tags[..|u.tags| - 1] == s.tags;
    assert To(Popped(v), end) == To(s, end);
    hide At, Ready, Leads, EndText, Blank, TopOf, Attributes, ContentEvents, Entered;
    LeaveIs(doc, v, item.name, item.endGap, end);
    var start, events := [Start(item.name, Attributes(item.marks))], ContentEvents(item.name, item.content);
    LeadsBoth(doc, u, events, v, [End(item.name)], To(s, end));
    LeadsBoth(doc, s, start, u, events + [End(item.name)], To(s, end));
  }

  /** The pieces of an element. */
  lemma ElementParts(text: string, i: nat, item: Item, body: nat, end: nat)
    requires item.Element? && At(text, i, Written(item))
    requires body == i + |StartText(item, ">")| && end == body + |Text(item.content)|
    ensures At(text, i, StartText(item, ">")) && At(text, body, Text(item.content)) && At(text, end, "</")
    ensures At(text, end, EndText(item.name, item.endGap)) && body <= |text|
    ensures end + |EndText(item.name, item.endGap)| == i + |Written(item)|
  {
    var start, last := StartText(item, ">"), EndText(item.name, item.endGap);
    hide At, StartText;
    AtBoth(text, i, start, Text(item.content) + last);
    AtBoth(text, body, Text(item.content), last);
    AtBoth(text, end, "</", item.name + (item.endGap + ">"));
    AtIs(text, i, start);
  }

  lemma ElementValid(item: Item)
    requires ItemValid(item) && item.Element?
    ensures ContentValid(item.content) && Blank(item.endGap)
  {
  }

  lemma CdataStarts(text: string, i: nat)
    ensures OpensCdata(text, i) ==> i + 1 < |text| && text[i + 1] == '!'
  {
    if OpensCdata(text, i) {
      assert text[i..i + 9][1] == text[i + 1];
    }
  }

  lemma ItemOpens(text: string, i: nat, item: Item)
    requires At(text, i, Written(item)) && ItemValid(item)
    ensures i < |text| && text[i] == '<' && !OpensCdata(text, i) && i + |Written(item)| <= |text|
  {
    AtIs(text, i, Written(item));
    CdataStarts(text, i);
    hide At, OpensCdata, AllWritten, Text, EndText, ContentValid, Head;
    if item.Info? {
      InfoHead(text, i, item);
    } else {
      var close := if item.Empty? then "/>" else ">";
      if item.Element? {
        AtBoth(text, i, StartText(item, ">"), Text(item.content) + EndText(item.name, item.endGap));
      }
      HeadBehind(text, i, item, close);
      HeadStarts(text, i + 1, item, close);
    }
  }

  lemma EndOpens(text: string, i: nat)
    requires At(text, i, "</")
    ensures i < |text| && text[i] == '<' && !OpensCdata(text, i)
  {
    AtFirst(text, i, "</");
    AtFirst(text, i + 1, "/");
    CdataStarts(text, i);
  }

  /** The content of an element up to its end tag, or the items of a document up to its end. */
  lemma {:induction false} ContentIs(doc: Document, s: State, content: Content, end: nat)
    requires Ready(doc, s) && ContentValid(content) && At(doc.text, s.current, Text(content)) && end == s.current + |Text(content)|
    requires Follows(doc, s.tags, end) && (s.tags == [] ==> OnlyItems(content))
    ensures Ready(doc, To(s, end)) && Leads(doc, s, ContentEvents(TopOf(doc, s.tags), content), To(s, end))
    decreases content, 2
  {
    hide Ready, At, Follows, Leads, TopOf, OnlyItems, ContentEvents, ItemEvents, ItemValid, Written, Blank, NoTag, TextEvents, Text;
    match content
    case Last(text) => LastIs(doc, s, content, end);
    case Then(text, item, rest) =>
      var j := s.current + |text|;
      var k := j + |Written(item)|;
      ThenBegins(doc, s, content, j, k, end);
      ThenText(doc, s, content, j);
      ItemIs(doc, To(s, j), item, k);
      ContentIs(doc, To(s, k), rest, end);
      ThenEnds(doc, s, content, j, k, end);
  }

  lemma LastIs(doc: Document, s: State, content: Content, end: nat)
    requires Ready(doc, s) && content.Last? && ContentValid(content) && At(doc.text, s.current, Text(content))
    requires end == s.current + |Text(content)| && Follows(doc, s.tags, end) && (s.tags == [] ==> OnlyItems(content))
    ensures Ready(doc, To(s, end)) && Leads(doc, s, ContentEvents(TopOf(doc, s.tags), content), To(s, end))
  {
    if s.tags != [] {
      EndOpens(doc.text, end);
    }
    hide Ready, At, Leads, TopOf, Blank, NoTag, OpensCdata, TextEvents;
    TextIs(doc, s, content.text, end);
  }

  /** An item from `j` to `k`, and the rest of the content behind it. */
  lemma ThenBegins(doc: Document, s: State, content: Content, j: nat, k: nat, end: nat)
    requires content.Then? && ContentValid(content) && At(doc.text, s.current, Text(content))
    requires end == s.current + |Text(content)| && (s.tags == [] ==> OnlyItems(content))
    requires j == s.current + |content.text| && k == j + |Written(content.item)|
    ensures ItemValid(content.item) && At(doc.text, j, Written(content.item)) && j < |doc.text|
    ensures ContentValid(content.rest) && At(doc.text, k, Text(content.rest)) && end == k + |Text(content.rest)|
    ensures s.tags == [] ==> OnlyItems(content.rest)
    ensures At(doc.text, s.current, content.text) && NoTag(content.text) && (s.tags == [] ==> Blank(content.text))
    ensures doc.text[j] == '<' && !OpensCdata(doc.text, j)
  {
    ThenValid(content);
    ThenParts(doc.text, s.current, content, j, k);
    hide Written, Text, At, OpensCdata, ItemValid, ContentValid, OnlyItems, NoTag, Blank;
    ItemOpens(doc.text, j, content.item);
  }

  lemma ThenText(doc: Document, s: State, content: Content, j: nat)
    requires Ready(doc, s) && content.Then? && j == s.current + |content.text| && j < |doc.text|
    requires At(doc.text, s.current, content.text) && NoTag(content.text) && (s.tags == [] ==> Blank(content.text))
    requires doc.text[j] == '<' && !OpensCdata(doc.text, j)
    ensures Ready(doc, To(s, j)) && Leads(doc, s, TextEvents(TopOf(doc, s.tags), content.text), To(s, j))
  {
    hide At, OpensCdata, TextEvents, Ready, Leads, TopOf, NoTag, Blank;
    TextIs(doc, s, content.text, j);
  }

  lemma ThenValid(content: Content)
    requires content.Then?
    ensures ContentValid(content) ==> NoTag(content.text) && ItemValid(content.item) && ContentValid(content.rest)
    ensures OnlyItems(content) ==> Blank(content.text) && OnlyItems(content.rest)
  {
  }

  lemma ThenParts(text: string, i: nat, content: Content, j: nat, k: nat)
    requires content.Then? && At(text, i, Text(content)) && j == i + |content.text| && k == j + |Written(content.item)|
    ensures At(text, i, content.text) && At(text, j, Written(content.item)) && At(text, k, Text(content.rest))
    ensures k + |Text(content.rest)| == i + |Text(content)|
  {
    hide At, Written;
    AtBoth(text, i, content.text, Written(content.item) + Text(content.rest));
    AtBoth(text, j, Written(content.item), Text(content.rest));
  }

  lemma ThenEnds(doc: Document, s: State, content: Content, j: nat, k: nat, end: nat)
    requires content.Then? && Leads(doc, s, TextEvents(TopOf(doc, s.tags), content.text), To(s, j))
    requires Leads(doc, To(s, j), ItemEvents(content.item), To(s, k))
    requires Leads(doc, To(s, k), ContentEvents(TopOf(doc, s.tags), content.rest), To(s, end))
    ensures Leads(doc, s, ContentEvents(TopOf(doc, s.tags), content), To(s, end))
  {
    var name := TopOf(doc, s.tags);
    hide Leads, TextEvents, ItemEvents, TopOf;
    LeadsBoth(doc, To(s, j), ItemEvents(content.item), To(s, k), ContentEvents(name, content.rest), To(s, end));
    LeadsBoth(doc, s, TextEvents(name, content.text), To(s, j), ItemEvents(content.item) + ContentEvents(name, content.rest), To(s, end));
  }

  /** The law of the parser: a document that is written out, with blanks between its items and around its texts, attributes
      and names, is reported as what was written, in order. */
  lemma DocumentIsReported(doc: Document, content: Content)
    requires doc.text == Text(content) && ContentValid(content) && OnlyItems(content)
    ensures Trace(doc, Init) == [StartDocument] + (ContentEvents("", content) + [EndDocument(None)])
  {
    Whole(doc.text);
    FirstTag(doc.text, content);
    Opening(doc, content.text);
    var end := To(OPENED, |doc.text|);
    hide Ready, At, Text, ContentEvents, ContentValid, OnlyItems, Leads, Blank;
    ContentIs(doc, OPENED, content, |doc.text|);
    LeadsBoth(doc, Init, [StartDocument], OPENED, ContentEvents("", content), end);
    AtTheEnd(doc);
    Concluded(doc, [StartDocument] + ContentEvents("", content), end, EndDocument(None));
    assert ([StartDocument] + ContentEvents("", content)) + [EndDocument(None)] == [StartDocument] + (ContentEvents("", content) + [EndDocument(None)]);
  }

  lemma AtTheEnd(doc: Document)
    ensures var s := To(OPENED, |doc.text|); Wf(doc, s) && Trace(doc, s) == [EndDocument(None)]
  {
    TraceAtEnd(doc, To(OPENED, |doc.text|));
  }

  lemma Concluded(doc: Document, events: seq<Event>, s: State, last: Event)
    requires Leads(doc, Init, events, s) && Wf(doc, s) && Trace(doc, s) == [last]
    ensures Trace(doc, Init) == events + [last]
  {
  }

  lemma Whole(text: string)
    ensures At(text, 0, text)
  {
    assert text[0..0 + |text|] == text;
  }

  lemma FirstTag(text: string, content: Content)
    requires At(text, 0, Text(content)) && |Text(content)| == |text| && ContentValid(content) && OnlyItems(content)
    ensures At(text, 0, content.text) && Blank(content.text)
    ensures |content.text| == |text| || (|content.text| < |text| && text[|content.text|] == '<')
  {
    if content.Then? {
      ThenParts(text, 0, content, |content.text|, |content.text| + |Written(content.item)|);
      ThenValid(content);
      ItemOpens(text, |content.text|, content.item);
    }
  }

  // ---------------------------------------------------------------- documents that are refused

  lemma Refused(doc: Document, s: State, error: Error)
    requires Wf(doc, s) && NextMove(doc, s) == Finish(Some(error))
    ensures Trace(doc, s) == [EndDocument(Some(error))]
  {
    hide NextMove;
  }

  /** A text outside any element, before any tag. */
  lemma TextWithoutParent(doc: Document, blank: string, rest: string)
    requires doc.text == blank + rest && Blank(blank) && rest != "" && !Blank([rest[0]]) && rest[0] != '<'
    ensures Trace(doc, Init) == [EndDocument(Some(InnerWithoutParent))]
  {
    var s := To(Init, |blank|);
    assert doc.text[|blank|] == rest[0] && !IsSpace(rest[0]);
    Whole(doc.text);
    AtBoth(doc.text, 0, blank, rest);
    BlankIsSkipped(doc.text, 0, blank);
    NotStarted(doc, 0);
    assert To(Init, 0) == Init && SkipSpaces(doc.text, |blank|) == |blank|;
    assert NextMove(doc, s) == Finish(Some(InnerWithoutParent));
    Refused(doc, s, InnerWithoutParent);
    Concluded(doc, [], s, EndDocument(Some(InnerWithoutParent)));
  }

  /** An end tag without a start. */
  lemma EndAlone(doc: Document, blank: string, rest: string)
    requires doc.text == blank + ("</" + rest) && Blank(blank)
    ensures Trace(doc, Init) == [StartDocument, EndDocument(Some(EndWithoutStart))]
  {
    var i := |blank|;
    Whole(doc.text);
    AtBoth(doc.text, 0, blank, "</" + rest);
    AtBoth(doc.text, i, "</", rest);
    AtFirst(doc.text, i, "</");
    AtFirst(doc.text, i + 1, "/");
    BlankIsSkipped(doc.text, 0, blank);
    Opening(doc, blank);
    hide At;
    var t := To(OPENED, i);
    assert SkipSpaces(doc.text, i) == i;
    SamePoint(doc, OPENED, i);
    assert NextMove(doc, t) == Finish(Some(EndWithoutStart));
    hide NextMove;
    Refused(doc, t, EndWithoutStart);
    LeadsOn(doc, Init, [StartDocument], OPENED, t);
    hide Leads;
    Concluded(doc, [StartDocument], t, EndDocument(Some(EndWithoutStart)));
  }

  /** A document that starts with the start tag of an element. */
  lemma Entering(doc: Document, item: Item, rest: string)
    requires item.Element? && ItemValid(item) && doc.text == StartText(item, ">") + rest
    ensures var u := Entered(OPENED, item, false, |StartText(item, ">")|);
      && Ready(doc, u) && TopOf(doc, u.tags) == item.name
      && Leads(doc, Init, [StartDocument, Start(item.name, Attributes(item.marks))], u)
  {
    var start := StartText(item, ">");
    Whole(doc.text);
    AtBoth(doc.text, 0, start, rest);
    HeadBehind(doc.text, 0, item, ">");
    assert At(doc.text, 0, "") && |""| == 0;
    hide At, StartText, ItemValid;
    Opening(doc, "");
    ElementEnters(doc, OPENED, item, |start|);
    hide Ready, Leads, Attributes, TopOf;
    var event := Start(item.name, Attributes(item.marks));
    LeadsBoth(doc, Init, [StartDocument], OPENED, [event], Entered(OPENED, item, false, |start|));
    assert [StartDocument] + [event] == [StartDocument, event];
  }

  /** An element that is not closed. */
  lemma ElementLeftOpen(doc: Document, item: Item)
    requires item.Element? && ItemValid(item) && doc.text == StartText(item, ">")
    ensures Trace(doc, Init) == [StartDocument, Start(item.name, Attributes(item.marks)), EndDocument(Some(NoEndElement(item.name)))]
  {
    var u := Entered(OPENED, item, false, |doc.text|);
    assert doc.text == StartText(item, ">") + "";
    Entering(doc, item, "");
    EndsOpen(doc, u, item.name);
    hide Leads, Attributes, ItemValid, StartText;
    var event := Start(item.name, Attributes(item.marks));
    Concluded(doc, [StartDocument, event], u, EndDocument(Some(NoEndElement(item.name))));
  }

  lemma EndsOpen(doc: Document, s: State, name: string)
    requires Ready(doc, s) && s.tags != [] && s.current == |doc.text| && TopOf(doc, s.tags) == name
    ensures Wf(doc, s) && Trace(doc, s) == [EndDocument(Some(NoEndElement(name)))]
  {
    TraceAtEnd(doc, s);
  }

  /** An end tag of another name. */
  lemma OtherEnd(doc: Document, item: Item, rest: string)
    requires item.Element? && ItemValid(item) && doc.text == StartText(item, ">") + ("</" + rest)
    requires |rest| < |item.name| || rest[..|item.name|] != item.name
    ensures Trace(doc, Init)
            == [StartDocument, Start(item.name, Attributes(item.marks)), EndDocument(Some(EndMismatch(item.name)))]
  {
    hide StartText, ItemValid, Attributes, ScanEnd;
    OtherEndText(doc.text, StartText(item, ">"), item.name, rest);
    Mismatched(doc, item, "</" + rest, |StartText(item, ">")|);
  }

  lemma Mismatched(doc: Document, item: Item, tail: string, i: nat)
    requires item.Element? && ItemValid(item) && doc.text == StartText(item, ">") + tail && i == |StartText(item, ">")|
    requires i + 1 < |doc.text| && doc.text[i] == '<' && doc.text[i + 1] == '/'
    requires ScanEnd(doc.text, i + 1, item.name) == BadEnd(EndMismatch(item.name))
    ensures Trace(doc, Init)
            == [StartDocument, Start(item.name, Attributes(item.marks)), EndDocument(Some(EndMismatch(item.name)))]
  {
    hide StartText, ItemValid, Attributes, Leads, Ready, TopOf, ScanEnd;
    var u := Entered(OPENED, item, false, i);
    Entering(doc, item, tail);
    NoSuchEnd(doc, u, item.name);
    hide Entered, Wf;
    var first, second, last := StartDocument, Start(item.name, Attributes(item.marks)), EndDocument(Some(EndMismatch(item.name)));
    Concluded(doc, [first, second], u, last);
    assert [first, second] + [last] == [first, second, last];
  }

  lemma OtherEndText(text: string, before: string, name: string, rest: string)
    requires text == before + ("</" + rest) && (|rest| < |name| || rest[..|name|] != name)
    ensures var i := |before|;
      i + 1 < |text| && text[i] == '<' && text[i + 1] == '/' && ScanEnd(text, i + 1, name) == BadEnd(EndMismatch(name))
  {
    EndBehind(text, before, rest);
    hide At, ScanEnd;
    WrongName(text, |before| + 1, name, rest);
  }

  lemma EndBehind(text: string, before: string, rest: string)
    requires text == before + ("</" + rest)
    ensures var i := |before|;
      i + 2 + |rest| == |text| && text[i] == '<' && text[i + 1] == '/' && At(text, i + 2, rest)
  {
    var i := |before|;
    Whole(text);
    AtBoth(text, 0, before, "</" + rest);
    AtBoth(text, i, "</", rest);
    AtFirst(text, i, "</");
    AtFirst(text, i + 1, "/");
  }

  lemma WrongName(text: string, i: nat, name: string, rest: string)
    requires At(text, i + 1, rest) && i + 1 + |rest| == |text| && (|rest| < |name| || rest[..|name|] != name)
    ensures ScanEnd(text, i, name) == BadEnd(EndMismatch(name))
  {
    if i + |name| < |text| {
      assert text[i + 1..i + 1 + |name|] == text[i + 1..i + 1 + |rest|][..|name|];
    }
  }

  lemma NoSuchEnd(doc: Document, s: State, name: string)
    requires Ready(doc, s) && s.tags != [] && TopOf(doc, s.tags) == name
    requires s.current + 1 < |doc.text| && doc.text[s.current] == '<' && doc.text[s.current + 1] == '/'
    requires ScanEnd(doc.text, s.current + 1, name) == BadEnd(EndMismatch(name))
    ensures Wf(doc, s) && Trace(doc, s) == [EndDocument(Some(EndMismatch(name)))]
  {
    hide ScanStart, ScanEnd, ScanMarkup;
    assert TopName(doc, s) == name;
    assert NextMove(doc, s) == EndMove(doc, s) == Finish(Some(EndMismatch(name)));
    hide NextMove;
    Refused(doc, s, EndMismatch(name));
  }
}
