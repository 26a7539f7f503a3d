/** The texts that `XMLParser` recognises: names, attributes, start tags, end tags and `<!` markup, as
    functions of the text and of a position in it.  What they return is what the scanning code computes. */
module XmlSyntax {

  datatype Option<+T> = None | Some(value: T)

  /** The exceptions of the parser. */
  datatype Error =
    | NoTagName
    | EndWithoutStart
    | EndMismatch(name: string)
    | EndUnterminated(name: string)
    | MarkupMalformed
    | CdataWithoutParent
    | CdataUnterminated
    | CommentMalformed
    | CommentUnterminated
    | InfosWithoutName
    | NameStart
    | NameUnterminated(name: string)
    | ElementUnterminated(name: string)
    | InfosUnterminated(name: string)
    | AttributeWithoutValue(key: string)
    | AttributeMalformed(key: string)
    | InnerWithoutParent
    | NoEndElement(name: string)

  /** How a comment or a CDATA section ends: the position of its last character counted from its first
      one, and the characters that it copies. */
  datatype Scan = Unterminated | Ends(length: nat, copied: string)

  /** The packet; how comments and CDATA sections are scanned is left open. */
  datatype Document = Document(text: string, comment: nat -> Scan, cdata: nat -> Scan)

  /** `full` marks an element closed by its own start tag. */
  datatype Tag = Tag(start: nat, size: nat, full: bool)

  datatype Attribute = Attribute(key: string, value: string)

  predicate IsSpace(c: char) { '\t' <= c <= '\r' || c == ' ' }
  predicate IsAlpha(c: char) { 'a' <= c <= 'z' || 'A' <= c <= 'Z' }
  predicate IsXml(c: char) { IsAlpha(c) || '0' <= c <= '9' || c in "-.:_" }

  function SkipSpaces(text: string, i: nat): (j: nat)
    requires i <= |text|
    ensures i <= j <= |text|
    decreases |text| - i
  {
    if i < |text| && IsSpace(text[i]) then SkipSpaces(text, i + 1) else i
  }

  // ---------------------------------------------------------------- names

  datatype NameScan = BadName(error: Error) | NameAt(start: nat, size: nat)

  function NameEnd(text: string, i: nat): (j: nat)
    requires i <= |text|
    ensures i <= j <= |text|
    decreases |text| - i
  {
    if i < |text| && IsXml(text[i]) then NameEnd(text, i + 1) else i
  }

  /** `strchr` finds the terminating zero in every string of markers. */
  predicate EndsName(c: char, markers: string) { c in markers || c == '\0' || IsSpace(c) }

  function ScanName(text: string, i: nat, markers: string): (r: NameScan)
    requires i < |text|
    ensures r.NameAt? ==> r.start == i && r.size > 0 && i + r.size < |text|
  {
    if !IsAlpha(text[i]) && text[i] != '_' then BadName(NameStart)
    else
      var j := NameEnd(text, i + 1);
      if j == |text| || !EndsName(text[j], markers) then BadName(NameUnterminated(text[i..j]))
      else NameAt(i, j - i)
  }

  // ---------------------------------------------------------------- attributes

  datatype AttributeScan = BadAttribute(error: Error) | AttributeAt(attribute: Attribute, next: nat)

  /** Skips the spaces before the equal sign; the next character is taken for it. */
  function EqualSign(text: string, i: nat): (r: Option<nat>)
    requires i < |text|
    ensures r.Some? ==> i <= r.value < |text|
    decreases |text| - i
  {
    if !IsSpace(text[i]) then Some(i) else if i + 1 == |text| then None else EqualSign(text, i + 1)
  }

  /** The closing delimiter; a backslash protects the next character. */
  function ValueEnd(text: string, i: nat, delimiter: char): (r: Option<nat>)
    requires i < |text|
    ensures r.Some? ==> i <= r.value < |text|
    decreases |text| - i
  {
    if text[i] == delimiter then Some(i)
    else
      var width := if text[i] == '\\' then 2 else 1;
      if i + width >= |text| then None else ValueEnd(text, i + width, delimiter)
  }

  function ScanAttribute(text: string, i: nat): (r: AttributeScan)
    requires i < |text|
    ensures r.AttributeAt? ==> i < r.next <= |text|
  {
    match ScanName(text, i, "=")
    case BadName(error) => BadAttribute(error)
    case NameAt(_, size) =>
      var key := text[i..i + size];
      match EqualSign(text, i + size)
      case None => BadAttribute(AttributeWithoutValue(key))
      case Some(equal) =>
        if equal + 1 == |text| then BadAttribute(AttributeWithoutValue(key)) else
          var quote := SkipSpaces(text, equal + 1);
          if quote == |text| || (text[quote] != '"' && text[quote] != '\'') || quote + 1 == |text|
          then BadAttribute(AttributeWithoutValue(key))
          else match ValueEnd(text, quote + 1, text[quote])
            case None => BadAttribute(AttributeMalformed(key))
            case Some(end) => AttributeAt(Attribute(key, text[quote + 1..end]), end + 1)
  }

  /** What stands where an attribute could start: the end of the tag, or an attribute. */
  datatype CloseScan = BadClose(error: Error) | CloseAt(full: bool, end: nat) | NotClosed

  function ScanClose(text: string, i: nat, infos: bool, name: string): (r: CloseScan)
    requires i <= |text|
    ensures r.CloseAt? ==> i <= r.end < |text|
    ensures r.NotClosed? ==> i < |text|
  {
    if i == |text| then BadClose(ElementUnterminated(name))
    else if infos && text[i] == '?' then
      if i + 1 == |text| || text[i + 1] != '>' then BadClose(InfosUnterminated(name)) else CloseAt(false, i + 1)
    else if text[i] == '/' then
      if i + 1 == |text| || text[i + 1] != '>' then BadClose(ElementUnterminated(name)) else CloseAt(true, i + 1)
    else if text[i] == '>' then CloseAt(false, i)
    else NotClosed
  }

  datatype ListScan = BadList(error: Error) | ListAt(attributes: seq<Attribute>, full: bool, end: nat)

  /** The attributes from `i` on, after those already `read`, up to the `>` of the tag (or the end of text). */
  function ScanList(text: string, i: nat, infos: bool, name: string, read: seq<Attribute>): (r: ListScan)
    requires i <= |text|
    ensures r.ListAt? ==> i <= r.end <= |text|
    decreases |text| - i
  {
    if i == |text| then ListAt(read, false, i) else
      var j := SkipSpaces(text, i);
      match ScanClose(text, j, infos, name)
      case BadClose(error) => BadList(error)
      case CloseAt(full, end) => ListAt(read, full, end)
      case NotClosed =>
        match ScanAttribute(text, j)
        case BadAttribute(error) => BadList(error)
        case AttributeAt(attribute, next) => ScanList(text, next, infos, name, read + [attribute])
  }

  // ---------------------------------------------------------------- tags

  datatype StartScan = BadStart(error: Error) | StartAt(infos: bool, tag: Tag, attributes: seq<Attribute>, next: nat)

  /** A start tag or `<?` information, from the character after `<`. */
  function ScanStart(text: string, i: nat): (r: StartScan)
    requires i < |text|
    ensures r.StartAt? ==> i < r.next <= |text| && r.tag.start + r.tag.size <= |text|
  {
    var infos := text[i] == '?';
    if infos && i + 1 == |text| then BadStart(InfosWithoutName) else
      match ScanName(text, if infos then i + 1 else i, if infos then "?" else "/>")
      case BadName(error) => BadStart(error)
      case NameAt(start, size) =>
        var name := text[start..start + size];
        match ScanList(text, start + size, infos, name, [])
        case BadList(error) => BadStart(error)
        case ListAt(attributes, full, end) =>
          if end == |text| then BadStart(ElementUnterminated(name))
          else StartAt(infos, Tag(start, size, full), attributes, SkipSpaces(text, end + 1))
  }

  datatype EndScan = BadEnd(error: Error) | EndAt(next: nat)

  /** An end tag, from the `/` at `i`: it must repeat `name`. */
  function ScanEnd(text: string, i: nat, name: string): (r: EndScan)
    requires i < |text|
    ensures r.EndAt? ==> i < r.next <= |text|
  {
    if i + |name| >= |text| || text[i + 1..i + 1 + |name|] != name then BadEnd(EndMismatch(name)) else
      var j := SkipSpaces(text, i + 1 + |name|);
      if j == |text| || text[j] != '>' then BadEnd(EndUnterminated(name)) else EndAt(SkipSpaces(text, j + 1))
  }

  datatype MarkupScan = BadMarkup(error: Error) | CommentAt(next: nat) | CdataAt(copied: string, next: nat)

  predicate OpensCdata(text: string, i: nat) {
    i + 9 <= |text| && text[i..i + 9] == "<![CDATA["
  }

  /** Markup, from the `!` at `i`. */
  function ScanMarkup(doc: Document, i: nat, parent: bool, inInner: bool): (r: MarkupScan)
    requires i < |doc.text|
    ensures r.CommentAt? || r.CdataAt? ==> i < r.next
    ensures r.CdataAt? ==> parent
    ensures inInner ==> !r.CommentAt?
  {
    var text := doc.text;
    if i + 1 == |text| then BadMarkup(MarkupMalformed)
    else if inInner || (i + 8 <= |text| && text[i + 1..i + 8] == "[CDATA[") then
      if !parent then BadMarkup(CdataWithoutParent)
      else match doc.cdata(i + 8)
        case Unterminated => BadMarkup(CdataUnterminated)
        case Ends(length, copied) => CdataAt(copied, i + 8 + length + 1)
    else if i + 2 == |text| then BadMarkup(CommentMalformed)
    else match doc.comment(i + 1)
      case Unterminated => BadMarkup(CommentUnterminated)
      case Ends(length, _) =>
        var end := i + 2 + length + 1;
        CommentAt(if end < |text| then SkipSpaces(text, end) else end)
  }
}
