/** The event machine of `XMLParser`: from each point of the document, the one thing that happens next,
    whatever the callbacks answer.  `Trace` is the sequence of events of a run that never pauses. */
module XmlEvents {
  import opened XmlSyntax

  datatype Event =
    | StartDocument
    | Infos(name: string, attributes: seq<Attribute>)
    | Start(name: string, attributes: seq<Attribute>)
    | Inner(name: string, content: string)
    | End(name: string)
    | EndDocument(error: Option<Error>)

  /** Text and CDATA collected for the open element; the last `spaces` characters can be dropped. */
  datatype Pending = Pending(content: string, spaces: nat)

  datatype State = State(started: bool, current: nat, tags: seq<Tag>, inner: Option<Pending>)

  const Init := State(false, 0, [], None)

  datatype Move = Emit(event: Event, next: State) | Silent(next: State) | Finish(error: Option<Error>)

  predicate TopFull(s: State) { s.tags != [] && s.tags[|s.tags| - 1].full }

  /** What every reachable point satisfies. */
  predicate Wf(doc: Document, s: State) {
    && (forall i :: 0 <= i < |s.tags| ==> s.tags[i].start + s.tags[i].size <= |doc.text|)
    && (forall i :: 0 <= i < |s.tags| - 1 ==> !s.tags[i].full)
    && (!s.started ==> s.tags == [])
    && (s.inner.Some? ==> s.tags != [] && !TopFull(s) && s.inner.value.spaces <= |s.inner.value.content|)
  }

  function Name(doc: Document, tag: Tag): string
    requires tag.start + tag.size <= |doc.text|
  {
    doc.text[tag.start..tag.start + tag.size]
  }

  function TopName(doc: Document, s: State): string
    requires Wf(doc, s) && s.tags != []
  {
    Name(doc, s.tags[|s.tags| - 1])
  }

  function Popped(s: State): State
    requires s.tags != []
  {
    s.(tags := s.tags[..|s.tags| - 1])
  }

  /** On `</`. */
  function EndMove(doc: Document, s: State): (m: Move)
    requires Wf(doc, s) && s.inner == None && s.started && s.current + 1 < |doc.text|
    ensures m.Emit? ==> Wf(doc, m.next) && s.current < m.next.current && m.next.inner == None
    ensures !m.Silent?
  {
    if s.tags == [] then Finish(Some(EndWithoutStart))
    else match ScanEnd(doc.text, s.current + 1, TopName(doc, s))
      case BadEnd(error) => Finish(Some(error))
      case EndAt(next) => Emit(End(TopName(doc, s)), Popped(s).(current := next))
  }

  /** On `<!`. */
  function MarkupMove(doc: Document, s: State): (m: Move)
    requires Wf(doc, s) && !TopFull(s) && s.current + 1 < |doc.text|
    ensures m.Silent? ==> Wf(doc, m.next) && s.current < m.next.current && m.next.tags == s.tags
    ensures !m.Emit?
  {
    match ScanMarkup(doc, s.current + 1, s.tags != [], s.inner.Some?)
    case BadMarkup(error) => Finish(Some(error))
    case CommentAt(next) => Silent(s.(current := next))
    case CdataAt(copied, next) =>
      var before := if s.inner.Some? then s.inner.value.content else "";
      Silent(s.(current := next, inner := Some(Pending(before + copied, 0))))
  }

  /** On another `<`. */
  function StartMove(doc: Document, s: State): (m: Move)
    requires Wf(doc, s) && !TopFull(s) && s.inner == None && s.started && s.current + 1 < |doc.text|
    ensures m.Emit? ==> Wf(doc, m.next) && s.current < m.next.current && m.next.inner == None
    ensures !m.Silent?
  {
    match ScanStart(doc.text, s.current + 1)
    case BadStart(error) => Finish(Some(error))
    case StartAt(infos, tag, attributes, next) =>
      if infos then Emit(Infos(Name(doc, tag), attributes), s.(current := next))
      else Emit(Start(Name(doc, tag), attributes), s.(tags := s.tags + [tag], current := next))
  }

  /** After a `<` with nothing left to flush before it. */
  function Tagged(doc: Document, s: State): (m: Move)
    requires Wf(doc, s) && !TopFull(s) && s.started && s.current < |doc.text|
    requires s.inner.Some? ==> OpensCdata(doc.text, s.current)
    ensures m.Emit? || m.Silent? ==> Wf(doc, m.next) && s.current < m.next.current
    ensures m.Emit? ==> s.inner == None && m.next.inner == None
  {
    if s.current + 1 == |doc.text| then Finish(Some(NoTagName))
    else if doc.text[s.current + 1] == '!' then MarkupMove(doc, s)
    else
      assert s.inner == None;
      if doc.text[s.current + 1] == '/' then EndMove(doc, s) else StartMove(doc, s)
  }

  /** A character that does not open a tag. */
  function Texted(doc: Document, s: State): (m: Move)
    requires Wf(doc, s) && !TopFull(s) && s.current < |doc.text|
    ensures m.Silent? || m.Finish?
    ensures m.Silent? ==> Wf(doc, m.next) && m.next.current == s.current + 1
  {
    var c := doc.text[s.current];
    var t := s.(current := s.current + 1);
    match s.inner
    case Some(p) => Silent(t.(inner := Some(Pending(p.content + [c], if IsSpace(c) then p.spaces + 1 else 0))))
    case None =>
      if IsSpace(c) then Silent(t)
      else if s.tags == [] then Finish(Some(InnerWithoutParent))
      else Silent(t.(inner := Some(Pending([c], 0))))
  }

  function NextMove(doc: Document, s: State): (m: Move)
    requires Wf(doc, s)
    ensures m.Emit? || m.Silent? ==> Wf(doc, m.next) && Rank(doc, m.next) < Rank(doc, s)
  {
    if TopFull(s) then Emit(End(TopName(doc, s)), Popped(s))
    else if s.current < |doc.text| then
      if doc.text[s.current] != '<' then Texted(doc, s)
      else if !s.started then Emit(StartDocument, s.(started := true))
      else if s.inner.Some? && !OpensCdata(doc.text, s.current) then
        var p := s.inner.value;
        Emit(Inner(TopName(doc, s), p.content[..|p.content| - p.spaces]), s.(inner := None))
      else Tagged(doc, s)
    else if !s.started then Emit(StartDocument, s.(started := true))
    else if s.tags != [] then Finish(Some(NoEndElement(TopName(doc, s))))
    else Finish(None)
  }

  lemma TagIsNext(doc: Document, s: State)
    requires Wf(doc, s) && !TopFull(s) && s.started && s.current < |doc.text| && doc.text[s.current] == '<'
    requires s.inner.Some? ==> OpensCdata(doc.text, s.current)
    ensures NextMove(doc, s) == Tagged(doc, s)
    ensures NextMove(doc, s).Emit? ==> s.inner == None && NextMove(doc, s).next.inner == None
  {
    hide Tagged, Texted, Wf;
  }

  /** Decreases at every move: the parser always advances. */
  function Rank(doc: Document, s: State): nat {
    4 * (if s.current < |doc.text| then |doc.text| - s.current else 0)
    + (if s.started then 0 else 1) + (if s.inner.Some? then 1 else 0) + (if TopFull(s) then 1 else 0)
  }

  /** The events from `s` on when no callback pauses. */
  function Trace(doc: Document, s: State): (events: seq<Event>)
    requires Wf(doc, s)
    ensures events != []
    decreases Rank(doc, s)
  {
    match NextMove(doc, s)
    case Emit(event, next) => [event] + Trace(doc, next)
    case Silent(next) => Trace(doc, next)
    case Finish(error) => [EndDocument(error)]
  }

  lemma TraceAtEnd(doc: Document, s: State)
    requires Wf(doc, s) && !TopFull(s) && s.started && s.current >= |doc.text|
    ensures Trace(doc, s) == [EndDocument(if s.tags == [] then None else Some(NoEndElement(TopName(doc, s))))]
  {
  }

  // ---------------------------------------------------------------- well-nested events

  /** Reads events with a stack of open elements; None when an event does not fit. */
  function Replay(events: seq<Event>, open: seq<string>): Option<seq<string>> {
    if events == [] then Some(open) else
      var rest := events[1..];
      match events[0]
      case StartDocument => if open == [] then Replay(rest, open) else None
      case Infos(_, _) => Replay(rest, open)
      case Start(name, _) => Replay(rest, open + [name])
      case Inner(name, _) => if open != [] && open[|open| - 1] == name then Replay(rest, open) else None
      case End(name) =>
        if open != [] && open[|open| - 1] == name then Replay(rest, open[..|open| - 1]) else None
      case EndDocument(error) => if error.Some? || open == [] then Replay(rest, open) else None
  }

  /** The names of the open elements. */
  function Open(doc: Document, tags: seq<Tag>): (names: seq<string>)
    requires forall i :: 0 <= i < |tags| ==> tags[i].start + tags[i].size <= |doc.text|
    ensures |names| == |tags|
    ensures forall i :: 0 <= i < |tags| ==> names[i] == Name(doc, tags[i])
  {
    seq(|tags|, i requires 0 <= i < |tags| => Name(doc, tags[i]))
  }

  /** One event keeps the stack of tags and the replayed stack in step. */
  lemma MoveKeepsOpen(doc: Document, s: State)
    requires Wf(doc, s) && NextMove(doc, s).Emit?
    ensures var m := NextMove(doc, s);
            Replay([m.event], Open(doc, s.tags)) == Some(Open(doc, m.next.tags))
  {
    hide ScanStart, ScanEnd, ScanMarkup, Rank;
    var m := NextMove(doc, s);
    var before, after := Open(doc, s.tags), Open(doc, m.next.tags);
    match m.event {
      case Start(name, _) => assert after == before + [name];
      case End(_) => assert after == before[..|before| - 1];
      case StartDocument => assert after == before;
      case Infos(_, _) => assert after == before;
      case Inner(_, _) => assert after == before;
      case EndDocument(_) =>
    }
  }

  lemma ReplayCons(event: Event, rest: seq<Event>, open: seq<string>, next: seq<string>)
    requires Replay([event], open) == Some(next)
    ensures Replay([event] + rest, open) == Replay(rest, next)
  {
    assert ([event] + rest)[1..] == rest;
    assert [event][1..] == [];
  }

  lemma SilentKeepsTags(doc: Document, s: State)
    requires Wf(doc, s) && NextMove(doc, s).Silent?
    ensures NextMove(doc, s).next.tags == s.tags
  {
  }

  /** From any reachable point the events are well nested in the elements open there, and success is
      reported only when everything is closed. */
  lemma {:induction false} TraceIsNested(doc: Document, s: State)
    requires Wf(doc, s)
    ensures Replay(Trace(doc, s), Open(doc, s.tags)).Some?
    ensures Trace(doc, s)[|Trace(doc, s)| - 1] == EndDocument(None) ==>
            Replay(Trace(doc, s), Open(doc, s.tags)) == Some([])
    decreases Rank(doc, s)
  {
    hide Open;
    match NextMove(doc, s) {
      case Emit(event, next) =>
        MoveKeepsOpen(doc, s);
        TraceIsNested(doc, next);
        ReplayCons(event, Trace(doc, next), Open(doc, s.tags), Open(doc, next.tags));
      case Silent(next) =>
        SilentKeepsTags(doc, s);
        TraceIsNested(doc, next);
      case Finish(error) =>
        assert Trace(doc, s)[1..] == [];
    }
  }

  lemma MoveStarts(doc: Document, s: State)
    requires Wf(doc, s)
    ensures var m := NextMove(doc, s);
            && (m.Emit? ==> !m.event.EndDocument? && (m.event.StartDocument? <==> !s.started) && m.next.started)
            && (m.Silent? ==> m.next.started == s.started)
  {
    hide ScanStart, ScanEnd, ScanMarkup;
  }

  /** The document ends exactly once, last; it starts at most once, before anything but an error. */
  lemma {:induction false} DocumentEvents(doc: Document, s: State)
    requires Wf(doc, s)
    ensures var n := |Trace(doc, s)|;
            forall i :: 0 <= i < n ==> (Trace(doc, s)[i].EndDocument? <==> i == n - 1)
    ensures s.started ==> StartDocument !in Trace(doc, s)
    ensures !s.started ==> Trace(doc, s)[0].StartDocument? || Trace(doc, s)[0].EndDocument?
    ensures !s.started ==> StartDocument !in Trace(doc, s)[1..]
    decreases Rank(doc, s)
  {
    hide NextMove, Wf, Rank;
    MoveStarts(doc, s);
    match NextMove(doc, s) {
      case Emit(event, next) =>
        DocumentEvents(doc, next);
        assert Trace(doc, s)[1..] == Trace(doc, next);
      case Silent(next) =>
        DocumentEvents(doc, next);
      case Finish(error) =>
    }
  }

  // ---------------------------------------------------------------- pieces of a trace

  /** `log` is what happened between `origin` and `s`. */
  ghost predicate Reaches(doc: Document, origin: State, log: seq<Event>, s: State) {
    && Wf(doc, origin) && Wf(doc, s)
    && Trace(doc, origin) == log + Trace(doc, s)
    && Rank(doc, s) <= Rank(doc, origin)
    && (log != [] ==> Rank(doc, s) < Rank(doc, origin))
    && Replay(log, Open(doc, origin.tags)) == Some(Open(doc, s.tags))
  }

  lemma {:induction false} ReplayMore(log: seq<Event>, event: Event, open: seq<string>, mid: seq<string>)
    requires Replay(log, open) == Some(mid)
    ensures Replay(log + [event], open) == Replay([event], mid)
  {
    if log == [] {
      assert log + [event] == [event];
    } else {
      assert (log + [event])[1..] == log[1..] + [event];
      var next := match log[0]
        case Start(name, _) => open + [name]
        case End(_) => open[..|open| - 1]
        case _ => open;
      ReplayMore(log[1..], event, next, mid);
    }
  }

  lemma ReachEmit(doc: Document, origin: State, log: seq<Event>, s: State)
    requires Reaches(doc, origin, log, s) && NextMove(doc, s).Emit?
    ensures Reaches(doc, origin, log + [NextMove(doc, s).event], NextMove(doc, s).next)
  {
    var m := NextMove(doc, s);
    assert log + ([m.event] + Trace(doc, m.next)) == (log + [m.event]) + Trace(doc, m.next);
    MoveKeepsOpen(doc, s);
    ReplayMore(log, m.event, Open(doc, origin.tags), Open(doc, s.tags));
  }

  lemma ReachSilent(doc: Document, origin: State, log: seq<Event>, s: State)
    requires Reaches(doc, origin, log, s) && NextMove(doc, s).Silent?
    ensures Reaches(doc, origin, log, NextMove(doc, s).next)
  {
    SilentKeepsTags(doc, s);
  }
}
