/** The pausable parser.  Any callback may answer false, which ends the call of `Parse`; the next call
    resumes from the fields, the local variables being lost. */
module XmlParsing {
  import opened XmlSyntax
  import opened XmlEvents

  datatype Result = Done | Paused | Failed

  class XmlParser {
    const doc: Document
    const answer: nat -> bool   // what the k-th call of a callback returns
    var events: seq<Event>      // the calls of the callbacks, in order
    var started: bool
    var failed: Option<Error>
    var current: nat
    var tags: seq<Tag>
    var inner: Option<string>

    /** The state of the event machine; `spaces` is the local counter of removable spaces. */
    function View(spaces: nat): State
      reads this
    {
      State(started, current, tags, if inner.Some? then Some(Pending(inner.value, spaces)) else None)
    }

    /** Between two calls of `Parse`. */
    ghost predicate Valid()
      reads this
    {
      Wf(doc, View(0)) && inner == None && failed == None
    }

    constructor (doc: Document, answer: nat -> bool)
      ensures this.doc == doc && this.answer == answer
      ensures Valid() && View(0) == Init && events == []
    {
      this.doc, this.answer := doc, answer;
      events := [];
      started, failed, current, tags, inner := false, None, 0, [], None;
    }

    /** Calls a callback. */
    method Notify(event: Event) returns (next: bool)
      modifies this`events
      ensures events == old(events) + [event] && next == answer(|old(events)|)
    {
      next := answer(|events|);
      events := events + [event];
    }

    // -------------------------------------------------------------- scanning

    method SkipSpace()
      requires current <= |doc.text|
      modifies this`current
      ensures current == SkipSpaces(doc.text, old(current))
    {
      while current < |doc.text| && IsSpace(doc.text[current])
        invariant current <= |doc.text| && SkipSpaces(doc.text, current) == SkipSpaces(doc.text, old(current))
      {
        current := current + 1;
      }
    }

    method ParseXmlName(markers: string) returns (r: NameScan)
      requires current < |doc.text|
      modifies this`current
      ensures r == ScanName(doc.text, old(current), markers)
      ensures r.NameAt? ==> current == r.start + r.size
    {
      if !IsAlpha(doc.text[current]) && doc.text[current] != '_' {
        return BadName(NameStart);
      }
      var start := current;
      current := current + 1;
      while current < |doc.text| && IsXml(doc.text[current])
        invariant start < current <= |doc.text| && NameEnd(doc.text, current) == NameEnd(doc.text, start + 1)
      {
        current := current + 1;
      }
      if current == |doc.text| || !EndsName(doc.text[current], markers) {
        return BadName(NameUnterminated(doc.text[start..current]));
      }
      return NameAt(start, current - start);
    }

    /** From the end of a key to its equal sign. */
    method SkipToEqual() returns (found: bool)
      requires current < |doc.text|
      modifies this`current
      ensures EqualSign(doc.text, old(current)) == if found then Some(current) else None
      ensures found ==> current < |doc.text|
    {
      while IsSpace(doc.text[current])
        invariant current < |doc.text| && EqualSign(doc.text, current) == EqualSign(doc.text, old(current))
        decreases |doc.text| - current
      {
        current := current + 1;
        if current == |doc.text| {
          return false;
        }
        if doc.text[current] == '=' {
          break;
        }
      }
      return true;
    }

    /** The raw text of an attribute value, up to its delimiter. */
    method SkipValue(delimiter: char) returns (found: bool)
      requires current < |doc.text|
      modifies this`current
      ensures ValueEnd(doc.text, old(current), delimiter) == if found then Some(current) else None
      ensures found ==> current < |doc.text|
    {
      while doc.text[current] != delimiter
        invariant current < |doc.text|
        invariant ValueEnd(doc.text, current, delimiter) == ValueEnd(doc.text, old(current), delimiter)
        decreases |doc.text| - current
      {
        if doc.text[current] == '\\' {
          current := current + 1;
          if current == |doc.text| {
            return false;
          }
        }
        current := current + 1;
        if current == |doc.text| {
          return false;
        }
      }
      return true;
    }

    method ParseAttribute() returns (r: AttributeScan)
      requires current < |doc.text|
      modifies this`current
      ensures r == ScanAttribute(doc.text, old(current))
      ensures r.AttributeAt? ==> current == r.next
    {
      hide ScanName, EqualSign, ValueEnd, SkipSpaces;
      var name := ParseXmlName("=");
      if name.BadName? {
        return BadAttribute(name.error);
      }
      var key := doc.text[name.start..name.start + name.size];
      var found := SkipToEqual();
      if !found || current + 1 == |doc.text| {
        return BadAttribute(AttributeWithoutValue(key));
      }
      current := current + 1;
      SkipSpace();
      if current == |doc.text| {
        return BadAttribute(AttributeWithoutValue(key));
      }
      var delimiter := doc.text[current];
      if (delimiter != '"' && delimiter != '\'') || current + 1 == |doc.text| {
        return BadAttribute(AttributeWithoutValue(key));
      }
      current := current + 1;
      var value := current;
      found := SkipValue(delimiter);
      if !found {
        return BadAttribute(AttributeMalformed(key));
      }
      current := current + 1;
      return AttributeAt(Attribute(key, doc.text[value..current - 1]), current);
    }

    method ParseClose(infos: bool, name: string) returns (r: CloseScan)
      requires current <= |doc.text|
      modifies this`current
      ensures r == ScanClose(doc.text, old(current), infos, name)
      ensures current == if r.CloseAt? then r.end else old(current)
    {
      if current == |doc.text| {
        return BadClose(ElementUnterminated(name));
      }
      if infos && doc.text[current] == '?' {
        if current + 1 == |doc.text| || doc.text[current + 1] != '>' {
          return BadClose(InfosUnterminated(name));
        }
        current := current + 1;
        return CloseAt(false, current);
      } else if doc.text[current] == '/' {
        if current + 1 == |doc.text| || doc.text[current + 1] != '>' {
          return BadClose(ElementUnterminated(name));
        }
        current := current + 1;
        return CloseAt(true, current);
      } else if doc.text[current] == '>' {
        return CloseAt(false, current);
      }
      return NotClosed;
    }

    method ParseAttributes(infos: bool, name: string) returns (r: ListScan)
      requires current <= |doc.text|
      modifies this`current
      ensures r == ScanList(doc.text, old(current), infos, name, [])
      ensures r.ListAt? ==> current == r.end
    {
      var read: seq<Attribute> := [];
      while current < |doc.text|
        invariant current <= |doc.text|
        invariant ScanList(doc.text, current, infos, name, read) == ScanList(doc.text, old(current), infos, name, [])
      {
        SkipSpace();
        var close := ParseClose(infos, name);
        if close.BadClose? {
          return BadList(close.error);
        } else if close.CloseAt? {
          return ListAt(read, close.full, current);
        }
        var attribute := ParseAttribute();
        if attribute.BadAttribute? {
          return BadList(attribute.error);
        }
        read := read + [attribute.attribute];
      }
      return ListAt(read, false, current);
    }

    method ParseStartTag() returns (r: StartScan)
      requires current < |doc.text|
      modifies this`current
      ensures r == ScanStart(doc.text, old(current))
      ensures r.StartAt? ==> current == r.next
    {
      hide ScanName, ScanList, SkipSpaces;
      var infos := doc.text[current] == '?';
      if infos {
        current := current + 1;
        if current == |doc.text| {
          return BadStart(InfosWithoutName);
        }
      }
      var scan := ParseXmlName(if infos then "?" else "/>");
      if scan.BadName? {
        return BadStart(scan.error);
      }
      var name := doc.text[scan.start..scan.start + scan.size];
      var list := ParseAttributes(infos, name);
      if list.BadList? {
        return BadStart(list.error);
      }
      if current == |doc.text| {
        return BadStart(ElementUnterminated(name));
      }
      current := current + 1;
      SkipSpace();
      return StartAt(infos, Tag(scan.start, scan.size, list.full), list.attributes, current);
    }

    method ParseEndTag(name: string) returns (r: EndScan)
      requires current < |doc.text|
      modifies this`current
      ensures r == ScanEnd(doc.text, old(current), name)
      ensures r.EndAt? ==> current == r.next
    {
      if current + |name| >= |doc.text| || doc.text[current + 1..current + 1 + |name|] != name {
        return BadEnd(EndMismatch(name));
      }
      current := current + 1 + |name|;
      SkipSpace();
      if current == |doc.text| || doc.text[current] != '>' {
        return BadEnd(EndUnterminated(name));
      }
      current := current + 1;
      SkipSpace();
      return EndAt(current);
    }

    // -------------------------------------------------------------- one tag

    /** What a method that makes the move `m` leaves behind; `next` is the callback's answer. */
    ghost predicate Made(m: Move, log: seq<Event>, next: bool)
      reads this
    {
      match m
      case Emit(event, after) =>
        failed == None && events == log + [event] && View(0) == after && next == answer(|log|)
      case Silent(after) => failed == None && events == log && View(0) == after && next
      case Finish(error) => failed == error && error.Some? && events == log
    }

    /** On the `/` of an end tag. */
    method ParseEnd() returns (next: bool)
      requires Valid() && started && !TopFull(View(0))
      requires 0 < current < |doc.text| && doc.text[current - 1] == '<' && doc.text[current] == '/'
      modifies this
      ensures Made(EndMove(doc, old(View(0).(current := current - 1))), old(events), next)
    {
      if tags == [] {
        failed := Some(EndWithoutStart);
        return false;
      }
      var name := Name(doc, tags[|tags| - 1]);
      var scan := ParseEndTag(name);
      if scan.BadEnd? {
        failed := Some(scan.error);
        return false;
      }
      tags := tags[..|tags| - 1];
      next := Notify(End(name));
    }

    /** On the `!` of a comment or of a CDATA section. */
    method ParseMarkup(ghost spaces: nat)
      requires failed == None && Wf(doc, View(spaces)) && started && !TopFull(View(spaces))
      requires 0 < current < |doc.text| && doc.text[current - 1] == '<' && doc.text[current] == '!'
      requires inner.Some? ==> OpensCdata(doc.text, current - 1)
      modifies this
      ensures Made(MarkupMove(doc, old(View(spaces).(current := current - 1))), old(events), true)
    {
      current := current + 1;
      if current == |doc.text| {
        failed := Some(MarkupMalformed);
        return;
      }
      if inner.Some? || (current + 7 <= |doc.text| && doc.text[current..current + 7] == "[CDATA[") {
        if tags == [] {
          failed := Some(CdataWithoutParent);
          return;
        }
        current := current + 7;
        var scan := doc.cdata(current);
        if scan.Unterminated? {
          failed := Some(CdataUnterminated);
          return;
        }
        inner := Some((if inner.Some? then inner.value else "") + scan.copied);
        current := current + scan.length + 1;
      } else {
        if current + 1 == |doc.text| {
          failed := Some(CommentMalformed);
          return;
        }
        var scan := doc.comment(current);
        if scan.Unterminated? {
          failed := Some(CommentUnterminated);
          return;
        }
        current := current + 1 + scan.length + 1;
        if current < |doc.text| {
          SkipSpace();
        }
      }
    }

    /** On the first character of a start tag or of an information; the end event of a full tag is the
        next move. */
    method ParseStart() returns (next: bool)
      requires Valid() && started && !TopFull(View(0))
      requires 0 < current < |doc.text| && doc.text[current - 1] == '<'
      requires doc.text[current] != '/' && doc.text[current] != '!'
      modifies this
      ensures Made(StartMove(doc, old(View(0).(current := current - 1))), old(events), next)
    {
      hide ScanStart;
      var scan := ParseStartTag();
      if scan.BadStart? {
        failed := Some(scan.error);
        return false;
      }
      var name := Name(doc, scan.tag);
      if scan.infos {
        next := Notify(Infos(name, scan.attributes));
      } else {
        tags := tags + [scan.tag];
        next := Notify(Start(name, scan.attributes));
      }
    }

    /** Ends the element of a full tag. */
    method CloseFull() returns (next: bool)
      requires Valid() && TopFull(View(0))
      modifies this`tags, this`events
      ensures Made(NextMove(doc, old(View(0))), old(events), next) && Valid()
    {
      var name := Name(doc, tags[|tags| - 1]);
      tags := tags[..|tags| - 1];
      next := Notify(End(name));
    }

    /** A `<` with nothing left to flush before it, through the move of the element it opens. */
    method ParseTag(ghost spaces: nat) returns (next: bool)
      requires failed == None && Wf(doc, View(spaces)) && started && !TopFull(View(spaces))
      requires current < |doc.text| && doc.text[current] == '<'
      requires inner.Some? ==> OpensCdata(doc.text, current)
      modifies this
      ensures Made(NextMove(doc, old(View(spaces))), old(events), next)
      ensures failed == None && (!next || TopFull(View(0))) ==> inner == None && events != old(events)
    {
      hide ScanStart, ScanEnd, ScanMarkup;
      TagIsNext(doc, View(spaces));
      current := current + 1;
      if current == |doc.text| {
        failed := Some(NoTagName);
        return false;
      }
      if doc.text[current] == '!' {
        ParseMarkup(spaces);
        next := true;
      } else if doc.text[current] == '/' {
        assert inner == None;
        next := ParseEnd();
      } else {
        next := ParseStart();
      }
    }

    // -------------------------------------------------------------- the main loop

    /** `emitted` are the events of this call so far, `origin` the state where it started. */
    ghost predicate Going(origin: State, log: seq<Event>, spaces: nat)
      reads this
    {
      failed == None && log <= events && Reaches(doc, origin, events[|log|..], View(spaces))
    }

    /** What a call leaves: the events of an undisturbed run from `origin` are those of this call followed
        by those of an undisturbed run from where it stopped. */
    ghost predicate Stopped(origin: State, log: seq<Event>, result: Result)
      requires Wf(doc, origin)
      reads this
    {
      && log <= events
      && (result.Paused? ==> Valid() && events != log && Going(origin, log, 0))
      && (result.Done? ==> failed == None && Trace(doc, origin) == events[|log|..] + [EndDocument(None)])
      && (result.Failed? ==> failed.Some? && Trace(doc, origin) == events[|log|..] + [EndDocument(failed)])
    }

    /** The machine has made the move from `before`, where it was going. */
    lemma GoesOn(origin: State, log: seq<Event>, before: State, logged: seq<Event>, next: bool)
      requires log <= logged && Reaches(doc, origin, logged[|log|..], before)
      requires Made(NextMove(doc, before), logged, next) && failed == None
      ensures Going(origin, log, 0) && Rank(doc, View(0)) < Rank(doc, before)
      ensures NextMove(doc, before).Emit? ==> |events| == |logged| + 1
    {
      match NextMove(doc, before) {
        case Emit(event, _) =>
          ReachEmit(doc, origin, logged[|log|..], before);
          assert (logged + [event])[|log|..] == logged[|log|..] + [event];
        case Silent(_) =>
          ReachSilent(doc, origin, logged[|log|..], before);
        case Finish(_) =>
      }
    }

    lemma Fails(origin: State, log: seq<Event>, before: State, logged: seq<Event>, next: bool)
      requires log <= logged && Reaches(doc, origin, logged[|log|..], before)
      requires Made(NextMove(doc, before), logged, next) && failed.Some?
      ensures Stopped(origin, log, Failed)
    {
    }

    /** A callback returned false: the answer of `parse` at the end of the document is Done. */
    method Stop(ghost origin: State, ghost log: seq<Event>) returns (result: Result)
      requires Going(origin, log, 0) && Valid() && started && !TopFull(View(0)) && log != events
      ensures Stopped(origin, log, result) && !result.Failed?
    {
      return if current == |doc.text| && tags == [] then Done else Paused;
    }

    /** The part of the loop that starts the document and flushes the inner text. */
    method BeforeTag(ghost origin: State, ghost log: seq<Event>, spaces: nat) returns (next: bool)
      requires Going(origin, log, spaces) && !TopFull(View(spaces))
      requires current < |doc.text| && doc.text[current] == '<'
      modifies this
      ensures Going(origin, log, spaces) && Rank(doc, View(spaces)) <= old(Rank(doc, View(spaces)))
      ensures !TopFull(View(spaces)) && started && current == old(current) && (inner.Some? ==> OpensCdata(doc.text, current))
      ensures !next ==> Valid() && events != log
    {
      hide Replay, Trace, Open;
      ghost var before, logged := View(spaces), events;
      if !started {
        started := true;
        next := Notify(StartDocument);
        GoesOn(origin, log, before, logged, next);
        if !next {
          return;
        }
      }
      if inner.Some? && !OpensCdata(doc.text, current) {
        var content := inner.value[..|inner.value| - spaces];
        inner := None;
        next := Notify(Inner(Name(doc, tags[|tags| - 1]), content));
        GoesOn(origin, log, before, logged, next);
        return;
      }
      return true;
    }

    /** The loop body on a `<`. */
    method OnTag(ghost origin: State, ghost log: seq<Event>, spaces: nat) returns (stop: bool, result: Result)
      requires Going(origin, log, spaces) && !TopFull(View(spaces))
      requires current < |doc.text| && doc.text[current] == '<'
      modifies this
      ensures stop ==> Stopped(origin, log, result)
      ensures !stop ==> Going(origin, log, 0) && !TopFull(View(0)) && Rank(doc, View(0)) < old(Rank(doc, View(spaces)))
    {
      var next := BeforeTag(origin, log, spaces);
      if !next {
        return true, Paused;
      }
      stop, result := OnElement(origin, log, spaces);
    }

    /** The element that the `<` opens, and the end event of a full one. */
    method OnElement(ghost origin: State, ghost log: seq<Event>, spaces: nat) returns (stop: bool, result: Result)
      requires Going(origin, log, spaces) && !TopFull(View(spaces)) && started
      requires current < |doc.text| && doc.text[current] == '<'
      requires inner.Some? ==> OpensCdata(doc.text, current)
      modifies this
      ensures stop ==> Stopped(origin, log, result)
      ensures !stop ==> Going(origin, log, 0) && !TopFull(View(0)) && Rank(doc, View(0)) < old(Rank(doc, View(spaces)))
    {
      ghost var before, logged := View(spaces), events;
      var next := ParseTag(spaces);
      if failed.Some? {
        Fails(origin, log, before, logged, next);
        return true, Failed;
      }
      GoesOn(origin, log, before, logged, next);
      stop, result := Conclude(origin, log, next);
    }

    method Conclude(ghost origin: State, ghost log: seq<Event>, answered: bool) returns (stop: bool, result: Result)
      requires Going(origin, log, 0) && started
      requires !answered || TopFull(View(0)) ==> inner == None && events != log
      modifies this
      ensures stop ==> Stopped(origin, log, result)
      ensures !stop ==> Going(origin, log, 0) && !TopFull(View(0)) && Rank(doc, View(0)) <= old(Rank(doc, View(0)))
    {
      var next := answered;
      if next && TopFull(View(0)) {
        ghost var before, logged := View(0), events;
        next := CloseFull();
        GoesOn(origin, log, before, logged, next);
      }
      if !next {
        return true, if current == |doc.text| && tags == [] then Done else Paused;
      }
      return false, Done;
    }

    /** The loop body on another character: inner text, or space between elements. */
    method OnText(ghost origin: State, ghost log: seq<Event>, spaces: nat) returns (stop: bool, spaces': nat)
      requires Going(origin, log, spaces) && !TopFull(View(spaces))
      requires current < |doc.text| && doc.text[current] != '<'
      modifies this`inner, this`failed, this`current
      ensures stop ==> Stopped(origin, log, Failed)
      ensures !stop ==> Going(origin, log, spaces') && !TopFull(View(spaces'))
      ensures !stop ==> Rank(doc, View(spaces')) < old(Rank(doc, View(spaces)))
    {
      hide Replay, Trace, Open, Tagged, Rank;
      ghost var before := View(spaces);
      var c := doc.text[current];
      spaces' := spaces;
      if inner.Some? {
        inner := Some(inner.value + [c]);
        spaces' := if IsSpace(c) then spaces + 1 else 0;
      } else if !IsSpace(c) {
        if tags == [] {
          failed := Some(InnerWithoutParent);
          Fails(origin, log, before, events, false);
          return true, spaces';
        }
        inner := Some([c]);
        spaces' := 0;
      }
      current := current + 1;
      ReachSilent(doc, origin, events[|log|..], before);
      assert View(spaces') == NextMove(doc, before).next;
      return false, spaces';
    }

    /** The text is exhausted. */
    method AtEnd(ghost origin: State, ghost log: seq<Event>, spaces: nat) returns (result: Result)
      requires Going(origin, log, spaces) && !TopFull(View(spaces)) && current >= |doc.text|
      modifies this
      ensures Stopped(origin, log, result)
    {
      hide Replay, Trace, Open;
      ghost var before, logged := View(spaces), events;
      if started {
        TraceAtEnd(doc, before);
      }
      if !started {
        started := true;
        var next := Notify(StartDocument);
        GoesOn(origin, log, before, logged, next);
        if !next {
          return Paused;
        }
        TraceAtEnd(doc, View(spaces));
      } else if tags != [] {
        failed := Some(NoEndElement(Name(doc, tags[|tags| - 1])));
        return Failed;
      }
      return Done;
    }

    /** The private `parse`. */
    method Run() returns (result: Result)
      requires Valid()
      modifies this
      ensures Stopped(old(View(0)), old(events), result)
    {
      ghost var origin, log := View(0), events;
      var stop: bool;
      while tags != []
        invariant Valid() && Going(origin, log, 0)
        decreases |tags|
      {
        if !tags[|tags| - 1].full {
          break;
        }
        ghost var before, logged := View(0), events;
        var next := CloseFull();
        GoesOn(origin, log, before, logged, next);
        if !next {
          result := Stop(origin, log);
          return;
        }
      }
      var spaces := 0;
      while current < |doc.text|
        invariant Going(origin, log, spaces) && !TopFull(View(spaces))
        decreases Rank(doc, View(spaces))
      {
        if doc.text[current] == '<' {
          stop, result := OnTag(origin, log, spaces);
          if stop {
            return;
          }
          if inner.Some? {
            spaces := 0;
          }
        } else {
          stop, spaces := OnText(origin, log, spaces);
          if stop {
            return Failed;
          }
        }
      }
      result := AtEnd(origin, log, spaces);
    }

    // -------------------------------------------------------------- the interface

    /** The public `parse`: without pause it ends with the document event. */
    method Parse() returns (result: Result)
      requires failed.Some? || Valid()
      modifies this
      ensures old(failed).Some? ==> result.Failed? && failed == old(failed) && events == old(events)
      ensures old(failed) == None && result.Paused? ==>
                && Valid() && old(events) <= events
                && Trace(doc, old(View(0))) == events[|old(events)|..] + Trace(doc, View(0))
                && Rank(doc, View(0)) < Rank(doc, old(View(0)))
                && Replay(events[|old(events)|..], Open(doc, old(tags))) == Some(Open(doc, tags))
      ensures old(failed) == None && !result.Paused? ==>
                && old(events) <= events
                && Trace(doc, old(View(0))) == events[|old(events)|..]
                && events[|events| - 1] == EndDocument(failed)
                && (result.Failed? <==> failed.Some?)
    {
      if failed.Some? {
        return Failed;
      }
      ghost var log := events;
      result := Run();
      if !result.Paused? {
        ghost var logged := events;
        var _ := Notify(EndDocument(failed));
        assert events[|log|..] == logged[|log|..] + [EndDocument(failed)];
      }
    }

    /** A caller that resumes until the end sees the events of a run that never pauses, and the same result,
        whatever the callbacks answered. */
    method ParseToEnd() returns (result: Result)
      requires Valid() && View(0) == Init && events == []
      modifies this
      ensures events == Trace(doc, Init)
      ensures !result.Paused? && (result.Done? <==> events[|events| - 1] == EndDocument(None))
    {
      hide Replay, Trace, Open, Wf, Rank;
      result := Paused;
      while result.Paused?
        invariant result.Paused? ==> Valid() && Trace(doc, Init) == events + Trace(doc, View(0))
        invariant !result.Paused? ==> Trace(doc, Init) == events
        invariant !result.Paused? ==> (result.Done? <==> events[|events| - 1] == EndDocument(None))
        decreases if result.Paused? then 1 + Rank(doc, View(0)) else 0
      {
        ghost var logged := events;
        result := Parse();
        assert events == logged + events[|logged|..];
        assert logged + (events[|logged|..] + Trace(doc, Init)) == events + Trace(doc, Init);
        if result.Paused? {
          assert logged + (events[|logged|..] + Trace(doc, View(0))) == events + Trace(doc, View(0));
        }
      }
    }
  }
}
