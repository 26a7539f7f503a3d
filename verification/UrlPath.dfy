/** `URL::ParseRequest`: the path of a request, normalised in place, against a stack of segments. */
module UrlPath {

  const MAKE_FOLDER: bv8 := 1
  const FORCE_RELATIVE: bv8 := 2

  // ---------------------------------------------------------------- the text of a request

  predicate IsSlash(c: char) { c == '/' || c == '\\' }

  /** Where the query begins, or the end. */
  function QueryAt(request: string): (n: nat)
    ensures n <= |request|
    ensures forall i :: 0 <= i < n ==> request[i] != '?'
    ensures n < |request| ==> request[n] == '?'
  {
    if request == "" || request[0] == '?' then 0 else 1 + QueryAt(request[1..])
  }

  function WithoutSlashes(text: string): string {
    if text != "" && IsSlash(text[0]) then WithoutSlashes(text[1..]) else text
  }

  /** The pieces between slashes: one more than there are slashes. */
  function Split(text: string): (segments: seq<string>)
    ensures segments != []
  {
    if text == "" then [""] else Grow(Split(text[..|text| - 1]), text[|text| - 1])
  }

  /** The pieces after one more character. */
  function Grow(segments: seq<string>, c: char): (grown: seq<string>)
    requires segments != []
    ensures grown != []
  {
    var n := |segments| - 1;
    if IsSlash(c) then segments + [""] else segments[..n] + [segments[n] + [c]]
  }

  // ---------------------------------------------------------------- the stack of segments

  /** What comes before the first slash, as it is, then the folders below it. */
  datatype Place = Place(base: string, folders: seq<string>)

  predicate IsDot(segment: string) { segment == "" || segment == "." }

  predicate IsName(segment: string) { !IsDot(segment) && segment != ".." }

  function Above(p: Place): Place {
    if p.folders == [] then Place("", []) else Place(p.base, p.folders[..|p.folders| - 1])
  }

  function Enter(p: Place, segment: string): Place {
    if IsDot(segment) then p else if segment == ".." then Above(p) else Place(p.base, p.folders + [segment])
  }

  function Walk(p: Place, segments: seq<string>): Place {
    if segments == [] then p else Enter(Walk(p, segments[..|segments| - 1]), segments[|segments| - 1])
  }

  function Text(p: Place): string
    decreases |p.folders|
  {
    if p.folders == [] then p.base else Text(Above(p)) + "/" + p.folders[|p.folders| - 1]
  }

  /** For each folder, the length of the text before its slash. */
  function Offsets(p: Place): seq<nat>
    decreases |p.folders|
  {
    if p.folders == [] then [] else Offsets(Above(p)) + [|Text(Above(p))|]
  }

  function Arrival(segments: seq<string>): Place
    requires segments != []
  {
    Walk(Place(segments[0], []), segments[1..])
  }

  /** The path ends with a slash when its last segment names no file. */
  predicate IsFolder(segments: seq<string>, options: bv8)
    requires segments != []
  {
    (|segments| > 1 && !IsName(segments[|segments| - 1])) || options & MAKE_FOLDER != 0
  }

  function PathOf(segments: seq<string>, options: bv8): string
    requires segments != []
  {
    Text(Arrival(segments)) + if IsFolder(segments, options) then "/" else ""
  }

  /** The request without the slashes that a forced relative path loses. */
  function Subject(request: string, options: bv8): string {
    if options & FORCE_RELATIVE != 0 then WithoutSlashes(request) else request
  }

  predicate IsRelative(request: string, options: bv8) {
    var text := Subject(request, options);
    text == "" || !IsSlash(text[0])
  }

  /** The path of a text, up to its query. */
  function PathIn(text: string, options: bv8): string {
    PathOf(Split(text[..QueryAt(text)]), options)
  }

  function Normalized(request: string, options: bv8): string {
    var path := PathIn(Subject(request, options), options);
    if IsRelative(request, options) then WithoutSlashes(path) else path
  }

  // ---------------------------------------------------------------- the code

  /** What the variables of the loop hold after the text that `segments` split. */
  ghost predicate Matches(segments: seq<string>, level: nat, path: string, slashs: seq<nat>)
    requires segments != []
  {
    var n := |segments| - 1;
    if n == 0 then level == 0 && path == segments[0] && slashs == [] else
      var p, tail := Arrival(segments[..n]), segments[n];
      if tail == "" || tail == "." || tail == ".." then
        level == |tail| + 1 && path == Text(p) && slashs == Offsets(p)
      else
        level == 0 && path == Text(Enter(p, tail)) && slashs == Offsets(Enter(p, tail))
  }

  lemma ArrivalNext(segments: seq<string>)
    requires |segments| > 1
    ensures Arrival(segments) == Enter(Arrival(segments[..|segments| - 1]), segments[|segments| - 1])
  {
    var n := |segments| - 1;
    assert segments[..n][1..] == segments[1..][..n - 1];
  }

  lemma Entered(p: Place, name: string)
    requires IsName(name)
    ensures Text(Enter(p, name)) == Text(p) + "/" + name
    ensures Offsets(Enter(p, name)) == Offsets(p) + [|Text(p)|]
  {
    assert Above(Enter(p, name)) == p;
  }

  lemma OffsetsOf(p: Place)
    ensures |Offsets(p)| == |p.folders|
    ensures p.folders != [] ==> var k := |p.folders| - 1;
      Offsets(p)[k] <= |Text(p)| && Text(p)[..Offsets(p)[k]] == Text(Above(p)) && Offsets(p)[..k] == Offsets(Above(p))
    decreases |p.folders|
  {
    if p.folders != [] {
      OffsetsOf(Above(p));
    }
  }

  /** One more character of the text that is split. */
  lemma SplitSnoc(text: string, c: char)
    ensures Split(text + [c]) == Grow(Split(text), c)
  {
    assert (text + [c])[..|text|] == text;
  }

  /** A slash: the segment that ends is entered. */
  method OnSlash(ghost segments: seq<string>, level: nat, path: string, slashs: seq<nat>, ghost c: char)
    returns (path': string, slashs': seq<nat>)
    requires segments != [] && Matches(segments, level, path, slashs)
    requires IsSlash(c)
    ensures Matches(Grow(segments, c), 1, path', slashs')
  {
    path', slashs' := path, slashs;
    ghost var n := |segments| - 1;
    assert (segments + [""])[..n + 1] == segments;
    if n > 0 {
      ArrivalNext(segments);
      OffsetsOf(Arrival(segments[..n]));
    }
    if level > 2 {
      if slashs != [] {
        path' := path[..slashs[|slashs| - 1]];
        slashs' := slashs[..|slashs| - 1];
      } else {
        path' := "";
      }
    }
  }

  lemma NameGrows(tail: string, c: char)
    requires IsName(tail) || tail == ".." || c != '.'
    ensures IsName(tail + [c])
  {
    var grown := tail + [c];
    assert grown[..|tail|] == tail && grown[|tail|] == c;
  }

  /** A name below the folders that the text already renders. */
  lemma NameMatches(before: seq<string>, name: string)
    requires before != [] && IsName(name)
    ensures var p := Arrival(before);
      Matches(before + [name], 0, Text(p) + "/" + name, Offsets(p) + [|Text(p)|])
  {
    assert (before + [name])[..|before|] == before;
    Entered(Arrival(before), name);
    hide Walk, Text, Offsets;
  }

  /** One or two dots: nothing is written yet. */
  lemma DotsMatch(before: seq<string>, dots: string)
    requires before != [] && (dots == "." || dots == "..")
    ensures Matches(before + [dots], |dots| + 1, Text(Arrival(before)), Offsets(Arrival(before)))
  {
    assert (before + [dots])[..|before|] == before;
    hide Walk, Text, Offsets;
  }

  /** Any other character. */
  method OnOther(ghost segments: seq<string>, level: nat, path: string, slashs: seq<nat>, c: char)
    returns (level': nat, path': string, slashs': seq<nat>)
    requires segments != [] && Matches(segments, level, path, slashs)
    requires !IsSlash(c)
    ensures Matches(Grow(segments, c), level', path', slashs')
  {
    hide Walk, Text, Offsets;
    ghost var n := |segments| - 1;
    ghost var before, tail := segments[..n], segments[n];
    level', path', slashs' := level, path, slashs;
    if level > 0 {
      if level < 3 && c == '.' {
        level' := level + 1;
        DotsMatch(before, tail + [c]);
        return;
      }
      slashs' := slashs + [|path|];
      path' := path + "/.."[..level];
      level' := 0;
      assert path' == Text(Arrival(before)) + "/" + tail;
    } else if n > 0 {
      NameMatches(before, tail);
      assert before + [tail] == segments;
    }
    path' := path' + [c];
    if n > 0 {
      NameGrows(tail, c);
      NameMatches(before, tail + [c]);
      hide Matches;
      assert path' == Text(Arrival(before)) + "/" + (tail + [c]);
    }
  }

  /** The slashes that a forced relative path loses. */
  method SkipSlashes(request: string, options: bv8) returns (rest: string, relative: bool)
    ensures rest == Subject(request, options)
    ensures relative == IsRelative(request, options)
    ensures |rest| <= |request| && |rest| - QueryAt(rest) == |request| - QueryAt(request)
  {
    rest := request;
    relative := rest == "" || !IsSlash(rest[0]);
    while !relative && options & FORCE_RELATIVE != 0
      invariant relative == (rest == "" || !IsSlash(rest[0]))
      invariant options & FORCE_RELATIVE == 0 ==> rest == request
      invariant WithoutSlashes(rest) == WithoutSlashes(request)
      invariant |rest| <= |request| && |rest| - QueryAt(rest) == |request| - QueryAt(request)
      decreases |rest|
    {
      rest := rest[1..];
      relative := rest == "" || !IsSlash(rest[0]);
    }
  }

  lemma OneMore(text: string, i: nat)
    requires i < |text|
    ensures text[..i + 1] == text[..i] + [text[i]]
  {
  }

  /** The loop over the characters, up to the query. */
  method Scan(rest: string) returns (level: nat, path: string, slashs: seq<nat>, i: nat)
    ensures i == QueryAt(rest)
    ensures Matches(Split(rest[..i]), level, path, slashs)
  {
    assert Matches(Split(rest[..0]), 0, "", []);
    hide Matches, Split, Grow;
    path := "";
    level := 0;
    slashs := [];
    i := 0;
    while i < |rest| && rest[i] != '?'
      invariant i <= QueryAt(rest)
      invariant Matches(Split(rest[..i]), level, path, slashs)
    {
      ghost var segments := Split(rest[..i]);
      SplitSnoc(rest[..i], rest[i]);
      OneMore(rest, i);
      if IsSlash(rest[i]) {
        path, slashs := OnSlash(segments, level, path, slashs, rest[i]);
        level := 1;
      } else {
        level, path, slashs := OnOther(segments, level, path, slashs, rest[i]);
      }
      i := i + 1;
    }
  }

  /** What follows the loop: the last segment, and the slash of a folder. */
  method Conclude(ghost segments: seq<string>, level: nat, path: string, slashs: seq<nat>, options: bv8) returns (path': string)
    requires segments != [] && Matches(segments, level, path, slashs)
    ensures path' == PathOf(segments, options)
  {
    if |segments| > 1 {
      ArrivalNext(segments);
      OffsetsOf(Arrival(segments[..|segments| - 1]));
    }
    path' := path;
    if level > 0 {
      if level > 2 {
        path' := path[..if slashs == [] then 0 else slashs[|slashs| - 1]];
      }
      path' := path' + "/";
    } else if options & MAKE_FOLDER != 0 {
      path' := path' + "/";
    }
  }

  /** `FileSystem::MakeRelative` */
  method MakeRelative(path: string) returns (relative: string)
    ensures relative == WithoutSlashes(path)
  {
    var count := 0;
    while count < |path| && IsSlash(path[count])
      invariant count <= |path|
      invariant WithoutSlashes(path[count..]) == WithoutSlashes(path)
    {
      count := count + 1;
    }
    relative := path[count..];
  }

  // ---------------------------------------------------------------- the request in its buffer

  /** The size that a caller gives: none, and the request ends at its null character, or a number, and the
      request is the start of a buffer that may go on behind it. */
  datatype Size = Terminated | Given(size: nat)

  /** `strlen` from a position on; a null character follows the buffer. */
  function StringEnd(buffer: string, from: nat): (end: nat)
    requires from <= |buffer|
    ensures from <= end <= |buffer|
    decreases |buffer| - from
  {
    if from == |buffer| || buffer[from] == '\0' then from else StringEnd(buffer, from + 1)
  }

  function Request(buffer: string, size: Size): string
    requires size.Given? ==> size.size <= |buffer|
  {
    buffer[..if size.Given? then size.size else StringEnd(buffer, 0)]
  }

  /** The size that the code answers for the query. */
  function QuerySize(buffer: string, size: Size): (n: nat)
    requires size.Given? ==> size.size <= |buffer|
    ensures QueryAt(Request(buffer, size)) + n <= |buffer|
  {
    var request := Request(buffer, size);
    if QueryAt(request) < |request| then |request| - QueryAt(request)
    else StringEnd(buffer, |request|) - |request|
  }

  /** The code looks for a second slash behind the only character of the request. */
  predicate Peeks(buffer: string, size: Size, options: bv8)
    requires size.Given? ==> size.size <= |buffer|
  {
    |Request(buffer, size)| == 1 && !IsRelative(Request(buffer, size), options) && |buffer| > 1 && buffer[1] == '/'
  }

  /** The path that the code answers. */
  function Answered(buffer: string, size: Size, options: bv8): string
    requires size.Given? ==> size.size <= |buffer|
  {
    if Peeks(buffer, size, options) then (if options & MAKE_FOLDER != 0 then "/" else "")
    else Normalized(Request(buffer, size), options)
  }

  method FindEnd(buffer: string, from: nat) returns (end: nat)
    requires from <= |buffer|
    ensures end == StringEnd(buffer, from)
  {
    end := from;
    while end < |buffer| && buffer[end] != '\0'
      invariant from <= end <= |buffer| && StringEnd(buffer, end) == StringEnd(buffer, from)
    {
      end := end + 1;
    }
  }

  /** The loop, its end, and the slashes that a relative path loses. */
  method ParsePath(text: string, relative: bool, options: bv8) returns (path: string, i: nat)
    ensures i == QueryAt(text)
    ensures path == if relative then WithoutSlashes(PathIn(text, options)) else PathIn(text, options)
  {
    var level, raw, slashs;
    level, raw, slashs, i := Scan(text);
    path := Conclude(Split(text[..i]), level, raw, slashs, options);
    if relative {
      path := MakeRelative(path);
    }
  }

  /** The path of the request that ends at `end`, and how much of it remains for the query. */
  method ReadPath(buffer: string, size: Size, end: nat, options: bv8) returns (path: string, rest: nat)
    requires size.Given? ==> size.size <= |buffer|
    requires end <= |buffer| && buffer[..end] == Request(buffer, size)
    ensures path == Answered(buffer, size, options)
    ensures rest == end - QueryAt(Request(buffer, size))
  {
    hide Normalized, PathIn, WithoutSlashes, Peeks, Request, Subject, IsRelative;
    var text, relative := SkipSlashes(buffer[..end], options);
    NormalizedIs(buffer[..end], options);
    if !relative && 1 < |buffer| && buffer[1] == '/' {
      PeekedSlash(buffer, size, text, options);
      text := text[1..];
    } else {
      NotPeeked(buffer, size, options);
    }
    var i;
    path, i := ParsePath(text, relative, options);
    rest := |text| - i;
  }

  /** `ParseRequest`: the path, and the place and the size of the query in the buffer. */
  method ParseRequest(buffer: string, size: Size, options: bv8) returns (path: string, at: nat, rest: nat)
    requires |buffer| < 0x8000_0000 && (size.Given? ==> size.size <= |buffer|)
    requires var request := Request(buffer, size); forall i :: 0 <= i < QueryAt(request) ==> request[i] != '%'
    ensures path == Answered(buffer, size, options)
    ensures at == QueryAt(Request(buffer, size)) && rest == QuerySize(buffer, size)
  {
    hide Normalized, Peeks;
    var end := if size.Given? then size.size else 0;
    if size.Terminated? {
      end := FindEnd(buffer, 0);
    }
    path, rest := ReadPath(buffer, size, end, options);
    at := end - rest;
    if rest == 0 {
      var stop := FindEnd(buffer, at);
      rest := stop - at;
    }
  }

  lemma NormalizedIs(request: string, options: bv8)
    ensures var path := PathIn(Subject(request, options), options);
      Normalized(request, options) == if IsRelative(request, options) then WithoutSlashes(path) else path
  {
  }

  lemma NotPeeked(buffer: string, size: Size, options: bv8)
    requires size.Given? ==> size.size <= |buffer|
    requires IsRelative(Request(buffer, size), options) || |buffer| <= 1 || buffer[1] != '/'
    ensures !Peeks(buffer, size, options)
  {
  }

  /** The forms that take a whole string. */
  method ParseString(request: string, options: bv8) returns (path: string, query: string)
    requires |request| < 0x8000_0000
    requires forall i :: 0 <= i < QueryAt(request) ==> request[i] != '%'
    ensures path == Normalized(request, options)
    ensures query == request[QueryAt(request)..]
  {
    assert Request(request, Given(|request|)) == request;
    var at, rest;
    path, at, rest := ParseRequest(request, Given(|request|), options);
    query := request[at..at + rest];
  }

  /** The slash that the code skips: the first of two, or the only one of the request. */
  lemma PeekedSlash(buffer: string, size: Size, text: string, options: bv8)
    requires size.Given? ==> size.size <= |buffer|
    requires text == Subject(Request(buffer, size), options) && !IsRelative(Request(buffer, size), options)
    requires 1 < |buffer| && buffer[1] == '/'
    ensures text != "" && QueryAt(text) == QueryAt(text[1..]) + 1
    ensures PathIn(text[1..], options) ==
      if Peeks(buffer, size, options) then (if options & MAKE_FOLDER != 0 then "/" else "") else PathIn(text, options)
  {
    Stripped(Request(buffer, size));
    if |text| > 1 {
      assert text[1] == buffer[1];
      SecondSlash(text, options);
    }
  }

  lemma {:induction false} StringEndStays(buffer: string, from: nat)
    requires from <= |buffer|
    ensures StringEnd(buffer, StringEnd(buffer, from)) == StringEnd(buffer, from)
    decreases |buffer| - from
  {
    if from < |buffer| && buffer[from] != '\0' {
      StringEndStays(buffer, from + 1);
    }
  }

  /** What the code returns is the query of the request exactly when the request is null-terminated, or its
      query lies inside the given size, or its buffer ends there. */
  lemma QueryIsOwnIff(buffer: string, size: Size)
    requires size.Given? ==> size.size <= |buffer|
    ensures var request := Request(buffer, size);
      var at := QueryAt(request);
      buffer[at..at + QuerySize(buffer, size)] == request[at..] <==>
        size.Terminated? || at < |request| || StringEnd(buffer, |request|) == |request|
  {
    var request := Request(buffer, size);
    var at := QueryAt(request);
    StringEndStays(buffer, 0);
    if at < |request| {
      assert buffer[at..at + (|request| - at)] == request[at..];
    } else {
      assert request[at..] == "";
    }
  }

  /** The path `a` of a buffer that goes on: its query is found behind it. */
  lemma QueryBehindTheRequest()
    ensures Request("/a?x", Given(2)) == "/a"
    ensures "/a?x"[QueryAt("/a")..QueryAt("/a") + QuerySize("/a?x", Given(2))] == "?x"
  {
    assert "/a?x"[..2] == "/a";
    NoQueryAt("/a");
    assert StringEnd("/a?x", 4) == 4 && StringEnd("/a?x", 3) == 4 && StringEnd("/a?x", 2) == 4;
  }

  /** The path is that of the request exactly when the code does not look behind it, or makes a folder anyway. */
  lemma PathIsOwnIff(buffer: string, size: Size, options: bv8)
    requires size.Given? ==> size.size <= |buffer|
    ensures Answered(buffer, size, options) == Normalized(Request(buffer, size), options)
            <==> !Peeks(buffer, size, options) || options & MAKE_FOLDER != 0
  {
    if Peeks(buffer, size, options) {
      var request := Request(buffer, size);
      Stripped(request);
      OneSlash(request, options);
    }
  }

  /** The request `/` of size 1 in a buffer that goes on with a slash: the code answers no path. */
  lemma SlashBehindTheRequest()
    ensures Request("//", Given(1)) == "/" && Normalized("/", 0) == "/"
    ensures Answered("//", Given(1), 0) == ""
  {
    assert "//"[..1] == "/";
    assert Peeks("//", Given(1), 0);
    OneSlash("/", 0);
  }

  lemma OneSlash(request: string, options: bv8)
    requires |request| == 1 && !IsRelative(request, options) && IsSlash(request[0])
    requires Subject(request, options) == request
    ensures Normalized(request, options) == "/"
  {
    SplitBehind(request[0], "");
    assert request == [request[0]] + "";
    assert QueryAt(request) == 1 && request[..1] == request;
    assert Split("") == [""];
    hide Split;
    assert ([""] + [""])[1..] == [""];
    assert Walk(Place("", []), [""]) == Place("", []);
  }

  // ---------------------------------------------------------------- splitting and joining

  lemma {:induction false} WalkMore(p: Place, s: seq<string>, t: seq<string>)
    ensures Walk(p, s + t) == Walk(Walk(p, s), t)
    decreases |t|
  {
    if t == [] {
      assert s + t == s;
    } else {
      var n := |t| - 1;
      assert (s + t)[..|s| + n] == s + t[..n];
      WalkMore(p, s, t[..n]);
    }
  }

  lemma {:induction false} SplitJoin(a: string, slash: char, b: string)
    requires IsSlash(slash)
    ensures Split(a + [slash] + b) == Split(a) + Split(b)
    decreases |b|
  {
    assert Split("") == [""] && Grow(Split(a), slash) == Split(a) + [""];
    hide Split, Grow, IsSlash;
    if b == "" {
      assert a + [slash] + b == a + [slash];
      SplitSnoc(a, slash);
    } else {
      var n := |b| - 1;
      assert b == b[..n] + [b[n]] && a + [slash] + b == a + [slash] + b[..n] + [b[n]];
      SplitJoin(a, slash, b[..n]);
      SplitSnoc(a + [slash] + b[..n], b[n]);
      SplitSnoc(b[..n], b[n]);
      GrowBehind(Split(a), Split(b[..n]), b[n]);
    }
  }

  lemma GrowBehind(x: seq<string>, y: seq<string>, c: char)
    requires y != []
    ensures Grow(x + y, c) == x + Grow(y, c)
  {
    var n := |y| - 1;
    assert (x + y)[..|x + y| - 1] == x + y[..n] && (x + y)[|x + y| - 1] == y[n];
    assert x + y + [""] == x + (y + [""]);
    assert x + y[..n] + [y[n] + [c]] == x + (y[..n] + [y[n] + [c]]);
  }

  lemma QueryBehind(text: string)
    requires text != "" && text[0] != '?'
    ensures QueryAt(text) == QueryAt(text[1..]) + 1
  {
  }

  /** A second slash at the start makes no difference. */
  lemma SecondSlash(text: string, options: bv8)
    requires |text| > 1 && IsSlash(text[0]) && IsSlash(text[1])
    ensures QueryAt(text) == QueryAt(text[1..]) + 1
    ensures PathOf(Split(text[..QueryAt(text)]), options) == PathOf(Split(text[1..][..QueryAt(text[1..])]), options)
  {
    hide QueryAt, Split, PathOf;
    var tail := text[1..];
    assert tail[0] == text[1];
    QueryBehind(text);
    QueryBehind(tail);
    TwoHeads(text, QueryAt(text), options);
  }

  lemma TwoSlashes(a: char, b: char, rest: string, options: bv8)
    requires IsSlash(a) && IsSlash(b)
    ensures PathOf(Split([a] + ([b] + rest)), options) == PathOf(Split([b] + rest), options)
  {
    hide Split, PathOf, IsSlash;
    var one := [b] + rest;
    SplitBehind(b, rest);
    SplitBehind(a, one);
    SecondEmpty(Split(rest), options);
  }

  lemma TwoHeads(text: string, n: nat, options: bv8)
    requires 2 <= n <= |text| && IsSlash(text[0]) && IsSlash(text[1])
    ensures PathOf(Split(text[..n]), options) == PathOf(Split(text[1..][..n - 1]), options)
  {
    hide Split, PathOf, IsSlash;
    var a, b, rest := text[0], text[1], text[2..n];
    TwoSlashes(a, b, rest, options);
    assert text[..n] == [a] + ([b] + rest);
    assert text[1..][..n - 1] == [b] + rest;
  }

  lemma SplitBehind(slash: char, b: string)
    requires IsSlash(slash)
    ensures Split([slash] + b) == [""] + Split(b)
  {
    assert Split("") == [""];
    hide Split;
    assert [slash] + b == "" + [slash] + b;
    SplitJoin("", slash, b);
  }

  lemma SecondEmpty(rest: seq<string>, options: bv8)
    requires rest != []
    ensures PathOf([""] + ([""] + rest), options) == PathOf([""] + rest, options)
  {
    hide Text;
    var p := Place("", []);
    assert ([""] + ([""] + rest))[1..] == [""] + rest;
    assert ([""] + rest)[1..] == rest;
    WalkMore(p, [""], rest);
    assert Walk(p, [""]) == p;
  }

  // ---------------------------------------------------------------- the folders are names

  /** A piece between two slashes, before the query. */
  predicate IsPlain(piece: string) {
    forall i :: 0 <= i < |piece| ==> !IsSlash(piece[i]) && piece[i] != '?'
  }

  predicate IsNormal(p: Place) {
    IsPlain(p.base) && forall i :: 0 <= i < |p.folders| ==> IsPlain(p.folders[i]) && IsName(p.folders[i])
  }

  lemma {:induction false} SplitIsPlain(text: string)
    requires forall i :: 0 <= i < |text| ==> text[i] != '?'
    ensures forall i :: 0 <= i < |Split(text)| ==> IsPlain(Split(text)[i])
    decreases |text|
  {
    if text != "" {
      SplitIsPlain(text[..|text| - 1]);
    }
  }

  lemma {:induction false} WalkIsNormal(p: Place, segments: seq<string>)
    requires IsNormal(p)
    requires forall i :: 0 <= i < |segments| ==> IsPlain(segments[i])
    ensures IsNormal(Walk(p, segments))
    decreases |segments|
  {
    if segments != [] {
      WalkIsNormal(p, segments[..|segments| - 1]);
    }
  }

  /** No run leaves an empty segment, a dot segment or a climb above the first folder in the stack. */
  lemma ArrivalIsNormal(request: string, options: bv8)
    ensures var text := Subject(request, options);
      IsNormal(Arrival(Split(text[..QueryAt(text)])))
  {
    var text := Subject(request, options);
    SplitIsPlain(text[..QueryAt(text)]);
    hide Split, Walk;
    var segments := Split(text[..QueryAt(text)]);
    WalkIsNormal(Place(segments[0], []), segments[1..]);
  }

  // ---------------------------------------------------------------- reading a rendered path again

  lemma {:induction false} SplitPlain(piece: string)
    requires IsPlain(piece)
    ensures Split(piece) == [piece]
    decreases |piece|
  {
    if piece != "" {
      var n := |piece| - 1;
      SplitPlain(piece[..n]);
      SplitSnoc(piece[..n], piece[n]);
      assert piece == piece[..n] + [piece[n]];
    }
  }

  /** Splitting undoes rendering. */
  lemma {:induction false} SplitText(p: Place)
    requires IsNormal(p)
    ensures Split(Text(p)) == [p.base] + p.folders
    decreases |p.folders|
  {
    hide Split;
    if p.folders == [] {
      SplitPlain(p.base);
    } else {
      var n := |p.folders| - 1;
      SplitText(Above(p));
      SplitPlain(p.folders[n]);
      SplitJoin(Text(Above(p)), '/', p.folders[n]);
      assert [p.base] + p.folders == [p.base] + p.folders[..n] + [p.folders[n]];
    }
  }

  lemma {:induction false} WalkNames(base: string, folders: seq<string>)
    requires forall i :: 0 <= i < |folders| ==> IsName(folders[i])
    ensures Walk(Place(base, []), folders) == Place(base, folders)
    decreases |folders|
  {
    if folders != [] {
      var n := |folders| - 1;
      WalkNames(base, folders[..n]);
      EnterName(base, folders);
    }
  }

  lemma EnterName(base: string, folders: seq<string>)
    requires folders != [] && IsName(folders[|folders| - 1])
    ensures var n := |folders| - 1;
      Enter(Place(base, folders[..n]), folders[n]) == Place(base, folders)
  {
    var n := |folders| - 1;
    assert folders == folders[..n] + [folders[n]];
  }

  function Rendered(p: Place, folder: bool): string {
    Text(p) + if folder then "/" else ""
  }

  lemma SplitRendered(p: Place, folder: bool)
    requires IsNormal(p)
    ensures Split(Rendered(p, folder)) == [p.base] + p.folders + if folder then [""] else []
  {
    SplitText(p);
    hide Text;
    SplitSnoc(Text(p), '/');
    hide Split;
    if folder {
      assert Rendered(p, folder) == Text(p) + ['/'];
    } else {
      assert Rendered(p, folder) == Text(p);
    }
  }

  /** A normal path is what its own normalisation renders. */
  lemma RenderedAgain(p: Place, folder: bool, options: bv8)
    requires IsNormal(p)
    requires options & MAKE_FOLDER != 0 ==> folder
    ensures PathOf(Split(Rendered(p, folder)), options) == Rendered(p, folder)
  {
    SplitRendered(p, folder);
    hide Split, Text;
    var segments := Split(Rendered(p, folder));
    if folder {
      assert segments[1..] == p.folders + [""];
      WalkMore(Place(p.base, []), p.folders, [""]);
    } else {
      assert segments[1..] == p.folders;
    }
    WalkNames(p.base, p.folders);
  }

  lemma {:induction false} NoQuery(p: Place)
    requires IsNormal(p)
    ensures forall i :: 0 <= i < |Text(p)| ==> Text(p)[i] != '?'
    decreases |p.folders|
  {
    if p.folders != [] {
      NoQuery(Above(p));
    }
  }

  lemma {:induction false} NoQueryAt(text: string)
    requires forall i :: 0 <= i < |text| ==> text[i] != '?'
    ensures QueryAt(text) == |text|
    decreases |text|
  {
    if text != "" {
      NoQueryAt(text[1..]);
    }
  }

  /** Without a base, the first folder is behind a slash. */
  lemma {:induction false} FirstFolder(folders: seq<string>)
    requires folders != []
    ensures Text(Place("", folders)) == "/" + Text(Place(folders[0], folders[1..]))
    decreases |folders|
  {
    var n := |folders| - 1;
    if n == 0 {
      assert Text(Place("", [])) == "";
      assert Above(Place("", folders)) == Place("", []);
    } else {
      FirstFolder(folders[..n]);
      assert folders[..n][1..] == folders[1..][..n - 1];
      assert Above(Place(folders[0], folders[1..])) == Place(folders[0], folders[..n][1..]);
    }
  }

  lemma {:induction false} StartsWithBase(p: Place)
    ensures |p.base| <= |Text(p)| && Text(p)[..|p.base|] == p.base
    decreases |p.folders|
  {
    if p.folders != [] {
      StartsWithBase(Above(p));
    }
  }

  /** What a relative request renders: the base is what precedes the first slash, if anything does. */
  lemma Relative(p: Place, folder: bool)
    requires IsNormal(p)
    ensures WithoutSlashes(Rendered(p, folder)) ==
      if p.base != "" then Rendered(p, folder)
      else if p.folders == [] then ""
      else Rendered(Place(p.folders[0], p.folders[1..]), folder)
  {
    StartsWithBase(p);
    var text := Rendered(p, folder);
    if p.base != "" {
      assert text[0] == p.base[0];
    } else if p.folders == [] {
      assert WithoutSlashes("") == "";
      assert text == if folder then "/" else "";
      assert folder ==> text[1..] == "";
    } else {
      var q := Place(p.folders[0], p.folders[1..]);
      FirstFolder(p.folders);
      StartsWithBase(q);
      assert text == "/" + Rendered(q, folder);
      assert text[1..] == Rendered(q, folder);
      assert Rendered(q, folder)[0] == q.base[0];
    }
  }

  /** Normalising a rendered path again gives it back. */
  lemma NormalizedRendered(p: Place, folder: bool, options: bv8)
    requires IsNormal(p)
    requires options & MAKE_FOLDER != 0 ==> folder
    requires p.base != ""
    ensures Normalized(Rendered(p, folder), options) == Rendered(p, folder)
  {
    var text := Rendered(p, folder);
    StartsWithBase(p);
    assert text[0] == p.base[0];
    NoQuery(p);
    NoQueryAt(text);
    assert text[..|text|] == text;
    RenderedAgain(p, folder, options);
  }

  lemma NormalizedAbsolute(p: Place, folder: bool, options: bv8)
    requires IsNormal(p)
    requires options & MAKE_FOLDER != 0 ==> folder
    requires options & FORCE_RELATIVE == 0
    requires p.base == "" && (p.folders != [] || folder)
    ensures Normalized(Rendered(p, folder), options) == Rendered(p, folder)
  {
    var text := Rendered(p, folder);
    if p.folders != [] {
      FirstFolder(p.folders);
    }
    assert text[0] == '/';
    NoQuery(p);
    NoQueryAt(text);
    assert text[..|text|] == text;
    RenderedAgain(p, folder, options);
  }

  /** Without a base, a path that is not a folder's has a name to end with. */
  lemma AbsoluteText(segments: seq<string>, options: bv8)
    requires |segments| > 1 && segments[0] == ""
    ensures Arrival(segments).base == ""
    ensures Arrival(segments).folders != [] || IsFolder(segments, options)
  {
    BaseStays(segments[1..]);
    ArrivalNext(segments);
  }

  lemma {:induction false} BaseStays(segments: seq<string>)
    ensures Walk(Place("", []), segments).base == ""
    decreases |segments|
  {
    if segments != [] {
      BaseStays(segments[..|segments| - 1]);
    }
  }

  lemma {:induction false} SplitHead(text: string)
    requires text != "" && IsSlash(text[0])
    ensures |Split(text)| > 1 && Split(text)[0] == ""
  {
    assert text == [text[0]] + text[1..];
    SplitBehind(text[0], text[1..]);
  }

  lemma {:induction false} Stripped(text: string)
    ensures WithoutSlashes(text) == "" || !IsSlash(WithoutSlashes(text)[0])
    decreases |text|
  {
    if text != "" && IsSlash(text[0]) {
      Stripped(text[1..]);
    }
  }

  /** Normalising twice changes nothing. */
  lemma Idempotent(request: string, options: bv8)
    ensures Normalized(Normalized(request, options), options) == Normalized(request, options)
  {
    var text := Subject(request, options);
    var body := text[..QueryAt(text)];
    var segments := Split(body);
    var p, folder := Arrival(segments), IsFolder(segments, options);
    ArrivalIsNormal(request, options);
    Relative(p, folder);
    if !IsRelative(request, options) {
      Stripped(request);
      assert body[0] == text[0];
      SplitHead(body);
      AbsoluteText(segments, options);
      NormalizedAbsolute(p, folder, options);
    } else if p.base != "" {
      NormalizedRendered(p, folder, options);
    } else if p.folders != [] {
      NormalizedRendered(Place(p.folders[0], p.folders[1..]), folder, options);
    } else {
      RelativeOfNothing(options);
    }
  }

  lemma RelativeOfNothing(options: bv8)
    ensures Normalized("", options) == ""
  {
    Relative(Place("", []), IsFolder([""], options));
  }

  /** What a caller may rely on: an absolute path is a slash before each of its names, and nothing else. */
  lemma AbsolutePath(request: string, options: bv8)
    requires !IsRelative(request, options)
    ensures var text := Subject(request, options);
      var names := Arrival(Split(text[..QueryAt(text)])).folders;
      && (forall i :: 0 <= i < |names| ==> IsPlain(names[i]) && IsName(names[i]))
      && (Split(Normalized(request, options)) == [""] + names || Split(Normalized(request, options)) == [""] + names + [""])
      && Normalized(request, options) != "" && Normalized(request, options)[0] == '/'
  {
    var text := Subject(request, options);
    var body := text[..QueryAt(text)];
    var segments := Split(body);
    var p, folder := Arrival(segments), IsFolder(segments, options);
    ArrivalIsNormal(request, options);
    assert body[0] == text[0];
    SplitHead(body);
    AbsoluteText(segments, options);
    SplitRendered(p, folder);
    if p.folders != [] {
      FirstFolder(p.folders);
    }
  }

  /** Going down into a folder and back up, or staying where one is, leaves no trace. */
  lemma Detour(before: string, name: string, after: string, options: bv8)
    requires options & FORCE_RELATIVE == 0
    requires IsPlain(name) && IsName(name)
    requires after != "" && IsSlash(after[0])
    requires forall i :: 0 <= i < |before| ==> before[i] != '?'
    requires forall i :: 0 <= i < |after| ==> after[i] != '?'
    ensures Normalized(before + "/" + name + "/.." + after, options) == Normalized(before + after, options)
    ensures Normalized(before + "/." + after, options) == Normalized(before + after, options)
  {
    hide Split, Normalized, QueryAt, WithoutSlashes, IsName, Walk, PathOf;
    SplitDetour(before, name, after);
    DownAndUp(Arrival(Split(before)), name);
    var down := "/" + name + "/..";
    assert before + "/" + name + "/.." == before + down;
    assert Split(before) + [name] + [".."] == Split(before) + [name, ".."];
    OneDetour(before, down, [name, ".."], after, options);
    OneDetour(before, "/.", ["."], after, options);
  }

  lemma OneDetour(before: string, middle: string, way: seq<string>, after: string, options: bv8)
    requires options & FORCE_RELATIVE == 0
    requires forall i :: 0 <= i < |before| ==> before[i] != '?'
    requires forall i :: 0 <= i < |middle| ==> middle[i] != '?'
    requires forall i :: 0 <= i < |after| ==> after[i] != '?'
    requires middle != "" && IsSlash(middle[0]) && after != "" && IsSlash(after[0])
    requires Split(before + middle + after) == Split(before) + way + Split(after[1..])
    requires Split(before + after) == Split(before) + Split(after[1..])
    requires Walk(Arrival(Split(before)), way) == Arrival(Split(before))
    ensures Normalized(before + middle + after, options) == Normalized(before + after, options)
  {
    var short, long := before + after, before + middle + after;
    hide Split, PathOf, QueryAt, WithoutSlashes, Walk;
    WalkDetour(Split(before), way, Split(after[1..]), options);
    OfText(short, options);
    OfText(long, options);
    hide Normalized;
    assert long[0] == if before != "" then before[0] else middle[0];
    assert short[0] == if before != "" then before[0] else after[0];
  }

  lemma OfText(text: string, options: bv8)
    requires options & FORCE_RELATIVE == 0
    requires forall i :: 0 <= i < |text| ==> text[i] != '?'
    ensures Normalized(text, options) ==
      if text == "" || !IsSlash(text[0]) then WithoutSlashes(PathOf(Split(text), options)) else PathOf(Split(text), options)
  {
    NoQueryAt(text);
    assert text[..|text|] == text;
  }

  lemma SplitDetour(before: string, name: string, after: string)
    requires IsPlain(name)
    requires after != "" && IsSlash(after[0])
    ensures Split(before + after) == Split(before) + Split(after[1..])
    ensures Split(before + "/" + name + "/.." + after) == Split(before) + [name] + [".."] + Split(after[1..])
    ensures Split(before + "/." + after) == Split(before) + ["."] + Split(after[1..])
  {
    hide Split;
    var rest := after[1..];
    assert after == [after[0]] + rest;
    SplitPlain(name);
    SplitPlain("..");
    SplitPlain(".");
    assert before + after == before + [after[0]] + rest;
    SplitJoin(before, after[0], rest);
    SplitJoin(before, '/', name);
    SplitJoin(before + "/" + name, '/', "..");
    SplitJoin(before + "/" + name + "/" + "..", after[0], rest);
    assert before + "/" + name + "/.." + after == before + "/" + name + "/" + ".." + [after[0]] + rest;
    SplitJoin(before, '/', ".");
    SplitJoin(before + "/" + ".", after[0], rest);
    assert before + "/." + after == before + "/" + "." + [after[0]] + rest;
  }

  lemma DownAndUp(p: Place, name: string)
    requires IsName(name)
    ensures Walk(p, [name, ".."]) == p && Walk(p, ["."]) == p
  {
    assert [name, ".."][..1] == [name];
    assert Walk(p, [name]) == Enter(p, name);
    assert Walk(p, [name, ".."]) == Above(Enter(p, name)) == p;
  }

  lemma WalkDetour(a: seq<string>, way: seq<string>, b: seq<string>, options: bv8)
    requires a != [] && b != []
    requires Walk(Arrival(a), way) == Arrival(a)
    ensures PathOf(a + way + b, options) == PathOf(a + b, options)
  {
    hide Walk, Text, IsName;
    var p := Place(a[0], []);
    assert (a + way + b)[1..] == a[1..] + (way + b);
    assert (a + b)[1..] == a[1..] + b;
    WalkMore(p, a[1..], way + b);
    WalkMore(p, a[1..], b);
    WalkMore(Arrival(a), way, b);
  }
}
