/** What the normal form of a request is, in texts alone. */
module UrlLaws {
  import opened UrlPath

  /** A name between slashes. */
  predicate Name(text: string) {
    text != "" && text != "." && text != ".." && forall i :: 0 <= i < |text| ==> text[i] !in "/\\?"
  }

  function Joined(names: seq<string>): string {
    if names == [] then "" else Joined(names[..|names| - 1]) + "/" + names[|names| - 1]
  }

  predicate NoMark(text: string) { forall i :: 0 <= i < |text| ==> text[i] != '?' }

  predicate StartsWithSlash(text: string) { text != "" && (text[0] == '/' || text[0] == '\\') }

  lemma {:induction false} JoinedIsText(names: seq<string>)
    ensures Joined(names) == Text(Place("", names))
    decreases |names|
  {
    if names != [] {
      JoinedIsText(names[..|names| - 1]);
      assert Above(Place("", names)) == Place("", names[..|names| - 1]);
    }
  }

  lemma NamesAreNormal(names: seq<string>)
    requires forall i :: 0 <= i < |names| ==> Name(names[i])
    ensures IsNormal(Place("", names))
  {
  }

  /** Names behind slashes stay as they are; the folder option gives them a last slash. */
  lemma NamesStay(names: seq<string>, folder: bool, options: bv8)
    requires names != [] && (forall i :: 0 <= i < |names| ==> Name(names[i])) && options & 2 == 0
    ensures Normalized(Joined(names) + (if folder then "/" else ""), options)
            == Joined(names) + if folder || options & 1 != 0 then "/" else ""
  {
    var p := Place("", names);
    JoinedIsText(names);
    NamesAreNormal(names);
    TextOfNames(p, folder);
    SplitRendered(p, folder);
    PathOfNames(names, folder, options);
    hide Split, Text, Joined, PathOf, IsNormal;
    OfText(Rendered(p, folder), options);
    hide Normalized;
  }

  lemma PathOfNames(names: seq<string>, folder: bool, options: bv8)
    requires names != [] && forall i :: 0 <= i < |names| ==> Name(names[i])
    ensures PathOf([""] + names + (if folder then [""] else []), options)
            == Joined(names) + if folder || options & 1 != 0 then "/" else ""
  {
    JoinedIsText(names);
    NamesWalk(names, folder);
    LastSegment(names, folder);
    hide Arrival, Text, Joined, Name, IsName;
  }

  lemma TextOfNames(p: Place, folder: bool)
    requires IsNormal(p) && p.base == "" && p.folders != []
    ensures Rendered(p, folder) != "" && Rendered(p, folder)[0] == '/' && NoMark(Rendered(p, folder))
  {
    FirstFolder(p.folders);
    NoQuery(p);
  }

  lemma LastSegment(names: seq<string>, folder: bool)
    requires names != [] && forall i :: 0 <= i < |names| ==> Name(names[i])
    ensures var segments := [""] + names + if folder then [""] else [];
      |segments| > 1 && (IsName(segments[|segments| - 1]) <==> !folder)
  {
  }

  lemma NamesWalk(names: seq<string>, folder: bool)
    requires forall i :: 0 <= i < |names| ==> Name(names[i])
    ensures Arrival([""] + names + if folder then [""] else []) == Place("", names)
  {
    var p := Place("", []);
    var last := if folder then [""] else [];
    WalkNames("", names);
    SegmentsBehind(names, last);
    hide Text, Name;
    WalkMore(p, names, last);
    LastStays(Place("", names), folder);
    hide Walk;
  }

  lemma SegmentsBehind(names: seq<string>, last: seq<string>)
    ensures ([""] + names + last)[0] == "" && ([""] + names + last)[1..] == names + last
  {
  }

  lemma LastStays(p: Place, folder: bool)
    ensures Walk(p, if folder then [""] else []) == p
  {
    assert [""][..0] == [];
  }

  /** The query is no part of the path. */
  lemma QueryIsCut(path: string, query: string, options: bv8)
    requires NoMark(path) && (options & 2 == 0 || !StartsWithSlash(path))
    ensures Normalized(path + "?" + query, options) == Normalized(path, options)
  {
    var text := path + "?" + query;
    MarkEnds(path, query);
    NoQueryAt(path);
    assert text[..|path|] == path == path[..|path|];
    assert path == "" ==> text[0] == '?';
    assert path != "" ==> text[0] == path[0];
    hide Split, QueryAt, Text;
  }

  lemma {:induction false} MarkEnds(path: string, query: string)
    requires NoMark(path)
    ensures QueryAt(path + "?" + query) == |path|
    decreases |path|
  {
    var text := path + "?" + query;
    if path != "" {
      assert text[1..] == path[1..] + "?" + query;
      MarkEnds(path[1..], query);
    }
  }

  /** Both slashes are slashes. */
  lemma EitherSlash(before: string, after: string, options: bv8)
    requires NoMark(before) && NoMark(after) && options & 2 == 0
    ensures Normalized(before + "\\" + after, options) == Normalized(before + "/" + after, options)
  {
    WithSlash(before, '\\', after, options);
    WithSlash(before, '/', after, options);
    hide Normalized, PathOf, Split, WithoutSlashes;
    assert before + ['\\'] + after == before + "\\" + after && before + ['/'] + after == before + "/" + after;
  }

  lemma WithSlash(before: string, slash: char, after: string, options: bv8)
    requires NoMark(before) && NoMark(after) && options & 2 == 0 && (slash == '/' || slash == '\\')
    ensures var path := PathOf(Split(before) + Split(after), options);
      Normalized(before + [slash] + after, options)
      == if before == "" || before[0] == '/' || before[0] == '\\' then path else WithoutSlashes(path)
  {
    var text := before + [slash] + after;
    SlashedText(before, slash, after);
    SplitJoin(before, slash, after);
    hide Split, PathOf, WithoutSlashes, NoMark;
    OfMarkless(text, options);
    hide Normalized;
  }

  lemma SlashedText(before: string, slash: char, after: string)
    requires NoMark(before) && NoMark(after) && (slash == '/' || slash == '\\')
    ensures var text := before + [slash] + after;
      NoMark(text) && text != "" && text[0] == if before == "" then slash else before[0]
  {
  }

  lemma OfMarkless(text: string, options: bv8)
    requires NoMark(text) && options & 2 == 0 && text != ""
    ensures Normalized(text, options) == if IsSlash(text[0]) then PathOf(Split(text), options) else WithoutSlashes(PathOf(Split(text), options))
  {
    hide Split, PathOf, WithoutSlashes, Normalized;
    OfText(text, options);
  }

  /** Several slashes are one. */
  lemma SlashesMerge(before: string, after: string, options: bv8)
    requires NoMark(before) && NoMark(after) && StartsWithSlash(after) && options & 2 == 0
    ensures Normalized(before + "/" + after, options) == Normalized(before + after, options)
  {
    SplitMerged(before, "", after);
    hide Split, Walk, PathOf;
    assert Walk(Arrival(Split(before)), [""]) == Arrival(Split(before)) by { Stays(Arrival(Split(before))); }
    assert before + "/" + "" == before + "/";
    OneDetour(before, "/", [""], after, options);
  }

  lemma Stays(p: Place)
    ensures Walk(p, [""]) == p
  {
    assert Walk(p, []) == p;
  }

  lemma SplitMerged(before: string, middle: string, after: string)
    requires IsPlain(middle) && StartsWithSlash(after)
    ensures Split(before + after) == Split(before) + Split(after[1..])
    ensures Split(before + "/" + middle + after) == Split(before) + [middle] + Split(after[1..])
  {
    SplitPlain(middle);
    hide Split;
    var rest := after[1..];
    assert after == [after[0]] + rest;
    assert before + after == before + [after[0]] + rest;
    SplitJoin(before, after[0], rest);
    SplitJoin(before, '/', middle);
    SplitJoin(before + "/" + middle, after[0], rest);
    assert before + "/" + middle + after == before + "/" + middle + [after[0]] + rest;
  }

  /** The root has no parent. */
  lemma RootHasNoParent(after: string, options: bv8)
    requires NoMark(after) && StartsWithSlash(after) && options & 2 == 0
    ensures Normalized("/.." + after, options) == Normalized(after, options)
  {
    RootParts(after);
    NothingAbove();
    hide Split, Walk, PathOf, Normalized, Arrival;
    OneDetour("", "/..", [".."], after, options);
    RootText(after);
  }

  lemma RootParts(after: string)
    requires StartsWithSlash(after)
    ensures Split("" + after) == Split("") + Split(after[1..])
    ensures Split("" + "/.." + after) == Split("") + [".."] + Split(after[1..])
  {
    SplitMerged("", "..", after);
    hide Split;
    assert "" + "/" + ".." == "" + "/..";
  }

  lemma RootText(after: string)
    ensures "" + "/.." + after == "/.." + after && "" + after == after
  {
  }

  lemma NothingAbove()
    ensures Walk(Arrival(Split("")), [".."]) == Arrival(Split(""))
  {
    SplitPlain("");
    assert Walk(Place("", []), [".."]) == Enter(Walk(Place("", []), []), "..");
  }

  function Slashes(n: nat): string { if n == 0 then "" else "/" + Slashes(n - 1) }

  lemma {:induction false} SlashesGo(n: nat, rest: string)
    requires !StartsWithSlash(rest)
    ensures WithoutSlashes(Slashes(n) + rest) == rest
  {
    if n == 0 {
      assert Slashes(n) + rest == rest;
    } else {
      SlashesGo(n - 1, rest);
      assert (Slashes(n) + rest)[1..] == Slashes(n - 1) + rest;
    }
  }

  /** Forced to be relative, a request loses the slashes at its start, and so does its path. */
  lemma ForcedRelative(n: nat, rest: string, options: bv8)
    requires !StartsWithSlash(rest) && options & 2 != 0
    ensures Normalized(Slashes(n) + rest, options) == Normalized(rest, options)
    ensures !StartsWithSlash(Normalized(rest, options))
  {
    SlashesGo(n, rest);
    assert WithoutSlashes(rest) == rest;
    hide Split, PathOf, QueryAt;
    Stripped(PathIn(rest, options));
    hide WithoutSlashes;
  }

  /** The folder option adds the slash that is missing; of a relative request that names nothing it makes no path. */
  lemma MadeFolder(request: string, options: bv8, more: bv8)
    requires options & 1 == 0 && more & 1 != 0 && options & 2 == more & 2
    ensures var n := Normalized(request, options);
      Normalized(request, more) == if n == "" || n[|n| - 1] == '/' then n else n + "/"
  {
    var p, folder, relative := FormOf(request, options);
    var q, always, same := FormOf(request, more);
    SameForm(request, options, more);
    hide Normalized, WithoutSlashes, Rendered, IsNormal, Segments, IsFolder, IsRelative, Arrival;
    SlashAdded(p, folder, relative);
  }

  function Segments(request: string, options: bv8): (segments: seq<string>)
    ensures segments != []
  {
    var text := Subject(request, options);
    Split(text[..QueryAt(text)])
  }

  lemma SameForm(request: string, options: bv8, more: bv8)
    requires more & 1 != 0 && options & 2 == more & 2
    ensures Segments(request, more) == Segments(request, options) && IsRelative(request, more) == IsRelative(request, options)
    ensures IsFolder(Segments(request, more), more)
  {
    hide Split, QueryAt, WithoutSlashes;
  }

  lemma SlashAdded(p: Place, folder: bool, relative: bool)
    requires IsNormal(p) && (!relative ==> p.base == "" && (p.folders != [] || folder))
    ensures var n := if relative then WithoutSlashes(Rendered(p, folder)) else Rendered(p, folder);
      var m := if relative then WithoutSlashes(Rendered(p, true)) else Rendered(p, true);
      m == if n == "" || n[|n| - 1] == '/' then n else n + "/"
  {
    Relative(p, folder);
    Relative(p, true);
    hide WithoutSlashes;
    EndsWithName(p);
    if p.base == "" && p.folders != [] {
      EndsWithName(Place(p.folders[0], p.folders[1..]));
    }
    hide Text;
  }

  lemma FormOf(request: string, options: bv8) returns (p: Place, folder: bool, relative: bool)
    ensures p == Arrival(Segments(request, options)) && IsNormal(p)
    ensures folder == IsFolder(Segments(request, options), options) && relative == IsRelative(request, options)
    ensures Normalized(request, options) == if relative then WithoutSlashes(Rendered(p, folder)) else Rendered(p, folder)
    ensures !relative ==> p.base == "" && (p.folders != [] || folder)
  {
    p, folder := Arrival(Segments(request, options)), IsFolder(Segments(request, options), options);
    relative := IsRelative(request, options);
    ArrivalIsNormal(request, options);
    if !relative {
      AbsoluteHasText(request, options);
    }
    hide Split, QueryAt, Text, WithoutSlashes, Arrival, IsFolder, Subject, IsNormal;
  }

  lemma AbsoluteHasText(request: string, options: bv8)
    requires !IsRelative(request, options)
    ensures var text := Subject(request, options);
      var segments := Split(text[..QueryAt(text)]);
      Arrival(segments).base == "" && (Arrival(segments).folders != [] || IsFolder(segments, options))
  {
    var text := Subject(request, options);
    assert text[..QueryAt(text)][0] == text[0];
    SplitHead(text[..QueryAt(text)]);
    AbsoluteText(Split(text[..QueryAt(text)]), options);
  }

  /** A text of names ends with no slash. */
  lemma EndsWithName(p: Place)
    requires IsNormal(p)
    ensures Text(p) != "" ==> !IsSlash(Text(p)[|Text(p)| - 1])
    ensures p.folders != [] || p.base != "" ==> Text(p) != ""
  {
  }
}
