/** Resolving a relative import: what POSIX path joining and normalising make of it, and which results are
    source files of the documentation. */
module RelativePaths {
  import opened Strings

  datatype Resolution = Resolved(path: string) | Ignored

  predicate EndsWith(s: string, suffix: string) { |suffix| <= |s| && s[|s|-|suffix|..] == suffix }

  // ---------------------------------------------------------------- the path functions

  /** Follows segments from a directory; going above the top is kept as a leading `..` if allowed. */
  function Walk(at: seq<string>, segments: seq<string>, above: bool): seq<string>
    decreases |segments|
  {
    if segments == [] then at else
      var s, rest := segments[0], segments[1..];
      if s == "" || s == "." then Walk(at, rest, above)
      else if s != ".." then Walk(at + [s], rest, above)
      else if at != [] && at[|at|-1] != ".." then Walk(at[..|at|-1], rest, above)
      else if above then Walk(at + [s], rest, above)
      else Walk(at, rest, above)
  }

  function Normalize(path: string): string {
    if path == "" then "." else
      var absolute, trailing := path[0] == '/', path[|path|-1] == '/';
      var body := Join(Walk([], Split(path, '/'), !absolute), "/");
      if body == "" then (if absolute then "/" else if trailing then "./" else ".")
      else (if absolute then "/" else "") + body + (if trailing then "/" else "")
  }

  /** The directory of a path without a trailing slash. */
  function Dirname(path: string): string {
    var segments := Split(path, '/');
    if |segments| == 1 then "." else Join(segments[..|segments|-1], "/")
  }

  function JoinPaths(dir: string, path: string): string {
    Normalize(if path == "" then dir else dir + "/" + path)
  }

  function NormalizeRelPath(base: string, spec: string): Resolution {
    var resolved := Normalize(JoinPaths(Dirname(base), spec));
    if "../" <= resolved then Ignored
    else if !EndsWith(resolved, ".svelte") && !EndsWith(resolved, ".js") then Ignored
    else Resolved(resolved)
  }

  // ---------------------------------------------------------------- canonical paths

  predicate IsName(s: string) { s != "" && s != "." && s != ".." && '/' !in s }

  ghost predicate AllNames(segments: seq<string>) { forall i :: 0 <= i < |segments| ==> IsName(segments[i]) }

  /** First the steps above the top, then names. */
  ghost predicate IsWalked(at: seq<string>) {
    && (forall i :: 0 <= i < |at| ==> at[i] == ".." || IsName(at[i]))
    && (forall i, j :: 0 <= i < j < |at| && at[j] == ".." ==> at[i] == "..")
  }

  ghost predicate NoSlashes(segments: seq<string>) { forall i :: 0 <= i < |segments| ==> '/' !in segments[i] }

  ghost predicate IsCanonical(path: string) {
    exists segments :: segments != [] && AllNames(segments) && path == Join(segments, "/")
  }

  lemma {:induction false} WalkConcat(at: seq<string>, a: seq<string>, b: seq<string>, above: bool)
    ensures Walk(at, a + b, above) == Walk(Walk(at, a, above), b, above)
    decreases |a|
  {
    if a == [] {
      assert a + b == b;
    } else {
      assert (a + b)[1..] == a[1..] + b;
      var s := a[0];
      if s == "" || s == "." { WalkConcat(at, a[1..], b, above); }
      else if s != ".." { WalkConcat(at + [s], a[1..], b, above); }
      else if at != [] && at[|at|-1] != ".." { WalkConcat(at[..|at|-1], a[1..], b, above); }
      else if above { WalkConcat(at + [s], a[1..], b, above); }
      else { WalkConcat(at, a[1..], b, above); }
    }
  }

  lemma {:induction false} WalkNames(at: seq<string>, names: seq<string>, above: bool)
    requires AllNames(names)
    ensures Walk(at, names, above) == at + names
    decreases |names|
  {
    if names == [] {
      assert at + names == at;
    } else {
      assert IsName(names[0]);
      WalkNames(at + [names[0]], names[1..], above);
      assert at + names == at + [names[0]] + names[1..];
    }
  }

  lemma {:induction false} WalkStays(at: seq<string>, segments: seq<string>)
    requires IsWalked(at) && NoSlashes(segments)
    ensures IsWalked(Walk(at, segments, true))
    decreases |segments|
  {
    if segments == [] {
    } else {
      var s, rest := segments[0], segments[1..];
      if s == "" || s == "." { WalkStays(at, rest); }
      else if s == ".." && at != [] && at[|at|-1] != ".." { WalkStays(at[..|at|-1], rest); }
      else { WalkStays(at + [s], rest); }
    }
  }

  lemma WalkOne(at: seq<string>, s: string)
    requires s != "" && s != "." && (s == ".." ==> at == [] || at[|at|-1] == "..")
    ensures Walk(at, [s], true) == at + [s]
  {
    assert [s][1..] == [];
  }

  /** Walking a walked path leads to it. */
  lemma {:induction false} WalkAgain(at: seq<string>)
    requires IsWalked(at)
    ensures Walk([], at, true) == at
    decreases |at|
  {
    if at == [] {
    } else {
      var init, last := at[..|at|-1], at[|at|-1];
      WalkAgain(init);
      WalkConcat([], init, [last], true);
      WalkOne(init, last);
      assert init + [last] == at;
    }
  }

  lemma WalkedSegments(at: seq<string>)
    requires IsWalked(at)
    ensures NoSlashes(at) && forall i :: 0 <= i < |at| ==> at[i] != "" && at[i] != "."
  {
  }

  /** A walked path as text: it starts and ends with a segment, and shows when it is above the top. */
  lemma {:induction false} JoinEnds(at: seq<string>)
    requires at != [] && IsWalked(at)
    ensures var t := Join(at, "/");
      && t != "" && at[0] <= t && t[0] != '/' && t[|t|-1] != '/'
      && ("../" <= t <==> |at| > 1 && at[0] == "..")
  {
    var t, first := Join(at, "/"), at[0];
    assert first == ".." || IsName(first);
    HasSlash(first);
    if |at| <= 1 {
    } else {
      var rest := at[1..];
      JoinEnds(rest);
      assert t == first + "/" + Join(rest, "/");
      assert t[|t|-1] == Join(rest, "/")[|Join(rest, "/")|-1];
      assert t[..|first|] == first && t[|first|] == '/';
      FirstSegment(t, first);
    }
  }

  lemma HasSlash(t: string)
    ensures "../" <= t ==> '/' in t
  {
    if "../" <= t { assert t[2] == '/'; }
  }

  lemma FirstSegment(t: string, first: string)
    requires |first| < |t| && t[..|first|] == first && t[|first|] == '/' && '/' !in first
    ensures "../" <= t <==> first == ".."
  {
    if "../" <= t { assert t[0] == '.' && t[1] == '.' && t[2] == '/'; }
  }

  function TextOf(at: seq<string>, trailing: bool): string {
    (if at == [] then "." else Join(at, "/")) + (if trailing then "/" else "")
  }

  /** Normalising a relative path: the walked path as text, and a trailing slash is kept. */
  lemma NormalizeRelative(path: string)
    requires path != "" && path[0] != '/'
    ensures var at := Walk([], Split(path, '/'), true);
      IsWalked(at) && Normalize(path) == TextOf(at, path[|path|-1] == '/')
  {
    hide Normalize, Walk, Split, Join, IsWalked;
    WalkOfText(path);
    NormalizeForm(path);
    var at := Walk([], Split(path, '/'), true);
    if at == [] { JoinNone('/'); } else { JoinEnds(at); }
  }

  lemma NormalizeForm(path: string)
    requires path != "" && path[0] != '/'
    ensures var body, trailing := Join(Walk([], Split(path, '/'), true), "/"), path[|path|-1] == '/';
      Normalize(path) == (if body == "" then "." else body) + (if trailing then "/" else "")
  {
    hide Walk, Split, Join;
    var body := Join(Walk([], Split(path, '/'), true), "/");
    assert "" + body == body && "." + "/" == "./" && "." + "" == ".";
  }

  lemma WalkOfText(path: string)
    ensures IsWalked(Walk([], Split(path, '/'), true))
  {
    hide Walk, Split;
    JoinSplit(path, '/');
    WalkStays([], Split(path, '/'));
  }

  lemma JoinNone(separator: char)
    ensures Join([], [separator]) == ""
  {
  }

  /** Walking the text of a walked path leads to it. */
  lemma WalkText(at: seq<string>, trailing: bool)
    requires IsWalked(at)
    ensures var t := TextOf(at, trailing);
      && Walk([], Split(t, '/'), true) == at
      && t != "" && t[0] != '/' && (t[|t|-1] == '/' <==> trailing)
  {
    hide Walk, Split, Join, IsWalked;
    var text := TextOf(at, false);
    assert text == if at == [] then "." else Join(at, "/");
    if at == [] {
      SplitPart(".", '/');
      WalkDot();
    } else {
      JoinEnds(at);
      WalkedSegments(at);
      SplitJoin(at, '/');
      WalkAgain(at);
    }
    if trailing { TrailingSlash(text, at); }
  }

  lemma WalkDot()
    ensures Walk([], ["."], true) == []
  {
    assert ["."][1..] == [];
  }

  /** Normalising again changes nothing. */
  lemma NormalizeTwice(path: string)
    requires path != "" && path[0] != '/'
    ensures Normalize(Normalize(path)) == Normalize(path)
  {
    hide Normalize, Walk, Split, Join, IsWalked;
    NormalizeRelative(path);
    var at := Walk([], Split(path, '/'), true);
    WalkText(at, path[|path|-1] == '/');
    NormalizeRelative(Normalize(path));
  }

  lemma TrailingSlash(text: string, at: seq<string>)
    requires Walk([], Split(text, '/'), true) == at
    ensures Walk([], Split(text + "/", '/'), true) == at
  {
    SplitConcat(text, "", '/');
    assert text + ['/'] + "" == text + "/";
    assert Split("", '/') == [""];
    WalkConcat([], Split(text, '/'), [""], true);
    assert [""][1..] == [];
  }

  // ---------------------------------------------------------------- what an import resolves to

  /** The directory of `base` followed by the segments of `spec`. */
  function Target(base: seq<string>, spec: string): seq<string>
    requires base != []
  {
    Walk(base[..|base|-1], Split(spec, '/'), true)
  }

  lemma JoinedPath(base: seq<string>, spec: string)
    requires base != [] && AllNames(base) && spec != ""
    ensures var path := Dirname(Join(base, "/")) + "/" + spec;
      && path[0] != '/' && path[|path|-1] == spec[|spec|-1]
      && Walk([], Split(path, '/'), true) == Target(base, spec)
  {
    hide Walk, Split, Join, IsWalked;
    assert NoSlashes(base) && NoSlashes(base[..|base|-1]);
    SplitJoin(base, '/');
    var dir := base[..|base|-1];
    var text := TextOf(dir, false);
    assert IsWalked(dir) by { NamesAreWalked(dir); }
    WalkText(dir, false);
    assert Dirname(Join(base, "/")) == text;
    SplitConcat(text, spec, '/');
    assert text + ['/'] + spec == text + "/" + spec;
    WalkConcat([], Split(text, '/'), Split(spec, '/'), true);
  }

  lemma NamesAreWalked(names: seq<string>)
    requires AllNames(names)
    ensures IsWalked(names)
  {
  }

  predicate IsSource(text: string) { EndsWith(text, ".svelte") || EndsWith(text, ".js") }

  /** An import of a canonical path resolves exactly to the path one reaches by walking from its directory,
      when that stays within the tree and ends in a source file. */
  lemma ResolvesByWalking(base: seq<string>, spec: string)
    requires base != [] && AllNames(base) && spec != ""
    ensures var at := Target(base, spec);
      NormalizeRelPath(Join(base, "/"), spec) ==
        if spec[|spec|-1] != '/' && at != [] && at[0] != ".." && IsSource(Join(at, "/")) then Resolved(Join(at, "/"))
        else Ignored
  {
    hide Normalize, Walk, Split, Join, EndsWith;
    JoinedPath(base, spec);
    var path := Dirname(Join(base, "/")) + "/" + spec;
    NormalizeTwice(path);
    NormalizeRelative(path);
    var at, text := Target(base, spec), Normalize(path);
    NotASource(text);
    if at == [] {
      assert text == "." || text == "./";
    } else {
      JoinEnds(at);
      if |at| == 1 { JoinOne(at[0], "/"); assert at == [at[0]]; }
      if spec[|spec|-1] == '/' {
        assert text == Join(at, "/") + "/";
      } else {
        assert text == Join(at, "/") + "" == Join(at, "/");
      }
    }
  }

  lemma NotASource(text: string)
    ensures text != "" && text[|text|-1] == '/' ==> !IsSource(text)
    ensures text == "." || text == ".." ==> !IsSource(text)
  {
  }

  predicate Steps(segments: seq<string>) { forall i :: 0 <= i < |segments| ==> segments[i] == ".." }

  lemma {:induction false} WalkUp(at: seq<string>, ups: seq<string>)
    requires AllNames(at) && Steps(ups)
    ensures Walk(at, ups, true) ==
      if |ups| <= |at| then at[..|at|-|ups|] else ups[..|ups|-|at|]
    decreases |ups|
  {
    if ups == [] {
      assert at[..|at|] == at;
    } else if at == [] {
      WalkAbove([], ups);
      assert ups[..|ups|] == ups && [] + ups == ups;
    } else {
      assert IsName(at[|at|-1]);
      WalkUp(at[..|at|-1], ups[1..]);
      assert ups[0] == "..";
      if |ups| <= |at| { assert at[..|at|-1][..|at|-|ups|] == at[..|at|-|ups|]; }
      else { assert ups[1..][..|ups|-|at|] == ups[..|ups|-|at|]; }
    }
  }

  lemma {:induction false} WalkAbove(at: seq<string>, ups: seq<string>)
    requires Steps(at) && Steps(ups)
    ensures Walk(at, ups, true) == at + ups
    decreases |ups|
  {
    if ups == [] {
      assert at + ups == at;
    } else {
      WalkAbove(at + [ups[0]], ups[1..]);
      assert at + [ups[0]] + ups[1..] == at + ups;
    }
  }

  /** An import that goes up some directories and then down some names resolves to the importing file's path
      with its own name and as many directories taken off and the names put on, if there are that many and
      the result is a source file. A `.` or an empty segment in front changes nothing. */
  lemma {:induction false} UpAndDown(base: seq<string>, dots: seq<string>, ups: seq<string>, names: seq<string>)
    requires base != [] && AllNames(base) && names != [] && AllNames(names) && Steps(ups)
    requires forall i :: 0 <= i < |dots| ==> dots[i] == "." || dots[i] == ""
    ensures var n := |base| - 1 - |ups|;
      NormalizeRelPath(Join(base, "/"), Join(dots + ups + names, "/")) ==
        if n >= 0 && IsSource(Join(base[..n] + names, "/")) then Resolved(Join(base[..n] + names, "/")) else Ignored
  {
    hide NormalizeRelPath, Walk, Join, Split, IsSource;
    var segments, dir := dots + ups + names, base[..|base|-1];
    var spec := Join(segments, "/");
    assert NoSlashes(segments);
    SplitJoin(segments, '/');
    EndsInName(segments);
    ResolvesByWalking(base, spec);
    WalkConcat(dir, dots + ups, names, true);
    WalkConcat(dir, dots, ups, true);
    WalkDots(dir, dots);
    WalkUp(dir, ups);
    WalkNames(if |ups| <= |dir| then dir[..|dir|-|ups|] else ups[..|ups|-|dir|], names, true);
    if |ups| <= |dir| {
      assert dir[..|dir|-|ups|] == base[..|base|-1-|ups|];
      var at := base[..|base|-1-|ups|] + names;
      assert AllNames(at);
      assert IsName(at[0]);
    } else {
      assert ups[..|ups|-|dir|][0] == "..";
    }
  }

  lemma {:induction false} WalkDots(at: seq<string>, dots: seq<string>)
    requires forall i :: 0 <= i < |dots| ==> dots[i] == "." || dots[i] == ""
    ensures Walk(at, dots, true) == at
    decreases |dots|
  {
    if dots == [] {
    } else {
      WalkDots(at, dots[1..]);
    }
  }

  lemma {:induction false} EndsInName(segments: seq<string>)
    requires segments != [] && IsName(segments[|segments|-1])
    ensures var spec := Join(segments, "/"); spec != "" && spec[|spec|-1] != '/'
  {
    if |segments| > 1 {
      EndsInName(segments[1..]);
    }
  }

  /** Resolved paths are canonical: without empty, `.` and `..` segments, so a file has one name. */
  lemma ResolvedIsCanonical(base: string, spec: string)
    requires IsCanonical(base) && spec != "" && NormalizeRelPath(base, spec).Resolved?
    ensures IsCanonical(NormalizeRelPath(base, spec).path)
  {
    hide NormalizeRelPath, Walk, Split, Join;
    var segments :| segments != [] && AllNames(segments) && base == Join(segments, "/");
    ResolvesByWalking(segments, spec);
    JoinedPath(segments, spec);
    WalkOfText(Dirname(base) + "/" + spec);
    assert AllNames(Target(segments, spec));
  }
}
