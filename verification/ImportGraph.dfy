/** Collecting the source files of a documentation route: a depth-first walk over relative imports. */
module ImportGraph {
  import opened RelativePaths

  /** `files` maps each readable file to its import specifiers. */
  datatype Graph = Graph(files: map<string, seq<string>>)

  ghost predicate Imports(g: Graph, from: string, to: string) {
    from in g.files && exists spec :: spec in g.files[from] && NormalizeRelPath(from, spec) == Resolved(to)
  }

  /** Specifiers are never empty: extraction only takes those that start with a dot and a slash. */
  ghost predicate NoEmptySpecs(g: Graph) {
    forall p, spec :: p in g.files && spec in g.files[p] ==> spec != ""
  }

  ghost predicate IsPath(g: Graph, path: seq<string>) {
    path != [] && forall i :: 0 <= i < |path| - 1 ==> Imports(g, path[i], path[i+1])
  }

  ghost predicate Connects(g: Graph, path: seq<string>, from: string, to: string) {
    IsPath(g, path) && path[0] == from && path[|path|-1] == to
  }

  ghost predicate Reaches(g: Graph, from: string, to: string) {
    exists path :: Connects(g, path, from, to)
  }

  lemma ReachesItself(g: Graph, p: string)
    ensures Reaches(g, p, p)
  {
    assert Connects(g, [p], p, p);
  }

  lemma ReachesThrough(g: Graph, from: string, next: string, to: string)
    requires Imports(g, from, next) && Reaches(g, next, to)
    ensures Reaches(g, from, to)
  {
    hide Imports;
    var path :| Connects(g, path, next, to);
    var longer := [from] + path;
    assert forall i :: 0 < i < |longer| - 1 ==> Imports(g, path[i-1], path[i]);
    assert Connects(g, longer, from, to);
  }

  /** A set that holds the imports of its members holds all that they reach. */
  ghost predicate Closed(g: Graph, s: set<string>) {
    forall p, q :: p in s && Imports(g, p, q) ==> q in s
  }

  lemma {:induction false} ClosedHoldsPath(g: Graph, s: set<string>, path: seq<string>)
    requires Closed(g, s) && IsPath(g, path) && path[0] in s
    ensures path[|path|-1] in s
  {
    if |path| <= 1 {
    } else {
      var rest := path[1..];
      assert Imports(g, path[0], path[1]);
      forall i | 0 <= i < |rest| - 1 ensures Imports(g, rest[i], rest[i+1]) { assert Imports(g, path[i+1], path[i+2]); }
      ClosedHoldsPath(g, s, rest);
    }
  }

  ghost predicate NoRepeats(s: seq<string>) { forall i, j :: 0 <= i < j < |s| ==> s[i] != s[j] }

  /** The imports of every member of `added` are among `seen`. */
  ghost predicate Expanded(g: Graph, added: set<string>, seen: set<string>) {
    forall p, q :: p in added && Imports(g, p, q) ==> q in seen
  }

  ghost predicate AllReached(g: Graph, p: string, added: set<string>) { forall q :: q in added ==> Reaches(g, p, q) }

  ghost predicate SomeMissing(g: Graph, p: string) { exists q :: Reaches(g, p, q) && q !in g.files }

  /** The imports of `p` that its first specifiers name are among `seen`. */
  ghost predicate SpecsSeen(g: Graph, p: string, specs: seq<string>, seen: set<string>) {
    forall spec :: spec in specs && NormalizeRelPath(p, spec).Resolved? ==> NormalizeRelPath(p, spec).path in seen
  }

  lemma WalkStep(g: Graph, p: string, target: string, before: set<string>, s1: set<string>, s2: set<string>)
    requires Imports(g, p, target) && s1 <= s2
    requires AllReached(g, p, s1 - before) && AllReached(g, target, s2 - s1)
    ensures AllReached(g, p, s2 - before)
    ensures Expanded(g, s1 - before - {p}, s1) && Expanded(g, s2 - s1, s2) ==> Expanded(g, s2 - before - {p}, s2)
    ensures SomeMissing(g, target) ==> SomeMissing(g, p)
  {
    forall q | Reaches(g, target, q) ensures Reaches(g, p, q) { ReachesThrough(g, p, target, q); }
  }

  lemma WalkEnds(g: Graph, p: string, before: set<string>, seen: set<string>)
    requires p in g.files && Expanded(g, seen - before - {p}, seen) && SpecsSeen(g, p, g.files[p], seen)
    ensures Expanded(g, seen - before, seen)
  {
  }

  lemma FewerLeft(all: set<string>, less: set<string>, more: set<string>, p: string)
    requires less <= more && p in all && p !in less && p in more
    ensures |all - more| < |all - less|
  {
    Smaller(all - more, all - less - {p});
    assert |all - less - {p}| == |all - less| - 1;
  }

  lemma {:induction false} Smaller(a: set<string>, b: set<string>)
    requires a <= b
    ensures |a| <= |b|
  {
    if a == {} {
    } else {
      var x :| x in a;
      Smaller(a - {x}, b - {x});
    }
  }

  // ---------------------------------------------------------------- the order of the walk

  function Targets(g: Graph, from: string, specs: seq<string>): seq<string> {
    if specs == [] then [] else
      var init, last := Targets(g, from, specs[..|specs|-1]), NormalizeRelPath(from, specs[|specs|-1]);
      if last.Resolved? then init + [last.path] else init
  }

  ghost function ToSet(s: seq<string>): set<string> { set p | p in s }

  /** Depth-first order with an explicit list of what is still to visit. */
  ghost function DepthFirst(g: Graph, todo: seq<string>, listed: seq<string>): seq<string>
    decreases |g.files.Keys - ToSet(listed)|, |todo|
  {
    if todo == [] then listed
    else if todo[0] in listed then DepthFirst(g, todo[1..], listed)
    else if todo[0] !in g.files then
      assert g.files.Keys - ToSet(listed + [todo[0]]) == g.files.Keys - ToSet(listed);
      DepthFirst(g, todo[1..], listed + [todo[0]])
    else
      FewerLeft(g.files.Keys, ToSet(listed), ToSet(listed + [todo[0]]), todo[0]);
      DepthFirst(g, Targets(g, todo[0], g.files[todo[0]]) + todo[1..], listed + [todo[0]])
  }

  lemma {:induction false} DepthFirstInParts(g: Graph, a: seq<string>, b: seq<string>, listed: seq<string>)
    ensures DepthFirst(g, a + b, listed) == DepthFirst(g, b, DepthFirst(g, a, listed))
    decreases |g.files.Keys - ToSet(listed)|, |a|
  {
    if a == [] {
      assert a + b == b;
    } else {
      assert (a + b)[1..] == a[1..] + b;
      if a[0] in listed {
        DepthFirstInParts(g, a[1..], b, listed);
      } else if a[0] !in g.files {
        assert g.files.Keys - ToSet(listed + [a[0]]) == g.files.Keys - ToSet(listed);
        DepthFirstInParts(g, a[1..], b, listed + [a[0]]);
      } else {
        var targets := Targets(g, a[0], g.files[a[0]]);
        FewerLeft(g.files.Keys, ToSet(listed), ToSet(listed + [a[0]]), a[0]);
        assert targets + (a[1..] + b) == (targets + a[1..]) + b;
        DepthFirstInParts(g, targets + a[1..], b, listed + [a[0]]);
      }
    }
  }

  lemma DepthFirstNext(g: Graph, from: string, specs: seq<string>, i: nat, listed: seq<string>)
    requires i < |specs|
    ensures DepthFirst(g, Targets(g, from, specs[..i+1]), listed) ==
      var before := DepthFirst(g, Targets(g, from, specs[..i]), listed);
      if NormalizeRelPath(from, specs[i]).Resolved? then DepthFirst(g, [NormalizeRelPath(from, specs[i]).path], before)
        else before
  {
    hide DepthFirst;
    assert specs[..i+1][..i] == specs[..i];
    if NormalizeRelPath(from, specs[i]).Resolved? {
      DepthFirstInParts(g, Targets(g, from, specs[..i]), [NormalizeRelPath(from, specs[i]).path], listed);
    }
  }

  lemma DepthFirstOne(g: Graph, p: string, listed: seq<string>)
    ensures p in listed ==> DepthFirst(g, [p], listed) == listed
    ensures p !in listed && p in g.files ==>
      DepthFirst(g, [p], listed) == DepthFirst(g, Targets(g, p, g.files[p]), listed + [p])
  {
    assert [p][1..] == [];
    if p in g.files { assert Targets(g, p, g.files[p]) + [] == Targets(g, p, g.files[p]); }
  }

  lemma DepthFirstNone(g: Graph, from: string, specs: seq<string>, listed: seq<string>)
    ensures DepthFirst(g, Targets(g, from, specs[..0]), listed) == listed
  {
  }

  class RouteFiles {
    var seen: set<string>
    var ordered: seq<string>

    ghost predicate Valid()
      reads this
    {
      NoRepeats(ordered) && forall p :: p in seen <==> p in ordered
    }

    constructor ()
      ensures Valid() && ordered == []
    {
      seen, ordered := {}, [];
    }

    /** Fails where the program throws: at a file that cannot be read. */
    method Visit(g: Graph, p: string) returns (ok: bool)
      requires Valid()
      modifies this
      ensures Valid() && old(ordered) <= ordered && p in seen
      ensures p !in old(seen) ==> ordered[|old(ordered)|] == p
      ensures old(seen) <= seen && AllReached(g, p, seen - old(seen))
      ensures ok ==> Expanded(g, seen - old(seen), seen) && seen - old(seen) <= g.files.Keys
      ensures ok ==> ordered == DepthFirst(g, [p], old(ordered))
      ensures !ok ==> SomeMissing(g, p)
      decreases |g.files.Keys - seen|, 1
    {
      hide DepthFirst, Reaches, Imports, SomeMissing;
      DepthFirstOne(g, p, ordered);
      if p in seen { return true; }
      seen, ordered := seen + {p}, ordered + [p];
      FirstReached(g, p, old(seen), seen);
      if p !in g.files { return false; }
      ok := VisitImports(g, p, old(seen), old(ordered));
    }

    method VisitImports(g: Graph, p: string, ghost before: set<string>, ghost listed: seq<string>) returns (ok: bool)
      requires Valid() && p in g.files && p !in before && seen == before + {p} && ordered == listed + [p]
      modifies this
      ensures Valid() && listed + [p] <= ordered
      ensures before + {p} <= seen && AllReached(g, p, seen - before)
      ensures ok ==> Expanded(g, seen - before, seen) && seen - before <= g.files.Keys
      ensures ok ==> ordered == DepthFirst(g, Targets(g, p, g.files[p]), listed + [p])
      ensures !ok ==> SomeMissing(g, p)
      decreases |g.files.Keys - before|, 0
    {
      hide DepthFirst, Reaches, AllReached, Expanded, SomeMissing, NoRepeats, Targets, Imports, SpecsSeen;
      var specs := g.files[p];
      DepthFirstNone(g, p, specs, listed + [p]);
      FirstReached(g, p, before, seen);
      assert specs[..0] == [];
      for i := 0 to |specs|
        invariant Valid() && listed + [p] <= ordered && before + {p} <= seen
        invariant AllReached(g, p, seen - before)
        invariant Expanded(g, seen - before - {p}, seen) && seen - before <= g.files.Keys
        invariant SpecsSeen(g, p, specs[..i], seen)
        invariant ordered == DepthFirst(g, Targets(g, p, specs[..i]), listed + [p])
      {
        var target := NormalizeRelPath(p, specs[i]);
        DepthFirstNext(g, p, specs, i, listed + [p]);
        SpecsSeenNext(g, p, specs, i, seen);
        if target.Ignored? { continue; }
        ImportsIt(g, p, specs[i]);
        ghost var earlier := seen;
        FewerLeft(g.files.Keys, before, seen, p);
        ok := Visit(g, target.path);
        WalkStep(g, p, target.path, before, earlier, seen);
        if !ok { return; }
        SpecsSeenNext(g, p, specs, i, seen);
        SpecsStaySeen(g, p, specs[..i], earlier, seen);
      }
      assert specs[..|specs|] == specs;
      WalkEnds(g, p, before, seen);
      return true;
    }
  }

  lemma SpecsSeenNext(g: Graph, p: string, specs: seq<string>, i: nat, seen: set<string>)
    requires i < |specs|
    ensures SpecsSeen(g, p, specs[..i], seen)
      && (NormalizeRelPath(p, specs[i]).Resolved? ==> NormalizeRelPath(p, specs[i]).path in seen)
      ==> SpecsSeen(g, p, specs[..i+1], seen)
  {
    assert specs[..i+1] == specs[..i] + [specs[i]];
  }

  lemma SpecsStaySeen(g: Graph, p: string, specs: seq<string>, s1: set<string>, s2: set<string>)
    requires SpecsSeen(g, p, specs, s1) && s1 <= s2
    ensures SpecsSeen(g, p, specs, s2)
  {
  }

  lemma ImportsIt(g: Graph, p: string, spec: string)
    requires p in g.files && spec in g.files[p] && NormalizeRelPath(p, spec).Resolved?
    ensures Imports(g, p, NormalizeRelPath(p, spec).path)
  {
  }

  lemma FirstReached(g: Graph, p: string, before: set<string>, seen: set<string>)
    requires seen == before + {p}
    ensures AllReached(g, p, seen - before) && Expanded(g, seen - before - {p}, seen)
    ensures p !in g.files ==> SomeMissing(g, p)
    ensures SpecsSeen(g, p, [], seen)
  {
    ReachesItself(g, p);
  }

  /** From a canonical entry, only canonical paths are reached, so no file is reached under two names. */
  lemma {:induction false} ReachedAreCanonical(g: Graph, path: seq<string>)
    requires IsPath(g, path) && IsCanonical(path[0])
    requires NoEmptySpecs(g)
    ensures IsCanonical(path[|path|-1])
    decreases |path|
  {
    hide NormalizeRelPath, IsCanonical;
    if |path| <= 1 {
    } else {
      var init := path[..|path|-1];
      assert forall i :: 0 <= i < |init| - 1 ==> Imports(g, path[i], path[i+1]);
      ReachedAreCanonical(g, init);
      var from, to := path[|path|-2], path[|path|-1];
      assert Imports(g, from, to);
      var spec :| spec in g.files[from] && NormalizeRelPath(from, spec) == Resolved(to);
      ResolvedIsCanonical(from, spec);
    }
  }

  /** The walk succeeds exactly when every file that the entry reaches can be read; it then lists the entry
      first and after it exactly the other files the entry reaches, each once, in depth-first order. */
  method CollectRouteFiles(g: Graph, entry: string) returns (ok: bool, files: seq<string>)
    ensures ok <==> forall q :: Reaches(g, entry, q) ==> q in g.files
    ensures ok ==> files != [] && files[0] == entry && NoRepeats(files)
    ensures ok ==> forall q :: q in files <==> Reaches(g, entry, q)
    ensures ok ==> files == DepthFirst(g, [entry], [])
    ensures ok && IsCanonical(entry) && NoEmptySpecs(g) ==> forall p :: p in files ==> IsCanonical(p)
  {
    hide DepthFirst, NormalizeRelPath, IsCanonical;
    var walk := new RouteFiles();
    ok := walk.Visit(g, entry);
    files := walk.ordered;
    if ok {
      forall q | Reaches(g, entry, q) ensures q in walk.seen {
        var path :| Connects(g, path, entry, q);
        ClosedHoldsPath(g, walk.seen, path);
      }
      if IsCanonical(entry) && NoEmptySpecs(g) {
        forall p | p in files ensures IsCanonical(p) {
          assert p in walk.seen && Reaches(g, entry, p);
          var path :| Connects(g, path, entry, p);
          ReachedAreCanonical(g, path);
        }
      }
    }
  }
}
