/** The request lines that a batch accepts, and how an upsert is rewritten to an update or a create. */
module BatchRoutes {
  import opened Strings
  import opened Wrappers

  datatype Kind = Upsert | Create | Update | Delete {
    function Verb(): string {
      match this
      case Upsert => "PUT"
      case Create => "POST"
      case Update => "PATCH"
      case Delete => "DELETE"
    }

    predicate HasId() { Update? || Delete? }
  }

  datatype Route = Route(kind: Kind, collection: string, id: string, query: string)

  // ---------------------------------------------------------------- what a request line says

  predicate Separates(c: char) { c == '/' || c == '?' }

  predicate IsSegment(s: string) { s != "" && forall c :: c in s ==> !Separates(c) }

  predicate IsQuery(s: string) { s == "" || (s[0] == '?' && forall c :: c in s[1..] ==> !EndsLine(c)) }

  predicate IsRoute(r: Route) {
    && IsSegment(r.collection) && IsQuery(r.query)
    && if r.kind.HasId() then IsSegment(r.id) else r.id == ""
  }

  const COLLECTIONS := " /api/collections/"
  const RECORDS := "/records"

  function Tail(r: Route): string { (if r.kind.HasId() then "/" + r.id else "") + r.query }

  function Line(r: Route): string { r.kind.Verb() + COLLECTIONS + (r.collection + (RECORDS + Tail(r))) }

  // ---------------------------------------------------------------- how the program reads one

  function After(s: string, prefix: string): Option<string> {
    if prefix <= s then Some(s[|prefix|..]) else None
  }

  /** The length of the longest prefix without a separator. */
  function Span(s: string): (n: nat)
    ensures n <= |s|
  {
    if s == "" || Separates(s[0]) then 0 else 1 + Span(s[1..])
  }

  function MatchTail(kind: Kind, collection: string, tail: string): Option<Route> {
    if !kind.HasId() then (if IsQuery(tail) then Some(Route(kind, collection, "", tail)) else None)
    else if tail == "" || tail[0] != '/' then None
    else
      var n := Span(tail[1..]);
      if n > 0 && IsQuery(tail[1..][n..]) then Some(Route(kind, collection, tail[1..][..n], tail[1..][n..])) else None
  }

  function MatchKind(kind: Kind, line: string): Option<Route> {
    match After(line, kind.Verb() + COLLECTIONS)
    case None => None
    case Some(rest) =>
      var n := Span(rest);
      if n == 0 then None else
        match After(rest[n..], RECORDS)
        case None => None
        case Some(tail) => MatchTail(kind, rest[..n], tail)
  }

  /** The first of the four expressions that matches. */
  function Match(line: string): Option<Route> {
    var upsert, create, update := MatchKind(Upsert, line), MatchKind(Create, line), MatchKind(Update, line);
    if upsert.Some? then upsert else if create.Some? then create else if update.Some? then update
      else MatchKind(Delete, line)
  }

  lemma {:induction false} SpanOfSegment(a: string, b: string)
    requires forall c :: c in a ==> !Separates(c)
    requires b == "" || Separates(b[0])
    ensures Span(a + b) == |a|
  {
    if a == "" {
      assert a + b == b;
    } else {
      assert (a + b)[1..] == a[1..] + b;
      SpanOfSegment(a[1..], b);
    }
  }

  lemma {:induction false} SpanIsSegment(s: string)
    ensures forall c :: c in s[..Span(s)] ==> !Separates(c)
  {
    if s != "" && !Separates(s[0]) {
      SpanIsSegment(s[1..]);
      assert s[..Span(s)] == [s[0]] + s[1..][..Span(s[1..])];
    }
  }

  lemma AfterExactly(s: string, prefix: string, t: string)
    ensures After(s, prefix) == Some(t) <==> s == prefix + t
  {
    assert prefix <= s ==> s == prefix + s[|prefix|..];
    assert (prefix + t)[|prefix|..] == t;
  }

  lemma SplitAtSpan(s: string, a: string, b: string)
    requires s == a + b && (forall c :: c in a ==> !Separates(c)) && (b == "" || Separates(b[0]))
    ensures Span(s) == |a| && s[..|a|] == a && s[|a|..] == b
  {
    SpanOfSegment(a, b);
  }

  lemma MatchTailExactly(kind: Kind, collection: string, tail: string, r: Route)
    requires IsSegment(collection)
    ensures MatchTail(kind, collection, tail) == Some(r)
      <==> IsRoute(r) && r.kind == kind && r.collection == collection && tail == Tail(r)
  {
    if !kind.HasId() {
      assert "" + r.query == r.query;
    } else {
      if MatchTail(kind, collection, tail) == Some(r) { MatchedTail(kind, collection, tail); }
      if IsRoute(r) && r.kind == kind && r.collection == collection && tail == Tail(r) { TailIsMatched(r); }
    }
  }

  lemma MatchedTail(kind: Kind, collection: string, tail: string)
    requires IsSegment(collection) && kind.HasId() && MatchTail(kind, collection, tail).Some?
    ensures var r := MatchTail(kind, collection, tail).value;
      IsRoute(r) && r.kind == kind && r.collection == collection && tail == Tail(r)
  {
    hide Separates, EndsLine, Span, IsQuery;
    var t := tail[1..];
    var n := Span(t);
    SpanIsSegment(t);
    Rejoined(tail, n);
    assert MatchTail(kind, collection, tail).value == Route(kind, collection, t[..n], t[n..]);
  }

  lemma Rejoined(s: string, n: nat)
    requires n < |s|
    ensures s == [s[0]] + s[1..][..n] + s[1..][n..]
  {
  }

  lemma TailIsMatched(r: Route)
    requires IsRoute(r) && r.kind.HasId()
    ensures MatchTail(r.kind, r.collection, Tail(r)) == Some(r)
  {
    hide EndsLine, Span;
    assert Tail(r)[1..] == r.id + r.query;
    SplitAtSpan(Tail(r)[1..], r.id, r.query);
  }

  lemma MatchedIsLine(kind: Kind, line: string)
    requires MatchKind(kind, line).Some?
    ensures var r := MatchKind(kind, line).value; IsRoute(r) && r.kind == kind && line == Line(r)
  {
    hide MatchTail, Tail, IsRoute, After, Kind.Verb, Separates, Span;
    var rest := After(line, kind.Verb() + COLLECTIONS).value;
    AfterExactly(line, kind.Verb() + COLLECTIONS, rest);
    var n := Span(rest);
    var tail := After(rest[n..], RECORDS).value;
    AfterExactly(rest[n..], RECORDS, tail);
    SpanIsSegment(rest);
    MatchTailExactly(kind, rest[..n], tail, MatchKind(kind, line).value);
    assert rest == rest[..n] + rest[n..];
  }

  lemma LineIsMatched(r: Route)
    requires IsRoute(r)
    ensures MatchKind(r.kind, Line(r)) == Some(r)
  {
    hide MatchTail, Tail, After, Kind.Verb, Span;
    var rest := r.collection + (RECORDS + Tail(r));
    AfterExactly(Line(r), r.kind.Verb() + COLLECTIONS, rest);
    assert (RECORDS + Tail(r))[0] == '/';
    SplitAtSpan(rest, r.collection, RECORDS + Tail(r));
    AfterExactly(RECORDS + Tail(r), RECORDS, Tail(r));
    MatchTailExactly(r.kind, r.collection, Tail(r), r);
  }

  lemma MatchKindExactly(kind: Kind, line: string, r: Route)
    ensures MatchKind(kind, line) == Some(r) <==> IsRoute(r) && r.kind == kind && line == Line(r)
  {
    hide MatchKind, IsRoute, Line;
    if MatchKind(kind, line) == Some(r) { MatchedIsLine(kind, line); }
    if IsRoute(r) && r.kind == kind && line == Line(r) { LineIsMatched(r); }
  }

  /** A request line is read as a route exactly when it is that route's line. */
  lemma {:induction false} MatchExactly(line: string, r: Route)
    ensures Match(line) == Some(r) <==> IsRoute(r) && line == Line(r)
  {
    hide MatchKind, IsRoute;
    forall kind: Kind, x: Route
      ensures MatchKind(kind, line) == Some(x) <==> IsRoute(x) && x.kind == kind && line == Line(x) {
      MatchKindExactly(kind, line, x);
    }
    VerbsDiffer(line);
  }

  lemma VerbsDiffer(line: string)
    ensures forall a: Route, b: Route :: Line(a) == line && Line(b) == line ==> a.kind == b.kind
  {
    forall a: Route, b: Route | Line(a) == line && Line(b) == line ensures a.kind == b.kind {
      assert line[..3] == (a.kind.Verb() + COLLECTIONS)[..3] == (b.kind.Verb() + COLLECTIONS)[..3];
      assert line[1] == a.kind.Verb()[1] == b.kind.Verb()[1];
    }
  }

  predicate IsPathPart(s: string) { s != "" && '/' !in s && '?' !in s }

  predicate MayBeQuery(s: string) { s == "" || s[0] == '?' }

  /** What `.` does not match ends no query. */
  predicate HasLineEnd(s: string) { '\n' in s || '\r' in s || '\U{2028}' in s || '\U{2029}' in s }

  /** The four kinds of lines, written out; a query may be empty, and has no line terminator. */
  lemma {:induction false} LinesAreRead(collection: string, id: string, query: string)
    requires IsPathPart(collection) && IsPathPart(id) && MayBeQuery(query)
    ensures Match("PUT" + " /api/collections/" + collection + "/records" + query)
      == if HasLineEnd(query) then None else Some(Route(Upsert, collection, "", query))
    ensures Match("POST" + " /api/collections/" + collection + "/records" + query)
      == if HasLineEnd(query) then None else Some(Route(Create, collection, "", query))
    ensures Match("PATCH" + " /api/collections/" + collection + "/records/" + id + query)
      == if HasLineEnd(query) then None else Some(Route(Update, collection, id, query))
    ensures Match("DELETE" + " /api/collections/" + collection + "/records/" + id + query)
      == if HasLineEnd(query) then None else Some(Route(Delete, collection, id, query))
  {
    hide Match, IsQuery, Line, HasLineEnd;
    LineReads("PUT", Route(Upsert, collection, "", query));
    LineReads("POST", Route(Create, collection, "", query));
    LineReads("PATCH", Route(Update, collection, id, query));
    LineReads("DELETE", Route(Delete, collection, id, query));
  }

  /** A route but for line terminators in its query. */
  predicate IsShaped(r: Route) {
    && IsPathPart(r.collection) && MayBeQuery(r.query)
    && if r.kind.HasId() then IsPathPart(r.id) else r.id == ""
  }

  lemma LineReads(verb: string, r: Route)
    requires verb == r.kind.Verb() && IsShaped(r)
    ensures var line := if r.kind.HasId() then verb + " /api/collections/" + r.collection + "/records/" + r.id + r.query
                        else verb + " /api/collections/" + r.collection + "/records" + r.query;
      Match(line) == if HasLineEnd(r.query) then None else Some(r)
  {
    hide Match, Line, Kind.Verb;
    LineWrittenOut(verb, r);
    ShapedRoutes(r);
    MatchExactly(Line(r), r);
    if Match(Line(r)).Some? {
      var read := Match(Line(r)).value;
      MatchExactly(Line(r), read);
      VerbsDiffer(Line(r));
      ShapedRoutes(read);
      LinesDiffer(r, read);
    }
  }

  lemma ShapedRoutes(r: Route)
    ensures IsRoute(r) <==> IsShaped(r) && !HasLineEnd(r.query)
  {
    assert r.query != "" ==> r.query == [r.query[0]] + r.query[1..];
  }

  /** Different routes of one kind have different lines. */
  lemma LinesDiffer(a: Route, b: Route)
    requires IsShaped(a) && IsShaped(b) && a.kind == b.kind && Line(a) == Line(b)
    ensures a == b
  {
    hide Kind.Verb, Span, After, Tail, COLLECTIONS, RECORDS, Separates;
    TailsDiffer(a, b);
    NoSeparators(a);
    NoSeparators(b);
    var start := a.kind.Verb() + COLLECTIONS;
    AfterExactly(Line(a), start, a.collection + (RECORDS + Tail(a)));
    AfterExactly(Line(b), start, b.collection + (RECORDS + Tail(b)));
    SplitAtSpan(a.collection + (RECORDS + Tail(a)), a.collection, RECORDS + Tail(a));
    SplitAtSpan(a.collection + (RECORDS + Tail(a)), b.collection, RECORDS + Tail(b));
    AfterExactly(RECORDS + Tail(a), RECORDS, Tail(a));
    AfterExactly(RECORDS + Tail(a), RECORDS, Tail(b));
  }

  lemma NoSeparators(r: Route)
    requires IsShaped(r)
    ensures (forall c :: c in r.collection ==> !Separates(c)) && Separates((RECORDS + Tail(r))[0])
  {
  }

  lemma TailsDiffer(a: Route, b: Route)
    requires IsShaped(a) && IsShaped(b) && a.kind == b.kind
    ensures Tail(a) == Tail(b) ==> a.id == b.id && a.query == b.query
  {
    hide Kind.Verb, Span;
    if Tail(a) == Tail(b) && a.kind.HasId() {
      assert Tail(a)[1..] == a.id + a.query && Tail(b)[1..] == b.id + b.query;
      SplitAtSpan(a.id + a.query, a.id, a.query);
      SplitAtSpan(a.id + a.query, b.id, b.query);
    } else {
      assert !a.kind.HasId() ==> Tail(a) == a.query && Tail(b) == b.query;
    }
  }

  lemma LineWrittenOut(verb: string, r: Route)
    requires verb == r.kind.Verb()
    ensures r.kind.HasId() ==> Line(r) == verb + " /api/collections/" + r.collection + "/records/" + r.id + r.query
    ensures !r.kind.HasId() ==> Line(r) == verb + " /api/collections/" + r.collection + "/records" + r.query
  {
    hide Kind.Verb;
    var start, c := verb + COLLECTIONS, r.collection;
    if r.kind.HasId() {
      WithId(start, c, r.id, r.query);
    } else {
      WithoutId(start, c, r.query);
    }
  }

  lemma WithId(start: string, c: string, id: string, query: string)
    ensures start + (c + (RECORDS + ("/" + id + query))) == start + c + "/records/" + id + query
  {
    assert RECORDS + ("/" + id + query) == "/records/" + id + query;
  }

  lemma WithoutId(start: string, c: string, query: string)
    ensures start + (c + (RECORDS + ("" + query))) == start + c + "/records" + query
  {
    assert "" + query == query;
  }

  // ---------------------------------------------------------------- preparing a request

  /** `upper` is the upper-casing of methods, whose only property used is that it keeps upper case. */
  predicate KeepsUpper(upper: string -> string) { upper("PATCH") == "PATCH" && upper("POST") == "POST" }

  datatype Request = Request(method_: string, url: string, bodyId: string, body: string)

  datatype Call = Call(kind: Kind, collection: string, id: string)

  const API := "/api/collections/"

  /** The request as rewritten and the handler call it leads to; None for an unknown action. */
  function Prepare(upper: string -> string, hasRecord: (string, string) -> bool, q: Request): Option<(Request, Call)> {
    match Match(upper(q.method_) + " " + q.url)
    case None => None
    case Some(r) =>
      if !r.kind.Upsert? then Some((q, Call(r.kind, r.collection, r.id)))
      else if q.bodyId != "" && hasRecord(r.collection, q.bodyId) then
        Some((q.(method_ := "PATCH", url := API + r.collection + RECORDS + "/" + q.bodyId + r.query),
              Call(Update, r.collection, q.bodyId)))
      else
        Some((q.(method_ := "POST", url := API + r.collection + RECORDS + r.query), Call(Create, r.collection, "")))
  }

  /** An upsert acts as the update of its body's id exactly when that record exists, and as a create
      otherwise; every other known request acts as what it says. */
  lemma {:induction false} UpsertActsAs(upper: string -> string, hasRecord: (string, string) -> bool, q: Request,
                                        r: Route)
    requires IsRoute(r) && upper(q.method_) + " " + q.url == Line(r)
    ensures Prepare(upper, hasRecord, q).Some?
    ensures Prepare(upper, hasRecord, q).value.1 ==
      if !r.kind.Upsert? then Call(r.kind, r.collection, r.id)
      else if q.bodyId != "" && hasRecord(r.collection, q.bodyId) then Call(Update, r.collection, q.bodyId)
      else Call(Create, r.collection, "")
  {
    hide Match, Line, IsRoute;
    MatchExactly(upper(q.method_) + " " + q.url, r);
  }

  /** The rewritten request line of an upsert is one that the batch itself reads as the very call it makes,
      with the same query, exactly unless it is an update of an id that contains a separator. */
  lemma {:induction false} RewrittenUpsertReads(upper: string -> string, hasRecord: (string, string) -> bool,
                                                q: Request, r: Route)
    requires KeepsUpper(upper) && r.kind.Upsert? && IsRoute(r) && upper(q.method_) + " " + q.url == Line(r)
    ensures Prepare(upper, hasRecord, q).Some?
    ensures var (after, call) := Prepare(upper, hasRecord, q).value;
      Match(upper(after.method_) + " " + after.url) == Some(Route(call.kind, call.collection, call.id, r.query))
      <==> (call.kind.Update? ==> forall c :: c in q.bodyId ==> !Separates(c))
  {
    hide Match;
    MatchExactly(upper(q.method_) + " " + q.url, r);
    var (after, call) := Prepare(upper, hasRecord, q).value;
    var target := Route(call.kind, call.collection, call.id, r.query);
    MatchExactly(upper(after.method_) + " " + after.url, target);
    RewrittenLine(call, r.query);
  }

  lemma RewrittenLine(call: Call, query: string)
    ensures var r := Route(call.kind, call.collection, call.id, query);
      && (call.kind.Update? ==> "PATCH" + " " + (API + call.collection + RECORDS + "/" + call.id + query) == Line(r))
      && (call.kind.Create? ==> "POST" + " " + (API + call.collection + RECORDS + query) == Line(r))
  {
    assert COLLECTIONS == " " + API;
    var c, i := call.collection, call.id;
    assert API + c + RECORDS + "/" + i + query == API + (c + (RECORDS + ("/" + i + query)));
    assert API + c + RECORDS + query == API + (c + (RECORDS + ("" + query)));
    assert "PATCH" + " " + (API + (c + (RECORDS + ("/" + i + query)))) ==
      "PATCH" + COLLECTIONS + (c + (RECORDS + ("/" + i + query)));
    assert "POST" + " " + (API + (c + (RECORDS + ("" + query)))) ==
      "POST" + COLLECTIONS + (c + (RECORDS + ("" + query)));
  }
}
