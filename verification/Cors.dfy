/** Which origins a CORS configuration allows: the label-wise `*` comparison of an origin with an allowed
    one, and the pattern built from the allowed one, which is tried afterwards. */
module Cors {
  import opened Strings

  function Reversed(s: seq<string>): (r: seq<string>)
    ensures |r| == |s| && forall i :: 0 <= i < |s| ==> r[i] == s[|s| - 1 - i]
  {
    if s == [] then [] else Reversed(s[1..]) + [s[0]]
  }

  // ---------------------------------------------------------------- the wildcard comparison

  /** Label by label, the allowed one being equal or `*`. */
  ghost predicate SameLabels(labels: seq<string>, allowed: seq<string>) {
    |labels| == |allowed| && forall i :: 0 <= i < |labels| ==> allowed[i] == "*" || allowed[i] == labels[i]
  }

  predicate MatchScheme(domain: string, pattern: string) {
    var d, p := IndexOf(domain, ":"), IndexOf(pattern, ":");
    d != -1 && p != -1 && domain[..d] == pattern[..p]
  }

  /** Compares what stands before the first colons and what stands after the first `://`s. */
  ghost predicate WildcardMatches(domain: string, pattern: string) {
    var d, p := IndexOf(domain, "://"), IndexOf(pattern, "://");
    && MatchScheme(domain, pattern) && d != -1 && p != -1
    && |domain[d+3..]| <= 253
    && SameLabels(Split(domain[d+3..], '.'), Split(pattern[p+3..], '.'))
  }

  method ExactWildcardMatch(domain: string, pattern: string) returns (matches: bool)
    ensures matches <==> WildcardMatches(domain, pattern)
  {
    hide Split, IndexOf, MatchScheme;
    if !MatchScheme(domain, pattern) { return false; }
    var didx, pidx := IndexOf(domain, "://"), IndexOf(pattern, "://");
    if didx == -1 || pidx == -1 { return false; }
    var domAuth, patAuth := domain[didx+3..], pattern[pidx+3..];
    if |domAuth| > 253 { return false; }
    var domComp, patComp := Reversed(Split(domAuth, '.')), Reversed(Split(patAuth, '.'));
    ghost var dom, pat := Split(domAuth, '.'), Split(patAuth, '.');
    if |patComp| != |domComp| { return false; }
    for i := 0 to |domComp|
      invariant forall k :: |dom| - i <= k < |dom| ==> pat[k] == "*" || pat[k] == dom[k]
    {
      if patComp[i] == "*" { continue; }
      if patComp[i] != domComp[i] {
        assert patComp[i] == pat[|dom| - 1 - i] && domComp[i] == dom[|dom| - 1 - i];
        return false;
      }
    }
    return true;
  }

  lemma {:induction false} FirstAfter(scheme: string, rest: string, part: string)
    requires part != "" && part[0] !in scheme && part <= rest
    ensures IndexOf(scheme + rest, part) == |scheme|
  {
    if scheme == "" {
      assert scheme + rest == rest;
    } else {
      assert (scheme + rest)[0] == scheme[0] != part[0];
      assert (scheme + rest)[1..] == scheme[1..] + rest;
      FirstAfter(scheme[1..], rest, part);
    }
  }

  function Origin(scheme: string, authority: string): string { scheme + ("://" + authority) }

  /** For origins whose first colon opens `://`, the comparison holds exactly when the schemes are equal,
      the authority is within 253 characters, and the labels agree in number and one by one. */
  lemma {:induction false} WildcardMatchesExactly(scheme: string, authority: string, allowedScheme: string,
                                                  allowed: string)
    requires ':' !in scheme && ':' !in allowedScheme
    ensures WildcardMatches(Origin(scheme, authority), Origin(allowedScheme, allowed)) <==>
      && scheme == allowedScheme && |authority| <= 253
      && var labels, patterns := Split(authority, '.'), Split(allowed, '.');
         |labels| == |patterns| && forall i :: 0 <= i < |labels| ==> patterns[i] == "*" || patterns[i] == labels[i]
  {
    hide IndexOf, Split, Origin;
    SchemeFound(scheme, authority);
    SchemeFound(allowedScheme, allowed);
  }

  lemma SchemeFound(scheme: string, authority: string)
    requires ':' !in scheme
    ensures var o := Origin(scheme, authority);
      && IndexOf(o, ":") == IndexOf(o, "://") == |scheme|
      && o[..|scheme|] == scheme && o[|scheme|+3..] == authority
  {
    var rest := "://" + authority;
    assert ":" <= rest && "://" <= rest;
    FirstAfter(scheme, rest, ":");
    FirstAfter(scheme, rest, "://");
    hide IndexOf;
    assert (scheme + rest)[..|scheme|] == scheme && (scheme + rest)[|scheme|+3..] == rest[3..] == authority;
  }

  // ---------------------------------------------------------------- the pattern

  /** What the built expressions consist of: any text, any character, one character. */
  datatype Token = AnyText | AnyChar | Just(c: char)

  /** Whether the anchored expression matches; the dot matches no line terminator. */
  predicate Matches(tokens: seq<Token>, text: string)
    decreases |tokens| + |text|
  {
    if tokens == [] then text == ""
    else match tokens[0]
      case AnyText => Matches(tokens[1..], text) || (text != "" && !EndsLine(text[0]) && Matches(tokens, text[1..]))
      case AnyChar => text != "" && !EndsLine(text[0]) && Matches(tokens[1..], text[1..])
      case Just(c) => text != "" && text[0] == c && Matches(tokens[1..], text[1..])
  }

  predicate IsSpecial(c: char) { c in ".*+?^${}()|[]\\" }

  /** A backslash before each special character. */
  function EscapeRegExp(s: string): string {
    if s == "" then "" else (if IsSpecial(s[0]) then ['\\', s[0]] else [s[0]]) + EscapeRegExp(s[1..])
  }

  /** Every backslash followed by `c`, from left to right, replaced. */
  function ReplaceEscaped(s: string, c: char, replacement: string): string {
    if |s| < 2 then s
    else if s[0] == '\\' && s[1] == c then replacement + ReplaceEscaped(s[2..], c, replacement)
    else [s[0]] + ReplaceEscaped(s[1..], c, replacement)
  }

  /** The source of the expression between `^` and `$`. */
  function BuildOriginPattern(origin: string): string {
    ReplaceEscaped(ReplaceEscaped(EscapeRegExp(origin), '*', ".*"), '?', ".")
  }

  /** How the expression engine reads such a source. */
  function ReadExpression(s: string): seq<Token> {
    if s == "" then []
    else if s[0] == '\\' && |s| > 1 then [Just(s[1])] + ReadExpression(s[2..])
    else if s[0] == '.' && |s| > 1 && s[1] == '*' then [AnyText] + ReadExpression(s[2..])
    else if s[0] == '.' then [AnyChar] + ReadExpression(s[1..])
    else [Just(s[0])] + ReadExpression(s[1..])
  }

  /** What an allowed origin means as a glob. */
  function Glob(origin: string): seq<Token> {
    if origin == "" then []
    else
      var first := if origin[0] == '*' then AnyText else if origin[0] == '?' then AnyChar else Just(origin[0]);
      [first] + Glob(origin[1..])
  }

  /** The escaped text with `*` already replaced. */
  function StarsReplaced(s: string): string {
    if s == "" then "" else
      (if s[0] == '*' then ".*" else if IsSpecial(s[0]) then ['\\', s[0]] else [s[0]]) + StarsReplaced(s[1..])
  }

  function AllReplaced(s: string): string {
    if s == "" then "" else
      (if s[0] == '*' then ".*" else if s[0] == '?' then "." else if IsSpecial(s[0]) then ['\\', s[0]] else [s[0]])
      + AllReplaced(s[1..])
  }

  /** A replacement does not reach across a character that is not a backslash, or a backslash that escapes
      another character. */
  lemma ReplaceSkips(block: string, rest: string, c: char, replacement: string)
    requires c != '\\' && (rest == "" || rest[0] != c)
    requires (|block| == 1 && block[0] != '\\')
      || (|block| == 2 && block[1] != c && (block[0] == '\\' || block[1] != '\\'))
    ensures ReplaceEscaped(block + rest, c, replacement) == block + ReplaceEscaped(rest, c, replacement)
  {
    var s := block + rest;
    if |block| == 1 {
      assert s[1..] == rest;
    } else {
      assert s[1..] == [block[1]] + rest && ([block[1]] + rest)[1..] == rest;
      assert block == [block[0]] + [block[1]];
    }
  }

  lemma {:induction false} StarReplacement(s: string)
    ensures ReplaceEscaped(EscapeRegExp(s), '*', ".*") == StarsReplaced(s)
  {
    if s == "" {
    } else {
      StarReplacement(s[1..]);
      var rest := EscapeRegExp(s[1..]);
      assert rest == "" || rest[0] != '*';
      if s[0] == '*' {
        assert (['\\', '*'] + rest)[2..] == rest;
      } else {
        ReplaceSkips(if IsSpecial(s[0]) then ['\\', s[0]] else [s[0]], rest, '*', ".*");
      }
    }
  }

  lemma {:induction false} QuestionReplacement(s: string)
    ensures ReplaceEscaped(StarsReplaced(s), '?', ".") == AllReplaced(s)
  {
    if s == "" {
    } else {
      QuestionReplacement(s[1..]);
      var rest := StarsReplaced(s[1..]);
      assert rest == "" || rest[0] != '?';
      if s[0] == '?' {
        assert (['\\', '?'] + rest)[2..] == rest;
      } else {
        ReplaceSkips(if s[0] == '*' then ".*" else if IsSpecial(s[0]) then ['\\', s[0]] else [s[0]], rest, '?', ".");
      }
    }
  }

  lemma {:induction false} ReadReplaced(s: string)
    ensures ReadExpression(AllReplaced(s)) == Glob(s)
  {
    if s == "" {
    } else {
      ReadReplaced(s[1..]);
      var rest := AllReplaced(s[1..]);
      assert rest == "" || rest[0] != '*';
      var all := AllReplaced(s);
      if s[0] == '*' || (s[0] != '?' && IsSpecial(s[0])) {
        assert all[2..] == rest;
      } else {
        assert all[1..] == rest;
      }
    }
  }

  /** Escaping the allowed origin and replacing the escaped wildcards gives an expression that means the
      glob, for every allowed origin: all other characters stand for themselves. */
  lemma {:induction false} BuiltPatternIsGlob(origin: string)
    ensures ReadExpression(BuildOriginPattern(origin)) == Glob(origin)
  {
    StarReplacement(origin);
    QuestionReplacement(origin);
    ReadReplaced(origin);
  }

  /** What one character of a glob stands for: any text within a line, any character but a line terminator,
      or itself. */
  predicate Fits(c: char, part: string) {
    if c == '*' then OneLine(part) else if c == '?' then |part| == 1 && OneLine(part) else part == [c]
  }

  function Concat(parts: seq<string>): string { if parts == [] then "" else parts[0] + Concat(parts[1..]) }

  /** The text is made of one part for each character of the pattern. */
  ghost predicate FitsGlob(pattern: string, text: string, parts: seq<string>) {
    |parts| == |pattern| && text == Concat(parts) && forall i :: 0 <= i < |parts| ==> Fits(pattern[i], parts[i])
  }

  lemma FitsFirst(pattern: string, text: string, part: string, rest: seq<string>)
    requires pattern != "" && Fits(pattern[0], part) && FitsGlob(pattern[1..], text, rest)
    ensures FitsGlob(pattern, part + text, [part] + rest)
  {
    hide Fits;
    var parts := [part] + rest;
    assert parts[1..] == rest;
    assert forall i :: 0 < i < |parts| ==> parts[i] == rest[i-1] && pattern[i] == pattern[1..][i-1];
  }

  lemma FitsRest(pattern: string, text: string, parts: seq<string>)
    requires pattern != "" && FitsGlob(pattern, text, parts)
    ensures Fits(pattern[0], parts[0]) && text == parts[0] + Concat(parts[1..])
    ensures FitsGlob(pattern[1..], Concat(parts[1..]), parts[1..])
  {
    hide Fits;
    assert forall i :: 0 <= i < |parts[1..]| ==> parts[1..][i] == parts[i+1] && pattern[1..][i] == pattern[i+1];
  }

  lemma FitsMore(c: char, pattern: string, text: string, parts: seq<string>)
    requires pattern != "" && pattern[0] == '*' && FitsGlob(pattern, text, parts) && !EndsLine(c)
    ensures FitsGlob(pattern, [c] + text, [[c] + parts[0]] + parts[1..])
  {
    FitsRest(pattern, text, parts);
    FitsFirst(pattern, Concat(parts[1..]), [c] + parts[0], parts[1..]);
    assert [c] + (parts[0] + Concat(parts[1..])) == [c] + parts[0] + Concat(parts[1..]);
  }

  lemma {:induction false} MatchedFits(pattern: string, text: string) returns (parts: seq<string>)
    requires Matches(Glob(pattern), text)
    ensures FitsGlob(pattern, text, parts)
    decreases |pattern| + |text|
  {
    if pattern == "" {
      parts := [];
    } else {
      var tokens := Glob(pattern);
      assert tokens[1..] == Glob(pattern[1..]);
      hide Glob, FitsGlob;
      if pattern[0] == '*' && Matches(tokens[1..], text) {
        var rest := MatchedFits(pattern[1..], text);
        FitsFirst(pattern, text, "", rest);
        assert "" + text == text;
        parts := [""] + rest;
      } else if pattern[0] == '*' {
        var rest := MatchedFits(pattern, text[1..]);
        FitsMore(text[0], pattern, text[1..], rest);
        assert [text[0]] + text[1..] == text;
        parts := [[text[0]] + rest[0]] + rest[1..];
      } else {
        var rest := MatchedFits(pattern[1..], text[1..]);
        FitsFirst(pattern, text[1..], [text[0]], rest);
        assert [text[0]] + text[1..] == text;
        parts := [[text[0]]] + rest;
      }
    }
  }

  lemma {:induction false} FittingMatches(pattern: string, text: string, parts: seq<string>)
    requires FitsGlob(pattern, text, parts)
    ensures Matches(Glob(pattern), text)
    decreases |pattern| + |text|
  {
    if pattern == "" {
    } else {
      var tokens := Glob(pattern);
      assert tokens[1..] == Glob(pattern[1..]);
      FitsRest(pattern, text, parts);
      var part, rest := parts[0], parts[1..];
      hide Glob, FitsGlob;
      if pattern[0] == '*' && part != "" {
        assert text[1..] == part[1..] + Concat(rest) && text[0] == part[0];
        assert OneLine(part[1..]);
        FitsFirst(pattern, Concat(rest), part[1..], rest);
        FittingMatches(pattern, text[1..], [part[1..]] + rest);
      } else if pattern[0] == '*' {
        assert text == Concat(rest);
        FittingMatches(pattern[1..], text, rest);
      } else {
        assert text[1..] == Concat(rest) && text[0] == part[0];
        FittingMatches(pattern[1..], text[1..], rest);
      }
    }
  }

  /** The expression built from an allowed origin matches exactly the texts made of one part for each of its
      characters, where a star is any text within a line and a question mark one character. */
  lemma {:induction false} BuiltPatternMeans(allowed: string, text: string)
    ensures Matches(ReadExpression(BuildOriginPattern(allowed)), text) <==>
      exists parts :: FitsGlob(allowed, text, parts)
  {
    BuiltPatternIsGlob(allowed);
    hide Matches, Glob, FitsGlob, ReadExpression, BuildOriginPattern;
    if Matches(Glob(allowed), text) { var parts := MatchedFits(allowed, text); }
    if parts :| FitsGlob(allowed, text, parts) { FittingMatches(allowed, text, parts); }
  }

  predicate OneLine(text: string) { forall c :: c in text ==> !EndsLine(c) }

  // ---------------------------------------------------------------- the pattern stage subsumes the wildcard stage

  lemma {:induction false} MatchesConcat(a: seq<Token>, b: seq<Token>, x: string, y: string)
    requires Matches(a, x) && Matches(b, y)
    ensures Matches(a + b, x + y)
    decreases |a| + |x|
  {
    if a == [] {
      assert a + b == b && x + y == y;
    } else {
      assert (a + b)[1..] == a[1..] + b;
      if x != "" { assert (x + y)[1..] == x[1..] + y && (x + y)[0] == x[0]; }
      if a[0].AnyText? {
        if Matches(a[1..], x) { MatchesConcat(a[1..], b, x, y); } else { MatchesConcat(a, b, x[1..], y); }
      } else {
        MatchesConcat(a[1..], b, x[1..], y);
      }
    }
  }

  lemma {:induction false} GlobConcat(a: string, b: string)
    ensures Glob(a + b) == Glob(a) + Glob(b)
  {
    if a == "" {
      assert a + b == b;
    } else {
      assert (a + b)[1..] == a[1..] + b;
      GlobConcat(a[1..], b);
    }
  }

  lemma {:induction false} MatchesItself(text: string)
    requires OneLine(text)
    ensures Matches(Glob(text), text)
  {
    if text == "" {
    } else {
      MatchesItself(text[1..]);
      var g := Glob(text);
      assert g[1..] == Glob(text[1..]);
      if text[0] == '*' { assert Matches(g, text[1..]); }
    }
  }

  lemma {:induction false} StarMatchesAll(text: string)
    requires OneLine(text)
    ensures Matches([AnyText], text)
  {
    if text != "" { StarMatchesAll(text[1..]); }
  }

  lemma {:induction false} LabelsMatch(labels: seq<string>, allowed: seq<string>)
    requires SameLabels(labels, allowed) && OneLine(Join(labels, "."))
    ensures Matches(Glob(Join(allowed, ".")), Join(labels, "."))
  {
    if labels == [] {
    } else {
      var first := labels[0];
      var j := Join(labels, ".");
      assert first == j[..|first|];
      if allowed[0] == "*" {
        StarMatchesAll(first);
        assert Glob("*") == [AnyText];
      } else {
        MatchesItself(first);
      }
      if |labels| > 1 {
        assert j[|first|+1..] == Join(labels[1..], ".");
        LabelsMatch(labels[1..], allowed[1..]);
        MatchesItself(".");
        MatchesConcat(Glob(allowed[0]), Glob("."), first, ".");
        GlobConcat(allowed[0], ".");
        MatchesConcat(Glob(allowed[0] + "."), Glob(Join(allowed[1..], ".")), first + ".", Join(labels[1..], "."));
        GlobConcat(allowed[0] + ".", Join(allowed[1..], "."));
      }
    }
  }

  /** Whenever the wildcard comparison accepts a one-line origin, and what stands before the first `://` of
      the allowed origin matches, as a glob, what stands before the first `://` of the origin, the pattern
      built from the allowed origin matches too. */
  lemma {:induction false} PatternSubsumesWildcard(domain: string, pattern: string)
    requires OneLine(domain) && WildcardMatches(domain, pattern)
    requires Matches(Glob(pattern[..IndexOf(pattern, "://")]), domain[..IndexOf(domain, "://")])
    ensures Matches(ReadExpression(BuildOriginPattern(pattern)), domain)
  {
    hide Matches, Glob, BuildOriginPattern, ReadExpression, MatchScheme, SameLabels, Split, Join;
    var d, p := IndexOf(domain, "://"), IndexOf(pattern, "://");
    BuiltPatternIsGlob(pattern);
    AroundOpening(domain, d);
    AroundOpening(pattern, p);
    AuthorityMatches(domain[d+3..], pattern[p+3..]);
    PartsMatch(pattern[..p], domain[..d], pattern[p+3..], domain[d+3..]);
  }

  lemma AroundOpening(s: string, i: int)
    requires 0 <= i <= |s| - 3 && "://" <= s[i..]
    ensures s == s[..i] + ("://" + s[i+3..])
    ensures OneLine(s) ==> OneLine(s[i+3..])
  {
    assert s[i..] == "://" + s[i+3..];
  }

  lemma AuthorityMatches(authority: string, allowed: string)
    requires SameLabels(Split(authority, '.'), Split(allowed, '.')) && OneLine(authority)
    ensures Matches(Glob(allowed), authority)
  {
    hide Matches, Glob, Split, Join;
    JoinSplit(authority, '.');
    JoinSplit(allowed, '.');
    LabelsMatch(Split(authority, '.'), Split(allowed, '.'));
  }

  lemma PartsMatch(allowedScheme: string, scheme: string, allowed: string, authority: string)
    requires Matches(Glob(allowedScheme), scheme) && Matches(Glob(allowed), authority)
    ensures Matches(Glob(allowedScheme + ("://" + allowed)), scheme + ("://" + authority))
  {
    hide Matches, Glob;
    MatchesItself("://");
    MatchesConcat(Glob("://"), Glob(allowed), "://", authority);
    GlobConcat("://", allowed);
    MatchesConcat(Glob(allowedScheme), Glob("://" + allowed), scheme, "://" + authority);
    GlobConcat(allowedScheme, "://" + allowed);
  }

  /** In particular whenever both first colons open `://`. */
  lemma {:induction false} PatternSubsumesOrigins(scheme: string, authority: string, allowedScheme: string,
                                                  allowed: string)
    requires ':' !in scheme && ':' !in allowedScheme && OneLine(Origin(scheme, authority))
    requires WildcardMatches(Origin(scheme, authority), Origin(allowedScheme, allowed))
    ensures Matches(ReadExpression(BuildOriginPattern(Origin(allowedScheme, allowed))), Origin(scheme, authority))
  {
    hide WildcardMatches, Matches, Glob, BuildOriginPattern, ReadExpression, IndexOf;
    WildcardMatchesExactly(scheme, authority, allowedScheme, allowed);
    SchemeFound(scheme, authority);
    SchemeFound(allowedScheme, allowed);
    var o := Origin(scheme, authority);
    assert scheme == o[..|scheme|];
    MatchesItself(scheme);
    PatternSubsumesWildcard(o, Origin(allowedScheme, allowed));
  }

  lemma IndexOfNext(s: string, part: string)
    requires s != "" && part != "" && s[0] != part[0] && IndexOf(s[1..], part) != -1
    ensures IndexOf(s, part) == IndexOf(s[1..], part) + 1
  {
  }

  lemma OpensHere(s: string, part: string)
    requires part <= s
    ensures IndexOf(s, part) == 0
  {
  }

  function TwoColons(c: char): string { "a:" + [c] + "://b" }

  lemma TwoColonsFound(c: char)
    requires c != ':' && c != '/'
    ensures var s := TwoColons(c); IndexOf(s, "://") == 3 && IndexOf(s, ":") == 1 && s[..1] == "a" && s[6..] == "b"
  {
    hide IndexOf;
    var s := TwoColons(c);
    assert s[3..] == "://b" && s[2..][1..] == s[3..] && s[1..][1..] == s[2..];
    assert s[0] == 'a' && s[1..][0] == ':' && s[2..][0] == c;
    OpensHere(s[3..], "://");
    IndexOfNext(s[2..], "://");
    NotOpening(s[1..], c);
    IndexOfNext(s, "://");
    OpensHere(s[1..], ":");
    IndexOfNext(s, ":");
  }

  /** A colon that is not followed by a slash. */
  lemma NotOpening(s: string, c: char)
    requires |s| > 1 && s[1] == c != '/' && IndexOf(s[1..], "://") == 1
    ensures IndexOf(s, "://") == 2
  {
    assert "://"[1] == '/';
  }

  lemma {:induction false} LiteralPrefix(prefix: string, rest: string, text: string)
    requires '*' !in prefix && '?' !in prefix
    ensures Matches(Glob(prefix + rest), prefix + text) == Matches(Glob(rest), text)
  {
    if prefix == "" {
      assert prefix + rest == rest && prefix + text == text;
    } else {
      assert (prefix + rest)[1..] == prefix[1..] + rest && (prefix + text)[1..] == prefix[1..] + text;
      LiteralPrefix(prefix[1..], rest, text);
      assert Glob(prefix + rest) == [Just(prefix[0])] + Glob(prefix[1..] + rest);
    }
  }

  /** The conditions are needed: with another colon before `://`, the comparison skips what is between them. */
  lemma {:induction false} SkippedTextIsNotMatched()
    ensures WildcardMatches("a:x://b", "a:y://b") && !Matches(Glob("a:y://b"), "a:x://b")
  {
    hide WildcardMatches, Glob, Matches;
    SkippedIsAccepted('x', 'y');
    SkippedIsNotMatched('x', 'y');
    assert TwoColons('x') == "a:x://b" && TwoColons('y') == "a:y://b";
  }

  lemma SkippedIsAccepted(c: char, d: char)
    requires c != ':' && d != ':' && c != '/' && d != '/'
    ensures WildcardMatches(TwoColons(c), TwoColons(d))
  {
    hide Split, IndexOf, TwoColons;
    TwoColonsFound(c);
    TwoColonsFound(d);
  }

  lemma SkippedIsNotMatched(c: char, d: char)
    requires c != d && d != '*' && d != '?'
    ensures !Matches(Glob(TwoColons(d)), TwoColons(c))
  {
    hide Glob, Matches;
    LiteralPrefix("a:", [d] + "://b", [c] + "://b");
    FirstDiffers(d, "://b", c, "://b");
    assert TwoColons(d) == "a:" + ([d] + "://b") && TwoColons(c) == "a:" + ([c] + "://b");
  }

  lemma FirstDiffers(c: char, rest: string, d: char, text: string)
    requires c != d && c != '*' && c != '?'
    ensures !Matches(Glob([c] + rest), [d] + text)
  {
    hide Split, Glob;
    GlobFirst(c, rest);
  }

  lemma GlobFirst(c: char, rest: string)
    requires c != '*' && c != '?'
    ensures Glob([c] + rest) == [Just(c)] + Glob(rest)
  {
    assert ([c] + rest)[1..] == rest;
  }

  lemma SplitOne(c: char)
    requires c != '.'
    ensures Split([c], '.') == [[c]]
  {
    assert [c][1..] == "" && Split("", '.') == [""];
    assert [""][1..] == [] && [c] + "" == [c];
  }

  /** And a `*` label accepts a line break, which the pattern does not. Header values have no line breaks, so
      this concerns the exported comparison when it is called with other text. */
  lemma {:induction false} LineBreakIsNotMatched()
    ensures WildcardMatches("://\n", "://*") && !Matches(Glob("://*"), "://\n")
  {
    hide WildcardMatches, IndexOf, Split, Matches, Glob;
    WildcardMatchesExactly("", "\n", "", "*");
    assert Origin("", "\n") == "://\n" && Origin("", "*") == "://*";
    SplitOne('\n');
    SplitOne('*');
    LiteralPrefix("://", "*", "\n");
    StarStopsAtLineBreak();
    assert "://" + "*" == "://*" && "://" + "\n" == "://\n";
  }

  lemma StarStopsAtLineBreak()
    ensures !Matches(Glob("*"), "\n")
  {
    assert "*"[1..] == "" && Glob("*") == [AnyText];
    assert [AnyText][1..] == [];
  }

  // ---------------------------------------------------------------- the decision for an origin

  /** An entry that the first loop accepts. */
  ghost predicate Accepts(allowed: string, origin: string) {
    allowed == "*" || allowed == origin || WildcardMatches(origin, allowed)
  }

  predicate ShouldCheckPatterns(origin: string) { IndexOf(origin, "://") != -1 && |origin| <= 261 }

  /** An entry whose pattern is tried and matches: for origins that have a `://` and are at most 261 characters. */
  ghost predicate PatternAccepts(allowed: string, origin: string) {
    && allowed != "*" && allowed != ""
    && |origin| <= 261 && (exists i :: 0 <= i <= |origin| && "://" <= origin[i..])
    && exists parts :: FitsGlob(allowed, origin, parts)
  }

  lemma PatternsTried(allowed: string, origin: string)
    ensures PatternAccepts(allowed, origin) <==>
      && allowed != "*" && allowed != "" && ShouldCheckPatterns(origin)
      && Matches(ReadExpression(BuildOriginPattern(allowed)), origin)
  {
    hide Matches, FitsGlob, ReadExpression, BuildOriginPattern;
    BuiltPatternMeans(allowed, origin);
    if i :| 0 <= i <= |origin| && "://" <= origin[i..] { IndexOfIsFirst(origin, "://", i); }
    if IndexOf(origin, "://") != -1 { assert "://" <= origin[IndexOf(origin, "://")..]; }
  }

  ghost predicate FirstAccepting(allowOrigins: seq<string>, origin: string, i: nat) {
    && i < |allowOrigins| && Accepts(allowOrigins[i], origin)
    && forall k :: 0 <= k < i ==> !Accepts(allowOrigins[k], origin)
  }

  /** The value of the allow-origin header. The first entry that accepts the origin decides: `*` is answered
      with `*`, or with the origin under credentials and the unsafe flag, any other with the origin. When
      none accepts it, the answer is the origin if some pattern matches, and otherwise none. */
  method AllowOrigin(origin: string, allowOrigins: seq<string>, credentials: bool, unsafe: bool) returns (value: string)
    ensures origin == "" ==> value == ""
    ensures forall i: nat :: origin != "" && FirstAccepting(allowOrigins, origin, i) ==>
      value == if allowOrigins[i] == "*" && !(credentials && unsafe) then "*" else origin
    ensures origin != "" && (forall allowed :: allowed in allowOrigins ==> !Accepts(allowed, origin)) ==>
      value == if exists allowed :: allowed in allowOrigins && PatternAccepts(allowed, origin) then origin else ""
  {
    hide WildcardMatches, Matches, ReadExpression, BuildOriginPattern, ShouldCheckPatterns, PatternAccepts;
    value := "";
    if origin == "" { return; }
    for i := 0 to |allowOrigins|
      invariant value == ""
      invariant forall k :: 0 <= k < i ==> !Accepts(allowOrigins[k], origin)
    {
      var allowed := allowOrigins[i];
      assert allowed in allowOrigins;
      assert Accepts(allowed, origin) ==> FirstAccepting(allowOrigins, origin, i);
      if allowed == "*" && credentials && unsafe { return origin; }
      if allowed == "*" || allowed == origin { return allowed; }
      var wildcard := ExactWildcardMatch(origin, allowed);
      if wildcard { return origin; }
    }
    if ShouldCheckPatterns(origin) {
      for i := 0 to |allowOrigins|
        invariant value == ""
        invariant forall k :: 0 <= k < i ==> !PatternAccepts(allowOrigins[k], origin)
      {
        PatternsTried(allowOrigins[i], origin);
        if allowOrigins[i] == "*" || allowOrigins[i] == "" { continue; }
        if Matches(ReadExpression(BuildOriginPattern(allowOrigins[i])), origin) {
          assert allowOrigins[i] in allowOrigins && PatternAccepts(allowOrigins[i], origin);
          return origin;
        }
      }
    } else {
      forall allowed ensures !PatternAccepts(allowed, origin) { PatternsTried(allowed, origin); }
    }
  }
}
