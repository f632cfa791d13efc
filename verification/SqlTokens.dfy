/** What the statement splitter takes for a literal, a comment or a cut, said in terms of texts alone: every SQL
    text is a list of tokens, and it is cut at exactly the semicolon tokens of any such list. */
module SqlTokens {
  import opened SqlSplitter

  /** A literal or comment that is not closed runs to the end of the text. The body of a quotation in single or
      double quotes may hold the quote doubled. A line comment ends with a line feed or a carriage return. */
  datatype Token =
    | Other(c: char)
    | Quotation(mark: char, body: string, closed: bool)
    | Bracketed(body: string, closed: bool)
    | Line(body: string, end: string)
    | Block(body: string, closed: bool)
    | Semicolon

  function Text(t: Token): string {
    match t
    case Other(c) => [c]
    case Quotation(q, body, closed) => [q] + body + (if closed then [q] else "")
    case Bracketed(body, closed) => "[" + body + (if closed then "]" else "")
    case Line(body, end) => "--" + body + end
    case Block(body, closed) => "/*" + body + (if closed then "*/" else "")
    case Semicolon => ";"
  }

  /** Every `q` in the text is one of a pair. */
  predicate Doubled(body: string, q: char) {
    if body == "" then true
    else if body[|body|-1] != q then Doubled(body[..|body|-1], q)
    else |body| > 1 && body[|body|-2] == q && Doubled(body[..|body|-2], q)
  }

  predicate EndsBlockAt(body: string, k: int) { 0 <= k < |body| - 1 && body[k] == '*' && body[k+1] == '/' }

  ghost predicate StaysInBlock(body: string) { forall k :: !EndsBlockAt(body, k) }

  ghost predicate WellFormed(t: Token) {
    match t
    case Other(c) => c !in "'\"`[;"
    case Quotation(q, body, _) => if q == '`' then q !in body else q in "'\"" && Doubled(body, q)
    case Bracketed(body, _) => ']' !in body
    case Line(body, end) => '\n' !in body && '\r' !in body && end in {"\n", "\r", ""}
    case Block(body, _) => StaysInBlock(body)
    case Semicolon => true
  }

  predicate Closed(t: Token) {
    match t
    case Quotation(_, _, closed) => closed
    case Bracketed(_, closed) => closed
    case Line(_, end) => end != ""
    case Block(_, closed) => closed
    case _ => true
  }

  /** Two single characters that make up no opening of a comment. */
  predicate MayFollow(t: Token, u: Token) {
    t.Other? && u.Other? ==> !(t.c == '-' && u.c == '-') && !(t.c == '/' && u.c == '*')
  }

  /** Only the last token may be left open. */
  predicate Joins(ts: seq<Token>, i: nat)
    requires i + 1 < |ts|
  {
    Closed(ts[i]) && MayFollow(ts[i], ts[i+1])
  }

  ghost predicate IsTokens(ts: seq<Token>) {
    && (forall i :: 0 <= i < |ts| ==> WellFormed(ts[i]))
    && forall i :: 0 <= i < |ts| - 1 ==> Joins(ts, i)
  }

  function Render(ts: seq<Token>): string {
    if ts == [] then "" else Render(ts[..|ts|-1]) + Text(ts[|ts|-1])
  }

  /** The texts between the semicolon tokens. */
  function Between(ts: seq<Token>): (r: seq<string>)
    ensures r != []
  {
    if ts == [] then [""] else
      var rest, last := Between(ts[..|ts|-1]), ts[|ts|-1];
      if last.Semicolon? then rest + [""] else rest[..|rest|-1] + [rest[|rest|-1] + Text(last)]
  }

  // ---------------------------------------------------------------- reading one token

  /** Read from mode `m`, the text has no cut and leads to mode `n`. */
  predicate Uncut(m: Mode, s: string, n: Mode) { Pieces(m, s) == [s] && ModeAfter(m, s) == n }

  lemma UncutNothing(m: Mode)
    ensures Uncut(m, "", m)
  {
  }

  lemma UncutMore(m: Mode, s: string, n: Mode, c: char)
    requires Uncut(m, s, n) && (c == ';' ==> !n.TopLevel())
    ensures Uncut(m, s + [c], n.Read(c))
  {
    assert (s + [c])[..|s|] == s;
    hide Mode.Read;
  }

  lemma UncutConcat(l: Mode, a: string, m: Mode, b: string, n: Mode)
    requires Uncut(l, a, m) && Uncut(m, b, n)
    ensures Uncut(l, a + b, n)
  {
    PiecesConcat(l, a, b);
    ModeConcat(l, a, b);
  }

  lemma UncutTwo(m: Mode, a: char, b: char)
    requires a != ';' && b != ';'
    ensures Uncut(m, [a, b], m.Read(a).Read(b))
  {
    hide Uncut, Mode.Read;
    UncutOne(m, a);
    UncutOne(m.Read(a), b);
    UncutConcat(m, [a], m.Read(a), [b], m.Read(a).Read(b));
    assert [a] + [b] == [a, b];
  }

  lemma UncutOne(m: Mode, a: char)
    requires a == ';' ==> !m.TopLevel()
    ensures Uncut(m, [a], m.Read(a))
  {
    UncutNothing(m);
    UncutMore(m, "", m, a);
    assert "" + [a] == [a];
  }

  lemma {:induction false} InsideLine(body: string)
    requires '\n' !in body && '\r' !in body
    ensures Uncut(LineComment, body, LineComment)
  {
    if body == "" {
      UncutNothing(LineComment);
    } else {
      var init, c := body[..|body|-1], body[|body|-1];
      InsideLine(init);
      UncutMore(LineComment, init, LineComment, c);
      assert init + [c] == body;
    }
  }

  function InBlock(body: string): Mode {
    if body != "" && body[|body|-1] == '*' then BlockStar else BlockComment
  }

  lemma NextInBlock(body: string, c: char)
    requires StaysInBlock(body + [c])
    ensures StaysInBlock(body) && InBlock(body).Read(c) == InBlock(body + [c]) && !InBlock(body).TopLevel()
  {
    assert forall k :: EndsBlockAt(body, k) ==> EndsBlockAt(body + [c], k);
    assert InBlock(body).BlockStar? && c == '/' ==> EndsBlockAt(body + [c], |body| - 1);
  }

  lemma {:induction false} InsideBlock(body: string)
    requires StaysInBlock(body)
    ensures Uncut(BlockComment, body, InBlock(body))
  {
    if body == "" {
      UncutNothing(BlockComment);
    } else {
      var init, c := body[..|body|-1], body[|body|-1];
      assert init + [c] == body;
      hide Uncut;
      NextInBlock(init, c);
      InsideBlock(init);
      hide EndsBlockAt, InBlock, StaysInBlock, Mode.Read;
      UncutMore(BlockComment, init, InBlock(init), c);
    }
  }

  lemma {:induction false} InsideQuotes(body: string, q: char)
    requires (q in "'\"`" && Doubled(body, q)) || (q != ';' && q !in body)
    ensures Uncut(Quoted(q), body, Quoted(q))
    decreases |body|
  {
    hide Uncut;
    if body == "" {
      UncutNothing(Quoted(q));
    } else if body[|body|-1] != q {
      var init, c := body[..|body|-1], body[|body|-1];
      InsideQuotes(init, q);
      UncutMore(Quoted(q), init, Quoted(q), c);
      assert init + [c] == body;
    } else {
      var init := body[..|body|-2];
      InsideQuotes(init, q);
      UncutTwo(Quoted(q), q, q);
      UncutConcat(Quoted(q), init, Quoted(q), [q, q], Quoted(q).Read(q).Read(q));
      assert init + [q, q] == body;
    }
  }

  /** The mode at top level behind a token. */
  function Behind(t: Token): Mode {
    if t == Other('-') then Dash else if t == Other('/') then Slash else Normal
  }

  /** The modes from which the token reads as itself. */
  predicate Fits(m: Mode, t: Token) {
    m.TopLevel() && (t.Other? ==> !(m.Dash? && t.c == '-') && !(m.Slash? && t.c == '*'))
  }

  lemma ReadDelimited(m: Mode, open: string, inner: Mode, body: string, innerEnd: Mode, close: string, n: Mode)
    requires Uncut(m, open, inner) && Uncut(inner, body, innerEnd) && Uncut(innerEnd, close, n)
    ensures Uncut(m, open + body, innerEnd) && Uncut(m, open + body + close, n)
  {
    hide Uncut;
    UncutConcat(m, open, inner, body, innerEnd);
    UncutConcat(m, open + body, innerEnd, close, n);
  }

  lemma ReadQuotation(m: Mode, q: char, body: string)
    requires m.TopLevel() && q in "'\"`" && (Doubled(body, q) || q !in body)
    ensures Uncut(m, [q] + body, Quoted(q)) && Uncut(m, [q] + body + [q], Normal)
  {
    hide Uncut, Doubled;
    UncutOne(m, q);
    InsideQuotes(body, q);
    UncutOne(Quoted(q), q);
    ReadDelimited(m, [q], Quoted(q), body, Quoted(q), [q], Normal);
  }

  lemma ReadBracketed(m: Mode, body: string)
    requires m.TopLevel() && ']' !in body
    ensures Uncut(m, "[" + body, Quoted(']')) && Uncut(m, "[" + body + "]", Normal)
  {
    hide Uncut, Doubled;
    UncutOne(m, '[');
    InsideQuotes(body, ']');
    UncutOne(Quoted(']'), ']');
    ReadDelimited(m, "[", Quoted(']'), body, Quoted(']'), "]", Normal);
  }

  lemma ReadLine(m: Mode, body: string)
    requires m.TopLevel() && '\n' !in body && '\r' !in body
    ensures Uncut(m, "--" + body, LineComment)
    ensures Uncut(m, "--" + body + "\n", Normal) && Uncut(m, "--" + body + "\r", Normal)
  {
    hide Uncut;
    UncutTwo(m, '-', '-');
    InsideLine(body);
    UncutOne(LineComment, '\n');
    UncutOne(LineComment, '\r');
    ReadDelimited(m, "--", LineComment, body, LineComment, "\n", Normal);
    ReadDelimited(m, "--", LineComment, body, LineComment, "\r", Normal);
  }

  lemma ReadBlock(m: Mode, body: string)
    requires m.TopLevel() && StaysInBlock(body)
    ensures Uncut(m, "/*" + body, InBlock(body)) && Uncut(m, "/*" + body + "*/", Normal)
  {
    hide Uncut;
    UncutTwo(m, '/', '*');
    InsideBlock(body);
    UncutTwo(InBlock(body), '*', '/');
    ReadDelimited(m, "/*", BlockComment, body, InBlock(body), "*/", Normal);
  }

  lemma ReadToken(m: Mode, t: Token)
    requires Fits(m, t) && WellFormed(t) && !t.Semicolon?
    ensures Pieces(m, Text(t)) == [Text(t)]
    ensures Closed(t) ==> ModeAfter(m, Text(t)) == Behind(t)
  {
    hide Pieces, ModeAfter, Doubled, StaysInBlock;
    match t
    case Other(c) => UncutOne(m, c);
    case Quotation(q, body, closed) =>
      ReadQuotation(m, q, body);
      if !closed { assert [q] + body + "" == [q] + body; }
    case Bracketed(body, closed) =>
      ReadBracketed(m, body);
      if !closed { assert "[" + body + "" == "[" + body; }
    case Line(body, end) =>
      ReadLine(m, body);
      if end == "" { assert "--" + body + "" == "--" + body; }
    case Block(body, closed) =>
      ReadBlock(m, body);
      if !closed { assert "/*" + body + "" == "/*" + body; }
  }

  lemma ReadSemicolon(m: Mode)
    requires m.TopLevel()
    ensures Pieces(m, ";") == ["", ""] && ModeAfter(m, ";") == Normal
  {
    assert ";"[..0] == "";
    assert Pieces(m, "") == [""] && ModeAfter(m, "") == m;
    assert [""] + [""] == ["", ""];
  }

  // ---------------------------------------------------------------- the cuts

  function ModeBehind(ts: seq<Token>): Mode { if ts == [] then Normal else Behind(ts[|ts|-1]) }

  /** Every text made of tokens is cut at exactly its semicolon tokens. */
  lemma {:induction false} CutsAtSemicolonTokens(ts: seq<Token>)
    requires IsTokens(ts)
    ensures Pieces(Normal, Render(ts)) == Between(ts)
    ensures (ts != [] ==> Closed(ts[|ts|-1])) ==> ModeAfter(Normal, Render(ts)) == ModeBehind(ts)
  {
    if ts == [] {
    } else {
      hide Pieces, ModeAfter, Mode.Read, Text, WellFormed, Closed, IsTokens, Glue, Render, Between, ModeBehind;
      var init, t := ts[..|ts|-1], ts[|ts|-1];
      InitIsTokens(ts);
      CutsAtSemicolonTokens(init);
      NextToken(ts);
      PiecesConcat(Normal, Render(init), Text(t));
      ModeConcat(Normal, Render(init), Text(t));
      if t.Semicolon? {
        ReadSemicolon(ModeBehind(init));
        SemicolonText();
        GlueTwo(Between(init));
      } else {
        ReadToken(ModeBehind(init), t);
      }
    }
  }

  lemma NextToken(ts: seq<Token>)
    requires ts != []
    ensures var init, t := ts[..|ts|-1], ts[|ts|-1];
      && Render(ts) == Render(init) + Text(t) && ModeBehind(ts) == Behind(t)
      && Between(ts) == if t.Semicolon? then Between(init) + [""] else Glue(Between(init), [Text(t)])
  {
    hide Text;
  }

  lemma InitIsTokens(ts: seq<Token>)
    requires IsTokens(ts) && ts != []
    ensures var init, t := ts[..|ts|-1], ts[|ts|-1];
      && IsTokens(init) && WellFormed(t) && Fits(ModeBehind(init), t)
      && (init != [] ==> Closed(init[|init|-1]))
  {
    hide WellFormed, Closed;
    var init := ts[..|ts|-1];
    assert forall i :: 0 <= i < |init| - 1 ==> (Joins(init, i) <==> Joins(ts, i));
    if init != [] { assert Joins(ts, |init| - 1); }
  }

  lemma SemicolonText()
    ensures Text(Semicolon) == ";"
  {
  }

  lemma GlueTwo(xs: seq<string>)
    requires xs != []
    ensures Glue(xs, ["", ""]) == xs + [""]
  {
    assert xs[|xs|-1] + "" == xs[|xs|-1];
  }

  // ---------------------------------------------------------------- every text is made of tokens

  lemma {:induction false} FirstOf(s: string, stops: set<char>) returns (k: nat)
    ensures k <= |s| && (forall i :: 0 <= i < k ==> s[i] !in stops) && (k < |s| ==> s[k] in stops)
  {
    if s == "" || s[0] in stops {
      k := 0;
    } else {
      var k' := FirstOf(s[1..], stops);
      k := k' + 1;
    }
  }

  lemma {:induction false} FirstBlockEnd(s: string, from: nat) returns (k: nat)
    requires from <= |s|
    ensures from <= k <= |s| && (forall i :: from <= i < k ==> !EndsBlockAt(s, i)) && (k < |s| ==> EndsBlockAt(s, k))
    decreases |s| - from
  {
    if from == |s| || EndsBlockAt(s, from) {
      k := from;
    } else {
      k := FirstBlockEnd(s, from + 1);
    }
  }

  lemma {:induction false} RenderConcat(a: seq<Token>, b: seq<Token>)
    ensures Render(a + b) == Render(a) + Render(b)
  {
    hide Text;
    if b == [] {
      assert a + b == a;
    } else {
      assert (a + b)[..|a + b|-1] == a + b[..|b|-1];
      RenderConcat(a, b[..|b|-1]);
    }
  }

  /** A token put before others. */
  lemma Put(t: Token, ts: seq<Token>, s: string)
    requires WellFormed(t) && IsTokens(ts) && s == Text(t) + Render(ts)
    requires ts != [] ==> Closed(t) && MayFollow(t, ts[0])
    ensures IsTokens([t] + ts) && Render([t] + ts) == s
  {
    hide WellFormed, Text, Closed, MayFollow, Render;
    var all := [t] + ts;
    RenderConcat([t], ts);
    RenderOne(t);
    PutJoins(t, ts);
  }

  lemma RenderOne(t: Token)
    ensures Render([t]) == Text(t)
  {
    hide Text;
    assert [t][..0] == [] && "" + Text(t) == Text(t);
  }

  lemma PutJoins(t: Token, ts: seq<Token>)
    requires WellFormed(t) && IsTokens(ts)
    requires ts != [] ==> Closed(t) && MayFollow(t, ts[0])
    ensures IsTokens([t] + ts)
  {
    hide WellFormed, Closed, MayFollow;
    var all := [t] + ts;
    assert forall i :: 0 <= i < |all| - 1 ==> all[i+1] == ts[i];
    forall i | 0 <= i < |all| - 1 ensures Joins(all, i) {
      if i > 0 { assert Joins(ts, i - 1); }
    }
  }

  /** The first token of a text that opens one, and what follows it. */
  lemma Opening(s: string) returns (t: Token, rest: string)
    requires s != ""
    ensures WellFormed(t) && s == Text(t) + rest && |rest| < |s| && (rest != "" ==> Closed(t))
    ensures t.Other? ==> t.c == s[0] && !("--" <= s) && !("/*" <= s)
  {
    hide WellFormed, Text, Closed;
    if s[0] == ';' {
      OneCharacter(Semicolon, s);
      t, rest := Semicolon, s[1..];
    } else if s[0] in "'\"`" {
      t, rest := OpeningQuotation(s);
    } else if s[0] == '[' {
      t, rest := OpeningBracketed(s);
    } else if "--" <= s {
      t, rest := OpeningLine(s);
    } else if "/*" <= s {
      t, rest := OpeningBlock(s);
    } else {
      OneCharacter(Other(s[0]), s);
      t, rest := Other(s[0]), s[1..];
    }
  }

  lemma OneCharacter(t: Token, s: string)
    requires s != "" && (t == Other(s[0]) || (t == Semicolon && s[0] == ';'))
    ensures s == Text(t) + s[1..] && Closed(t) && (s[0] !in "'\"`[;" || t.Semicolon? ==> WellFormed(t))
  {
  }

  lemma OpeningQuotation(s: string) returns (t: Token, rest: string)
    requires s != "" && s[0] in "'\"`"
    ensures WellFormed(t) && s == Text(t) + rest && |rest| < |s| && (rest != "" ==> Closed(t)) && !t.Other?
  {
    var k := FirstOf(s[1..], {s[0]});
    var body := s[1..k+1];
    NotDoubled(body, s[0]);
    t, rest := Quotation(s[0], body, k + 1 < |s|), if k + 1 < |s| then s[k+2..] else "";
  }

  lemma OpeningBracketed(s: string) returns (t: Token, rest: string)
    requires s != "" && s[0] == '['
    ensures WellFormed(t) && s == Text(t) + rest && |rest| < |s| && (rest != "" ==> Closed(t)) && !t.Other?
  {
    var k := FirstOf(s[1..], {']'});
    var body := s[1..k+1];
    assert s[..1] == "[" && s == s[..1] + body + s[k+1..];
    if k + 1 < |s| {
      assert s[k+1] == s[1..][k] == ']' && s[k+1..] == "]" + s[k+2..];
      t, rest := Bracketed(body, true), s[k+2..];
    } else {
      t, rest := Bracketed(body, false), "";
    }
  }

  lemma OpeningLine(s: string) returns (t: Token, rest: string)
    requires "--" <= s
    ensures WellFormed(t) && s == Text(t) + rest && |rest| < |s| && (rest != "" ==> Closed(t)) && !t.Other?
  {
    var k := FirstOf(s[2..], {'\n', '\r'});
    var body := s[2..k+2];
    if k + 2 < |s| {
      assert s[k+2] == s[2..][k];
      t, rest := Line(body, [s[k+2]]), s[k+3..];
    } else {
      t, rest := Line(body, ""), "";
    }
  }

  lemma OpeningBlock(s: string) returns (t: Token, rest: string)
    requires "/*" <= s
    ensures WellFormed(t) && s == Text(t) + rest && |rest| < |s| && (rest != "" ==> Closed(t)) && !t.Other?
  {
    var k := FirstBlockEnd(s, 2);
    var body := s[2..k];
    assert forall i :: EndsBlockAt(body, i) ==> EndsBlockAt(s, i + 2);
    t, rest := Block(body, k < |s|), if k < |s| then s[k+2..] else "";
  }

  lemma {:induction false} NotDoubled(body: string, q: char)
    requires q !in body
    ensures Doubled(body, q)
  {
    if body == "" {
    } else {
      NotDoubled(body[..|body|-1], q);
    }
  }

  lemma {:induction false} EveryTextIsTokens(s: string) returns (ts: seq<Token>)
    ensures IsTokens(ts) && Render(ts) == s
    ensures s == "" ==> ts == []
    ensures ts != [] && ts[0].Other? ==> s != "" && ts[0].c == s[0]
    decreases |s|
  {
    hide WellFormed, Text;
    if s == "" {
      ts := [];
    } else {
      var t, rest := Opening(s);
      ts := EveryTextIsTokens(rest);
      if t.Other? && ts != [] && ts[0].Other? { OtherText(t, s, rest); }
      Put(t, ts, s);
      ts := [t] + ts;
    }
  }

  lemma OtherText(t: Token, s: string, rest: string)
    requires t.Other? && s == Text(t) + rest && rest != ""
    ensures s[0] == t.c && s[1] == rest[0]
  {
  }

  // ---------------------------------------------------------------- the statements of a text

  /** Of the pieces, those that hold more than white space, each without the white space around it. */
  lemma {:induction false} KeptExactly(pieces: seq<string>) returns (at: seq<nat>)
    ensures forall i, k :: 0 <= i < k < |at| ==> at[i] < at[k]
    ensures forall k: nat :: k in at <==> k < |pieces| && !AllSpace(pieces[k])
    ensures |Kept(pieces)| == |at|
    ensures forall i :: 0 <= i < |at| ==> at[i] < |pieces| && IsTrim(Kept(pieces)[i], pieces[at[i]])
  {
    if pieces == [] {
      at := [];
    } else {
      var init, last := pieces[..|pieces|-1], pieces[|pieces|-1];
      at := KeptExactly(init);
      TrimIs(last);
      hide AllSpace, IsTrim, Trim;
      assert Kept(pieces) == Keep(Kept(init), last);
      hide Kept;
      assert forall k :: 0 <= k < |init| ==> pieces[k] == init[k];
      if Trim(last) != "" { at := at + [|init|]; }
    }
  }

  /** `t` is `s` without the white space at both ends. */
  ghost predicate IsTrim(t: string, s: string) {
    && (t != "" ==> !IsSpace(t[0]) && !IsSpace(t[|t|-1]))
    && exists i, k :: 0 <= i <= k <= |s| && s[i..k] == t && AllSpace(s[..i]) && AllSpace(s[k..])
  }

  lemma TrimIs(s: string)
    ensures IsTrim(Trim(s), s)
    ensures Trim(s) == "" <==> AllSpace(s)
  {
    var a, b := TrimParts(s);
    TrimBlank(s);
    assert s[|a|..|a|+|Trim(s)|] == Trim(s) && s[..|a|] == a && s[|a|+|Trim(s)|..] == b;
  }

  /** Every text is made of tokens, and however it is, its statements are what stands between the semicolon
      tokens, trimmed, where that is not blank; if all of it is, the trimmed text is the only one. */
  lemma {:induction false} StatementsByTokens(ts: seq<Token>) returns (at: seq<nat>)
    requires IsTokens(ts)
    ensures forall i, k :: 0 <= i < k < |at| ==> at[i] < at[k]
    ensures forall k: nat :: k in at <==> k < |Between(ts)| && !AllSpace(Between(ts)[k])
    ensures at != [] ==> |Split(Render(ts))| == |at|
    ensures at != [] ==> forall i :: 0 <= i < |at| ==>
      (at[i] < |Between(ts)| && IsTrim(Split(Render(ts))[i], Between(ts)[at[i]]))
    ensures at == [] ==> |Split(Render(ts))| == 1 && IsTrim(Split(Render(ts))[0], Render(ts))
  {
    hide AllSpace, IsTrim, Trim;
    CutsAtSemicolonTokens(ts);
    at := KeptExactly(Between(ts));
    TrimIs(Render(ts));
  }
}
