/** Splitting a SQL text into its statements. The program is a loop with one character of lookahead that
    skips the second character of a doubled quote and of a two-character comment mark; the reference
    below reads one character at a time, without lookahead and without skipping.

    A `char` stands for one UTF-16 unit; no unit of a surrogate pair is special to either. */
module SqlSplitter {
  import opened Strings
  import opened Wrappers

  // ---------------------------------------------------------------- the reference lexer

  /** `Dash`, `Slash` and `BlockStar` remember the first character of a possible two-character mark;
      `Quoted` knows the character that closes it. */
  datatype Mode = Normal | Dash | Slash | LineComment | BlockComment | BlockStar | Quoted(close: char) {
    predicate TopLevel() { Normal? || Dash? || Slash? }

    function Read(c: char): Mode {
      match this
      case LineComment => if c == '\n' || c == '\r' then Normal else LineComment
      case BlockComment => if c == '*' then BlockStar else BlockComment
      case BlockStar => if c == '/' then Normal else if c == '*' then BlockStar else BlockComment
      case Quoted(q) => if c == q then Normal else this
      case _ =>
        if c == '-' then (if Dash? then LineComment else Dash)
        else if c == '*' && Slash? then BlockComment
        else if c == '/' then Slash
        else if c == '\'' || c == '"' || c == '`' then Quoted(c)
        else if c == '[' then Quoted(']')
        else Normal
    }
  }

  function ModeAfter(m: Mode, s: string): Mode {
    if s == "" then m else ModeAfter(m, s[..|s|-1]).Read(s[|s|-1])
  }

  /** The text cut at its top-level semicolons, read from mode `m`. */
  function Pieces(m: Mode, s: string): (r: seq<string>)
    ensures |r| > 0
  {
    if s == "" then [""] else
      var rest, c := s[..|s|-1], s[|s|-1];
      var ps := Pieces(m, rest);
      if c == ';' && ModeAfter(m, rest).TopLevel() then ps + [""] else Longer(ps, c)
  }

  /** The pieces when one more character belongs to the last of them. */
  function Longer(ps: seq<string>, c: char): (r: seq<string>)
    requires ps != []
    ensures |r| == |ps| && r[..|r|-1] == ps[..|ps|-1] && r[|r|-1] == ps[|ps|-1] + [c]
  {
    ps[..|ps|-1] + [ps[|ps|-1] + [c]]
  }

  /** The white space and line terminators that `trim` removes. */
  predicate IsSpace(c: char) {
    var u := c as int;
    || 9 <= u <= 13 || u == 0x20 || u == 0xA0 || u == 0x1680 || 0x2000 <= u <= 0x200A
    || u == 0x2028 || u == 0x2029 || u == 0x202F || u == 0x205F || u == 0x3000 || u == 0xFEFF
  }

  function TrimStart(s: string): string {
    if s != "" && IsSpace(s[0]) then TrimStart(s[1..]) else s
  }

  function TrimEnd(s: string): string {
    if s != "" && IsSpace(s[|s|-1]) then TrimEnd(s[..|s|-1]) else s
  }

  function Trim(s: string): string { TrimEnd(TrimStart(s)) }

  function Keep(kept: seq<string>, piece: string): seq<string> {
    if Trim(piece) != "" then kept + [Trim(piece)] else kept
  }

  /** The pieces that are not blank, trimmed. */
  function Kept(pieces: seq<string>): seq<string> {
    if pieces == [] then [] else Keep(Kept(pieces[..|pieces|-1]), pieces[|pieces|-1])
  }

  function Split(sql: string): seq<string> {
    var kept := Kept(Pieces(Normal, sql));
    if kept != [] then kept else [Trim(sql)]
  }

  // ---------------------------------------------------------------- the program

  function CloseOf(open: char): char { if open == '[' then ']' else open }

  /** The program's flags at position `i` stand for the mode of the reference lexer; a mark whose first
      character was read one at a time is never completed by the next character. */
  ghost predicate Stands(quote: Option<char>, line: bool, block: bool, mode: Mode, s: string, i: nat) {
    && (line ==> !block && quote.None?)
    && (block ==> quote.None?)
    && (quote.Some? ==> quote.value in ['\'', '"', '`', '['])
    && (if line then mode.LineComment?
        else if block then mode.BlockComment? || (mode.BlockStar? && (i < |s| ==> s[i] != '/'))
        else if quote.Some? then mode == Quoted(CloseOf(quote.value))
        else
          || mode.Normal?
          || (mode.Dash? && (i < |s| ==> s[i] != '-'))
          || (mode.Slash? && (i < |s| ==> s[i] != '*')))
  }

  /** `statements` are the kept pieces that end before `start`, and the last piece read so far starts there. */
  ghost predicate Collected(sql: string, start: nat, i: nat, statements: seq<string>) {
    && start <= i <= |sql|
    && var ps := Pieces(Normal, sql[..i]);
       ps[|ps|-1] == sql[start..i] && statements == Kept(ps[..|ps|-1])
  }

  lemma ReadOne(sql: string, start: nat, i: nat, statements: seq<string>)
    requires i < |sql| && Collected(sql, start, i, statements)
    ensures ModeAfter(Normal, sql[..i+1]) == ModeAfter(Normal, sql[..i]).Read(sql[i])
    ensures if sql[i] == ';' && ModeAfter(Normal, sql[..i]).TopLevel()
      then Collected(sql, i + 1, i + 1, Keep(statements, sql[start..i]))
      else Collected(sql, start, i + 1, statements)
  {
    hide Pieces, ModeAfter, Kept, Keep, Trim, Mode.Read, Mode.TopLevel;
    var ps := Pieces(Normal, sql[..i]);
    PiecesNext(sql, i);
    if sql[i] == ';' && ModeAfter(Normal, sql[..i]).TopLevel() {
      assert (ps + [""])[..|ps|] == ps;
      KeptLast(ps);
    } else {
      assert sql[start..i+1] == sql[start..i] + [sql[i]];
    }
  }

  lemma PiecesNext(s: string, i: nat)
    requires i < |s|
    ensures ModeAfter(Normal, s[..i+1]) == ModeAfter(Normal, s[..i]).Read(s[i])
    ensures Pieces(Normal, s[..i+1]) ==
      if s[i] == ';' && ModeAfter(Normal, s[..i]).TopLevel() then Pieces(Normal, s[..i]) + [""]
      else Longer(Pieces(Normal, s[..i]), s[i])
  {
    hide Mode.Read, Mode.TopLevel;
    assert s[..i+1][..i] == s[..i];
  }

  lemma KeptLast(ps: seq<string>)
    requires ps != []
    ensures Kept(ps) == Keep(Kept(ps[..|ps|-1]), ps[|ps|-1])
  {
  }

  lemma NothingRead(sql: string)
    ensures ModeAfter(Normal, sql[..0]) == Normal && Collected(sql, 0, 0, [])
  {
  }

  lemma AllCollected(sql: string, start: nat, statements: seq<string>)
    requires Collected(sql, start, |sql|, statements)
    ensures Kept(Pieces(Normal, sql)) == Keep(statements, sql[start..])
  {
    assert sql[..|sql|] == sql;
  }

  method SplitSQLStatements(sql: string) returns (statements: seq<string>)
    ensures statements == Split(sql)
  {
    hide ModeAfter, Collected, Pieces, Kept, Trim;
    statements := [];
    var start, i := 0, 0;
    NothingRead(sql);
    var quote: Option<char>, lineComment, blockComment := None, false, false;
    while i < |sql|
      invariant 0 <= start <= i <= |sql| && Collected(sql, start, i, statements)
      invariant Stands(quote, lineComment, blockComment, ModeAfter(Normal, sql[..i]), sql, i)
      decreases |sql| - i
    {
      var ch := sql[i];
      var next := if i + 1 < |sql| then Some(sql[i+1]) else None;
      ReadOne(sql, start, i, statements);
      var skip := false;
      if lineComment {
        if ch == '\n' || ch == '\r' { lineComment := false; }
      } else if blockComment {
        if ch == '*' && next == Some('/') { blockComment, skip := false, true; }
      } else if quote.Some? {
        if quote == Some('[') && ch == ']' {
          quote := None;
        } else if quote != Some('[') && Some(ch) == quote {
          if next == quote && quote != Some('`') { skip := true; } else { quote := None; }
        }
      } else if ch == '-' && next == Some('-') {
        lineComment, skip := true, true;
      } else if ch == '/' && next == Some('*') {
        blockComment, skip := true, true;
      } else if ch == '\'' || ch == '"' || ch == '`' || ch == '[' {
        quote := Some(ch);
      } else if ch == ';' {
        var statement := Trim(sql[start..i]);
        if statement != "" { statements := statements + [statement]; }
        start := i + 1;
      }
      i := i + 1;
      if skip {
        ReadOne(sql, start, i, statements);
        i := i + 1;
      }
    }
    AllCollected(sql, start, statements);
    var last := Trim(sql[start..]);
    if last != "" { statements := statements + [last]; }
    if |statements| == 0 { statements := [Trim(sql)]; }
  }

  // ---------------------------------------------------------------- reading a concatenation

  lemma {:induction false} ModeConcat(m: Mode, a: string, b: string)
    ensures ModeAfter(m, a + b) == ModeAfter(ModeAfter(m, a), b)
  {
    if b == "" {
      assert a + b == a;
    } else {
      assert (a + b)[..|a + b|-1] == a + b[..|b|-1];
      ModeConcat(m, a, b[..|b|-1]);
    }
  }

  /** Two lists of pieces, glued where the first text ends and the second begins. */
  function Glue(xs: seq<string>, ys: seq<string>): seq<string>
    requires xs != [] && ys != []
  {
    xs[..|xs|-1] + [xs[|xs|-1] + ys[0]] + ys[1..]
  }

  lemma GlueLonger(xs: seq<string>, ys: seq<string>, c: char)
    requires xs != [] && ys != []
    ensures Glue(xs, Longer(ys, c)) == Longer(Glue(xs, ys), c)
    ensures Glue(xs, ys + [""]) == Glue(xs, ys) + [""]
    ensures Glue(xs, [""]) == xs
  {
    assert xs[|xs|-1] + "" == xs[|xs|-1];
    if |ys| == 1 {
      assert xs[|xs|-1] + (ys[0] + [c]) == (xs[|xs|-1] + ys[0]) + [c];
    }
  }

  lemma {:induction false} PiecesConcat(m: Mode, a: string, b: string)
    ensures Pieces(m, a + b) == Glue(Pieces(m, a), Pieces(ModeAfter(m, a), b))
  {
    if b == "" {
      assert a + b == a;
      GlueLonger(Pieces(m, a), [""], ' ');
    } else {
      var b', c := b[..|b|-1], b[|b|-1];
      assert (a + b)[..|a + b|-1] == a + b' && (a + b)[|a + b|-1] == c;
      PiecesConcat(m, a, b');
      ModeConcat(m, a, b');
      GlueLonger(Pieces(m, a), Pieces(ModeAfter(m, a), b'), c);
      hide Glue;
    }
  }

  lemma JoinLonger(pieces: seq<string>, sep: string, c: char)
    requires pieces != []
    ensures Join(Longer(pieces, c), sep) == Join(pieces, sep) + [c]
  {
    var init, last := pieces[..|pieces|-1], pieces[|pieces|-1];
    if init != [] {
      JoinExtended(init, sep, last + [c]);
      JoinExtended(init, sep, last);
      assert pieces == init + [last] && Longer(pieces, c) == init + [last + [c]];
    }
  }

  /** The reference lexer loses nothing: its pieces, joined with the semicolons it cut at, are the text. */
  lemma {:induction false} PiecesJoin(m: Mode, s: string)
    ensures Join(Pieces(m, s), ";") == s
  {
    if s == "" {
    } else {
      hide Join, ModeAfter;
      var rest, c := s[..|s|-1], s[|s|-1];
      PiecesJoin(m, rest);
      assert s == rest + [c];
      if c == ';' && ModeAfter(m, rest).TopLevel() {
        JoinExtended(Pieces(m, rest), ";", "");
      } else {
        JoinLonger(Pieces(m, rest), ";", c);
      }
    }
  }

  lemma OnePiece(m: Mode, s: string)
    requires |Pieces(m, s)| == 1
    ensures Pieces(m, s) == [s]
  {
    PiecesJoin(m, s);
  }

  /** Each piece, read on its own, has no top-level semicolon; and it is read to a top-level mode unless
      it is the last one. */
  lemma {:induction false} PieceAlone(s: string, k: nat)
    requires k < |Pieces(Normal, s)|
    ensures Pieces(Normal, Pieces(Normal, s)[k]) == [Pieces(Normal, s)[k]]
    ensures k + 1 < |Pieces(Normal, s)| ==> ModeAfter(Normal, Pieces(Normal, s)[k]).TopLevel()
    ensures k + 1 == |Pieces(Normal, s)| ==> ModeAfter(Normal, Pieces(Normal, s)[k]) == ModeAfter(Normal, s)
  {
    if s == "" {
    } else {
      var rest, c := s[..|s|-1], s[|s|-1];
      var ps := Pieces(Normal, rest);
      if k < |ps| {
        PieceAlone(rest, k);
        if k + 1 == |ps| && !(c == ';' && ModeAfter(Normal, rest).TopLevel()) {
          assert (ps[k] + [c])[..|ps[k]|] == ps[k];
        }
      }
    }
  }

  // ---------------------------------------------------------------- trimming

  predicate AllSpace(s: string) { forall i :: 0 <= i < |s| ==> IsSpace(s[i]) }

  predicate Trimmed(t: string) { t != "" ==> !IsSpace(t[0]) && !IsSpace(t[|t|-1]) }

  lemma {:induction false} TrimStartParts(s: string) returns (a: string)
    ensures s == a + TrimStart(s) && AllSpace(a)
    ensures TrimStart(s) != "" ==> !IsSpace(TrimStart(s)[0])
  {
    if s != "" && IsSpace(s[0]) {
      var a' := TrimStartParts(s[1..]);
      a := [s[0]] + a';
    } else {
      a := "";
    }
  }

  lemma {:induction false} TrimEndParts(s: string) returns (b: string)
    ensures s == TrimEnd(s) + b && AllSpace(b)
    ensures TrimEnd(s) != "" ==> !IsSpace(TrimEnd(s)[|TrimEnd(s)|-1])
  {
    if s != "" && IsSpace(s[|s|-1]) {
      var b' := TrimEndParts(s[..|s|-1]);
      b := b' + [s[|s|-1]];
    } else {
      b := "";
    }
  }

  lemma TrimParts(s: string) returns (a: string, b: string)
    ensures s == a + Trim(s) + b && AllSpace(a) && AllSpace(b) && Trimmed(Trim(s))
  {
    a := TrimStartParts(s);
    b := TrimEndParts(TrimStart(s));
    if Trim(s) != "" {
      assert TrimStart(s)[0] == Trim(s)[0];
    }
  }

  lemma {:induction false} TrimStartIs(a: string, t: string)
    requires AllSpace(a) && (t != "" ==> !IsSpace(t[0]))
    ensures TrimStart(a + t) == t
  {
    if a != "" {
      assert (a + t)[1..] == a[1..] + t;
      TrimStartIs(a[1..], t);
    } else {
      assert a + t == t;
    }
  }

  lemma {:induction false} TrimEndIs(t: string, b: string)
    requires AllSpace(b) && (t != "" ==> !IsSpace(t[|t|-1]))
    ensures TrimEnd(t + b) == t
  {
    if b != "" {
      assert (t + b)[..|t + b|-1] == t + b[..|b|-1];
      TrimEndIs(t, b[..|b|-1]);
    } else {
      assert t + b == t;
    }
  }

  /** Trimming is determined by what it leaves. */
  lemma TrimIs(a: string, t: string, b: string)
    requires AllSpace(a) && AllSpace(b) && Trimmed(t)
    ensures Trim(a + t + b) == t
  {
    assert a + t + b == a + (t + b);
    if t == "" {
      assert a + (t + b) == (a + b) + "";
      TrimStartIs(a + b, "");
    } else {
      assert (t + b)[0] == t[0];
      TrimStartIs(a, t + b);
      TrimEndIs(t, b);
    }
  }

  lemma TrimIdempotent(s: string)
    ensures Trim(Trim(s)) == Trim(s)
  {
    var a, b := TrimParts(s);
    TrimIs("", Trim(s), "");
    assert "" + Trim(s) + "" == Trim(s);
  }

  // ---------------------------------------------------------------- statements on their own

  /** Inside a quote or a block comment, neither of which white space can end. */
  predicate Stuck(m: Mode) {
    m.BlockComment? || m.BlockStar? || (m.Quoted? && m.close in ['\'', '"', '`', ']'])
  }

  /** Every mode the lexer gets into is top level, inside a line comment, or stuck. */
  lemma {:induction false} ModesReached(s: string)
    ensures var m := ModeAfter(Normal, s); m.TopLevel() || m.LineComment? || Stuck(m)
  {
    if s == "" {
    } else {
      ModesReached(s[..|s|-1]);
    }
  }

  lemma {:induction false} SpaceKeepsMode(m: Mode, w: string)
    requires AllSpace(w)
    ensures ModeAfter(Normal, w) == Normal
    ensures Stuck(m) ==> Stuck(ModeAfter(m, w))
  {
    if w == "" {
    } else {
      SpaceKeepsMode(m, w[..|w|-1]);
    }
  }

  /** The statement in a piece is one piece too; and if the piece is not the last of its text, the
      statement can end only at top level or inside a line comment. */
  lemma {:induction false} TrimmedPiece(p: string)
    requires Pieces(Normal, p) == [p]
    ensures Pieces(Normal, Trim(p)) == [Trim(p)]
    ensures ModeAfter(Normal, p).TopLevel() ==>
      ModeAfter(Normal, Trim(p)).TopLevel() || ModeAfter(Normal, Trim(p)).LineComment?
  {
    var a, b := TrimParts(p);
    var t := Trim(p);
    PiecesConcat(Normal, a + t, b);
    PiecesConcat(Normal, a, t);
    ModeConcat(Normal, a + t, b);
    ModeConcat(Normal, a, t);
    SpaceKeepsMode(ModeAfter(Normal, t), a);
    OnePiece(Normal, t);
    ModesReached(t);
    SpaceKeepsMode(ModeAfter(Normal, t), b);
  }

  /** A statement of the result: trimmed, not blank, without a top-level semicolon. */
  ghost predicate IsStatement(t: string) { t != "" && Trim(t) == t && Pieces(Normal, t) == [t] }

  /** A statement that a newline brings back to top level. */
  ghost predicate EndsClean(t: string) { ModeAfter(Normal, t).TopLevel() || ModeAfter(Normal, t).LineComment? }

  lemma StatementOf(p: string)
    requires Pieces(Normal, p) == [p]
    ensures Trim(p) != "" ==> IsStatement(Trim(p))
    ensures ModeAfter(Normal, p).TopLevel() ==> EndsClean(Trim(p))
  {
    TrimmedPiece(p);
    TrimIdempotent(p);
  }

  lemma {:induction false} KeptAreStatements(pieces: seq<string>)
    requires forall k :: 0 <= k < |pieces| ==> Pieces(Normal, pieces[k]) == [pieces[k]]
    requires forall k :: 0 <= k < |pieces| - 1 ==> ModeAfter(Normal, pieces[k]).TopLevel()
    ensures forall k :: 0 <= k < |Kept(pieces)| ==> IsStatement(Kept(pieces)[k])
    ensures forall k :: 0 <= k < |Kept(pieces)| - 1 ==> EndsClean(Kept(pieces)[k])
    ensures pieces != [] && ModeAfter(Normal, pieces[|pieces|-1]).TopLevel() ==>
      forall k :: 0 <= k < |Kept(pieces)| ==> EndsClean(Kept(pieces)[k])
  {
    hide Pieces, ModeAfter, Trim, IsStatement, EndsClean;
    if pieces == [] {
    } else {
      KeptAreStatements(pieces[..|pieces|-1]);
      StatementOf(pieces[|pieces|-1]);
    }
  }

  lemma SplitKept(sql: string)
    ensures var ss := Kept(Pieces(Normal, sql));
      && (forall k :: 0 <= k < |ss| ==> IsStatement(ss[k]))
      && (forall k :: 0 <= k < |ss| - 1 ==> EndsClean(ss[k]))
  {
    var ps := Pieces(Normal, sql);
    forall k | 0 <= k < |ps|
      ensures Pieces(Normal, ps[k]) == [ps[k]] && (k + 1 < |ps| ==> ModeAfter(Normal, ps[k]).TopLevel())
    {
      PieceAlone(sql, k);
    }
    KeptAreStatements(ps);
  }

  // ---------------------------------------------------------------- texts without a statement

  predicate BlankOrSemicolon(s: string) { forall i :: 0 <= i < |s| ==> IsSpace(s[i]) || s[i] == ';' }

  lemma {:induction false} NothingKept(pieces: seq<string>)
    ensures Kept(pieces) == [] <==> forall k :: 0 <= k < |pieces| ==> Trim(pieces[k]) == ""
  {
    if pieces == [] {
    } else {
      NothingKept(pieces[..|pieces|-1]);
    }
  }

  lemma TrimBlank(s: string)
    ensures Trim(s) == "" <==> AllSpace(s)
  {
    var a, b := TrimParts(s);
    if AllSpace(s) {
      TrimIs(s, "", "");
      assert s + "" + "" == s;
    }
  }

  lemma {:induction false} JoinBlank(pieces: seq<string>)
    requires forall k :: 0 <= k < |pieces| ==> AllSpace(pieces[k])
    ensures BlankOrSemicolon(Join(pieces, ";"))
  {
    if |pieces| <= 1 {
    } else {
      JoinBlank(pieces[1..]);
      var rest := Join(pieces[1..], ";");
      assert Join(pieces, ";") == pieces[0] + ";" + rest;
    }
  }

  lemma {:induction false} BlankKeepsNormal(s: string)
    requires BlankOrSemicolon(s)
    ensures ModeAfter(Normal, s) == Normal
  {
    if s == "" {
    } else {
      BlankKeepsNormal(s[..|s|-1]);
    }
  }

  lemma {:induction false} BlankPieces(s: string)
    requires BlankOrSemicolon(s)
    ensures forall k :: 0 <= k < |Pieces(Normal, s)| ==> AllSpace(Pieces(Normal, s)[k])
  {
    hide IsSpace, ModeAfter, Longer;
    if s == "" {
    } else {
      var rest, c := s[..|s|-1], s[|s|-1];
      assert forall i :: 0 <= i < |rest| ==> rest[i] == s[i];
      BlankPieces(rest);
      BlankKeepsNormal(rest);
      var ps := Pieces(Normal, rest);
      if c == ';' {
        assert Pieces(Normal, s) == ps + [""];
      } else {
        assert Pieces(Normal, s) == Longer(ps, c);
        LongerBlank(ps, c);
      }
    }
  }

  lemma LongerBlank(pieces: seq<string>, c: char)
    requires |pieces| > 0 && IsSpace(c) && forall k :: 0 <= k < |pieces| ==> AllSpace(pieces[k])
    ensures forall k :: 0 <= k < |Longer(pieces, c)| ==> AllSpace(Longer(pieces, c)[k])
  {
    hide IsSpace;
    assert AllSpace(pieces[|pieces|-1]);
  }

  lemma NoStatements(s: string)
    ensures Kept(Pieces(Normal, s)) == [] <==> BlankOrSemicolon(s)
  {
    var ps := Pieces(Normal, s);
    NothingKept(ps);
    forall k | 0 <= k < |ps| ensures Trim(ps[k]) == "" <==> AllSpace(ps[k]) { TrimBlank(ps[k]); }
    PiecesJoin(Normal, s);
    if forall k :: 0 <= k < |ps| ==> AllSpace(ps[k]) { JoinBlank(ps); }
    if BlankOrSemicolon(s) { BlankPieces(s); }
  }

  // ---------------------------------------------------------------- the properties of the result

  /** The result is the non-blank pieces of the text, trimmed, where the pieces are what is left when
      exactly the top-level semicolons are cut out: joined with semicolons they are the text, and each
      of them alone is a single piece. A text without a statement gives itself, trimmed. */
  lemma {:induction false} CutsExactlyAtTopLevel(sql: string)
    ensures Join(Pieces(Normal, sql), ";") == sql
    ensures forall k :: 0 <= k < |Pieces(Normal, sql)| ==>
      Pieces(Normal, Pieces(Normal, sql)[k]) == [Pieces(Normal, sql)[k]]
    ensures Split(sql) == if BlankOrSemicolon(sql) then [Trim(sql)] else Kept(Pieces(Normal, sql))
  {
    PiecesJoin(Normal, sql);
    forall k | 0 <= k < |Pieces(Normal, sql)|
      ensures Pieces(Normal, Pieces(Normal, sql)[k]) == [Pieces(Normal, sql)[k]] {
      PieceAlone(sql, k);
    }
    NoStatements(sql);
  }

  lemma StatementAlone(t: string)
    requires IsStatement(t)
    ensures Split(t) == [t]
  {
    assert [t][..0] == [];
    assert Kept([t]) == Keep([], t);
  }

  lemma BlankAlone(s: string)
    requires BlankOrSemicolon(s)
    ensures Split(Trim(s)) == [Trim(s)]
  {
    var a, b := TrimParts(s);
    forall i | 0 <= i < |Trim(s)| ensures IsSpace(Trim(s)[i]) || Trim(s)[i] == ';' {
      assert Trim(s)[i] == s[|a| + i];
    }
    NoStatements(Trim(s));
    TrimIdempotent(s);
  }

  /** Every returned statement, split again on its own, gives just itself. */
  lemma {:induction false} StatementsSplitToThemselves(sql: string)
    ensures forall k :: 0 <= k < |Split(sql)| ==> Split(Split(sql)[k]) == [Split(sql)[k]]
  {
    NoStatements(sql);
    if BlankOrSemicolon(sql) {
      BlankAlone(sql);
    } else {
      SplitKept(sql);
      forall k | 0 <= k < |Split(sql)| ensures Split(Split(sql)[k]) == [Split(sql)[k]] {
        StatementAlone(Split(sql)[k]);
      }
    }
  }

  const NEWLINE_SEMICOLON := "\n;"

  /** Statements joined by newline-semicolon: a newline after every statement but the last, which the
      trimming takes away again. */
  lemma {:induction false} JoinedPieces(ss: seq<string>)
    requires ss != []
    requires forall k :: 0 <= k < |ss| ==> IsStatement(ss[k])
    requires forall k :: 0 <= k < |ss| - 1 ==> EndsClean(ss[k])
    ensures var ps := Pieces(Normal, Join(ss, NEWLINE_SEMICOLON));
      ps[|ps|-1] == ss[|ss|-1] && Kept(ps) == ss
    ensures ModeAfter(Normal, Join(ss, NEWLINE_SEMICOLON)) == ModeAfter(Normal, ss[|ss|-1])
  {
    hide Trim, Kept, Pieces, ModeAfter, EndsClean;
    var last := ss[|ss|-1];
    if |ss| == 1 {
      JoinedOne(last);
      assert ss == [last];
    } else {
      var init := ss[..|ss|-1];
      assert forall k :: 0 <= k < |init| ==> init[k] == ss[k];
      JoinedPieces(init);
      var j := Join(init, NEWLINE_SEMICOLON);
      AppendStatement(j, init, last);
      JoinExtended(init, NEWLINE_SEMICOLON, last);
      assert init + [last] == ss;
    }
  }

  lemma JoinedOne(t: string)
    requires IsStatement(t)
    ensures Join([t], NEWLINE_SEMICOLON) == t && Kept([t]) == [t]
  {
    assert [t][..0] == [];
    assert Kept([t]) == Keep([], t);
  }

  lemma AppendStatement(j: string, init: seq<string>, last: string)
    requires init != [] && IsStatement(last) && IsStatement(init[|init|-1]) && EndsClean(init[|init|-1])
    requires var ps := Pieces(Normal, j); ps[|ps|-1] == init[|init|-1] && Kept(ps) == init
    requires ModeAfter(Normal, j) == ModeAfter(Normal, init[|init|-1])
    ensures var s := j + NEWLINE_SEMICOLON + last;
      && Pieces(Normal, s)[|Pieces(Normal, s)|-1] == last
      && Kept(Pieces(Normal, s)) == init + [last]
      && ModeAfter(Normal, s) == ModeAfter(Normal, last)
  {
    hide Kept, Glue, Trim;
    var ps := Pieces(Normal, j);
    AppendSeparator(j);
    PiecesConcat(Normal, j + NEWLINE_SEMICOLON, last);
    ModeConcat(Normal, j + NEWLINE_SEMICOLON, last);
    KeptSame(ps, Longer(ps, '\n'), init[|init|-1]);
    KeptOneMore(Longer(ps, '\n'), last);
  }

  lemma KeptOneMore(ps: seq<string>, last: string)
    requires IsStatement(last)
    ensures Glue(ps + [""], [last]) == ps + [last]
    ensures Kept(ps + [last]) == Kept(ps) + [last]
  {
    assert (ps + [last])[..|ps|] == ps;
    assert "" + last == last;
    assert (ps + [""])[..|ps|] == ps;
  }

  lemma KeptSame(ps: seq<string>, ps1: seq<string>, prev: string)
    requires ps != [] && ps1 == Longer(ps, '\n') && ps[|ps|-1] == prev && IsStatement(prev)
    ensures Kept(ps1) == Kept(ps)
  {
    TrimNewline(prev);
  }

  /** A separator returns to top level and cuts, from any mode that a newline brings to top level. */
  lemma AppendSeparator(j: string)
    requires EndsClean(j)
    ensures Pieces(Normal, j + NEWLINE_SEMICOLON) == Longer(Pieces(Normal, j), '\n') + [""]
    ensures ModeAfter(Normal, j + NEWLINE_SEMICOLON) == Normal
  {
    var j1, j2 := j + "\n", j + NEWLINE_SEMICOLON;
    assert j1[..|j|] == j && j1[|j|] == '\n';
    assert j2[..|j|+1] == j1 && j2[|j|+1] == ';';
    assert ModeAfter(Normal, j1) == Normal;
  }

  lemma TrimNewline(t: string)
    requires IsStatement(t)
    ensures Trim(t + "\n") == t
  {
    var a, b := TrimParts(t);
    TrimIs("", t, "\n");
    assert "" + t + "\n" == t + "\n";
  }

  /** The round trip: for every text, joining the returned statements with newline-semicolon and
      splitting again gives the same statements. */
  lemma {:induction false} JoinSplitRoundTrip(sql: string)
    ensures Split(Join(Split(sql), NEWLINE_SEMICOLON)) == Split(sql)
  {
    NoStatements(sql);
    if BlankOrSemicolon(sql) {
      BlankAlone(sql);
    } else {
      SplitKept(sql);
      JoinedPieces(Split(sql));
    }
  }
}
