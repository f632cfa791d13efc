/** Searching, splitting and joining of strings. */
module Strings {

  /** The line terminators, which a dot of a regular expression does not match. */
  predicate EndsLine(c: char) { c == '\n' || c == '\r' || c == '\U{2028}' || c == '\U{2029}' }

  /** The first position of `part`, or -1. */
  function IndexOf(s: string, part: string): (r: int)
    ensures -1 <= r <= |s| - |part| || r == -1
    ensures r >= 0 ==> part <= s[r..]
  {
    if part <= s then 0
    else if s == "" then -1
    else var r := IndexOf(s[1..], part); if r == -1 then -1 else r + 1
  }

  /** `IndexOf` finds the first occurrence. */
  lemma {:induction false} IndexOfIsFirst(s: string, part: string, k: nat)
    requires k <= |s| && part <= s[k..]
    ensures 0 <= IndexOf(s, part) <= k
  {
    if k > 0 && !(part <= s) {
      assert s[1..][k-1..] == s[k..];
      IndexOfIsFirst(s[1..], part, k - 1);
    }
  }

  /** The parts of a text that has one more character in front. */
  function Prepend(c: char, parts: seq<string>, separator: char): (r: seq<string>)
    requires parts != []
    ensures r != []
  {
    if c == separator then [""] + parts else [[c] + parts[0]] + parts[1..]
  }

  /** The text between separators. */
  function Split(s: string, separator: char): (r: seq<string>)
    ensures |r| >= 1
  {
    if s == "" then [""] else Prepend(s[0], Split(s[1..], separator), separator)
  }

  function Join(parts: seq<string>, separator: string): string {
    if parts == [] then "" else if |parts| == 1 then parts[0]
    else parts[0] + separator + Join(parts[1..], separator)
  }

  lemma Assoc(a: string, b: string, c: string)
    ensures a + b + c == a + (b + c)
  {
  }

  lemma JoinNext(head: string, rest: seq<string>, separator: string)
    requires rest != []
    ensures Join([head] + rest, separator) == head + separator + Join(rest, separator)
  {
    assert ([head] + rest)[1..] == rest;
  }

  lemma {:induction false} JoinExtended(parts: seq<string>, separator: string, last: string)
    requires parts != []
    ensures Join(parts + [last], separator) == Join(parts, separator) + separator + last
  {
    if |parts| == 1 {
      JoinNext(parts[0], [last], separator);
      assert parts == [parts[0]];
    } else {
      var rest := parts[1..];
      JoinNext(parts[0], rest, separator);
      JoinNext(parts[0], rest + [last], separator);
      assert parts == [parts[0]] + rest && parts + [last] == [parts[0]] + (rest + [last]);
      JoinExtended(rest, separator, last);
      hide Join;
      Assoc(parts[0] + separator, Join(rest, separator), separator + last);
      Assoc(Join(rest, separator), separator, last);
      Assoc(Join(parts, separator), separator, last);
    }
  }

  lemma JoinPrepend(c: char, parts: seq<string>, separator: char)
    requires parts != []
    ensures Join(Prepend(c, parts, separator), [separator]) == [c] + Join(parts, [separator])
  {
    if c == separator {
      JoinNext("", parts, [separator]);
      assert "" + [separator] == [c];
    } else if |parts| == 1 {
      assert Prepend(c, parts, separator) == [[c] + parts[0]];
    } else {
      var rest := parts[1..];
      JoinNext([c] + parts[0], rest, [separator]);
      JoinNext(parts[0], rest, [separator]);
      assert parts == [parts[0]] + rest;
      hide Join;
      Assoc([c], parts[0], [separator]);
      Assoc([c], parts[0] + [separator], Join(rest, [separator]));
    }
  }

  lemma PrependClean(c: char, parts: seq<string>, separator: char)
    requires parts != [] && forall part :: part in parts ==> separator !in part
    ensures forall part :: part in Prepend(c, parts, separator) ==> separator !in part
  {
    assert separator !in parts[0];
  }

  lemma PrependConcat(c: char, a: seq<string>, b: seq<string>, separator: char)
    requires a != []
    ensures Prepend(c, a + b, separator) == Prepend(c, a, separator) + b
  {
    assert (a + b)[0] == a[0] && (a + b)[1..] == a[1..] + b;
  }

  /** The parts of a split, joined again, are the text, and none contains the separator. */
  lemma {:induction false} JoinSplit(s: string, separator: char)
    ensures Join(Split(s, separator), [separator]) == s
    ensures forall part :: part in Split(s, separator) ==> separator !in part
  {
    hide Join, Prepend;
    if s == "" {
      JoinOne("", [separator]);
    } else {
      var rest := Split(s[1..], separator);
      JoinSplit(s[1..], separator);
      JoinPrepend(s[0], rest, separator);
      PrependClean(s[0], rest, separator);
      assert s == [s[0]] + s[1..];
    }
  }

  lemma JoinOne(part: string, separator: string)
    ensures Join([part], separator) == part
  {
  }

  lemma {:induction false} SplitConcat(a: string, b: string, separator: char)
    ensures Split(a + [separator] + b, separator) == Split(a, separator) + Split(b, separator)
  {
    var s := a + [separator] + b;
    if a == "" {
      assert s[0] == separator && s[1..] == b;
    } else {
      assert s[0] == a[0] && s[1..] == a[1..] + [separator] + b;
      SplitConcat(a[1..], b, separator);
      hide Prepend;
      PrependConcat(a[0], Split(a[1..], separator), Split(b, separator), separator);
    }
  }

  lemma {:induction false} SplitJoin(parts: seq<string>, separator: char)
    requires parts != [] && forall part :: part in parts ==> separator !in part
    ensures Split(Join(parts, [separator]), separator) == parts
  {
    SplitPart(parts[0], separator);
    if |parts| <= 1 {
    } else {
      var rest := parts[1..];
      assert parts == [parts[0]] + rest;
      JoinNext(parts[0], rest, [separator]);
      hide Join, Split;
      SplitJoin(rest, separator);
      SplitConcat(parts[0], Join(rest, [separator]), separator);
    }
  }

  lemma {:induction false} SplitPart(part: string, separator: char)
    requires separator !in part
    ensures Split(part, separator) == [part]
  {
    if part == "" {
    } else {
      SplitPart(part[1..], separator);
      assert part[0] in part && [part[0]] + part[1..] == part;
      assert Prepend(part[0], [part[1..]], separator) == [part];
    }
  }
}
