/** How the uploaded files of a multipart batch are handed to its requests: a part named `requests.3.photo`
    or `requests[3].photo` becomes the field `photo` of request 3. */
module BatchFiles {
  import opened Wrappers

  // ---------------------------------------------------------------- decimal indices

  predicate IsDigit(c: char) { '0' <= c <= '9' }

  function Digit(n: nat): char
    requires n < 10
  {
    "0123456789"[n]
  }

  function Decimal(n: nat): (s: string)
    ensures s != "" && forall c :: c in s ==> IsDigit(c)
  {
    if n < 10 then [Digit(n)] else Decimal(n / 10) + [Digit(n % 10)]
  }

  function Value(s: string): int {
    if s == "" then 0 else Value(s[..|s|-1]) * 10 + (s[|s|-1] as int - '0' as int)
  }

  lemma {:induction false} DecimalRoundTrip(n: nat)
    ensures Value(Decimal(n)) == n
  {
    if n >= 10 {
      DecimalRoundTrip(n / 10);
      assert Decimal(n)[..|Decimal(n)|-1] == Decimal(n / 10);
      DigitValue(n % 10);
    } else {
      DigitValue(n);
      assert [Digit(n)][..0] == "";
    }
  }

  /** The decimal is the only way to write the number in digits without a leading zero. */
  lemma {:induction false} DecimalExactly(n: nat, s: string)
    ensures s == Decimal(n) <==>
      s != "" && (forall c :: c in s ==> IsDigit(c)) && (|s| > 1 ==> s[0] != '0') && Value(s) == n
  {
    DecimalRoundTrip(n);
    NoLeadingZero(n);
    if s != "" && (forall c :: c in s ==> IsDigit(c)) && (|s| > 1 ==> s[0] != '0') && Value(s) == n {
      DigitsAreDecimal(s);
    }
  }

  lemma {:induction false} NoLeadingZero(n: nat)
    ensures |Decimal(n)| > 1 ==> Decimal(n)[0] != '0'
    ensures n > 0 ==> Decimal(n)[0] != '0'
  {
    if n < 10 {
    } else {
      NoLeadingZero(n / 10);
    }
  }

  lemma {:induction false} DigitsAreDecimal(s: string)
    requires s != "" && (forall c :: c in s ==> IsDigit(c)) && (|s| > 1 ==> s[0] != '0')
    ensures Value(s) >= 0 && (s[0] != '0' ==> Value(s) > 0) && Decimal(Value(s)) == s
  {
    hide Decimal, Digit;
    var init, last := s[..|s|-1], s[|s|-1];
    assert IsDigit(last);
    DigitOf(last);
    if init == "" {
      assert s == [last] && Value(init) == 0;
      OneDigit(last as int - '0' as int);
    } else {
      assert forall c :: c in init ==> c in s;
      DigitsAreDecimal(init);
      assert Value(s) == Value(init) * 10 + (last as int - '0' as int);
      assert s == init + [last];
      hide Value;
      DecimalNext(Value(init), last as int - '0' as int);
    }
  }

  lemma OneDigit(d: nat)
    requires d < 10
    ensures Decimal(d) == [Digit(d)]
  {
  }

  lemma DecimalNext(n: nat, d: nat)
    requires n > 0 && d < 10
    ensures Decimal(n * 10 + d) == Decimal(n) + [Digit(d)]
  {
    assert (n * 10 + d) / 10 == n && (n * 10 + d) % 10 == d;
  }

  lemma DigitOf(c: char)
    requires IsDigit(c)
    ensures 0 <= c as int - '0' as int < 10 && Digit(c as int - '0' as int) == c
  {
    var n := c as int - '0' as int;
    DigitValue(n);
  }

  lemma DigitValue(n: nat)
    requires n < 10
    ensures Digit(n) as int - '0' as int == n && IsDigit(Digit(n))
  {
    assert n == 0 || n == 1 || n == 2 || n == 3 || n == 4 || n == 5 || n == 6 || n == 7 || n == 8 || n == 9;
  }

  /** A decimal followed by a non-digit can be read in one way only. */
  lemma {:induction false} DecimalsArePrefixFree(i: nat, j: nat, a: string, b: string)
    requires a != "" && b != "" && !IsDigit(a[0]) && !IsDigit(b[0])
    requires Decimal(i) + a == Decimal(j) + b
    ensures i == j && a == b
  {
    hide Decimal, Value;
    var x, y := Decimal(i), Decimal(j);
    var s := x + a;
    assert (forall k :: 0 <= k < |x| ==> IsDigit(s[k])) && s[|x|] == a[0];
    assert (forall k :: 0 <= k < |y| ==> IsDigit(s[k])) && s[|y|] == b[0];
    assert x == s[..|x|] == y && a == s[|x|..] == b;
    DecimalRoundTrip(i);
    DecimalRoundTrip(j);
  }

  // ---------------------------------------------------------------- addressing a field

  function DotPrefix(i: nat): string { "requests." + (Decimal(i) + ".") }

  function BracketPrefix(i: nat): string { "requests[" + (Decimal(i) + "].") }

  function Prefixes(i: nat): seq<string> { [DotPrefix(i), BracketPrefix(i)] }

  /** The key names this field of request i. */
  ghost predicate Addresses(key: string, i: nat, field: string) {
    key == "requests." + Decimal(i) + "." + field || key == "requests[" + Decimal(i) + "]." + field
  }

  lemma DotAddress(i: nat, field: string)
    ensures DotPrefix(i) + field == "requests." + (Decimal(i) + ("." + field))
    ensures DotPrefix(i) + field == "requests." + Decimal(i) + "." + field
  {
  }

  lemma BracketAddress(i: nat, field: string)
    ensures BracketPrefix(i) + field == "requests[" + (Decimal(i) + ("]." + field))
    ensures BracketPrefix(i) + field == "requests[" + Decimal(i) + "]." + field
  {
  }

  lemma PrefixesAddress(key: string, i: nat)
    ensures forall f :: Addresses(key, i, f) <==> key == DotPrefix(i) + f || key == BracketPrefix(i) + f
  {
    hide Decimal, DotPrefix, BracketPrefix;
    forall f ensures Addresses(key, i, f) <==> key == DotPrefix(i) + f || key == BracketPrefix(i) + f {
      DotAddress(i, f);
      BracketAddress(i, f);
    }
  }

  lemma SameTail(p: string, x: string, y: string)
    requires p + x == p + y
    ensures x == y
  {
    assert (p + x)[|p|..] == x && (p + y)[|p|..] == y;
  }

  /** A key names at most one field of one request, and in one of the two notations only. */
  lemma {:induction false} AddressIsUnique(key: string, i: nat, j: nat, f: string, g: string)
    requires Addresses(key, i, f) && Addresses(key, j, g)
    ensures i == j && f == g && (key == DotPrefix(i) + f <==> key != BracketPrefix(i) + f)
  {
    hide Decimal;
    DotAddress(i, f);
    DotAddress(j, g);
    BracketAddress(i, f);
    BracketAddress(j, g);
    assert (DotPrefix(i) + f)[8] == (DotPrefix(j) + g)[8] == '.';
    assert (BracketPrefix(i) + f)[8] == (BracketPrefix(j) + g)[8] == '[';
    if key[8] == '.' {
      SameTail("requests.", Decimal(i) + ("." + f), Decimal(j) + ("." + g));
      DecimalsArePrefixFree(i, j, "." + f, "." + g);
      SameTail(".", f, g);
    } else {
      SameTail("requests[", Decimal(i) + ("]." + f), Decimal(j) + ("]." + g));
      DecimalsArePrefixFree(i, j, "]." + f, "]." + g);
      SameTail("].", f, g);
    }
  }

  // ---------------------------------------------------------------- handing out the parts

  /** A part of the form; `file` is None for a text part and for one that is not a usable file. */
  datatype Part = Part(key: string, file: Option<string>)

  /** The files of a field of request i, in form order. */
  ghost function FilesOf(parts: seq<Part>, i: nat, field: string): seq<string> {
    if parts == [] then [] else
      var rest, last := FilesOf(parts[..|parts|-1], i, field), parts[|parts|-1];
      if last.file.Some? && Addresses(last.key, i, field) then rest + [last.file.value] else rest
  }

  /** What request i receives: its fields with their files, and no field without one. */
  ghost predicate Receives(parts: seq<Part>, i: nat, files: map<string, seq<string>>) {
    && (forall f :: f in files ==> files[f] != [] && files[f] == FilesOf(parts, i, f))
    && (forall f :: f !in files ==> FilesOf(parts, i, f) == [])
  }

  function Appended(files: map<string, seq<string>>, key: string, file: string): map<string, seq<string>> {
    files[key := (if key in files then files[key] else []) + [file]]
  }

  lemma FilesOfNext(parts: seq<Part>, k: nat, i: nat, field: string)
    requires k < |parts|
    ensures FilesOf(parts[..k+1], i, field) ==
      if parts[k].file.Some? && Addresses(parts[k].key, i, field)
        then FilesOf(parts[..k], i, field) + [parts[k].file.value]
      else FilesOf(parts[..k], i, field)
  {
    assert parts[..k+1][..k] == parts[..k];
  }

  lemma SkippedKeeps(parts: seq<Part>, k: nat, i: nat, files: map<string, seq<string>>)
    requires k < |parts| && Receives(parts[..k], i, files)
    requires parts[k].file.None? || forall f :: !Addresses(parts[k].key, i, f)
    ensures Receives(parts[..k+1], i, files)
  {
    hide FilesOf, Addresses;
    forall f ensures FilesOf(parts[..k+1], i, f) == FilesOf(parts[..k], i, f) { FilesOfNext(parts, k, i, f); }
  }

  lemma AppendedReceives(parts: seq<Part>, k: nat, i: nat, files: map<string, seq<string>>, field: string)
    requires k < |parts| && Receives(parts[..k], i, files)
    requires parts[k].file.Some? && Addresses(parts[k].key, i, field)
    ensures Receives(parts[..k+1], i, Appended(files, field, parts[k].file.value))
  {
    hide FilesOf, Addresses;
    forall f ensures FilesOf(parts[..k+1], i, f) ==
      if f == field then FilesOf(parts[..k], i, f) + [parts[k].file.value] else FilesOf(parts[..k], i, f)
    {
      FilesOfNext(parts, k, i, f);
      if Addresses(parts[k].key, i, f) { AddressIsUnique(parts[k].key, i, i, f, field); }
    }
  }

  /** One part, tried against the two prefixes. */
  lemma OnePart(parts: seq<Part>, k: nat, i: nat, files: map<string, seq<string>>)
    requires k < |parts| && Receives(parts[..k], i, files) && parts[k].file.Some?
    ensures var key, file := parts[k].key, parts[k].file.value;
      var once := if DotPrefix(i) <= key then Appended(files, key[|DotPrefix(i)|..], file) else files;
      var twice := if BracketPrefix(i) <= key then Appended(once, key[|BracketPrefix(i)|..], file) else once;
      Receives(parts[..k+1], i, twice)
  {
    var key := parts[k].key;
    PrefixesAddress(key, i);
    hide FilesOf, DotPrefix, BracketPrefix, Receives, Addresses;
    if DotPrefix(i) <= key {
      var f := key[|DotPrefix(i)|..];
      assert key == DotPrefix(i) + f;
      AppendedReceives(parts, k, i, files, f);
      if BracketPrefix(i) <= key {
        assert key == BracketPrefix(i) + key[|BracketPrefix(i)|..];
        AddressIsUnique(key, i, i, f, key[|BracketPrefix(i)|..]);
      }
    } else if BracketPrefix(i) <= key {
      var f := key[|BracketPrefix(i)|..];
      assert key == BracketPrefix(i) + f;
      AppendedReceives(parts, k, i, files, f);
    } else {
      SkippedKeeps(parts, k, i, files);
    }
  }

  method ExtractPrefixedFiles(parts: seq<Part>, i: nat) returns (result: map<string, seq<string>>)
    ensures Receives(parts, i, result)
  {
    var prefixes := Prefixes(i);
    result := map[];
    for k := 0 to |parts|
      invariant Receives(parts[..k], i, result)
    {
      if parts[k].file.None? {
        SkippedKeeps(parts, k, i, result);
        continue;
      }
      ghost var before := result;
      var key, file := parts[k].key, parts[k].file.value;
      for p := 0 to |prefixes|
        invariant p == 0 ==> result == before
        invariant p == 1 ==> result == if DotPrefix(i) <= key then Appended(before, key[|DotPrefix(i)|..], file)
          else before
        invariant p == 2 ==>
          var once := if DotPrefix(i) <= key then Appended(before, key[|DotPrefix(i)|..], file) else before;
          result == if BracketPrefix(i) <= key then Appended(once, key[|BracketPrefix(i)|..], file) else once
      {
        if prefixes[p] <= key {
          result := Appended(result, key[|prefixes[p]|..], file);
        }
      }
      OnePart(parts, k, i, before);
    }
    assert parts[..|parts|] == parts;
  }

  datatype FieldValue = Json(text: string) | Files(names: seq<string>)

  class RequestBody {
    var fields: map<string, FieldValue>

    constructor (fields: map<string, FieldValue>)
      ensures this.fields == fields
    {
      this.fields := fields;
    }
  }

  function AsFields(files: map<string, seq<string>>): map<string, FieldValue> { map f | f in files :: Files(files[f]) }

  /** The body of request i after the files were handed out. */
  ghost predicate Filled(parts: seq<Part>, i: nat, before: map<string, FieldValue>, after: map<string, FieldValue>) {
    forall f :: if FilesOf(parts, i, f) != [] then f in after && after[f] == Files(FilesOf(parts, i, f))
                else (f in after <==> f in before) && (f in before ==> after[f] == before[f])
  }

  /** Every request gets its own files under their fields, in form order, and keeps its other fields. */
  method DistributeFiles(parts: seq<Part>, bodies: seq<RequestBody>)
    requires forall i, j :: 0 <= i < j < |bodies| ==> bodies[i] != bodies[j]
    modifies bodies
    ensures forall i :: 0 <= i < |bodies| ==> Filled(parts, i, old(bodies[i].fields), bodies[i].fields)
  {
    hide FilesOf;
    for i := 0 to |bodies|
      invariant forall j :: 0 <= j < i ==> Filled(parts, j, old(bodies[j].fields), bodies[j].fields)
      invariant forall j :: i <= j < |bodies| ==> bodies[j].fields == old(bodies[j].fields)
    {
      var files := ExtractPrefixedFiles(parts, i);
      bodies[i].fields := bodies[i].fields + AsFields(files);
    }
  }

  /** Each uploaded part reaches at most one field of one request. */
  lemma {:induction false} PartReachesOneField(parts: seq<Part>, k: nat, i: nat, j: nat, f: string, g: string)
    requires k < |parts| && parts[k].file.Some?
    requires FilesOf(parts[..k+1], i, f) != FilesOf(parts[..k], i, f)
      && FilesOf(parts[..k+1], j, g) != FilesOf(parts[..k], j, g)
    ensures i == j && f == g
    ensures FilesOf(parts[..k+1], i, f) == FilesOf(parts[..k], i, f) + [parts[k].file.value]
  {
    FilesOfNext(parts, k, i, f);
    FilesOfNext(parts, k, j, g);
    AddressIsUnique(parts[k].key, i, j, f, g);
  }
}
