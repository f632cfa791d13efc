/** Looking an entry up in the central directory of a ZIP archive and checking its ZIP64 size, against a
    writer that follows sections 4.3.12 (central directory), 4.3.16 (end record) and 4.5.3 (ZIP64 extra
    field) of PKWARE's APPNOTE.TXT. */
module Zip64Lookup {
  import opened Bytes
  import opened Wrappers

  // ---------------------------------------------------------------- little-endian numbers

  function Pow(k: nat): (p: nat)
    ensures p > 0
  {
    if k == 0 then 1 else 256 * Pow(k - 1)
  }

  function LittleEndian(n: nat, k: nat): (r: seq<byte>)
    ensures |r| == k
  {
    if k == 0 then [] else [n % 256] + LittleEndian(n / 256, k - 1)
  }

  function Number(bytes: seq<byte>): nat {
    if bytes == [] then 0 else bytes[0] + 256 * Number(bytes[1..])
  }

  lemma {:induction false} NumberRoundTrip(n: nat, k: nat)
    requires n < Pow(k)
    ensures Number(LittleEndian(n, k)) == n
  {
    if k == 0 {
    } else {
      NumberRoundTrip(n / 256, k - 1);
      assert LittleEndian(n, k)[1..] == LittleEndian(n / 256, k - 1);
    }
  }

  const U16 := 0x1_0000
  const U32 := 0x1_0000_0000
  const U64 := 0x1_0000_0000_0000_0000

  lemma Widths()
    ensures Pow(2) == U16 && Pow(4) == U32 && Pow(8) == U64
  {
    assert Pow(1) == 256;
    assert Pow(3) == 256 * Pow(2) && Pow(4) == 256 * Pow(3);
    assert Pow(5) == 256 * Pow(4) && Pow(6) == 256 * Pow(5);
    assert Pow(7) == 256 * Pow(6) && Pow(8) == 256 * Pow(7);
  }

  const ENTRY_SIGNATURE := 0x02014b50
  const END_SIGNATURE := 0x06054b50
  const ZIP64_ID := 0x0001
  const SENTINEL := 0xffffffff
  const TAIL := 65600

  /** The signatures as they stand in a file, "PK" and two more bytes, and the marks of a ZIP64 size. */
  lemma SignatureBytes()
    ensures LittleEndian(END_SIGNATURE, 4) == [0x50, 0x4b, 0x05, 0x06]
    ensures LittleEndian(ENTRY_SIGNATURE, 4) == [0x50, 0x4b, 0x01, 0x02]
    ensures LittleEndian(SENTINEL, 4) == [0xff, 0xff, 0xff, 0xff] && LittleEndian(ZIP64_ID, 2) == [0x01, 0x00]
  {
    assert LittleEndian(0x06, 1) == [0x06] && LittleEndian(0x0605, 2) == [0x05, 0x06];
    assert LittleEndian(0x06054b, 3) == [0x4b, 0x05, 0x06];
    assert LittleEndian(0x02, 1) == [0x02] && LittleEndian(0x0201, 2) == [0x01, 0x02];
    assert LittleEndian(0xff, 1) == [0xff] && LittleEndian(0xffff, 2) == [0xff, 0xff];
    assert LittleEndian(0xffffff, 3) == [0xff, 0xff, 0xff] && LittleEndian(0x00, 1) == [0x00];
    assert LittleEndian(0x02014b, 3) == [0x4b, 0x01, 0x02];
  }

  /** What the runtime contributes: decoding of names, and the conversion of a 64-bit size to a double. */
  datatype Runtime = Runtime(decode: seq<byte> -> string, toNumber: nat -> nat)

  const EXACT := 0x20_0000_0000_0000

  /** Doubles hold every integer up to 2^53. */
  ghost predicate ConvertsExactly(js: Runtime) { forall n: nat :: n <= EXACT ==> js.toNumber(n) == n }

  // ---------------------------------------------------------------- the writer

  datatype Extra = Extra(id: nat, data: seq<byte>)

  /** A central directory entry; `first` and `last` stand for the header fields the lookup does not read. */
  datatype Entry = Entry(first: seq<byte>, size: nat, name: seq<byte>, extras: seq<Extra>, comment: seq<byte>,
                         last: seq<byte>)

  /** `contents` stands for the local entries and `between` for whatever follows the central directory, such
      as the ZIP64 end record; `disks` and `directorySize` are the end record fields the lookup does not read. */
  datatype Archive = Archive(contents: seq<byte>, entries: seq<Entry>, between: seq<byte>, disks: seq<byte>,
                             directorySize: nat)

  function WriteExtras(extras: seq<Extra>): seq<byte> {
    if extras == [] then [] else
      LittleEndian(extras[0].id, 2) + LittleEndian(|extras[0].data|, 2) + extras[0].data + WriteExtras(extras[1..])
  }

  function WriteHeader(e: Entry): seq<byte> {
    LittleEndian(ENTRY_SIGNATURE, 4) + e.first + LittleEndian(e.size, 4) + LittleEndian(|e.name|, 2)
    + LittleEndian(|WriteExtras(e.extras)|, 2) + LittleEndian(|e.comment|, 2) + e.last
  }

  function WriteEntry(e: Entry): seq<byte> {
    WriteHeader(e) + (e.name + WriteExtras(e.extras) + e.comment)
  }

  function WriteEntries(entries: seq<Entry>): seq<byte> {
    if entries == [] then [] else WriteEntry(entries[0]) + WriteEntries(entries[1..])
  }

  function WriteEnd(a: Archive): seq<byte> {
    LittleEndian(END_SIGNATURE, 4) + a.disks + LittleEndian(|a.entries|, 2) + LittleEndian(a.directorySize, 4)
    + LittleEndian(|a.contents|, 4) + LittleEndian(0, 2)
  }

  function Write(a: Archive): seq<byte> {
    a.contents + (WriteEntries(a.entries) + a.between + WriteEnd(a))
  }

  predicate FieldsFit(e: Entry) {
    && |e.first| == 20 && |e.last| == 12
    && e.size < U32 && |e.name| < U16 && |WriteExtras(e.extras)| < U16 && |e.comment| < U16
    && (forall x :: x in e.extras ==> x.id < U16 && |x.data| < U16)
    && SizeIn(e.extras) <= EXACT
  }

  predicate SignatureAt(file: seq<byte>, i: int) {
    0 <= i <= |file| - 4 && Number(file[i..i+4]) == END_SIGNATURE
  }

  /** An end signature that starts within the last 21 bytes. */
  ghost predicate StraySignature(file: seq<byte>) { exists i :: |file| - 22 < i && SignatureAt(file, i) }

  ghost predicate Writable(a: Archive) {
    && (forall e :: e in a.entries ==> FieldsFit(e))
    && |a.disks| == 6 && |a.entries| < U16 && |a.contents| < U32 && a.directorySize < U32
    && !StraySignature(Write(a))
  }

  /** The size in the first ZIP64 extra field that is long enough to hold one. */
  function SizeIn(extras: seq<Extra>): nat {
    if extras == [] then 0
    else if extras[0].id == ZIP64_ID && |extras[0].data| >= 8 then Number(extras[0].data[..8])
    else SizeIn(extras[1..])
  }

  /** What the lookup is to answer: the first entry of the name has the sentinel as its 32-bit size and a
      ZIP64 size of at least the minimum. */
  function Answer(js: Runtime, entries: seq<Entry>, name: string, minimumSize: int): bool {
    if entries == [] then false
    else if js.decode(entries[0].name) == name then entries[0].size == SENTINEL
      && SizeIn(entries[0].extras) >= minimumSize
    else Answer(js, entries[1..], name, minimumSize)
  }

  /** An extra field that holds a ZIP64 size. */
  predicate HoldsSize(x: Extra) { x.id == 0x0001 && |x.data| >= 8 }

  /** The first field that holds a size is this one, with this size. */
  ghost predicate SizeAt(extras: seq<Extra>, i: int, size: nat) {
    && 0 <= i < |extras| && HoldsSize(extras[i]) && size == Number(extras[i].data[..8])
    && forall k :: 0 <= k < i ==> !HoldsSize(extras[k])
  }

  /** The ZIP64 size is in the first eight bytes of the first field that holds one, and 0 if none does. */
  lemma {:induction false} SizeMeans(extras: seq<Extra>, size: nat)
    ensures size == SizeIn(extras) <==>
      || (size == 0 && forall i :: 0 <= i < |extras| ==> !HoldsSize(extras[i]))
      || (exists i :: SizeAt(extras, i, size))
  {
    if extras == [] {
    } else {
      SizeMeans(extras[1..], size);
      hide Number;
      if HoldsSize(extras[0]) {
        assert SizeAt(extras, 0, SizeIn(extras));
        assert forall i :: SizeAt(extras, i, size) ==> i == 0;
      } else {
        assert forall i :: 0 < i < |extras| ==> extras[i] == extras[1..][i-1];
        assert forall i :: SizeAt(extras[1..], i, size) ==> SizeAt(extras, i + 1, size);
        assert forall i :: SizeAt(extras, i, size) ==> SizeAt(extras[1..], i - 1, size);
      }
    }
  }

  /** The answer is yes exactly when the first entry of the name says in its 32-bit size that the real one is
      in the ZIP64 field, and that one is large enough. */
  lemma {:induction false} AnswerMeans(js: Runtime, entries: seq<Entry>, name: string, minimumSize: int)
    ensures Answer(js, entries, name, minimumSize) <==>
      exists i :: 0 <= i < |entries| && js.decode(entries[i].name) == name
        && (forall k :: 0 <= k < i ==> js.decode(entries[k].name) != name)
        && entries[i].size == 0xffff_ffff && SizeIn(entries[i].extras) >= minimumSize
  {
    if entries == [] {
    } else {
      AnswerMeans(js, entries[1..], name, minimumSize);
      hide SizeIn;
      assert forall i :: 0 < i < |entries| ==> entries[i] == entries[1..][i-1];
      if js.decode(entries[0].name) != name && Answer(js, entries[1..], name, minimumSize) {
        var i :| 0 <= i < |entries[1..]| && js.decode(entries[1..][i].name) == name
          && (forall k :: 0 <= k < i ==> js.decode(entries[1..][k].name) != name)
          && entries[1..][i].size == 0xffff_ffff && SizeIn(entries[1..][i].extras) >= minimumSize;
        assert entries[i+1] == entries[1..][i];
      }
    }
  }

  // ---------------------------------------------------------------- the reader, on any bytes

  /** None where the program throws. */
  function Slice(file: seq<byte>, size: nat, position: nat): Option<seq<byte>> {
    if size == 0 then Some([])
    else if position + size <= |file| then Some(file[position..position+size]) else None
  }

  function LastSignature(data: seq<byte>, i: int): (r: int)
    requires i <= |data| - 4
    ensures -1 <= r <= |data| - 4 || r == -1
  {
    if i < 0 then -1 else if Number(data[i..i+4]) == END_SIGNATURE then i else LastSignature(data, i - 1)
  }

  function ReadSize(js: Runtime, extra: seq<byte>): nat
    decreases |extra|
  {
    if |extra| < 4 then 0 else
      var size := Number(extra[2..4]);
      if 4 + size > |extra| then 0
      else if Number(extra[0..2]) == ZIP64_ID && size >= 8 then js.toNumber(Number(extra[4..12]))
      else ReadSize(js, extra[4+size..])
  }

  datatype Verdict = Throws | Answered(found: bool) | NextAt(offset: nat)

  function ReadEntry(js: Runtime, file: seq<byte>, offset: nat, name: string, minimumSize: int): Verdict {
    var header := Slice(file, 46, offset);
    if header.None? then Throws
    else if Number(header.value[0..4]) != ENTRY_SIGNATURE then Answered(false)
    else
      var h := header.value;
      var n, x, c := Number(h[28..30]), Number(h[30..32]), Number(h[32..34]);
      var tail := Slice(file, n + x + c, offset + 46);
      if tail.None? then Throws
      else if js.decode(tail.value[..n]) == name then
        Answered(Number(h[24..28]) == SENTINEL && ReadSize(js, tail.value[n..n+x]) >= minimumSize)
      else NextAt(offset + 46 + n + x + c)
  }

  function Scan(js: Runtime, file: seq<byte>, offset: nat, count: nat, name: string, minimumSize: int): Option<bool>
    decreases count
  {
    if count == 0 then Some(false) else
      match ReadEntry(js, file, offset, name, minimumSize)
      case Throws => None
      case Answered(found) => Some(found)
      case NextAt(next) => Scan(js, file, next, count - 1, name, minimumSize)
  }

  /** What the end of the file is to be searched in. */
  function TailOf(file: seq<byte>): seq<byte> { if |file| <= TAIL then file else file[|file|-TAIL..] }

  /** The buffer for the tail when its one read gave `n` bytes; the rest of it is zero. */
  function TailBuffer(file: seq<byte>, n: nat): seq<byte>
    requires n <= |TailOf(file)|
  {
    TailOf(file)[..n] + seq(|TailOf(file)| - n, _ => 0)
  }

  function Lookup(js: Runtime, file: seq<byte>, tailRead: nat, name: string, minimumSize: int): Option<bool>
    requires tailRead <= |TailOf(file)|
  {
    var tail := TailBuffer(file, tailRead);
    var end := LastSignature(tail, |tail| - 4);
    if end < 0 then Some(false)
    else if end + 22 > |tail| then None
    else Scan(js, file, Number(tail[end+16..end+20]), Number(tail[end+10..end+12]), name, minimumSize)
  }

  /** A positioned read: at least one byte unless at the end, but possibly fewer than asked for. */
  method FileRead(file: seq<byte>, data: array<byte>, offset: nat, length: nat, position: nat) returns (bytesRead: nat)
    requires offset + length <= data.Length
    modifies data
    ensures bytesRead <= length && (bytesRead > 0 <==> length > 0 && position < |file|)
    ensures bytesRead > 0 ==> position + bytesRead <= |file|
    ensures data[..offset] == old(data[..offset]) && data[offset+bytesRead..] == old(data[offset+bytesRead..])
    ensures bytesRead > 0 ==> data[offset..offset+bytesRead] == file[position..position+bytesRead]
  {
    if position >= |file| || length == 0 { return 0; }
    var available := if length < |file| - position then length else |file| - position;
    bytesRead :| 1 <= bytesRead <= available;
    ghost var before := data[..];
    for i := 0 to bytesRead
      invariant forall k :: 0 <= k < offset || offset + i <= k < data.Length ==> data[k] == before[k]
      invariant forall k :: offset <= k < offset + i ==> data[k] == file[position + (k - offset)]
    {
      data[offset+i] := file[position+i];
    }
    SlicesAre(before, data[..], file[position..position+bytesRead], offset);
  }

  lemma SlicesAre(before: seq<byte>, after: seq<byte>, written: seq<byte>, offset: nat)
    requires offset + |written| <= |before| == |after|
    requires forall k :: 0 <= k < offset || offset + |written| <= k < |before| ==> after[k] == before[k]
    requires forall k :: offset <= k < offset + |written| ==> after[k] == written[k - offset]
    ensures after[..offset] == before[..offset] && after[offset+|written|..] == before[offset+|written|..]
    ensures after[offset..offset+|written|] == written
  {
  }

  method ReadAt(file: seq<byte>, size: nat, position: nat) returns (data: Option<seq<byte>>)
    ensures data == Slice(file, size, position)
  {
    var buffer := new byte[size](_ => 0);
    var offset := 0;
    while offset < size
      invariant 0 <= offset <= size && (offset > 0 ==> position + offset <= |file|)
      invariant offset > 0 ==> buffer[..offset] == file[position..position+offset]
    {
      var bytesRead := FileRead(file, buffer, offset, size - offset, position + offset);
      if bytesRead == 0 { return None; }
      Extended(file, position, offset, bytesRead, buffer[..]);
      offset := offset + bytesRead;
    }
    assert buffer[..] == buffer[..size];
    return Some(buffer[..]);
  }

  lemma Extended(file: seq<byte>, position: nat, offset: nat, more: nat, data: seq<byte>)
    requires offset + more <= |data| && position + offset + more <= |file|
    requires offset > 0 ==> data[..offset] == file[position..position+offset]
    requires data[offset..offset+more] == file[position+offset..position+offset+more]
    ensures data[..offset+more] == file[position..position+offset+more]
  {
    assert data[..offset+more] == data[..offset] + data[offset..offset+more];
    assert file[position..position+offset+more] ==
      file[position..position+offset] + file[position+offset..position+offset+more];
  }

  method FindSignature(data: seq<byte>) returns (at: int)
    ensures at == LastSignature(data, |data| - 4)
  {
    var i := |data| - 4;
    while i >= 0
      invariant i <= |data| - 4 && LastSignature(data, i) == LastSignature(data, |data| - 4)
    {
      if Number(data[i..i+4]) == END_SIGNATURE { return i; }
      i := i - 1;
    }
    return -1;
  }

  method Zip64UncompressedSize(js: Runtime, extra: seq<byte>) returns (size: nat)
    ensures size == ReadSize(js, extra)
  {
    var offset := 0;
    while offset + 4 <= |extra|
      invariant offset <= |extra| && ReadSize(js, extra[offset..]) == ReadSize(js, extra)
      decreases |extra| - offset
    {
      ghost var rest := extra[offset..];
      assert extra[offset+2..offset+4] == rest[2..4] && extra[offset..offset+2] == rest[0..2];
      var length := Number(extra[offset+2..offset+4]);
      if offset + 4 + length > |extra| { return 0; }
      if Number(extra[offset..offset+2]) == ZIP64_ID && length >= 8 {
        assert extra[offset+4..offset+12] == rest[4..12];
        return js.toNumber(Number(extra[offset+4..offset+12]));
      }
      assert extra[offset+4+length..] == rest[4+length..];
      offset := offset + 4 + length;
    }
    return 0;
  }

  /** The body of the loop over the entries. */
  method CheckEntry(js: Runtime, file: seq<byte>, offset: nat, name: string, minimumSize: int) returns (v: Verdict)
    ensures v == ReadEntry(js, file, offset, name, minimumSize)
  {
    var header := ReadAt(file, 46, offset);
    if header.None? { return Throws; }
    var h := header.value;
    if Number(h[0..4]) != ENTRY_SIGNATURE { return Answered(false); }
    var n, x, c := Number(h[28..30]), Number(h[30..32]), Number(h[32..34]);
    var tail := ReadAt(file, n + x + c, offset + 46);
    if tail.None? { return Throws; }
    if js.decode(tail.value[..n]) == name {
      if Number(h[24..28]) != SENTINEL { return Answered(false); }
      var size := Zip64UncompressedSize(js, tail.value[n..n+x]);
      return Answered(size >= minimumSize);
    }
    return NextAt(offset + 46 + n + x + c);
  }

  lemma TailRead(file: seq<byte>, tail: seq<byte>, n: nat)
    requires |tail| == |TailOf(file)| && n <= |tail| && tail[n..] == seq(|tail|, _ => 0)[n..]
    requires n > 0 ==> tail[..n] == file[|file|-|tail|..|file|-|tail|+n]
    ensures tail == TailBuffer(file, n)
  {
    assert tail == tail[..n] + tail[n..];
    if n > 0 { assert tail[..n] == TailOf(file)[..n]; }
  }

  /** The tail is read once, and how much of it that gave is not checked. */
  method ReadTail(file: seq<byte>) returns (tail: seq<byte>, tailRead: nat)
    ensures tailRead <= |TailOf(file)| && (tailRead == 0 ==> file == []) && tail == TailBuffer(file, tailRead)
  {
    hide TailBuffer;
    var size := if |file| <= TAIL then |file| else TAIL;
    var buffer := new byte[size](_ => 0);
    var bytesRead := FileRead(file, buffer, 0, size, |file| - size);
    tail, tailRead := buffer[..], bytesRead;
    TailRead(file, tail, tailRead);
  }

  method HasZip64Entry(js: Runtime, file: seq<byte>, name: string, minimumSize: int)
    returns (found: Option<bool>, tailRead: nat)
    ensures tailRead <= |TailOf(file)| && (tailRead == 0 ==> file == [])
    ensures found == Lookup(js, file, tailRead, name, minimumSize)
  {
    hide Number, ReadEntry, LastSignature, TailBuffer;
    var tail;
    tail, tailRead := ReadTail(file);
    var end := FindSignature(tail);
    if end < 0 { return Some(false), tailRead; }
    if end + 22 > |tail| { return None, tailRead; }
    var offset, count := Number(tail[end+16..end+20]), Number(tail[end+10..end+12]);
    ghost var expected := Scan(js, file, offset, count, name, minimumSize);
    for i := 0 to count
      invariant Scan(js, file, offset, count - i, name, minimumSize) == expected
    {
      var verdict := CheckEntry(js, file, offset, name, minimumSize);
      match verdict
      case Throws => return None, tailRead;
      case Answered(answer) => return Some(answer), tailRead;
      case NextAt(next) => offset := next;
    }
    return Some(false), tailRead;
  }

  // ---------------------------------------------------------------- the reader inverts the writer

  lemma HeaderFields(e: Entry)
    requires FieldsFit(e)
    ensures var h := WriteHeader(e);
      && |h| == 46 && Number(h[0..4]) == ENTRY_SIGNATURE && Number(h[24..28]) == e.size
      && Number(h[28..30]) == |e.name| && Number(h[30..32]) == |WriteExtras(e.extras)|
        && Number(h[32..34]) == |e.comment|
  {
    hide LittleEndian, Number, WriteExtras;
    var h := WriteHeader(e);
    Widths();
    NumberRoundTrip(ENTRY_SIGNATURE, 4);
    NumberRoundTrip(e.size, 4);
    NumberRoundTrip(|e.name|, 2);
    NumberRoundTrip(|WriteExtras(e.extras)|, 2);
    NumberRoundTrip(|e.comment|, 2);
    assert h[0..4] == LittleEndian(ENTRY_SIGNATURE, 4);
    assert h[24..28] == LittleEndian(e.size, 4);
    assert h[28..30] == LittleEndian(|e.name|, 2);
    assert h[30..32] == LittleEndian(|WriteExtras(e.extras)|, 2);
    assert h[32..34] == LittleEndian(|e.comment|, 2);
  }

  lemma {:induction false} ExtrasRead(js: Runtime, extras: seq<Extra>)
    requires forall x :: x in extras ==> x.id < U16 && |x.data| < U16
    requires ConvertsExactly(js) && SizeIn(extras) <= EXACT
    ensures ReadSize(js, WriteExtras(extras)) == SizeIn(extras)
  {
    hide LittleEndian, Number;
    if extras == [] {
    } else {
      var x, rest, w := extras[0], WriteExtras(extras[1..]), WriteExtras(extras);
      Widths();
      NumberRoundTrip(x.id, 2);
      NumberRoundTrip(|x.data|, 2);
      assert w[0..2] == LittleEndian(x.id, 2);
      assert w[2..4] == LittleEndian(|x.data|, 2);
      assert w[4+|x.data|..] == rest;
      if |x.data| >= 8 { assert w[4..12] == x.data[..8]; }
      if !(x.id == ZIP64_ID && |x.data| >= 8) { ExtrasRead(js, extras[1..]); }
    }
  }

  lemma SliceAt(file: seq<byte>, pre: seq<byte>, part: seq<byte>, post: seq<byte>)
    requires file == pre + (part + post)
    ensures Slice(file, |part|, |pre|) == Some(part)
  {
    assert file[|pre|..|pre|+|part|] == part;
  }

  lemma EntryRead(js: Runtime, file: seq<byte>, pre: seq<byte>, e: Entry, post: seq<byte>, name: string,
                  minimumSize: int)
    requires ConvertsExactly(js) && FieldsFit(e) && file == pre + (WriteEntry(e) + post)
    ensures ReadEntry(js, file, |pre|, name, minimumSize) ==
      if js.decode(e.name) == name then Answered(e.size == SENTINEL && SizeIn(e.extras) >= minimumSize)
      else NextAt(|pre| + |WriteEntry(e)|)
  {
    hide WriteHeader, WriteExtras, ReadSize, SizeIn, Number, Slice;
    var extra := WriteExtras(e.extras);
    var rest := e.name + extra + e.comment;
    HeaderFields(e);
    ExtrasRead(js, e.extras);
    assert WriteEntry(e) + post == WriteHeader(e) + (rest + post);
    SliceAt(file, pre, WriteHeader(e), rest + post);
    assert file == (pre + WriteHeader(e)) + (rest + post);
    SliceAt(file, pre + WriteHeader(e), rest, post);
    assert rest[..|e.name|] == e.name && rest[|e.name|..|e.name|+|extra|] == extra;
  }

  lemma {:induction false} EntriesScanned(js: Runtime, file: seq<byte>, pre: seq<byte>, entries: seq<Entry>,
        post: seq<byte>, name: string, minimumSize: int)
    requires ConvertsExactly(js) && (forall e :: e in entries ==> FieldsFit(e))
      && file == pre + (WriteEntries(entries) + post)
    ensures Scan(js, file, |pre|, |entries|, name, minimumSize) == Some(Answer(js, entries, name, minimumSize))
    decreases |entries|
  {
    hide ReadEntry, WriteEntry, FieldsFit, SizeIn;
    if entries == [] {
    } else {
      var e, rest := entries[0], WriteEntries(entries[1..]);
      assert WriteEntries(entries) + post == WriteEntry(e) + (rest + post);
      EntryRead(js, file, pre, e, rest + post, name, minimumSize);
      assert file == (pre + WriteEntry(e)) + (rest + post);
      EntriesScanned(js, file, pre + WriteEntry(e), entries[1..], post, name, minimumSize);
    }
  }

  lemma EndFields(a: Archive)
    requires |a.disks| == 6 && |a.entries| < U16 && |a.contents| < U32
    ensures var w := WriteEnd(a);
      && |w| == 22 && Number(w[0..4]) == END_SIGNATURE
      && Number(w[10..12]) == |a.entries| && Number(w[16..20]) == |a.contents|
  {
    hide LittleEndian, Number;
    var w := WriteEnd(a);
    Widths();
    NumberRoundTrip(END_SIGNATURE, 4);
    NumberRoundTrip(|a.entries|, 2);
    NumberRoundTrip(|a.contents|, 4);
    assert w[0..4] == LittleEndian(END_SIGNATURE, 4);
    assert w[10..12] == LittleEndian(|a.entries|, 2);
    assert w[16..20] == LittleEndian(|a.contents|, 4);
  }

  lemma {:induction false} LastSignatureIs(data: seq<byte>, i: int, at: int)
    requires at <= i <= |data| - 4 && SignatureAt(data, at)
    requires forall k :: at < k <= i ==> !SignatureAt(data, k)
    ensures LastSignature(data, i) == at
    decreases i - at
  {
    if at < i {
      assert !SignatureAt(data, i);
      LastSignatureIs(data, i - 1, at);
    }
  }

  lemma TailSlice(file: seq<byte>, i: int, j: int)
    requires 0 <= i <= j <= |TailOf(file)|
    ensures TailOf(file)[i..j] == file[|file|-|TailOf(file)|+i..|file|-|TailOf(file)|+j]
  {
  }

  /** With 22 bytes of end record last and no stray signature, the backward search ends at the record. */
  lemma EndFound(file: seq<byte>, before: seq<byte>, end: seq<byte>)
    requires file == before + end && |end| == 22 && Number(end[0..4]) == END_SIGNATURE && !StraySignature(file)
    ensures var tail := TailOf(file);
      && |tail| >= 22 && LastSignature(tail, |tail| - 4) == |tail| - 22
      && tail[|tail|-22..] == end
  {
    hide Number;
    var tail := TailOf(file);
    var at := |tail| - 22;
    TailSlice(file, at, |tail|);
    assert file[|file|-22..|file|] == end;
    assert tail[at..at+4] == tail[at..|tail|][0..4] == end[0..4];
    forall k | at < k <= |tail| - 4 ensures !SignatureAt(tail, k) {
      TailSlice(file, k, k + 4);
      assert !SignatureAt(file, |file| - |tail| + k);
    }
    LastSignatureIs(tail, |tail| - 4, at);
  }

  lemma FromThere(data: seq<byte>, at: nat, i: nat, j: nat)
    requires at + j <= |data| && i <= j
    ensures data[at+i..at+j] == data[at..][i..j]
  {
  }

  /** A read that misses only zero bytes gives the tail. */
  lemma TailComplete(file: seq<byte>, n: nat)
    requires n <= |TailOf(file)| && forall k :: n <= k < |TailOf(file)| ==> TailOf(file)[k] == 0
    ensures TailBuffer(file, n) == TailOf(file)
  {
    var tail := TailOf(file);
    assert tail == tail[..n] + seq(|tail| - n, _ => 0);
  }

  /** For every archive of the reference writer with 32-bit directory fields, sizes within 2^53, no archive
      comment and no stray end signature in its last 21 bytes, the lookup stays within the file and answers
      exactly whether the first entry of the name carries the sentinel and a large enough ZIP64 size, if the
      read of the tail misses nothing but zero bytes, such as the length of the comment. */
  lemma {:induction false} LookupInvertsWriter(js: Runtime, a: Archive, tailRead: nat, name: string, minimumSize: int)
    requires ConvertsExactly(js) && Writable(a)
    requires tailRead <= |TailOf(Write(a))|
    requires forall k :: tailRead <= k < |TailOf(Write(a))| ==> TailOf(Write(a))[k] == 0
    ensures Lookup(js, Write(a), tailRead, name, minimumSize) == Some(Answer(js, a.entries, name, minimumSize))
  {
    hide Number, Scan, Answer, WriteEnd, WriteEntries, LastSignature, TailOf, TailBuffer, StraySignature, FieldsFit,
      ConvertsExactly;
    var file, end := Write(a), WriteEnd(a);
    var before := a.contents + (WriteEntries(a.entries) + a.between);
    assert file == before + end;
    EndFields(a);
    TailComplete(file, tailRead);
    EndFound(file, before, end);
    var tail := TailOf(file);
    var at := |tail| - 22;
    FromThere(tail, at, 16, 20);
    FromThere(tail, at, 10, 12);
    assert file == a.contents + (WriteEntries(a.entries) + (a.between + end));
    EntriesScanned(js, file, a.contents, a.entries, a.between + end, name, minimumSize);
  }
}
