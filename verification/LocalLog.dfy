/** The client's local file: a memory region holding the file and, in its last eight bytes, the
    sequence number; a cursor; a file size. Refines a POSIX file, a byte sequence with a cursor. */
module LocalLog {
  import opened Bytes

  /** The value of a client's local fields. `bytes` is the whole region, slot included. */
  datatype Log = Log(bytes: seq<byte>, cursor: nat, size: nat, seqNext: nat) {
    function Slot(): int { |bytes| - WORD }

    predicate Valid() {
      && WORD <= |bytes| < TWO64 && cursor <= |bytes| && size < TWO64 && seqNext < TWO64
    }
  }

  datatype Whence = Set | Cur | End | Unsupported

  /** Subtraction and addition on size_t. */
  function Sub64(a: nat, b: nat): nat {
    (a - b) % TWO64
  }

  // ---- what each call does to the fields ----

  /** memcpy, which may be given any address when there is nothing to copy. */
  function Copied(bytes: seq<byte>, pos: nat, piece: seq<byte>): (r: seq<byte>)
    requires piece == [] || pos + |piece| <= |bytes|
    ensures |r| == |bytes|
  {
    if piece == [] then bytes else Splice(bytes, pos, piece)
  }

  /** Bytes a write of `count` at pos takes. */
  function WriteCount(l: Log, pos: nat, count: nat): nat
    requires pos <= |l.bytes| || count == 0
  {
    if count == 0 then 0 else Min(count, |l.bytes| - pos)
  }

  /** A write at pos, an offset taken without a sign. */
  function WriteAt(l: Log, pos: nat, buf: seq<byte>): Log
    requires l.Valid() && (pos <= |l.bytes| || buf == [])
  {
    var n := WriteCount(l, pos, |buf|);
    l.(bytes := Splice(Copied(l.bytes, pos, buf[..n]), l.Slot(), ToLE(l.seqNext, WORD)),
       size := Max(l.size, pos + n),
       seqNext := (l.seqNext + 1) % TWO64)
  }

  function AppendTo(l: Log, buf: seq<byte>): Log
    requires l.Valid()
  {
    WriteAt(l, l.cursor, buf).(cursor := l.cursor + Min(|buf|, |l.bytes| - l.cursor))
  }

  /** Bytes a read of `count` at pos takes: the size left is computed without a sign. */
  function ReadCount(l: Log, pos: nat, count: nat): nat {
    Min(count, Sub64(l.size, pos))
  }

  function SeekTo(l: Log, offset: int, whence: Whence): nat
    requires l.Valid()
  {
    match whence
    case Set => Min(offset % TWO64, |l.bytes| - 1)
    case Cur => Min((offset + l.cursor) % TWO64, |l.bytes| - 1)
    case End => l.size
    case Unsupported => l.cursor
  }

  /** A negative length is a huge one: it is compared and stored without a sign. */
  function TruncateTo(l: Log, length: int): Log
    requires l.Valid()
  {
    var n := length % TWO64;
    if n < l.cursor then l.(bytes := Splice(l.bytes, n, Zeros(l.cursor - n)), cursor := n, size := n)
    else l.(size := n)
  }

  class CSLClientLog {
    const buffer: array<byte>
    var bufOffset: nat
    var fileSize: nat
    var seqNum: nat

    ghost function View(): Log
      reads this, buffer
    {
      Log(buffer[..], bufOffset, fileSize, seqNum)
    }

    constructor (mr: array<byte>)
      requires WORD <= mr.Length < TWO64
      ensures View() == Log(mr[..], 0, 0, 0) && buffer == mr && View().Valid()
    {
      buffer := mr;
      bufOffset, fileSize, seqNum := 0, 0, 0;
    }

    method MemCopy(off: nat, buf: seq<byte>)
      requires off + |buf| <= buffer.Length
      modifies buffer
      ensures buffer[..] == Splice(old(buffer[..]), off, buf)
    {
      forall i | 0 <= i < |buf| {
        buffer[off + i] := buf[i];
      }
    }

    method StoreSeq()
      requires WORD <= buffer.Length
      modifies this`seqNum, buffer
      ensures buffer[..] == Splice(old(buffer[..]), buffer.Length - WORD, ToLE(old(seqNum), WORD))
      ensures seqNum == (old(seqNum) + 1) % TWO64
    {
      MemCopy(buffer.Length - WORD, ToLE(seqNum, WORD));
      seqNum := (seqNum + 1) % TWO64;
    }

    method Append(buf: seq<byte>) returns (n: nat)
      requires View().Valid()
      modifies this, buffer
      ensures View() == AppendTo(old(View()), buf)
      ensures n == Min(|buf|, buffer.Length - old(bufOffset))
    {
      hide Splice, ToLE;
      n := Min(|buf|, buffer.Length - bufOffset);
      var curOff := bufOffset;
      bufOffset := bufOffset + n;
      fileSize := Max(fileSize, bufOffset);
      MemCopy(curOff, buf[..n]);
      StoreSeq();
    }

    /** A negative position is a huge one. Requires only what keeps the copy inside the region. */
    method WritePos(buf: seq<byte>, position: int) returns (n: nat)
      requires View().Valid() && (position % TWO64 <= buffer.Length || buf == [])
      modifies this, buffer
      ensures View().Valid() && View() == WriteAt(old(View()), position % TWO64, buf)
      ensures n == WriteCount(old(View()), position % TWO64, |buf|)
    {
      hide Splice, ToLE;
      var pos := position % TWO64;
      n := Min(|buf|, Sub64(buffer.Length, pos));
      fileSize := Max(pos + n, fileSize);
      if n > 0 {
        MemCopy(pos, buf[..n]);
      }
      StoreSeq();
    }

    /** Requires only what keeps the copy inside the region. */
    method Read(size: nat) returns (buf: seq<byte>)
      requires View().Valid() && bufOffset + ReadCount(View(), bufOffset, size) <= buffer.Length
      modifies this`bufOffset
      ensures var k := ReadCount(old(View()), old(bufOffset), size);
              && buf == old(buffer[bufOffset..bufOffset + k])
              && View() == old(View()).(cursor := old(bufOffset) + k)
    {
      var k := Min(size, Sub64(fileSize, bufOffset));
      var curOff := bufOffset;
      bufOffset := bufOffset + k;
      buf := buffer[curOff..curOff + k];
    }

    method ReadPos(size: nat, pos: nat) returns (buf: seq<byte>)
      requires View().Valid() && pos + ReadCount(View(), pos, size) <= buffer.Length
      ensures buf == buffer[pos..pos + ReadCount(View(), pos, size)]
    {
      var k := Min(size, Sub64(fileSize, pos));
      buf := buffer[pos..pos + k];
    }

    method Seek(offset: int, whence: Whence) returns (pos: nat)
      requires View().Valid()
      modifies this`bufOffset
      ensures pos == SeekTo(old(View()), offset, whence)
      ensures View() == old(View()).(cursor := pos)
    {
      match whence {
        case Set => bufOffset := Min(offset % TWO64, buffer.Length - 1);
        case Cur => bufOffset := Min((offset + bufOffset) % TWO64, buffer.Length - 1);
        case End => bufOffset := fileSize;
        case Unsupported =>
      }
      pos := bufOffset;
    }

    method Truncate(length: int)
      requires View().Valid()
      modifies this, buffer
      ensures View().Valid() && View() == TruncateTo(old(View()), length)
    {
      var n := length % TWO64;
      fileSize := n;
      if n < bufOffset {
        var end := bufOffset;
        bufOffset := n;
        MemCopy(n, Zeros(end - n));
      }
    }
  }

  // ---- the POSIX file it stands for ----

  datatype File = File(content: seq<byte>, cursor: nat)

  function Extend(content: seq<byte>, n: nat): (r: seq<byte>)
    ensures |r| == Max(|content|, n)
  {
    if |content| < n then content + Zeros(n - |content|) else content
  }

  /** pwrite: nothing happens for no bytes; otherwise a gap before pos reads as zeros. */
  function PWrite(f: File, pos: nat, buf: seq<byte>): File {
    if buf == [] then f else f.(content := Splice(Extend(f.content, pos + |buf|), pos, buf))
  }

  function Write(f: File, buf: seq<byte>): File {
    PWrite(f, f.cursor, buf).(cursor := f.cursor + |buf|)
  }

  function PRead(f: File, pos: nat, count: nat): seq<byte> {
    if pos >= |f.content| then [] else f.content[pos..Min(pos + count, |f.content|)]
  }

  /** ftruncate, with this log's one extra: a cursor beyond the new end is pulled back. */
  function FTruncate(f: File, length: nat): File {
    File(if length <= |f.content| then f.content[..length] else Extend(f.content, length), Min(f.cursor, length))
  }

  function Abs(l: Log): File
    requires l.size <= |l.bytes|
  {
    File(l.bytes[..l.size], l.cursor)
  }

  /** The file ends below the slot, and holes beyond its end are zero. */
  predicate Sound(l: Log) {
    && l.Valid() && l.size <= l.Slot() && l.cursor <= l.Slot()
    && forall i :: l.size <= i < l.Slot() ==> l.bytes[i] == 0
  }

  datatype Call =
    | CallWrite(buf: seq<byte>)
    | CallPWrite(buf: seq<byte>, pos: nat)
    | CallRead(count: nat)
    | CallPRead(count: nat, pos: nat)
    | CallSeek(offset: int, whence: Whence)
    | CallTruncate(length: nat)

  datatype Answer = Count(n: nat) | Got(data: seq<byte>) | Done

  /** A call as a caller may make it: writes stay below the slot and are not empty past the
      end, reads start inside the file, seeks land inside the region, and a shrinking truncate
      finds the cursor at or past the end. */
  predicate Proper(l: Log, c: Call) {
    match c
    case CallWrite(buf) => l.cursor + |buf| <= l.Slot() && (buf != [] || l.cursor <= l.size)
    case CallPWrite(buf, pos) => pos + |buf| <= l.Slot() && (buf != [] || pos <= l.size)
    case CallRead(count) => l.cursor <= l.size
    case CallPRead(count, pos) => pos <= l.size
    case CallSeek(offset, whence) =>
      (match whence
       case Set => 0 <= offset <= l.Slot()
       case Cur => 0 <= offset + l.cursor <= l.Slot()
       case End => true
       case Unsupported => true)
    case CallTruncate(length) => length <= l.Slot() && (length >= l.size || l.cursor >= l.size)
  }

  function LogStep(l: Log, c: Call): (Log, Answer)
    requires Sound(l) && Proper(l, c)
  {
    match c
    case CallWrite(buf) => (AppendTo(l, buf), Count(Min(|buf|, |l.bytes| - l.cursor)))
    case CallPWrite(buf, pos) => (WriteAt(l, pos, buf), Count(WriteCount(l, pos, |buf|)))
    case CallRead(count) =>
      var k := ReadCount(l, l.cursor, count);
      (l.(cursor := l.cursor + k), Got(l.bytes[l.cursor..l.cursor + k]))
    case CallPRead(count, pos) => (l, Got(l.bytes[pos..pos + ReadCount(l, pos, count)]))
    case CallSeek(offset, whence) =>
      var pos := SeekTo(l, offset, whence);
      (l.(cursor := pos), Count(pos))
    case CallTruncate(length) => (TruncateTo(l, length), Done)
  }

  function FileStep(f: File, c: Call): (File, Answer) {
    match c
    case CallWrite(buf) => (Write(f, buf), Count(|buf|))
    case CallPWrite(buf, pos) => (PWrite(f, pos, buf), Count(|buf|))
    case CallRead(count) =>
      var got := PRead(f, f.cursor, count);
      (f.(cursor := f.cursor + |got|), Got(got))
    case CallPRead(count, pos) => (f, Got(PRead(f, pos, count)))
    case CallSeek(offset, whence) =>
      var pos := match whence
        case Set => Max(offset, 0)
        case Cur => Max(offset + f.cursor, 0)
        case End => |f.content|
        case Unsupported => f.cursor;
      (f.(cursor := pos), Count(pos))
    case CallTruncate(length) => (FTruncate(f, length), Done)
  }

  lemma WriteRefines(l: Log, pos: nat, buf: seq<byte>)
    requires Sound(l) && pos + |buf| <= l.Slot() && (buf != [] || pos <= l.size)
    ensures Sound(WriteAt(l, pos, buf))
    ensures Abs(WriteAt(l, pos, buf)).content == PWrite(Abs(l), pos, buf).content
  {
    var t := WriteAt(l, pos, buf);
    assert buf[..|buf|] == buf;
    var want := PWrite(Abs(l), pos, buf).content;
    assert |want| == t.size;
    forall i | 0 <= i < t.size ensures t.bytes[i] == want[i] {
    }
  }

  lemma TruncateRefines(l: Log, length: nat)
    requires Sound(l) && length <= l.Slot() && (length >= l.size || l.cursor >= l.size)
    ensures Sound(TruncateTo(l, length))
    ensures Abs(TruncateTo(l, length)) == FTruncate(Abs(l), length)
  {
    var t := TruncateTo(l, length);
    assert Abs(t).content == FTruncate(Abs(l), length).content;
  }

  /** One proper call keeps the log sound and gives the file's answer and the file's effect. */
  lemma StepRefines(l: Log, c: Call)
    requires Sound(l) && Proper(l, c)
    ensures var (l', a) := LogStep(l, c);
            Sound(l') && FileStep(Abs(l), c) == (Abs(l'), a)
  {
    hide Sound, Splice, ToLE, TruncateTo, FTruncate;
    match c
    case CallWrite(buf) => AppendRefines(l, buf);
    case CallPWrite(buf, pos) => PWriteRefines(l, buf, pos);
    case CallRead(count) => ReadRefines(l, l.cursor, count);
    case CallPRead(count, pos) => ReadRefines(l, pos, count);
    case CallSeek(offset, whence) => SeekRefines(l, offset, whence);
    case CallTruncate(length) => TruncateRefines(l, length);
  }

  lemma AppendRefines(l: Log, buf: seq<byte>)
    requires Sound(l) && Proper(l, CallWrite(buf))
    ensures Sound(AppendTo(l, buf)) && Abs(AppendTo(l, buf)) == Write(Abs(l), buf)
    ensures Min(|buf|, |l.bytes| - l.cursor) == |buf|
  {
    WriteRefines(l, l.cursor, buf);
    hide Splice, ToLE;
  }

  lemma PWriteRefines(l: Log, buf: seq<byte>, pos: nat)
    requires Sound(l) && Proper(l, CallPWrite(buf, pos))
    ensures Sound(WriteAt(l, pos, buf)) && Abs(WriteAt(l, pos, buf)) == PWrite(Abs(l), pos, buf)
    ensures WriteCount(l, pos, |buf|) == |buf|
  {
    WriteRefines(l, pos, buf);
    hide Splice, ToLE;
  }

  lemma ReadRefines(l: Log, pos: nat, count: nat)
    requires Sound(l) && pos <= l.size
    ensures pos + ReadCount(l, pos, count) <= l.size
    ensures l.bytes[pos..pos + ReadCount(l, pos, count)] == PRead(Abs(l), pos, count)
    ensures |PRead(Abs(l), pos, count)| == ReadCount(l, pos, count)
    ensures Sound(l.(cursor := pos + ReadCount(l, pos, count)))
  {
  }

  lemma SeekRefines(l: Log, offset: int, whence: Whence)
    requires Sound(l) && Proper(l, CallSeek(offset, whence))
    ensures var (l', a) := LogStep(l, CallSeek(offset, whence));
            Sound(l') && FileStep(Abs(l), CallSeek(offset, whence)) == (Abs(l'), a)
  {
  }

  /** Every call of the list is proper when its turn comes. */
  predicate AllProper(l: Log, calls: seq<Call>)
    decreases |calls|
  {
    calls == [] || (Sound(l) && Proper(l, calls[0]) && AllProper(LogStep(l, calls[0]).0, calls[1..]))
  }

  function LogRun(l: Log, calls: seq<Call>): (Log, seq<Answer>)
    requires AllProper(l, calls)
    decreases |calls|
  {
    if calls == [] then (l, []) else
      var (l', a) := LogStep(l, calls[0]);
      var (end, rest) := LogRun(l', calls[1..]);
      (end, [a] + rest)
  }

  function FileRun(f: File, calls: seq<Call>): (File, seq<Answer>)
    decreases |calls|
  {
    if calls == [] then (f, []) else
      var (f', a) := FileStep(f, calls[0]);
      var (end, rest) := FileRun(f', calls[1..]);
      (end, [a] + rest)
  }

  /** Any run of proper calls is indistinguishable from the same run on a file. */
  lemma {:induction false} RunRefines(l: Log, calls: seq<Call>)
    requires Sound(l) && AllProper(l, calls)
    ensures var (end, answers) := LogRun(l, calls);
            Sound(end) && FileRun(Abs(l), calls) == (Abs(end), answers)
    decreases |calls|
  {
    if calls != [] {
      StepRefines(l, calls[0]);
      RunRefines(LogStep(l, calls[0]).0, calls[1..]);
    }
  }

  // ---- every call, also where the code and POSIX part ----

  /** A write at any position: as many bytes as the region has room for, byte by byte, then the
      number over the last eight; nothing else changes but size and counter. */
  lemma WriteIs(l: Log, pos: nat, buf: seq<byte>)
    requires l.Valid() && (pos <= |l.bytes| || buf == [])
    ensures var t := WriteAt(l, pos, buf);
            var n := if buf == [] then 0 else if pos + |buf| <= |l.bytes| then |buf| else |l.bytes| - pos;
            && |t.bytes| == |l.bytes| && t.cursor == l.cursor && t.seqNext == (l.seqNext + 1) % TWO64
            && FromLE(t.bytes[l.Slot()..]) == l.seqNext
            && (forall i :: 0 <= i < l.Slot() ==> t.bytes[i] == if pos <= i < pos + n then buf[i - pos] else l.bytes[i])
            && t.size >= l.size && t.size >= pos + n && (t.size == l.size || t.size == pos + n)
  {
    var t := WriteAt(l, pos, buf);
    assert t.bytes[l.Slot()..] == ToLE(l.seqNext, WORD);
    Word64(l.seqNext);
    hide ToLE, FromLE;
  }

  /** An append is that write at the cursor, and moves the cursor past what was written. */
  lemma AppendIs(l: Log, buf: seq<byte>)
    requires l.Valid()
    ensures var t := AppendTo(l, buf);
            && t.(cursor := l.cursor) == WriteAt(l, l.cursor, buf)
            && t.cursor == if l.cursor + |buf| <= |l.bytes| then l.cursor + |buf| else |l.bytes|
  {
  }

  /** A truncate to any length, taken without a sign: the size is set; a cursor beyond it is pulled
      back, and the bytes between the two, and no others, become zero. */
  lemma TruncateIs(l: Log, length: int)
    requires l.Valid()
    ensures var t, n := TruncateTo(l, length), length % TWO64;
            && t.size == n && t.cursor == (if l.cursor <= n then l.cursor else n) && t.seqNext == l.seqNext
            && |t.bytes| == |l.bytes|
            && forall i :: 0 <= i < |l.bytes| ==> t.bytes[i] == if n <= i < l.cursor then 0 else l.bytes[i]
  {
  }

  /** Shrinking gives the truncated file wherever the cursor is; only what lies beyond it differs. */
  lemma TruncateShrinks(l: Log, length: nat)
    requires l.Valid() && length <= l.size <= l.Slot()
    ensures TruncateTo(l, length).size <= |l.bytes| && Abs(TruncateTo(l, length)) == FTruncate(Abs(l), length)
  {
    assert length % TWO64 == length;
    assert Abs(TruncateTo(l, length)).content == FTruncate(Abs(l), length).content;
  }

  // ---- where the code and POSIX part ----

  /** A read returns what read(2) returns if and only if it starts inside the file or asks for
      nothing: past the end the unsigned difference wraps and the full count is copied. */
  lemma ReadIff(l: Log, pos: nat, count: nat)
    requires Sound(l) && pos <= l.Slot() && count <= l.Slot() - pos
    ensures |PRead(Abs(l), pos, count)| == ReadCount(l, pos, count) <==> pos <= l.size || count == 0
    ensures ReadCount(l, pos, count) == if pos + count <= l.size || pos > l.size then count else l.size - pos
  {
  }

  /** A write of no bytes leaves the file alone if and only if it does not start past the end. */
  lemma EmptyWriteIff(l: Log, pos: nat)
    requires Sound(l) && pos < TWO64
    ensures var t := WriteAt(l, pos, []);
            (t.size <= |t.bytes| && Abs(t).content == PWrite(Abs(l), pos, []).content) <==> pos <= l.size
  {
    if pos <= l.size {
      WriteRefines(l, pos, []);
    } else if pos <= |l.bytes| {
      assert |Abs(WriteAt(l, pos, [])).content| == pos;
    }
  }

  /** A truncate leaves the file below the slot, with zeros beyond the new end whatever it held, if
      and only if the length, taken without a sign, is below the slot, and it does not shrink the
      file or the cursor is at or past the old end. */
  lemma TruncateIff(capacity: nat, cursor: nat, size: nat, length: int)
    requires capacity + WORD < TWO64 && cursor <= capacity && size <= capacity
    ensures (forall l: Log :: Sound(l) && l.Slot() == capacity && l.cursor == cursor && l.size == size
                              ==> Sound(TruncateTo(l, length)))
            <==> length % TWO64 <= capacity && (length % TWO64 >= size || cursor >= size)
  {
    var n := length % TWO64;
    if n <= capacity && (n >= size || cursor >= size) {
      forall l: Log | Sound(l) && l.Slot() == capacity && l.cursor == cursor && l.size == size
        ensures Sound(TruncateTo(l, length))
      {
        assert TruncateTo(l, length) == TruncateTo(l, n);
        TruncateRefines(l, n);
      }
    } else {
      var l := TruncateFails(capacity, cursor, size, length);
    }
  }

  lemma TruncateFails(capacity: nat, cursor: nat, size: nat, length: int) returns (l: Log)
    requires capacity + WORD < TWO64 && cursor <= capacity && size <= capacity
    requires length % TWO64 > capacity || (length % TWO64 < size && cursor < size)
    ensures Sound(l) && l.Slot() == capacity && l.cursor == cursor && l.size == size && !Sound(TruncateTo(l, length))
  {
    l := Log(seq(capacity + WORD, i => if i < size then 1 as byte else 0), cursor, size, 0);
    var t := TruncateTo(l, length);
    assert length % TWO64 <= capacity ==> t.bytes[size - 1] == 1;
  }

  /** Where a seek ends up when lseek's position is outside the region: at its last byte, for the
      start and the cursor; at the end of the file whatever the offset; nowhere else for a whence that
      is not supported. */
  lemma SeekIs(l: Log, offset: int, whence: Whence)
    requires l.Valid() && |l.bytes| <= TWO64 / 2 && -0x8000_0000_0000_0000 <= offset < 0x8000_0000_0000_0000
    ensures match whence
            case Set => SeekTo(l, offset, whence) == if 0 <= offset < |l.bytes| then offset else |l.bytes| - 1
            case Cur =>
              SeekTo(l, offset, whence) ==
              if 0 <= offset + l.cursor < |l.bytes| then offset + l.cursor else |l.bytes| - 1
            case End => SeekTo(l, offset, whence) == l.size
            case Unsupported => SeekTo(l, offset, whence) == l.cursor
  {
  }

  /** lseek's position is reached if and only if it is inside the region (from the start or the
      cursor), or the offset from the end is zero. */
  lemma SeekIff(l: Log, offset: int, whence: Whence)
    requires Sound(l) && 0 < offset + TWO64 && offset + l.cursor < TWO64 && !whence.Unsupported?
    ensures SeekTo(l, offset, whence) ==
            (match whence case Set => offset case Cur => offset + l.cursor case _ => offset + l.size)
            <==> match whence
                 case Set => 0 <= offset < |l.bytes|
                 case Cur => 0 <= offset + l.cursor < |l.bytes|
                 case _ => offset == 0
  {
  }
}
