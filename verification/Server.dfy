/** A replication peer: the table from files to memory regions, the connections, and the two
    numbers it reports when a client recovers. */
module Server {
  import opened Bytes
  import opened MrPool
  import opened Recovery
  import opened Replication

  /** One open file: the socket its queue pair talks to and its region. */
  datatype LocalConData = LocalConData(socket: int, buffer: Mr)

  /** How the bytes of a region are read: the file below, the sequence word in the last eight. */
  function Decode(mr: seq<byte>): Region
    requires WORD <= |mr|
  {
    Region(mr[..|mr| - WORD], FromLE(mr[|mr| - WORD..]))
  }

  /** A data write below the slot changes the file part only. */
  lemma DecodeData(mr: seq<byte>, off: nat, bytes: seq<byte>)
    requires off + |bytes| + WORD <= |mr|
    ensures Decode(Splice(mr, off, bytes)) ==
            Region(Splice(mr[..|mr| - WORD], off, bytes), Decode(mr).word)
  {
    assert Splice(mr, off, bytes)[|mr| - WORD..] == mr[|mr| - WORD..];
    assert Splice(mr, off, bytes)[..|mr| - WORD] == Splice(mr[..|mr| - WORD], off, bytes);
  }

  /** The client's sequence word lands in the slot the server reads, and only there, when both
      regions have the same size. */
  lemma DecodeWord(mr: seq<byte>, word: nat)
    requires WORD <= |mr| && word < TWO64
    ensures Decode(Splice(mr, |mr| - WORD, ToLE(word, WORD))) == Region(Decode(mr).data, word)
  {
    hide ToLE, FromLE;
    Word64(word);
    assert Splice(mr, |mr| - WORD, ToLE(word, WORD))[|mr| - WORD..] == ToLE(word, WORD);
    assert Splice(mr, |mr| - WORD, ToLE(word, WORD))[..|mr| - WORD] == mr[..|mr| - WORD];
  }

  /** A posted message as a write to the region's bytes. */
  function WriteMsg(mr: seq<byte>, m: Msg): seq<byte>
    requires WORD <= |mr| && Fits(m, |mr| - WORD)
  {
    match m
    case Data(_, off, bytes) => Splice(mr, off, bytes)
    case Word(_, num) => Splice(mr, |mr| - WORD, ToLE(num, WORD))
  }

  /** Delivering a message to a replica's region, byte by byte, is what the protocol's delivery
      step does to its file part and its word. */
  lemma DeliverRefines(mr: seq<byte>, p: Peer)
    requires WORD <= |mr| && Decode(mr) == Region(p.data, p.word)
    requires p.chan != [] && Fits(p.chan[0], |p.data|) && (p.chan[0].Word? ==> p.chan[0].num < TWO64)
    ensures Decode(WriteMsg(mr, p.chan[0])) == Region(DeliverAt(p).data, DeliverAt(p).word)
  {
    match p.chan[0]
    case Data(_, off, bytes) => DecodeData(mr, off, bytes);
    case Word(_, num) => DecodeWord(mr, num);
  }

  /** What the server reads after a client with a buffer of `client` bytes stored its word. */
  function WordRead(mr: seq<byte>, client: nat, word: nat): nat
    requires WORD <= client <= |mr|
  {
    Decode(Splice(mr, client - WORD, ToLE(word, WORD))).word
  }

  /** Sequence-slot agreement: a client whose buffer has `client` bytes writes its word at
      client - 8; a server region at least that large reads back every word so written if and
      only if the two sizes are equal. */
  lemma SlotAgreement(client: nat, server: nat)
    requires WORD <= client <= server
    ensures (forall mr: seq<byte>, word: nat :: |mr| == server && word < TWO64 ==> WordRead(mr, client, word) == word)
            <==> client == server
  {
    hide ToLE, FromLE, Splice;
    if client == server {
      forall mr: seq<byte>, word: nat | |mr| == server && word < TWO64 ensures WordRead(mr, client, word) == word {
        DecodeWord(mr, word);
      }
    } else {
      hide WordRead;
      var mr := Zeros(server);
      SameTail(mr, client);
      assert !(WordRead(mr, client, 0) == 0 && WordRead(mr, client, 0x100_0000_0000_0000) == 0x100_0000_0000_0000);
    }
  }

  /** The last byte is out of the client's reach, so of two words that differ in their top byte
      at least one is not read back from a larger region. */
  lemma SameTail(mr: seq<byte>, client: nat)
    requires WORD <= client < |mr|
    ensures !(WordRead(mr, client, 0) == 0 && WordRead(mr, client, 0x100_0000_0000_0000) == 0x100_0000_0000_0000)
  {
    hide ToLE, FromLE;
    var x := Splice(mr, client - WORD, ToLE(0, WORD))[|mr| - WORD..];
    var y := Splice(mr, client - WORD, ToLE(0x100_0000_0000_0000, WORD))[|mr| - WORD..];
    assert x[7] == y[7] == mr[|mr| - 1];
    LastByte(x);
    LastByte(y);
  }

  /** The most significant byte of a stored word. */
  lemma LastByte(s: seq<byte>)
    requires |s| == WORD
    ensures FromLE(s) / 0x100_0000_0000_0000 == s[7] as int
  {
    assert s[1..][1..] == s[2..] && s[2..][1..] == s[3..] && s[3..][1..] == s[4..];
    assert s[4..][1..] == s[5..] && s[5..][1..] == s[6..] && s[6..][1..] == s[7..] && s[7..][1..] == [];
    assert FromLE(s[7..]) == s[7] as int;
    assert FromLE(s[6..]) == s[6] as int + 256 * FromLE(s[7..]);
    assert FromLE(s[5..]) == s[5] as int + 256 * FromLE(s[6..]);
    assert FromLE(s[4..]) == s[4] as int + 256 * FromLE(s[5..]);
    assert FromLE(s[3..]) == s[3] as int + 256 * FromLE(s[4..]);
    assert FromLE(s[2..]) == s[2] as int + 256 * FromLE(s[3..]);
    assert FromLE(s[1..]) == s[1] as int + 256 * FromLE(s[2..]);
  }

  class CSLServer {
    const mrPool: NCLMrPool
    var localCons: map<string, LocalConData>
    /** The sockets of existing_qps. */
    var existingQps: set<int>

    /** Each open file has its own region, with room for the word, held by no one else and not free. */
    ghost predicate Valid()
      reads this, mrPool, mrPool.freeMrs
    {
      && mrPool.Valid()
      && (forall f :: f in localCons ==> localCons[f].buffer in mrPool.held && WORD <= localCons[f].buffer.Length)
      && (forall f, g :: f in localCons && g in localCons && localCons[f].buffer == localCons[g].buffer ==> f == g)
    }

    constructor (preAllocate: nat, mrSize: nat)
      ensures Valid() && mrPool.Uniform(mrSize) && localCons == map[] && existingQps == {}
    {
      mrPool := new NCLMrPool(preAllocate, mrSize);
      localCons, existingQps := map[], {};
    }

    /** When every region ever asked for has had one size, any request of that size can be served,
        and every open file's region has exactly that size. */
    lemma UniformRegions(size: nat)
      requires Valid() && mrPool.Uniform(size)
      ensures mrPool.CanServe(size)
      ensures forall f :: f in localCons ==> localCons[f].buffer.Length == size
    {
      mrPool.UniformServes(size);
    }

    /** The files of `files` still have their regions, byte for byte. */
    twostate predicate Untouched(files: map<string, LocalConData>)
      reads this, set f | f in localCons :: localCons[f].buffer
    {
      forall f :: f in files ==>
        && f in localCons && localCons[f].buffer == files[f].buffer
        && localCons[f].buffer[..] == old(files[f].buffer[..])
    }

    /** An entry with a zero region of its own, at least as large as asked for, for a file not held. */
    method NewFile(socket: int, fileId: string, size: nat)
      requires Valid() && fileId !in localCons && WORD <= size && mrPool.CanServe(size)
      modifies this`localCons, mrPool
      ensures Valid() && fileId in localCons && localCons[fileId].socket == socket
      ensures localCons == old(localCons)[fileId := localCons[fileId]] && size <= localCons[fileId].buffer.Length
      ensures ZeroFrom(localCons[fileId].buffer[..], 0) && Untouched(old(localCons))
      ensures mrPool.held == old(mrPool.held) + {localCons[fileId].buffer}
      ensures localCons[fileId].buffer !in old(mrPool.held)
      ensures old(mrPool.Uniform(size)) ==> mrPool.Uniform(size) && localCons[fileId].buffer.Length == size
    {
      var mr := mrPool.GetMRofSize(size);
      localCons := localCons[fileId := LocalConData(socket, mr)];
    }

    /** A connecting client names its file and the size it wants; a file already here keeps its
        region, whatever the size. */
    method HandleIncomingConnection(socket: int, fileId: string, size: nat)
      requires Valid() && (fileId !in localCons ==> WORD <= size && mrPool.CanServe(size))
      modifies this, mrPool
      ensures Valid() && fileId in localCons && localCons[fileId].socket == socket && socket in existingQps
      ensures Untouched(old(localCons))
      ensures fileId in old(localCons) ==>
                && localCons == old(localCons)[fileId := old(localCons[fileId]).(socket := socket)]
                && existingQps == old(existingQps) - {old(localCons[fileId].socket)} + {socket}
      ensures fileId !in old(localCons) ==>
                && localCons == old(localCons)[fileId := localCons[fileId]]
                && ZeroFrom(localCons[fileId].buffer[..], 0) && size <= localCons[fileId].buffer.Length
                && existingQps == old(existingQps) + {socket}
      ensures mrPool.held == old(mrPool.held) + {localCons[fileId].buffer}
      ensures old(mrPool.Uniform(size)) ==> mrPool.Uniform(size)
    {
      hide ZeroFrom, Sorted, Less, NCLMrPool.Valid, NCLMrPool.Uniform;
      if fileId !in localCons {
        NewFile(socket, fileId, size);
        existingQps := existingQps + {socket};
      } else {
        var con := localCons[fileId];
        existingQps := existingQps - {con.socket} + {socket};
        localCons := localCons[fileId := con.(socket := socket)];
      }
    }

    /** OPEN_FILE: the region of a file already open, or of a newly opened one. */
    method OpenFile(socket: int, fileId: string, size: nat) returns (known: bool)
      requires Valid() && (fileId !in localCons && socket in existingQps ==> WORD <= size && mrPool.CanServe(size))
      modifies this`localCons, mrPool
      ensures Valid()
      ensures known <==> fileId in old(localCons) || socket in existingQps
      ensures Untouched(old(localCons))
      ensures fileId in old(localCons) || !known ==> localCons == old(localCons)
      ensures fileId !in old(localCons) && known ==>
                && fileId in localCons && localCons == old(localCons)[fileId := localCons[fileId]]
                && ZeroFrom(localCons[fileId].buffer[..], 0) && size <= localCons[fileId].buffer.Length
                && localCons[fileId].socket == socket
                && mrPool.held == old(mrPool.held) + {localCons[fileId].buffer}
      ensures fileId in old(localCons) || !known ==> mrPool.held == old(mrPool.held)
      ensures old(mrPool.Uniform(size)) ==> mrPool.Uniform(size)
    {
      if fileId in localCons {
        return true;
      } else if socket !in existingQps {
        return false;
      }
      NewFile(socket, fileId, size);
      return true;
    }

    /** CLOSE_FILE: the region is zeroed and goes back to the pool. */
    method CloseFile(fileId: string)
      requires Valid()
      modifies this`localCons, mrPool, set f | f in localCons && f == fileId :: localCons[f].buffer
      ensures Valid() && localCons == old(localCons) - {fileId} && Untouched(localCons)
      ensures fileId in old(localCons) ==>
                forall b :: b in mrPool.freeMrs <==> b in old(mrPool.freeMrs) || b == old(localCons[fileId].buffer)
      ensures mrPool.held == old(mrPool.held) - if fileId in old(localCons) then {old(localCons[fileId].buffer)} else {}
      ensures fileId in old(localCons) ==>
                old(localCons[fileId].buffer) in mrPool.freeMrs && ZeroFrom(old(localCons[fileId].buffer)[..], 0)
    {
      if fileId !in localCons {
        return;
      }
      mrPool.RecycleMR(localCons[fileId].buffer);
      localCons := localCons - {fileId};
    }

    /** EXIT_PROC: the queue pair goes, the file and its region stay for a later recovery. */
    method ExitProc(socket: int)
      requires Valid()
      modifies this`existingQps
      ensures Valid() && existingQps == old(existingQps) - {socket}
    {
      existingQps := existingQps - {socket};
    }

    /** An RDMA write to an open file's region. */
    method RemoteWrite(fileId: string, off: nat, bytes: seq<byte>)
      requires Valid() && fileId in localCons && off + |bytes| <= localCons[fileId].buffer.Length
      modifies localCons[fileId].buffer
      ensures Valid() && localCons[fileId].buffer[..] == Splice(old(localCons[fileId].buffer[..]), off, bytes)
      ensures Untouched(localCons - {fileId})
    {
      var mr := localCons[fileId].buffer;
      forall i | 0 <= i < |bytes| {
        mr[off + i] := bytes[i];
      }
    }

    /** findSize: scan back from just below the slot for a byte that is not zero. */
    method FindSize(fileId: string) returns (size: nat)
      requires Valid()
      ensures size == if fileId in localCons then UsedSize(Decode(localCons[fileId].buffer[..]).data) else 0
    {
      if fileId !in localCons { return 0; }
      var mr := localCons[fileId].buffer;
      var i := mr.Length - WORD - 1;
      while i >= 0
        invariant -1 <= i < mr.Length - WORD
        invariant forall j :: i < j < mr.Length - WORD ==> mr[j] == 0
      {
        if mr[i] != 0 { break; }
        i := i - 1;
      }
      size := i + 1;
      UsedIs(mr[..mr.Length - WORD], size);
      assert mr[..mr.Length - WORD] == mr[..][..mr.Length - WORD];
    }

    method ReadSeqNum(fileId: string) returns (word: nat)
      requires Valid() && fileId in localCons
      ensures word == Decode(localCons[fileId].buffer[..]).word
    {
      var mr := localCons[fileId].buffer;
      word := FromLE(mr[mr.Length - WORD..]);
      assert mr[mr.Length - WORD..] == mr[..][mr.Length - WORD..];
    }

    /** GET_INFO on a file this server holds. */
    method GetInfo(fileId: string) returns (size: nat, word: nat)
      requires Valid() && fileId in localCons
      ensures var r := Decode(localCons[fileId].buffer[..]); size == UsedSize(r.data) && word == r.word
    {
      size := FindSize(fileId);
      word := ReadSeqNum(fileId);
    }
  }

  lemma UsedIs(s: seq<byte>, k: nat)
    requires k <= |s| && ZeroFrom(s, k) && (k > 0 ==> s[k - 1] != 0)
    ensures UsedSize(s) == k
  {
  }

  /** A region that is all zero reports size 0 and number 0: to a recovering client it is not
      there at all. */
  lemma ZeroRegion(mr: seq<byte>)
    requires WORD <= |mr| && ZeroFrom(mr, 0)
    ensures Decode(mr) == Region(Zeros(|mr| - WORD), 0)
    ensures UsedSize(Decode(mr).data) == 0 && !Candidate(Decode(mr))
  {
    ZeroWord(mr[|mr| - WORD..]);
    UsedIs(mr[..|mr| - WORD], 0);
  }
}
