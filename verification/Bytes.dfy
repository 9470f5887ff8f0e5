/** Byte regions, the in-place overwrite an RDMA write or a memcpy performs, and the
    little-endian word kept in the last eight bytes of every memory region. */
module Bytes {

  newtype byte = b: int | 0 <= b < 256

  const TWO32: nat := 0x1_0000_0000
  const TWO64: nat := 0x1_0000_0000_0000_0000

  /** Bytes the sequence word takes: sizeof(uint64_t). */
  const WORD: nat := 8

  function Zeros(n: nat): (s: seq<byte>)
    ensures |s| == n && forall i :: 0 <= i < n ==> s[i] == 0
  {
    seq(n, i => 0)
  }

  /** Bytes from position k on are all zero. */
  predicate ZeroFrom(s: seq<byte>, k: int) {
    forall i :: 0 <= i < |s| && k <= i ==> s[i] == 0
  }

  /** memcpy of bytes over s at off. */
  function Splice(s: seq<byte>, off: nat, bytes: seq<byte>): (r: seq<byte>)
    requires off + |bytes| <= |s|
    ensures |r| == |s|
    ensures forall i :: 0 <= i < |s| ==> r[i] == if off <= i < off + |bytes| then bytes[i - off] else s[i]
  {
    s[..off] + bytes + s[off + |bytes|..]
  }

  lemma SpliceTwice(s: seq<byte>, off: nat, bytes: seq<byte>)
    requires off + |bytes| <= |s|
    ensures Splice(Splice(s, off, bytes), off, bytes) == Splice(s, off, bytes)
  {
  }

  /** One past the last non-zero byte. */
  function UsedSize(s: seq<byte>): (k: nat)
    ensures k <= |s| && ZeroFrom(s, k) && (k > 0 ==> s[k - 1] != 0)
  {
    if s == [] || s[|s| - 1] != 0 then |s| else UsedSize(s[..|s| - 1])
  }

  /** A region with zeros cut off and put back. */
  lemma UsedRestores(s: seq<byte>)
    ensures Splice(Zeros(|s|), 0, s[..UsedSize(s)]) == s
  {
  }

  function Min(a: int, b: int): int {
    if a <= b then a else b
  }

  function Max(a: int, b: int): int {
    if a >= b then a else b
  }

  function Pow256(w: nat): nat {
    if w == 0 then 1 else 256 * Pow256(w - 1)
  }

  /** The w low-order bytes of n, least significant first. */
  function ToLE(n: nat, w: nat): (s: seq<byte>)
    ensures |s| == w
  {
    if w == 0 then [] else [(n % 256) as byte] + ToLE(n / 256, w - 1)
  }

  function FromLE(s: seq<byte>): nat {
    if s == [] then 0 else s[0] as nat + 256 * FromLE(s[1..])
  }

  /** A word stored and read back is the word, as long as it fits. */
  lemma {:induction false} WordRoundTrip(n: nat, w: nat)
    requires n < Pow256(w)
    ensures FromLE(ToLE(n, w)) == n
  {
    if w > 0 {
      WordRoundTrip(n / 256, w - 1);
      assert ToLE(n, w)[1..] == ToLE(n / 256, w - 1);
    }
  }

  lemma {:induction false} ZeroWord(s: seq<byte>)
    requires ZeroFrom(s, 0)
    ensures FromLE(s) == 0
  {
    if s != [] {
      ZeroWord(s[1..]);
    }
  }

  lemma Word64(n: nat)
    requires n < TWO64
    ensures FromLE(ToLE(n, WORD)) == n
  {
    assert Pow256(8) == 256 * Pow256(7);
    assert Pow256(7) == 256 * Pow256(6);
    assert Pow256(6) == 256 * Pow256(5);
    assert Pow256(5) == 256 * Pow256(4);
    assert Pow256(4) == 256 * Pow256(3) == 256 * 256 * 256 * 256;
    WordRoundTrip(n, WORD);
  }

  lemma SubsetCard<T>(a: set<T>, b: set<T>)
    requires a <= b
    ensures |a| <= |b|
  {
    assert b == a + (b - a);
  }
}
