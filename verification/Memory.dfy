/**
 Byte buffers: what `memcpy` does to one.
 */
module Memory {
  import opened Machine

  type Bytes = seq<u8>

  /** `s` with the bytes from position `at` on overwritten by `v`. */
  function Splice(s: Bytes, at: nat, v: Bytes): (r: Bytes)
    requires at + |v| <= |s|
    ensures |r| == |s|
  {
    s[..at] + v + s[at + |v|..]
  }

  /** Two adjacent writes are one. */
  lemma SpliceTwice(s: Bytes, at: nat, u: Bytes, v: Bytes)
    requires at + |u| + |v| <= |s|
    ensures Splice(Splice(s, at, u), at + |u|, v) == Splice(s, at, u + v)
  {
  }

  method Memcpy(dst: array<u8>, at: nat, src: Bytes)
    requires at + |src| <= dst.Length
    modifies dst
    ensures dst[..] == Splice(old(dst[..]), at, src)
  {
    for k := 0 to |src|
      invariant forall i :: 0 <= i < k ==> dst[at + i] == src[i]
      invariant forall i :: 0 <= i < at || at + k <= i < dst.Length ==> dst[i] == old(dst[i])
    {
      dst[at + k] := src[k];
    }
  }
}
