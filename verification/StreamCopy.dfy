/** The bounce copy of a posted send: plain, or through 64-byte streaming loads. */
module StreamCopy {
  import opened Base

  const LINE := 64

  /** Bytes up to the next cache line of a source at address `addr`. */
  function Prefix(addr: nat): nat {
    if addr % LINE == 0 then 0 else LINE - addr % LINE
  }

  /** `memcpy(dst + at, src + at, n)`. */
  method CopyBytes(dst: array<Byte>, src: array<Byte>, at: nat, n: nat)
    requires dst != src && at + n <= dst.Length && at + n <= src.Length
    modifies dst
    ensures dst[at..at + n] == src[at..at + n]
    ensures dst[..at] == old(dst[..at]) && dst[at + n..] == old(dst[at + n..])
  {
    var i := 0;
    while i < n
      invariant 0 <= i <= n
      invariant forall k :: at <= k < at + i ==> dst[k] == src[k]
      invariant forall k :: 0 <= k < dst.Length && !(at <= k < at + i) ==> dst[k] == old(dst[k])
    {
      dst[at + i] := src[at + i];
      i := i + 1;
    }
  }

  /** Copying a further stretch keeps what was copied and what is still to come. */
  lemma Grown(was: seq<Byte>, now: seq<Byte>, src: seq<Byte>, from: nat, mid: nat, to: nat)
    requires from <= mid <= to <= |was| == |now| && to <= |src|
    requires was[from..mid] == src[from..mid] && now[mid..to] == src[mid..to]
    requires now[..mid] == was[..mid] && now[to..] == was[to..]
    ensures now[from..to] == src[from..to] && now[..from] == was[..from]
    ensures now[to..] == was[mid..][to - mid..]
  {
    assert now[from..mid] == now[..mid][from..] == was[..mid][from..] == was[from..mid];
    assert now[from..to] == now[from..mid] + now[mid..to];
    assert now[..from] == now[..mid][..from];
  }

  /** `odl_wc_stream_copy_lines`: whole lines, each loaded from an aligned address. */
  method CopyLines(dst: array<Byte>, src: array<Byte>, addr: nat, at: nat, n: nat)
    requires dst != src && at + n <= dst.Length && at + n <= src.Length
    requires (addr + at) % LINE == 0 && n % LINE == 0
    modifies dst
    ensures dst[at..at + n] == src[at..at + n]
    ensures dst[..at] == old(dst[..at]) && dst[at + n..] == old(dst[at + n..])
  {
    var i, lines := 0, n / LINE;
    while i < lines
      invariant 0 <= i <= lines
      invariant dst[at..at + i * LINE] == src[at..at + i * LINE]
      invariant dst[..at] == old(dst[..at]) && dst[at + i * LINE..] == old(dst[at + i * LINE..])
    {
      assert (addr + at + i * LINE) % LINE == 0;
      ghost var was := dst[..];
      CopyBytes(dst, src, at + i * LINE, LINE);
      Grown(was, dst[..], src[..], at, at + i * LINE, at + (i + 1) * LINE);
      i := i + 1;
    }
  }

  /** `odl_wc_stream_copy`: equal to a plain copy for every alignment and length that
      holds a whole aligned line, and otherwise a refusal that touches nothing. */
  method WcStreamCopy(dst: array<Byte>, src: array<Byte>, addr: nat, n: nat) returns (streamed: nat)
    requires dst != src && n <= dst.Length && n <= src.Length
    modifies dst
    ensures streamed > 0 <==> n >= Prefix(addr) + LINE
    ensures streamed > 0 ==> streamed % LINE == 0 && n - streamed < 2 * LINE
    ensures streamed > 0 ==> dst[..n] == src[..n] && dst[n..] == old(dst[n..])
    ensures streamed == 0 ==> dst[..] == old(dst[..])
  {
    var prefix := Prefix(addr);
    if n < prefix + LINE {
      return 0;
    }
    var body := (n - prefix) / LINE * LINE;
    var tail := n - prefix - body;
    ghost var d0 := dst[..];
    CopyBytes(dst, src, 0, prefix);
    ghost var d1 := dst[..];
    CopyLines(dst, src, addr, prefix, body);
    ghost var d2 := dst[..];
    CopyBytes(dst, src, prefix + body, tail);
    Grown(d1, d2, src[..], 0, prefix, prefix + body);
    Grown(d2, dst[..], src[..], 0, prefix + body, n);
    streamed := body;
  }

  /** The copy in `odl_post_send`: the caller's bytes, whichever way they travel. */
  method BounceCopy(dst: array<Byte>, src: array<Byte>, addr: nat, n: nat, enabled: bool)
    returns (streamed: nat)
    requires dst != src && n <= dst.Length && n <= src.Length
    modifies dst
    ensures dst[..n] == src[..n] && dst[n..] == old(dst[n..])
    ensures streamed > 0 <==> enabled && n >= Prefix(addr) + LINE
  {
    streamed := 0;
    if enabled {
      streamed := WcStreamCopy(dst, src, addr, n);
    }
    if streamed == 0 {
      CopyBytes(dst, src, 0, n);
    }
  }
}
