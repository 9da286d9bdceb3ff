/**
 The backup artifact's stamp: bytes 60 to 63 of what passes through are replaced by
 the big-endian value 1 (section 1.3 of the SQLite Database File Format), however the
 stream is cut into writes.
 */
module StampWriter {

  const OFFSET := 60

  /** The four bytes of the stamped user version, most significant first. */
  function StampByte(i: nat): bv8
    requires i < 4
  {
    if i == 3 then 1 else 0
  }

  function Stamp(source: seq<bv8>): (r: seq<bv8>)
    ensures |r| == |source|
    ensures forall i :: 0 <= i < |r| ==> r[i] == if OFFSET <= i < OFFSET + 4 then StampByte(i - OFFSET) else source[i]
  {
    seq(|source|, i requires 0 <= i < |source| =>
      if OFFSET <= i < OFFSET + 4 then StampByte(i - OFFSET) else source[i])
  }

  /** The stamp of a part that starts at a position of the artifact. */
  function StampAt(off: nat, part: seq<bv8>): (r: seq<bv8>)
    ensures |r| == |part|
  {
    seq(|part|, i requires 0 <= i < |part| =>
      if OFFSET <= off + i < OFFSET + 4 then StampByte(off + i - OFFSET) else part[i])
  }

  lemma StampJoins(a: seq<bv8>, b: seq<bv8>)
    ensures Stamp(a + b) == Stamp(a) + StampAt(|a|, b)
  {
  }

  /** Bytes 60 to 63 become the number one, most significant byte first; every other byte stays. */
  lemma StampsTheNumberOne(source: seq<bv8>)
    ensures |Stamp(source)| == |source|
    ensures |source| >= 64 ==> Stamp(source) == source[..60] + [0, 0, 0, 1] + source[64..]
    ensures forall i :: 0 <= i < |source| && (i < 60 || i > 63) ==> Stamp(source)[i] == source[i]
  {
  }

  lemma StampPrefix(a: seq<bv8>, n: nat)
    requires n <= |a|
    ensures Stamp(a)[..n] == Stamp(a[..n])
  {
  }

  /** The sink takes a prefix of each write; taken and ok are its answer. */
  class Writer {
    var out: seq<bv8>
    var off: nat

    constructor ()
      ensures out == [] && off == 0
    {
      out, off := [], 0;
    }

    /** A clone of the chunk with the stamp bytes that fall into it; the caller's buffer is not written. */
    method Patched(p: array<bv8>, len: nat) returns (chunk: array<bv8>)
      requires len <= p.Length
      ensures chunk.Length == len && chunk[..] == StampAt(off, p[..len])
    {
      chunk := new bv8[len](i requires 0 <= i < len reads p => p[i]);
      for i := 0 to 4
        invariant forall j :: 0 <= j < len ==>
          chunk[j] == if OFFSET <= off + j < OFFSET + i then StampByte(off + j - OFFSET) else p[j]
      {
        var idx := OFFSET + i - off;
        if 0 <= idx < len {
          chunk[idx] := StampByte(i);
        }
      }
    }

    /** Only a chunk that overlaps the stamp is cloned and patched. */
    method Write(p: array<bv8>, len: nat, taken: nat)
      requires taken <= len <= p.Length
      modifies this
      ensures out == old(out) + StampAt(old(off), p[..len])[..taken]
      ensures off == old(off) + taken
    {
      var chunk := p;
      if off < OFFSET + 4 && off + len > OFFSET {
        chunk := Patched(p, len);
      }
      assert chunk[..len] == StampAt(off, p[..len]);
      assert chunk[..taken] == chunk[..len][..taken];
      out := out + chunk[..taken];
      off := off + taken;
    }
  }

  /** One chunk read, and how much of it the sink takes. */
  datatype Chunk = Chunk(data: seq<bv8>, taken: nat)

  predicate Complete(c: Chunk) {
    c.taken == |c.data|
  }

  function Joined(chunks: seq<Chunk>): seq<bv8> {
    if chunks == [] then [] else Joined(chunks[..|chunks| - 1]) + chunks[|chunks| - 1].data
  }

  /**
   The copy loop: reads chunks until the source ends, the context is cancelled or a
   write comes up short. What is out is always the stamp of a prefix of the source,
   and of all of it when every write is complete.
   */
  method CopyContext(chunks: seq<Chunk>, cancelled: int -> bool) returns (w: Writer, written: nat, ok: bool)
    requires forall i :: 0 <= i < |chunks| ==> chunks[i].taken <= |chunks[i].data|
    ensures written == |w.out| <= |Joined(chunks)|
    ensures w.out == Stamp(Joined(chunks)[..written])
    ensures ok <==> forall i :: 0 <= i < |chunks| ==> Complete(chunks[i]) && !cancelled(i)
    ensures ok ==> w.out == Stamp(Joined(chunks))
  {
    w := new Writer();
    written, ok := 0, true;
    var n := 0;
    while n < |chunks|
      invariant 0 <= n <= |chunks| && fresh(w)
      invariant w.out == Stamp(Joined(chunks[..n])) && written == w.off == |w.out|
      invariant forall i :: 0 <= i < n ==> Complete(chunks[i]) && !cancelled(i)
    {
      if cancelled(n) {
        PartStamped(chunks, n);
        return w, written, false;
      }
      var c := chunks[n];
      var buf := new bv8[|c.data|](i requires 0 <= i < |c.data| => c.data[i]);
      assert buf[..|c.data|] == c.data;
      ChunkStamped(chunks, n, w.out);
      w.Write(buf, |c.data|, c.taken);
      written := written + c.taken;
      if !Complete(c) {
        return w, written, false;
      }
      n := n + 1;
    }
    PartStamped(chunks, n);
    assert chunks[..n] == chunks;
  }

  lemma PartStamped(chunks: seq<Chunk>, n: nat)
    requires n <= |chunks|
    ensures var part := Joined(chunks[..n]);
      |part| <= |Joined(chunks)| && Joined(chunks)[..|part|] == part
  {
    JoinedPrefix(chunks, n);
  }

  /** A write that takes some of a chunk emits the stamp of that much of the source. */
  lemma ChunkStamped(chunks: seq<Chunk>, n: nat, out: seq<bv8>)
    requires n < |chunks| && chunks[n].taken <= |chunks[n].data| && out == Stamp(Joined(chunks[..n]))
    ensures var c := chunks[n]; var next := out + StampAt(|out|, c.data)[..c.taken];
      && |next| <= |Joined(chunks)| && next == Stamp(Joined(chunks)[..|next|])
      && (Complete(c) ==> next == Stamp(Joined(chunks[..n + 1])))
  {
    var c, part := chunks[n], Joined(chunks[..n]);
    var all := part + c.data;
    var len := |part| + c.taken;
    JoinedNext(chunks, n);
    PartStamped(chunks, n + 1);
    StampJoins(part, c.data);
    StampPrefix(all, len);
    assert Stamp(all)[..len] == out + StampAt(|out|, c.data)[..c.taken];
    assert Joined(chunks)[..len] == all[..len];
  }

  lemma JoinedNext(chunks: seq<Chunk>, n: nat)
    requires n < |chunks|
    ensures Joined(chunks[..n + 1]) == Joined(chunks[..n]) + chunks[n].data
  {
    assert chunks[..n + 1][..n] == chunks[..n];
  }

  lemma {:induction false} JoinedPrefix(chunks: seq<Chunk>, n: nat)
    requires n <= |chunks|
    ensures Joined(chunks[..n]) <= Joined(chunks)
    decreases |chunks| - n
  {
    if n < |chunks| {
      JoinedNext(chunks, n);
      JoinedPrefix(chunks, n + 1);
    } else {
      assert chunks[..n] == chunks;
    }
  }
}
