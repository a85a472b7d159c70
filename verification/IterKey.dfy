/**
 The key of a block iterator: two buffers take turns holding it, or it stays in memory the iterator does not own. The
 pieces of the next key are copied out of the previous one, so they go to the buffer that does not hold it.
 */
module IterKey {
  import opened Coding
  import opened KeyParts

  const INLINE: nat := 39

  datatype Place = InBuf | InSecondary | Pinned(data: Bytes)

  class IterKey {
    var buf: array<byte>
    var secondary: array<byte>
    var place: Place
    var size: nat
    var isUser: bool

    ghost predicate Valid()
      reads this
    {
      buf != secondary && size < TWO64 &&
      match place
      case InBuf => size <= buf.Length
      case InSecondary => size <= secondary.Length
      case Pinned(data) => size <= |data|
    }

    function Key(): (k: Bytes)
      requires Valid()
      reads this, buf, secondary
      ensures |k| == size
    {
      match place
      case InBuf => buf[..size]
      case InSecondary => secondary[..size]
      case Pinned(data) => data[..size]
    }

    constructor ()
      ensures Valid() && Key() == [] && isUser && place.InBuf? && buf.Length == INLINE && fresh(buf) && fresh(secondary)
    {
      buf := new byte[INLINE];
      secondary := new byte[INLINE];
      place := InBuf;
      size := 0;
      isUser := true;
    }

    /** `bytes` copied to `to`, from `pos` on. */
    static method Copy(to: array<byte>, pos: nat, bytes: Bytes)
      requires pos + |bytes| <= to.Length
      modifies to
      ensures to[..pos + |bytes|] == old(to[..pos]) + bytes
    {
      for i := 0 to |bytes|
        invariant to[..pos] == old(to[..pos]) && to[pos..pos + i] == bytes[..i]
      {
        to[pos + i] := bytes[i];
      }
      assert to[..pos + |bytes|] == to[..pos] + to[pos..pos + |bytes|];
    }

    predicate Holds(a: array<byte>)
      reads this
    {
      (place == InBuf && a == buf) || (place == InSecondary && a == secondary)
    }

    method CopyPart(to: array<byte>, pos: nat, p: Part, data: Bytes, ghost key: Bytes, ghost done: Bytes)
      requires Valid() && !Holds(to) && key == Key() && PartOk(p, key, data) && pos + p.len <= to.Length && done == to[..pos]
      modifies to
      ensures to[..pos + p.len] == done + PartBytes(p, key, data) && Key() == key
    {
      Copy(to, pos, PartBytes(p, Key(), data));
    }

    /** The pieces copied one after another to a buffer that does not hold the key. */
    method CopyParts(to: array<byte>, ps: seq<Part>, data: Bytes, ghost out: Bytes)
      requires Valid() && !Holds(to) && Makes(ps, Key(), data, out) && |out| <= to.Length
      modifies to
      ensures to[..|out|] == out
    {
      ghost var key, done: Bytes := Key(), [];
      var pos: nat := 0;
      FirstPart(ps, key, data, out);
      for i := 0 to |ps|
        invariant Valid() && Key() == key && pos == |done| <= |out| && to[..pos] == done
        invariant MakesBefore(ps, i, key, data, done)
      {
        NextPart(ps, i, key, data, out, done);
        CopyPart(to, pos, ps[i], data, key, done);
        done := done + PartBytes(ps[i], key, data);
        pos := pos + ps[i].len;
      }
      LastPart(ps, key, data, out, done);
    }

    /** The key becomes the pieces put together, in the buffer that did not hold it. */
    method SetParts(ps: seq<Part>, data: Bytes, total: nat, ghost out: Bytes)
      requires Valid() && Makes(ps, Key(), data, out) && total == |out| < TWO64
      modifies this, buf, secondary
      ensures Valid() && Key() == out && isUser == old(isUser)
      ensures if old(place).InBuf? then place.InSecondary? && buf == old(buf) && buf[..] == old(buf[..])
              else place.InBuf? && secondary == old(secondary) && secondary[..] == old(secondary[..])
      ensures (buf == old(buf) || fresh(buf)) && (secondary == old(secondary) || fresh(secondary))
      ensures old(if place.InBuf? then total <= secondary.Length else total <= buf.Length) ==> buf == old(buf) && secondary == old(secondary)
    {
      if place.InBuf? {
        if total > secondary.Length {
          secondary := new byte[total];
        }
        CopyParts(secondary, ps, data, out);
        place := InSecondary;
      } else {
        if total > buf.Length {
          buf := new byte[total];
        }
        CopyParts(buf, ps, data, out);
        place := InBuf;
      }
      size := total;
    }

    /** The next key: the shared bytes of the previous key and the new bytes, padded with the minimum timestamp. */
    method TrimAppendWithTimestamp(shared: nat, data: Bytes)
      requires Valid() && CanShare(Key(), isUser, shared) && shared + |data| + TS < TWO64
      requires isUser || shared + |data| >= FOOTER
      modifies this, buf, secondary
      ensures Valid() && isUser == old(isUser)
      ensures Key() == Pad(old(Shared(Key(), isUser, shared)) + data, isUser)
      ensures Strip(Key(), isUser) == old(Shared(Key(), isUser, shared)) + data
      ensures (buf == old(buf) || fresh(buf)) && (secondary == old(secondary) || fresh(secondary))
    {
      ghost var key := Key();
      PartsAre(key, isUser, data, shared);
      StripPad(Shared(key, isUser, shared) + data, isUser);
      SetParts(Parts(size, isUser, shared, |data|), data, shared + |data| + TS, Pad(Shared(key, isUser, shared) + data, isUser));
    }

    /** A whole key given without its timestamp. */
    method SetKeyWithPaddedMinTimestamp(data: Bytes)
      requires Valid() && |data| + TS < TWO64 && (isUser || |data| >= FOOTER)
      modifies this, buf, secondary
      ensures Valid() && isUser == old(isUser) && Key() == Pad(data, isUser) && Strip(Key(), isUser) == data
      ensures old(place).InBuf? ==> place.InSecondary? && buf == old(buf) && buf[..] == old(buf[..])
      ensures (buf == old(buf) || fresh(buf)) && (secondary == old(secondary) || fresh(secondary))
    {
      WholePartsAre(Key(), isUser, data);
      StripPad(data, isUser);
      SetParts(WholeParts(isUser, |data|), data, |data| + TS, Pad(data, isUser));
    }

    /** The next key when timestamps stay in stored keys. The shared bytes are copied only out of memory the iterator does
        not own, or into a larger buffer; otherwise those of `buf` are kept, wherever the key is. So the next key begins
        with the shared bytes exactly when the previous one is not in the secondary buffer, or `buf` has to grow or holds
        the same bytes. */
    method TrimAppend(shared: nat, data: Bytes)
      requires Valid() && shared <= size && shared + |data| < TWO64
      modifies this, buf
      ensures Valid() && place == InBuf && isUser == old(isUser) && secondary == old(secondary)
      ensures (buf == old(buf) || fresh(buf)) && buf.Length >= old(buf.Length) && (shared + |data| <= old(buf.Length) ==> buf == old(buf))
      ensures Key() == old(Kept(shared, |data|)) + data
      ensures Key() == old(Key()[..shared]) + data <==>
              old(place != InSecondary || shared + |data| > buf.Length || buf[..shared] == secondary[..shared])
    {
      ghost var kept, key := Kept(shared, |data|), Key()[..shared];
      MakeRoom(shared, shared + |data|, kept);
      Copy(buf, shared, data);
      place := InBuf;
      size := shared + |data|;
      SamePrefix(kept, key, data);
    }

    /** Room for the next key in `buf`. */
    method MakeRoom(shared: nat, total: nat, ghost kept: Bytes)
      requires Valid() && shared <= size && shared <= total && kept == Kept(shared, total - shared)
      modifies `buf, buf
      ensures (buf == old(buf) || fresh(buf)) && buf.Length >= old(buf.Length) && (total <= old(buf.Length) ==> buf == old(buf)) && buf != secondary
      ensures total <= buf.Length && buf[..shared] == kept
    {
      if place.Pinned? {
        assert kept == place.data[..shared];
        if total > buf.Length {
          buf := new byte[total];
        }
        Copy(buf, 0, place.data[..shared]);
        assert buf[..shared] == buf[..0] + kept;
      } else if total > buf.Length {
        var p := new byte[total];
        Copy(p, 0, Key()[..shared]);
        assert p[..shared] == kept;
        buf := p;
      }
    }

    /** The bytes in front of the new ones after `TrimAppend`. */
    function Kept(shared: nat, added: nat): (k: Bytes)
      requires Valid() && shared <= size
      reads this, buf, secondary
      ensures |k| == shared
    {
      if place.InSecondary? && shared + added <= buf.Length then buf[..shared] else Key()[..shared]
    }
  }

  lemma SamePrefix(a: Bytes, b: Bytes, c: Bytes)
    requires |a| == |b|
    ensures a + c == b + c <==> a == b
  {
    if a + c == b + c {
      assert a == (a + c)[..|a|] == b;
    }
  }

  /** Mixing the two ways to set the next key can lose a shared byte: `wanted` begins with the first byte of the key held in
      the secondary buffer, the next key with a byte left over in the other one. */
  method MixedKeyIsLost() returns (k: IterKey, wanted: Bytes)
    ensures k.Valid() && wanted == [7, 9] && k.Key() == [1, 9]
  {
    k := new IterKey();
    k.TrimAppend(0, [1]);
    assert k.buf[..1] == [1];
    k.SetKeyWithPaddedMinTimestamp([7]);
    assert k.buf[..1] == [1];
    wanted := k.Key()[..1] + [9];
    k.TrimAppend(1, [9]);
  }
}
