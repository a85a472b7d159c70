/**
 The write batch as an object. It is a list of records (`rs`) with a stack of positions in it (`marks`); every
 operation is an operation on that list, and bytes, count, flags and checksum entries follow.
 */
module WriteBatch {
  import opened Coding
  import opened BatchCodec
  import opened BatchIterate
  import opened BatchState

  const NO_POINT: SavePoint := SavePoint(0, 0, {})

  /** The record that a `TimedPut` of the largest time writes is that of a `Put`. */
  function TimedRecord(cf: uint32, key: Bytes, value: Bytes, time: uint64): Record {
    if time == UINT64_MAX then Kv(Put, cf, key, value) else Kv(TimedPut, cf, key, Pack(value, time))
  }

  /** `Put`, `Merge` and `TimedPut` refuse slices that do not fit 32 bits, but the packed value of a `TimedPut` is
      eight bytes longer: what they accept reads back exactly when the packed value fits too. */
  lemma AcceptedTimedPutFitsIff(cf: uint32, key: Bytes, value: Bytes, time: uint64)
    requires |key| <= UINT32_MAX && |value| <= UINT32_MAX
    ensures Fits(TimedRecord(cf, key, value, time)) <==> time == UINT64_MAX || |value| + 8 <= UINT32_MAX
  {
  }

  /** A value of the largest length is accepted with a time, and does not read back. */
  lemma LongTimedPutIsLost(key: Bytes, value: Bytes, time: uint64)
    requires |key| <= UINT32_MAX && |value| == UINT32_MAX && time != UINT64_MAX
    ensures var r := TimedRecord(0, key, value, time); ReadRecord(Encode(r)) != Some((r, []))
  {
    var r := TimedRecord(0, key, value, time);
    AcceptedTimedPutFitsIff(0, key, value, time);
    assert Encode(r) + [] == Encode(r);
    RecordRoundTrip(r, [], Encode(r));
  }

  /** The marker that begins a section, by write policy. */
  function BeginMark(writeAfterCommit: bool, unprepared: bool): (m: MarkKind)
    ensures !m.Noop?
  {
    if writeAfterCommit then BeginPrepare else if unprepared then BeginUnprepare else BeginPersistedPrepare
  }

  lemma RewriteNoop(hs: Hasher, rs: seq<Record>, body: Bytes, mark: MarkKind, rs': seq<Record>)
    requires rs != [] && rs[0] == Mark(Noop) && body == EncodeAll(rs) && !mark.Noop? && rs' == [Mark(mark)] + rs[1..]
    ensures body != [] && body[0 := MarkTag(mark)] == EncodeAll(rs') && CountedIn(rs') == CountedIn(rs)
    ensures ProtOf(hs, rs') == ProtOf(hs, rs) && AllFlags(rs') == AllFlags(rs) + {HasBeginPrepare}
  {
    assert rs'[1..] == rs[1..];
  }

  /** The marker a policy writes is one its handlers take. */
  lemma OwnMark(policy: Policy, unprepared: bool)
    requires unprepared ==> policy.WriteUnprepared?
    ensures !Foreign(policy, Mark(BeginMark(policy.WriteCommitted?, unprepared)))
  {
  }

  class WriteBatch {
    const hs: Hasher
    var b: Batch
    ghost var rs: seq<Record>
    ghost var marks: seq<nat>
    ghost var term: Option<seq<Record>>

    ghost predicate Valid()
      reads this
    {
      && Represents(hs, b, rs) && Stacked(b.stack, rs, marks)
      && b.walTerm == match term case None => NO_POINT case Some(part) => PointAt(part)
    }

    constructor (hs: Hasher, maxBytes: nat, protect: bool)
      ensures Valid() && this.hs == hs && rs == [] && marks == [] && term == None
      ensures b.maxBytes == maxBytes && b.prot.Some? == protect && b.seqno == 0
    {
      this.hs := hs;
      b := Batch(0, 0, [], {}, if protect then Some([]) else None, [], NO_POINT, maxBytes);
      rs, marks, term := [], [], None;
    }

    /** The batch of the log is still where this batch begins. */
    ghost predicate Intact()
      reads this
    {
      term.Some? ==> term.value <= rs
    }

    /** Appends a record, unless the batch would get too large: then nothing changes, if and only if the checksum entries
        can be counted with 32 bits. */
    method Append(r: Record) returns (status: Status)
      requires Valid()
      modifies `b, `rs
      ensures b.maxBytes == old(b).maxBytes && b.prot.Some? == old(b).prot.Some?
      ensures status == if old(b).maxBytes != 0 && HEADER + |old(b).body| + |Encode(r)| > old(b).maxBytes then MemoryLimit else Ok
      ensures status == Ok ==> Valid() && rs == old(rs) + [r]
      ensures status != Ok ==> rs == old(rs) && (b == old(b) <==> Room(old(b), CountedIn(old(rs)))) && (Valid() <==> b == old(b))
      ensures old(Intact()) ==> Intact()
    {
      var c;
      c, status := Add(hs, b, r, rs);
      if status == Ok {
        GrownStacked(b.stack, rs, marks, [r]);
        rs := rs + [r];
      }
      b := c;
    }

    method Put(cf: uint32, key: Bytes, value: Bytes) returns (status: Status)
      requires Valid()
      modifies `b, `rs
      ensures status == Ok ==> Valid() && rs == old(rs) + [Kv(BatchCodec.Put, cf, key, value)]
      ensures status != Ok ==> rs == old(rs) && (Valid() <==> b == old(b))
      ensures status != Ok ==> (b == old(b) <==> status == InvalidArgument || Room(old(b), CountedIn(old(rs))))
      ensures status == InvalidArgument <==> |key| > UINT32_MAX || |value| > UINT32_MAX
      ensures status == MemoryLimit ==> old(b).maxBytes != 0
      ensures b.maxBytes == old(b).maxBytes && b.prot.Some? == old(b).prot.Some? && (old(Intact()) ==> Intact())
    {
      if |key| > UINT32_MAX || |value| > UINT32_MAX {
        return InvalidArgument;
      }
      status := Append(Kv(BatchCodec.Put, cf, key, value));
    }

    method TimedPut(cf: uint32, key: Bytes, value: Bytes, time: uint64) returns (status: Status)
      requires Valid()
      modifies `b, `rs
      ensures status == Ok ==> Valid() && rs == old(rs) + [TimedRecord(cf, key, value, time)]
      ensures status != Ok ==> rs == old(rs) && (Valid() <==> b == old(b))
      ensures status != Ok ==> (b == old(b) <==> status == InvalidArgument || Room(old(b), CountedIn(old(rs))))
      ensures status == InvalidArgument <==> |key| > UINT32_MAX || |value| > UINT32_MAX
    {
      if |key| > UINT32_MAX || |value| > UINT32_MAX {
        return InvalidArgument;
      }
      if time == UINT64_MAX {
        status := Put(cf, key, value);
      } else {
        status := Append(Kv(BatchCodec.TimedPut, cf, key, Pack(value, time)));
      }
    }

    /** `SliceParts` keys and values are their concatenation; this form also refuses the largest length. */
    method PutParts(cf: uint32, key: seq<Bytes>, value: seq<Bytes>) returns (status: Status)
      requires Valid()
      modifies `b, `rs
      ensures status == Ok ==> Valid() && rs == old(rs) + [Kv(BatchCodec.Put, cf, Concat(key), Concat(value))]
      ensures status != Ok ==> rs == old(rs) && (Valid() <==> b == old(b))
      ensures status != Ok ==> (b == old(b) <==> status == InvalidArgument || Room(old(b), CountedIn(old(rs))))
      ensures status == InvalidArgument <==> |Concat(key)| >= UINT32_MAX || |Concat(value)| >= UINT32_MAX
    {
      if |Concat(key)| >= UINT32_MAX || |Concat(value)| >= UINT32_MAX {
        return InvalidArgument;
      }
      status := Append(Kv(BatchCodec.Put, cf, Concat(key), Concat(value)));
    }

    /** Markers of transactions are appended whatever the limit says. */
    method AppendMarker(r: Record)
      requires Valid() && !Counted(r)
      modifies `b, `rs
      ensures Valid() && rs == old(rs) + [r] && b == old(b).(body := b.body, flags := b.flags) && (old(Intact()) ==> Intact())
    {
      var c := AddMarker(hs, b, r, rs);
      GrownStacked(b.stack, rs, marks, [r]);
      b, rs := c, rs + [r];
    }

    /** Turns the leading no-op into the begin marker of a prepared section, closes the section and forgets all
        save points. A termination point behind the no-op is no longer one of these records. */
    method MarkEndPrepare(xid: Bytes, writeAfterCommit: bool, unprepared: bool)
      requires Valid() && rs != [] && rs[0] == Mark(Noop)
      modifies `b, `rs, `marks
      ensures Valid() && marks == []
      ensures rs == [Mark(BeginMark(writeAfterCommit, unprepared))] + old(rs)[1..] + [Blob(EndPrepare, xid)]
      ensures old(Intact()) ==> (Intact() <==> term.None? || term.value == [])
    {
      var mark := BeginMark(writeAfterCommit, unprepared);
      ghost var rs' := [Mark(mark)] + rs[1..];
      RewriteNoop(hs, rs, b.body, mark, rs');
      var c := b.(stack := [], body := b.body[0 := MarkTag(mark)], flags := b.flags + {HasBeginPrepare});
      c := AddMarker(hs, c, Blob(EndPrepare, xid), rs');
      b, rs, marks := c, rs' + [Blob(EndPrepare, xid)], [];
    }

    /* ---------- save points ---------- */

    method SetSavePoint()
      requires Valid()
      modifies `b, `marks
      ensures Valid() && marks == old(marks) + [|rs|] && b == old(b).(stack := b.stack)
    {
      PushStacked(b.stack, rs, marks);
      b := b.(stack := b.stack + [SavePoint(HEADER + |b.body|, b.count, b.flags)]);
      marks := marks + [|rs|];
    }

    method Clear()
      requires Valid()
      modifies `b, `rs, `marks, `term
      ensures Valid() && rs == [] && marks == [] && term == None && b.seqno == 0
      ensures b.maxBytes == old(b).maxBytes && b.prot.Some? == old(b).prot.Some?
    {
      b := Batch(0, 0, [], {}, if b.prot.Some? then Some([]) else None, [], NO_POINT, b.maxBytes);
      rs, marks, term := [], [], None;
    }

    /** Everything since the last save point is undone, and the save point is gone, if and only if nothing is to be undone or
        the checksum entries that stay can be counted. The termination point stays, even behind what is left. */
    method RollbackToSavePoint() returns (status: Status)
      requires Valid()
      modifies `b, `rs, `marks
      ensures status == if old(marks) == [] then NotFound else Ok
      ensures old(marks) == [] ==> rs == old(rs) && marks == [] && b == old(b)
      ensures old(marks) != [] ==>
                var n := |old(marks)| - 1;
                var m := old(marks)[n];
                && marks == old(marks)[..n] && m <= |old(rs)| && rs == old(rs)[..m]
                && b == old(b).(body := b.body, count := b.count, flags := b.flags, prot := b.prot, stack := b.stack) && b.prot.Some? == old(b).prot.Some?
                && (Valid() <==> m == |old(rs)| || Room(old(b), CountedIn(rs)))
                && (old(Intact()) ==> (Intact() <==> term.None? || |term.value| <= m))
    {
      if |b.stack| == 0 {
        return NotFound;
      }
      var n := |b.stack| - 1;
      var p := b.stack[n];
      ghost var m := marks[n];
      RolledStacked(b.stack, rs, marks, n);
      CutRepresents(hs, b, rs, m, p);
      SameSizeIff(rs, rs[..m], m);
      var c := b.(stack := b.stack[..n]);
      if p.size == HEADER + |b.body| {
        assert rs[..m] == rs;
      } else {
        // A save point is never before the header, so the case of an empty batch does not arise.
        c := Cut(c, p);
      }
      b, rs, marks := c, rs[..m], marks[..n];
      status := Ok;
    }

    method PopSavePoint() returns (status: Status)
      requires Valid()
      modifies `b, `marks
      ensures Valid() && status == (if old(marks) == [] then NotFound else Ok) && b == old(b).(stack := b.stack)
      ensures marks == if old(marks) == [] then [] else old(marks)[..|old(marks)| - 1]
    {
      if |b.stack| == 0 {
        return NotFound;
      }
      PopStacked(b.stack, rs, marks, |b.stack| - 1);
      b, marks := b.(stack := b.stack[..|b.stack| - 1]), marks[..|marks| - 1];
      status := Ok;
    }

    /* ---------- whole batches ---------- */

    method MarkWalTerminationPoint()
      requires Valid()
      modifies `b, `term
      ensures Valid() && term == Some(rs) && Intact() && b == old(b).(walTerm := b.walTerm)
    {
      b := b.(walTerm := SavePoint(HEADER + |b.body|, b.count, b.flags));
      term := Some(rs);
    }

    /** The records an append takes from this batch: for the log only, those there were at the termination point. */
    ghost function Taken(walOnly: bool): seq<Record>
      reads this
    {
      if walOnly && term.Some? then term.value else rs
    }

    /** The bytes and entries an append takes are there: a rollback behind the termination point can take them away. The
        number of entries is a signed 32-bit number. */
    ghost predicate CanTake(walOnly: bool)
      reads this
    {
      walOnly && term.Some? ==>
        b.walTerm.size <= HEADER + |b.body| && (b.prot.Some? ==> b.walTerm.count <= |b.prot.value|)
    }

    /** Appends the records of another batch; for the log only, those up to its termination point. Batches whose checksum
        entries outnumber what the header can count are refused. Otherwise the result has the records of both, if and only
        if the records at the termination point are still where the other batch begins. */
    method AppendBatch(src: WriteBatch, walOnly: bool) returns (status: Status)
      requires src != this && Valid() && src.Valid() && src.hs == hs && src.CanTake(walOnly)
      requires b.count == 0 || b.prot.Some? == src.b.prot.Some?
      requires src.b.prot.Some? ==> CountedIn(src.Taken(walOnly)) < 0x8000_0000
      modifies `b, `rs
      ensures status == if Room(old(b), CountedIn(old(rs))) && Room(src.b, CountedIn(src.rs)) then Ok else Corruption
      ensures status != Ok ==> b == old(b) && rs == old(rs)
      ensures status == Ok ==> rs == old(rs) + src.Taken(walOnly) && b.prot.Some? == src.b.prot.Some?
      ensures status == Ok ==>
                var n := |EncodeAll(src.Taken(walOnly))|; n <= |src.b.body| && b.body == old(b).body + src.b.body[..n]
      ensures status == Ok && JoinsEntries(old(b), old(rs), src.b) && (walOnly ==> src.Intact()) ==> Valid()
      ensures status == Ok && Valid() && AllFit(src.rs) && AllFit(src.Taken(walOnly)) && walOnly ==> src.Intact()
    {
      var other := src.b;
      CountsAgree(hs, other, src.rs);
      CountsAgree(hs, b, rs);
      if (other.prot.Some? && |other.prot.value| != other.count) || (b.prot.Some? && |b.prot.value| != b.count) {
        return Corruption;
      }
      var end := SavePoint(HEADER + |other.body|, other.count, other.flags);
      if walOnly && other.walTerm != NO_POINT {
        end := other.walTerm;
      }
      ghost var part := src.Taken(walOnly);
      assert end == PointAt(part);
      var c := Joined(b, other, end.size, end.count, end.flags);
      JoinIff(hs, b, other, rs, src.rs, part, end, c);
      GrownStacked(b.stack, rs, marks, part);
      b, rs := c, rs + part;
      status := Ok;
    }

    /** The checksum entries of a batch built by these operations from slices with 32-bit lengths pass, if and only if there are
        none or they can be counted. */
    method VerifyChecksum() returns (status: Status)
      requires Valid()
      ensures AllFit(rs) ==> (status == Ok <==> Room(b, CountedIn(rs)))
    {
      status := BatchState.VerifyChecksum(hs, b);
      if b.prot.Some? && AllFit(rs) {
        BuiltBatchVerifies(hs, b, rs);
      }
    }
  }

  method SavedEmpty(hs: Hasher) returns (src: WriteBatch)
    ensures fresh(src) && src.Valid() && src.hs == hs && src.rs == [] && src.marks == [0] && src.b.prot.None? && src.b.maxBytes == 0
  {
    src := new WriteBatch(hs, 0, false);
    src.SetSavePoint();
  }

  /** A save point, a record, and the termination point behind it. */
  method Terminated(hs: Hasher, r: Record) returns (src: WriteBatch)
    ensures fresh(src) && src.Valid() && src.hs == hs && src.rs == [r] && src.marks == [0] && src.term == Some([r])
    ensures src.b.prot.None? && src.b.maxBytes == 0
  {
    src := SavedEmpty(hs);
    var s := src.Append(r);
    assert [] + [r] == [r];
    src.MarkWalTerminationPoint();
  }

  /** A batch with a record that was rolled back behind the termination point, and another record in its place. */
  method RolledBehind(hs: Hasher, first: Record, second: Record) returns (src: WriteBatch)
    requires |Encode(first)| == |Encode(second)|
    ensures fresh(src) && src.Valid() && src.hs == hs && src.rs == [second] && src.term == Some([first]) && src.b.prot.None? && src.CanTake(true)
  {
    src := Terminated(hs, first);
    var s := src.RollbackToSavePoint();
    assert src.rs == [];
    s := src.Append(second);
    assert [] + [second] == [second];
    OneEncoded(first);
    OneEncoded(second);
  }

  /** A rollback behind the termination point, and another record of the same size: what is appended for the log are the bytes
      of the other record, under the count and flags of the one that was rolled back. */
  method LostTermination(hs: Hasher, first: Record, second: Record) returns (dst: WriteBatch, src: WriteBatch)
    requires |Encode(first)| == |Encode(second)| && first != second && Fits(first) && Fits(second)
    ensures src.rs == [second] && dst.rs == [first] && dst.b.body == Encode(second) && !dst.Valid()
  {
    src := RolledBehind(hs, first, second);
    dst := new WriteBatch(hs, 0, false);
    var s := dst.AppendBatch(src, true);
    OneEncoded(first);
    OneEncoded(second);
    assert [] + [first] == [first] && src.b.body[..|Encode(first)|] == src.b.body;
  }

  /** Two such records. */
  lemma SmallPuts(first: Record, second: Record)
    requires first == Kv(Put, 0, [1], [2]) && second == Kv(Put, 0, [3], [4])
    ensures |Encode(first)| == |Encode(second)| && first != second && Fits(first) && Fits(second)
  {
  }

  function Concat(parts: seq<Bytes>): Bytes {
    if parts == [] then [] else parts[0] + Concat(parts[1..])
  }

  lemma {:induction false} EncodeGrows(rs: seq<Record>)
    ensures |EncodeAll(rs)| >= |rs|
  {
    if rs != [] {
      EncodeGrows(rs[1..]);
    }
  }

  lemma SizeSplits(rs: seq<Record>, part: seq<Record>, rest: seq<Record>)
    requires rs == part + rest
    ensures |EncodeAll(rs)| == |EncodeAll(part)| + |EncodeAll(rest)|
  {
    EncodeAllConcat(part, rest);
  }

  /** A prefix of a batch is as large as the batch only if it is the whole batch. */
  lemma SameSizeIff(rs: seq<Record>, part: seq<Record>, m: nat)
    requires m <= |rs| && part == rs[..m]
    ensures |EncodeAll(part)| == |EncodeAll(rs)| <==> m == |rs|
  {
    var rest := rs[m..];
    assert rs == part + rest;
    SizeSplits(rs, part, rest);
    EncodeGrows(rest);
  }
}
