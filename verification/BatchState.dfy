/**
 The fields of a write batch and the list of records they stand for: the bytes, the count in the header, the
 content flags, the checksum entries and the save points all follow from that list.
 */
module BatchState {
  import opened Coding
  import opened BatchCodec
  import opened BatchIterate

  datatype Flag =
    | HasPut | HasTimedPut | HasPutEntity | HasDelete | HasSingleDelete | HasDeleteRange | HasMerge | HasBlobIndex
    | HasBeginPrepare | HasEndPrepare | HasCommit | HasRollback

  /** A machine word, as the set of its one bits. */
  type Word = set<nat>

  const ZERO: Word := {}

  /** Bitwise exclusive or. */
  function Xor(a: Word, b: Word): Word {
    (a - b) + (b - a)
  }

  /** The hash functions of the checksums, one for each part of a record. */
  datatype Hasher = Hasher(key: Bytes -> Word, value: Bytes -> Word, op: byte -> Word, cf: uint32 -> Word)

  datatype SavePoint = SavePoint(size: nat, count: uint32, flags: set<Flag>)

  /** The first twelve bytes of the batch, sequence number and count, are the fields `seqno` and `count`;
      `body` is the rest. */
  datatype Batch = Batch(
    seqno: uint64, count: uint32, body: Bytes, flags: set<Flag>, prot: Option<seq<Word>>,
    stack: seq<SavePoint>, walTerm: SavePoint, maxBytes: nat)

  /* ---------- what a list of records stands for ---------- */

  function FlagsOf(r: Record): set<Flag> {
    match r
    case Kv(Put, _, _, _) => {HasPut}
    case Kv(TimedPut, _, _, _) => {HasTimedPut}
    case Kv(PutEntity, _, _, _) => {HasPutEntity}
    case Kv(DeleteRange, _, _, _) => {HasDeleteRange}
    case Kv(Merge, _, _, _) => {HasMerge}
    case Kv(PutBlobIndex, _, _, _) => {HasBlobIndex}
    case Key(Delete, _, _) => {HasDelete}
    case Key(SingleDelete, _, _) => {HasSingleDelete}
    case Blob(EndPrepare, _) => {HasEndPrepare}
    case Blob(Commit, _) => {HasCommit}
    case Blob(Rollback, _) => {HasRollback}
    case CommitAt(_, _) => {HasCommit}
    case Mark(Noop) => {}
    case Mark(_) => {HasBeginPrepare}
    case Blob(LogData, _) => {}
  }

  function AllFlags(rs: seq<Record>): set<Flag> {
    if rs == [] then {} else FlagsOf(rs[0]) + AllFlags(rs[1..])
  }

  /** The checksum of a counted record: the hashes of its parts, combined so that removing them again in any
      order leaves zero. The operation is that of the tag without column family. */
  function Protect(hs: Hasher, r: Record): Word
    requires Counted(r)
  {
    match r
    case Kv(kind, cf, key, value) => Xor(Xor(Xor(hs.key(key), hs.value(value)), hs.op(KvTag(kind, false))), hs.cf(cf))
    case Key(kind, cf, key) => Xor(Xor(Xor(hs.key(key), hs.value([])), hs.op(KeyTag(kind, false))), hs.cf(cf))
  }

  function ProtOf(hs: Hasher, rs: seq<Record>): (es: seq<Word>)
    ensures |es| == CountedIn(rs)
  {
    if rs == [] then [] else (if Counted(rs[0]) then [Protect(hs, rs[0])] else []) + ProtOf(hs, rs[1..])
  }

  function Header(seqno: uint64, count: uint32): (bs: Bytes)
    ensures |bs| == HEADER
  {
    Fixed(seqno, 8) + Fixed(count, 4)
  }

  /** The bytes of the whole batch. */
  function Rep(b: Batch): Bytes {
    Header(b.seqno, b.count) + b.body
  }

  lemma RepReads(b: Batch)
    ensures |Rep(b)| == HEADER + |b.body| && Count(Rep(b)) == b.count && Rep(b)[HEADER..] == b.body
  {
    assert Rep(b)[8..12] == Fixed(b.count, 4);
    Fixed32RoundTrip(b.count);
  }

  function PointAt(rs: seq<Record>): SavePoint {
    SavePoint(HEADER + |EncodeAll(rs)|, CountedIn(rs) % TWO32, AllFlags(rs))
  }

  /** The batch holds exactly the records `rs`. */
  ghost predicate Represents(hs: Hasher, b: Batch, rs: seq<Record>) {
    && b.body == EncodeAll(rs) && b.count == CountedIn(rs) % TWO32 && b.flags == AllFlags(rs)
    && (b.prot.Some? ==> b.prot.value == ProtOf(hs, rs))
  }

  /** Each save point is the state after the first `marks[i]` records. */
  ghost predicate Stacked(stack: seq<SavePoint>, rs: seq<Record>, marks: seq<nat>) {
    && |stack| == |marks|
    && (forall i :: 0 <= i < |marks| ==> marks[i] <= |rs| && stack[i] == PointAt(rs[..marks[i]]))
    && (forall i, j :: 0 <= i < j < |marks| ==> marks[i] <= marks[j])
  }

  /* ---------- concatenation ---------- */

  lemma {:induction false} FlagsConcat(a: seq<Record>, b: seq<Record>)
    ensures AllFlags(a + b) == AllFlags(a) + AllFlags(b)
    decreases |a|
  {
    if a == [] {
      assert a + b == b;
    } else {
      assert (a + b)[1..] == a[1..] + b;
      FlagsConcat(a[1..], b);
    }
  }

  lemma {:induction false} CountedConcat(a: seq<Record>, b: seq<Record>)
    ensures CountedIn(a + b) == CountedIn(a) + CountedIn(b)
    decreases |a|
  {
    if a == [] {
      assert a + b == b;
    } else {
      assert (a + b)[1..] == a[1..] + b;
      CountedConcat(a[1..], b);
    }
  }

  lemma {:induction false} ProtConcat(hs: Hasher, a: seq<Record>, b: seq<Record>)
    ensures ProtOf(hs, a + b) == ProtOf(hs, a) + ProtOf(hs, b)
    decreases |a|
  {
    if a == [] {
      assert a + b == b;
    } else {
      assert (a + b)[1..] == a[1..] + b;
      ProtConcat(hs, a[1..], b);
    }
  }

  /* ---------- adding a record ---------- */

  function CountAfter(count: uint32, r: Record): uint32 {
    if Counted(r) then (count + 1) % TWO32 else count
  }

  /** The fields with one more record, before the size limit is looked at. */
  function Added(hs: Hasher, b: Batch, r: Record): Batch {
    b.(count := CountAfter(b.count, r),
       body := b.body + Encode(r),
       flags := b.flags + FlagsOf(r),
       prot := match b.prot case None => None case Some(es) => Some(if Counted(r) then es + [Protect(hs, r)] else es))
  }

  lemma OneEncoded(r: Record)
    ensures EncodeAll([r]) == Encode(r)
  {
    assert [r][1..] == [];
    assert Encode(r) + [] == Encode(r);
  }

  lemma BodyAdded(rs: seq<Record>, r: Record)
    ensures EncodeAll(rs + [r]) == EncodeAll(rs) + Encode(r)
  {
    EncodeAllConcat(rs, [r]);
    OneEncoded(r);
  }

  lemma CountAdded(rs: seq<Record>, r: Record)
    ensures CountedIn(rs + [r]) == CountedIn(rs) + if Counted(r) then 1 else 0
    ensures CountedIn(rs + [r]) % TWO32 == CountAfter(CountedIn(rs) % TWO32, r)
  {
    CountedConcat(rs, [r]);
    assert [r][1..] == [];
    OneMore(CountedIn(rs));
  }

  lemma OneMore(n: nat)
    ensures (n % TWO32 + 1) % TWO32 == (n + 1) % TWO32
  {
  }

  /** So many checksum entries can be counted with 32 bits. */
  predicate Room(b: Batch, n: nat) {
    b.prot.Some? ==> n < TWO32
  }

  lemma FlagsAdded(rs: seq<Record>, r: Record)
    ensures AllFlags(rs + [r]) == AllFlags(rs) + FlagsOf(r)
  {
    FlagsConcat(rs, [r]);
    assert [r][1..] == [];
  }

  lemma ProtAdded(hs: Hasher, rs: seq<Record>, r: Record)
    ensures ProtOf(hs, rs + [r]) == if Counted(r) then ProtOf(hs, rs) + [Protect(hs, r)] else ProtOf(hs, rs)
  {
    ProtConcat(hs, rs, [r]);
    assert [r][1..] == [];
  }

  lemma AddedRepresents(hs: Hasher, b: Batch, rs: seq<Record>, r: Record, b': Batch)
    requires Represents(hs, b, rs) && b' == Added(hs, b, r)
    ensures Represents(hs, b', rs + [r])
  {
    BodyAdded(rs, r);
    CountAdded(rs, r);
    FlagsAdded(rs, r);
    if b.prot.Some? {
      ProtAdded(hs, rs, r);
    }
  }

  /* ---------- going back ---------- */

  /** Cuts the batch back to a save point. */
  function Cut(b: Batch, p: SavePoint): Batch
    requires HEADER <= p.size <= HEADER + |b.body| && (b.prot.Some? ==> p.count <= |b.prot.value|)
  {
    b.(body := b.body[..p.size - HEADER],
       count := p.count,
       flags := p.flags,
       prot := match b.prot case None => None case Some(es) => Some(es[..p.count]))
  }

  lemma CutBody(rs: seq<Record>, part: seq<Record>, m: nat)
    requires m <= |rs| && part == rs[..m]
    ensures |EncodeAll(part)| <= |EncodeAll(rs)| && EncodeAll(rs)[..|EncodeAll(part)|] == EncodeAll(part)
  {
    assert rs == part + rs[m..];
    EncodeAllConcat(part, rs[m..]);
  }

  /** The first entries, as many as the 32-bit count says, are those of the first records if and only if that count did not
      wrap. */
  lemma CutProt(hs: Hasher, rs: seq<Record>, part: seq<Record>, m: nat, count: nat)
    requires m <= |rs| && part == rs[..m] && count == CountedIn(part) % TWO32
    ensures count <= |ProtOf(hs, rs)| && (ProtOf(hs, rs)[..count] == ProtOf(hs, part) <==> CountedIn(part) < TWO32)
  {
    assert rs == part + rs[m..];
    ProtConcat(hs, part, rs[m..]);
    CountedConcat(part, rs[m..]);
    if ProtOf(hs, rs)[..count] == ProtOf(hs, part) {
      assert count == CountedIn(part);
    }
  }

  /** Cutting back to a save point gives the records up to it, if and only if their checksum entries can be counted. */
  lemma CutRepresents(hs: Hasher, b: Batch, rs: seq<Record>, m: nat, p: SavePoint)
    requires Represents(hs, b, rs) && m <= |rs| && p == PointAt(rs[..m])
    ensures HEADER <= p.size <= HEADER + |b.body| && (b.prot.Some? ==> p.count <= |b.prot.value|)
    ensures Represents(hs, Cut(b, p), rs[..m]) <==> Room(b, CountedIn(rs[..m]))
  {
    CutBody(rs, rs[..m], m);
    if b.prot.Some? {
      CutProt(hs, rs, rs[..m], m, p.count);
    }
  }

  /** Taking back the record just added. */
  lemma TakenBack(hs: Hasher, b: Batch, rs: seq<Record>, r: Record, added: Batch, save: SavePoint)
    requires Represents(hs, b, rs) && added == Added(hs, b, r) && save == SavePoint(HEADER + |b.body|, b.count, b.flags)
    ensures save.size <= HEADER + |added.body| && (added.prot.Some? ==> save.count <= |added.prot.value|)
    ensures Cut(added, save) == b <==> Room(b, CountedIn(rs))
    ensures Represents(hs, Cut(added, save), rs) <==> Room(b, CountedIn(rs))
  {
    var all := rs + [r];
    AddedRepresents(hs, b, rs, r, added);
    assert all[..|rs|] == rs;
    CutRepresents(hs, added, all, |rs|, save);
    assert added.body[..|b.body|] == b.body;
  }

  /** Appends one record, and takes it back when the batch gets larger than its limit. Then every field is as it was before, if
      and only if the checksum entries can be counted with 32 bits. */
  method Add(hs: Hasher, b: Batch, r: Record, ghost rs: seq<Record>) returns (b': Batch, status: Status)
    requires Represents(hs, b, rs)
    ensures status == if b.maxBytes != 0 && HEADER + |b.body| + |Encode(r)| > b.maxBytes then MemoryLimit else Ok
    ensures status == Ok ==> Represents(hs, b', rs + [r])
    ensures status == MemoryLimit ==> (b' == b <==> Room(b, CountedIn(rs))) && (Represents(hs, b', rs) <==> Room(b, CountedIn(rs)))
    ensures b' == b.(count := b'.count, body := b'.body, flags := b'.flags, prot := b'.prot) && b'.prot.Some? == b.prot.Some?
  {
    var save := SavePoint(HEADER + |b.body|, b.count, b.flags);
    b' := Added(hs, b, r);
    AddedRepresents(hs, b, rs, r, b');
    status := Ok;
    if b.maxBytes != 0 && HEADER + |b'.body| > b.maxBytes {
      TakenBack(hs, b, rs, r, b', save);
      b' := Cut(b', save);
      status := MemoryLimit;
    }
  }

  /** Markers are appended without looking at the limit. */
  method AddMarker(hs: Hasher, b: Batch, r: Record, ghost rs: seq<Record>) returns (b': Batch)
    requires Represents(hs, b, rs) && !Counted(r)
    ensures Represents(hs, b', rs + [r])
    ensures b' == b.(body := b'.body, flags := b'.flags)
  {
    b' := b.(body := b.body + Encode(r), flags := b.flags + FlagsOf(r));
    BodyAdded(rs, r);
    CountAdded(rs, r);
    FlagsAdded(rs, r);
    ProtAdded(hs, rs, r);
  }

  /* ---------- save points ---------- */

  lemma PushStacked(stack: seq<SavePoint>, rs: seq<Record>, marks: seq<nat>)
    requires Stacked(stack, rs, marks)
    ensures Stacked(stack + [PointAt(rs)], rs, marks + [|rs|])
  {
    assert rs[..|rs|] == rs;
  }

  lemma PopStacked(stack: seq<SavePoint>, rs: seq<Record>, marks: seq<nat>, n: nat)
    requires Stacked(stack, rs, marks) && |marks| == n + 1
    ensures Stacked(stack[..n], rs, marks[..n])
  {
  }

  /** Lower save points survive a rollback. */
  lemma RolledStacked(stack: seq<SavePoint>, rs: seq<Record>, marks: seq<nat>, n: nat)
    requires Stacked(stack, rs, marks) && |marks| == n + 1
    ensures marks[n] <= |rs| && Stacked(stack[..n], rs[..marks[n]], marks[..n])
  {
    var m := marks[n];
    forall i | 0 <= i < n ensures marks[i] <= m && stack[i] == PointAt(rs[..m][..marks[i]]) {
      assert rs[..m][..marks[i]] == rs[..marks[i]];
    }
  }

  lemma GrownStacked(stack: seq<SavePoint>, rs: seq<Record>, marks: seq<nat>, more: seq<Record>)
    requires Stacked(stack, rs, marks)
    ensures Stacked(stack, rs + more, marks)
  {
    forall i | 0 <= i < |marks| ensures stack[i] == PointAt((rs + more)[..marks[i]]) {
      assert (rs + more)[..marks[i]] == rs[..marks[i]];
    }
  }

  /* ---------- appending one batch to another ---------- */

  /** `dst` with the first `size - 12` bytes and `count` entries of `src`. */
  function Joined(dst: Batch, src: Batch, size: nat, count: uint32, flags: set<Flag>): Batch
    requires HEADER <= size <= HEADER + |src.body| && (src.prot.Some? ==> count <= |src.prot.value|)
  {
    dst.(count := (dst.count + count) % TWO32,
         body := dst.body + src.body[..size - HEADER],
         flags := dst.flags + flags,
         prot := match src.prot
                 case None => None
                 case Some(es) => Some((match dst.prot case None => [] case Some(ds) => ds) + es[..count]))
  }

  lemma CountsModulo(a: nat, b: nat)
    ensures (a % TWO32 + b % TWO32) % TWO32 == (a + b) % TWO32
  {
  }

  lemma JoinedCount(ds: seq<Record>, part: seq<Record>, a: nat, b: nat)
    requires a == CountedIn(ds) % TWO32 && b == CountedIn(part) % TWO32
    ensures (a + b) % TWO32 == CountedIn(ds + part) % TWO32
  {
    CountedConcat(ds, part);
    CountsModulo(CountedIn(ds), CountedIn(part));
  }

  lemma PartCounted(rs: seq<Record>, part: seq<Record>, m: nat)
    requires m <= |rs| && part == rs[..m]
    ensures CountedIn(part) <= CountedIn(rs)
  {
    assert rs == part + rs[m..];
    CountedConcat(part, rs[m..]);
  }

  lemma JoinBounds(hs: Hasher, src: Batch, ss: seq<Record>, m: nat, part: seq<Record>, p: SavePoint)
    requires Represents(hs, src, ss) && m <= |ss| && part == ss[..m] && p == PointAt(part) && Room(src, CountedIn(ss))
    ensures HEADER <= p.size <= HEADER + |src.body| && (src.prot.Some? ==> p.count <= |src.prot.value|)
    ensures src.body[..p.size - HEADER] == EncodeAll(part) && (src.prot.Some? ==> src.prot.value[..p.count] == ProtOf(hs, part))
  {
    CutBody(ss, part, m);
    if src.prot.Some? {
      CutProt(hs, ss, part, m, p.count);
      PartCounted(ss, part, m);
    }
  }

  lemma JoinedBody(a: Bytes, b: Bytes, ds: seq<Record>, part: seq<Record>, body: Bytes)
    requires a == EncodeAll(ds) && b == EncodeAll(part) && body == a + b
    ensures body == EncodeAll(ds + part)
  {
    EncodeAllConcat(ds, part);
  }

  lemma JoinedProt(hs: Hasher, prot: Option<seq<Word>>, ds: seq<Record>, part: seq<Record>, es: seq<Word>, all: seq<Word>)
    requires if prot.Some? then prot.value == ProtOf(hs, ds) else CountedIn(ds) == 0
    requires es == ProtOf(hs, part) && all == (match prot case None => [] case Some(old_) => old_) + es
    ensures all == ProtOf(hs, ds + part)
  {
    ProtConcat(hs, ds, part);
    if prot.None? {
      assert ProtOf(hs, ds) == [];
    }
  }

  lemma JoinedPlain(dst: Batch, ds: seq<Record>, part: seq<Record>, p: SavePoint, r: Batch, all: seq<Record>)
    requires dst.body == EncodeAll(ds) && dst.count == CountedIn(ds) % TWO32 && dst.flags == AllFlags(ds) && p == PointAt(part)
    requires r.body == dst.body + EncodeAll(part) && r.count == (dst.count + p.count) % TWO32 && r.flags == dst.flags + p.flags && all == ds + part
    ensures r.body == EncodeAll(all) && r.count == CountedIn(all) % TWO32 && r.flags == AllFlags(all)
  {
    JoinedBody(dst.body, EncodeAll(part), ds, part, r.body);
    JoinedCount(ds, part, dst.count, p.count);
    FlagsConcat(ds, part);
  }

  /** Appending the first records of another batch: bytes, count, flags and entries are those of the two lists
      of records put together. */
  lemma JoinRepresents(hs: Hasher, dst: Batch, src: Batch, ds: seq<Record>, part: seq<Record>, p: SavePoint, r: Batch)
    requires Represents(hs, dst, ds) && p == PointAt(part)
    requires HEADER <= p.size <= HEADER + |src.body| && src.body[..p.size - HEADER] == EncodeAll(part)
    requires src.prot.Some? ==> p.count <= |src.prot.value| && src.prot.value[..p.count] == ProtOf(hs, part)
    requires dst.prot.None? && src.prot.Some? ==> CountedIn(ds) == 0
    requires r == Joined(dst, src, p.size, p.count, p.flags)
    ensures Represents(hs, r, ds + part)
  {
    JoinedPlain(dst, ds, part, p, r, ds + part);
    if src.prot.Some? {
      JoinedProt(hs, dst.prot, ds, part, src.prot.value[..p.count], r.prot.value);
    }
  }

  /** Bytes that begin with those of readable records are read back as these. */
  lemma {:induction false} PrefixReads(part: seq<Record>, ss: seq<Record>, tail: Bytes)
    requires (forall r :: r in part ==> Fits(r)) && (forall r :: r in ss ==> Fits(r)) && EncodeAll(ss) == EncodeAll(part) + tail
    ensures part <= ss
    decreases |part|
  {
    if part != [] {
      var r, more := part[0], EncodeAll(part[1..]);
      Assoc3(Encode(r), more, tail);
      assert EncodeAll(ss) == Encode(r) + (more + tail);
      RecordRoundTrip(r, more + tail, EncodeAll(ss));
      assert ss != [];
      RecordRoundTrip(ss[0], EncodeAll(ss[1..]), EncodeAll(ss));
      PrefixReads(part[1..], ss[1..], tail);
    }
  }

  lemma TailTells(a: Bytes, b: Bytes, x: Bytes, n: nat)
    requires n == |b| <= |x| && a + x[..n] == a + b
    ensures x == b + x[n..]
  {
    assert x[..n] == (a + x[..n])[|a|..] == (a + b)[|a|..] == b;
  }

  /** What was taken over are the bytes of `part` only if `part` is where `src` begins. */
  lemma JoinedOnlyPrefix(src: Bytes, ds: seq<Record>, ss: seq<Record>, part: seq<Record>, body: Bytes, n: nat)
    requires src == EncodeAll(ss) && n == |EncodeAll(part)| <= |src| && AllFit(ss) && AllFit(part)
    requires body == EncodeAll(ds) + src[..n] == EncodeAll(ds + part)
    ensures part <= ss
  {
    EncodeAllConcat(ds, part);
    TailTells(EncodeAll(ds), EncodeAll(part), src, n);
    PrefixReads(part, ss, src[n..]);
  }

  ghost predicate AllFit(rs: seq<Record>) {
    forall r :: r in rs ==> Fits(r)
  }

  /** A batch without checksum entries that gets some had no records that need them. */
  ghost predicate JoinsEntries(dst: Batch, ds: seq<Record>, src: Batch) {
    dst.prot.None? && src.prot.Some? ==> CountedIn(ds) == 0
  }

  /** Appending what `src` has up to a point where it had the records `part`: the result has the records of both if, and for
      records with 32-bit lengths only if, `src` still begins with `part`. */
  lemma JoinIff(hs: Hasher, dst: Batch, src: Batch, ds: seq<Record>, ss: seq<Record>, part: seq<Record>, p: SavePoint, r: Batch)
    requires Represents(hs, dst, ds) && Represents(hs, src, ss) && p == PointAt(part) && Room(src, CountedIn(ss))
    requires p.size <= HEADER + |src.body| && (src.prot.Some? ==> p.count <= |src.prot.value|)
    requires r == Joined(dst, src, p.size, p.count, p.flags)
    ensures part <= ss && JoinsEntries(dst, ds, src) ==> Represents(hs, r, ds + part)
    ensures Represents(hs, r, ds + part) && AllFit(ss) && AllFit(part) ==> part <= ss
  {
    if part <= ss && JoinsEntries(dst, ds, src) {
      var m := |part|;
      assert part == ss[..m];
      JoinBounds(hs, src, ss, m, part, p);
      JoinRepresents(hs, dst, src, ds, part, p, r);
    }
    if r.body == EncodeAll(ds + part) && AllFit(ss) && AllFit(part) {
      JoinedOnlyPrefix(src.body, ds, ss, part, r.body, p.size - HEADER);
    }
  }

  /** Entries that are as many as the header counts can be counted. */
  lemma CountsAgree(hs: Hasher, b: Batch, rs: seq<Record>)
    requires Represents(hs, b, rs)
    ensures b.prot.Some? && |b.prot.value| != b.count <==> !Room(b, CountedIn(rs))
  {
    FitsCount(CountedIn(rs));
  }

  /* ---------- checksums ---------- */

  /** Takes the parts of a record out of a checksum again. */
  function Strip(hs: Hasher, val: Word, r: Record): Word
    requires Counted(r)
  {
    match r
    case Kv(kind, cf, key, value) => Xor(Xor(Xor(Xor(val, hs.cf(cf)), hs.key(key)), hs.value(value)), hs.op(KvTag(kind, false)))
    case Key(kind, cf, key) => Xor(Xor(Xor(Xor(val, hs.cf(cf)), hs.key(key)), hs.value([])), hs.op(KeyTag(kind, false)))
  }

  lemma XorZero(a: Word, b: Word)
    ensures Xor(a, b) == ZERO <==> a == b
  {
    assert Xor(a, b) == ZERO ==> forall i :: i in a <==> i in b;
  }

  lemma XorAssoc(a: Word, b: Word, c: Word)
    ensures Xor(Xor(a, b), c) == Xor(a, Xor(b, c))
  {
  }

  lemma XorComm(a: Word, b: Word)
    ensures Xor(a, b) == Xor(b, a)
  {
  }

  lemma XorCancels(k: Word, v: Word, o: Word, c: Word, val: Word)
    ensures Xor(Xor(Xor(Xor(val, c), k), v), o) == ZERO <==> val == Xor(Xor(Xor(k, v), o), c)
  {
    XorAssoc(Xor(Xor(val, c), k), v, o);
    XorAssoc(Xor(val, c), k, Xor(v, o));
    XorAssoc(k, v, o);
    XorAssoc(val, c, Xor(Xor(k, v), o));
    XorComm(c, Xor(Xor(k, v), o));
    XorZero(val, Xor(Xor(Xor(k, v), o), c));
  }

  /** A checksum belongs to a record exactly when removing the record's parts leaves zero. */
  lemma StripChecks(hs: Hasher, val: Word, r: Record)
    requires Counted(r)
    ensures Strip(hs, val, r) == ZERO <==> val == Protect(hs, r)
  {
    var v, o := if r.Kv? then r.value else [], if r.Kv? then KvTag(r.kind, false) else KeyTag(r.keyKind, false);
    XorCancels(hs.key(r.key), hs.value(v), hs.op(o), hs.cf(r.cf), val);
  }

  /** Checks the entries against the bytes, record by record. */
  method CheckEntries(hs: Hasher, body: Bytes, es: seq<Word>, count: uint32) returns (status: Status)
    ensures status == Checked(hs, body, es, count, 0)
  {
    var input, i := body, 0;
    ghost var goal := Checked(hs, input, es, count, 0);
    while input != [] && i < |es|
      invariant i <= |es| && Checked(hs, input, es, count, i) == goal
      decreases |input|
    {
      match ReadRecord(input) {
        case None =>
          return Corruption;
        case Some((r, rest)) =>
          input := rest;
          if Counted(r) {
            if Strip(hs, es[i], r) != ZERO {
              return Corruption;
            }
            i := i + 1;
          }
      }
    }
    status := if i != count then Corruption else Ok;
  }

  /** A batch without entries passes; any other if and only if the entries vouch for it. */
  method VerifyChecksum(hs: Hasher, b: Batch) returns (status: Status)
    ensures b.prot.None? ==> status == Ok
    ensures b.prot.Some? ==> status == Checked(hs, b.body, b.prot.value, b.count, 0)
    ensures b.prot.Some? ==> (status == Ok <==> exists rs, rest :: Vouches(hs, b.body, b.prot.value, b.count, 0, rs, rest))
  {
    if b.prot.None? {
      return Ok;
    }
    status := CheckEntries(hs, b.body, b.prot.value, b.count);
    ChecksIff(hs, b.body, b.prot.value, b.count);
  }

  /** What the check of the entries from `i` on against `input` gives. */
  ghost function Checked(hs: Hasher, input: Bytes, es: seq<Word>, count: uint32, i: nat): Status
    requires i <= |es|
    decreases |input|
  {
    if input == [] || i == |es| then (if i != count then Corruption else Ok)
    else
      match ReadRecord(input)
      case None => Corruption
      case Some((r, rest)) =>
        if !Counted(r) then Checked(hs, rest, es, count, i)
        else if Strip(hs, es[i], r) != ZERO then Corruption
        else Checked(hs, rest, es, count, i + 1)
  }

  lemma {:induction false} CheckedBuilt(hs: Hasher, rs: seq<Record>, es: seq<Word>, count: uint32, i: nat)
    requires (forall r :: r in rs ==> Fits(r)) && i <= |es| && es[i..] == ProtOf(hs, rs)
    ensures Checked(hs, EncodeAll(rs), es, count, i) == if count == |es| then Ok else Corruption
    decreases |rs|
  {
    if rs != [] && i < |es| {
      var r, rest := rs[0], EncodeAll(rs[1..]);
      RecordRoundTrip(r, rest, Encode(r) + rest);
      if Counted(r) {
        assert es[i] == es[i..][0] && es[i + 1..] == es[i..][1..];
        StripChecks(hs, es[i], r);
        CheckedBuilt(hs, rs[1..], es, count, i + 1);
      } else {
        CheckedBuilt(hs, rs[1..], es, count, i);
      }
    }
  }

  /** A batch built by the append operations passes its checksums, if and only if their number fits the 32-bit count. */
  lemma BuiltBatchVerifies(hs: Hasher, b: Batch, rs: seq<Record>)
    requires Represents(hs, b, rs) && b.prot.Some? && forall r :: r in rs ==> Fits(r)
    ensures Checked(hs, b.body, b.prot.value, b.count, 0) == Ok <==> CountedIn(rs) < TWO32
  {
    CheckedWhole(hs, rs, b.prot.value, b.body, b.count);
    FitsCount(CountedIn(rs));
  }

  lemma FitsCount(n: nat)
    ensures n % TWO32 == n <==> n < TWO32
  {
  }

  lemma CheckedWhole(hs: Hasher, rs: seq<Record>, es: seq<Word>, input: Bytes, count: uint32)
    requires (forall r :: r in rs ==> Fits(r)) && es == ProtOf(hs, rs) && input == EncodeAll(rs)
    ensures Checked(hs, input, es, count, 0) == if count == |es| then Ok else Corruption
  {
    assert es[0..] == es;
    CheckedBuilt(hs, rs, es, count, 0);
  }

  /** The input begins with records `rs`, and `rest` is left. */
  ghost predicate Reads(input: Bytes, rs: seq<Record>, rest: Bytes)
    decreases |rs|
  {
    if rs == [] then input == rest
    else input != [] && ReadRecord(input).Some? && ReadRecord(input).value.0 == rs[0] && Reads(ReadRecord(input).value.1, rs[1..], rest)
  }

  /** The entries from `i` on are those of records at the start of the input, as many as counted; these are all entries, or
      the records are the whole input. */
  ghost predicate Vouches(hs: Hasher, input: Bytes, es: seq<Word>, count: uint32, i: nat, rs: seq<Record>, rest: Bytes)
    requires i <= |es|
  {
    && Reads(input, rs, rest) && i + CountedIn(rs) == count <= |es| && ProtOf(hs, rs) == es[i..count]
    && (rest == [] || count == |es|)
  }

  lemma ReadsMore(input: Bytes, r: Record, next: Bytes, rs: seq<Record>, all: seq<Record>, rest: Bytes)
    requires input != [] && ReadRecord(input) == Some((r, next)) && Reads(next, rs, rest) && all == [r] + rs
    ensures Reads(input, all, rest)
  {
    assert all[1..] == rs;
  }

  lemma SliceCons<T>(es: seq<T>, i: nat, count: nat)
    requires i < count <= |es|
    ensures es[i..count] == [es[i]] + es[i + 1..count]
  {
  }

  lemma ProtCons(hs: Hasher, r: Record, rs: seq<Record>, all: seq<Record>)
    requires all == [r] + rs
    ensures ProtOf(hs, all) == if Counted(r) then [Protect(hs, r)] + ProtOf(hs, rs) else ProtOf(hs, rs)
    ensures CountedIn(all) == CountedIn(rs) + if Counted(r) then 1 else 0
  {
    assert all[0] == r && all[1..] == rs;
    if !Counted(r) {
      assert [] + ProtOf(hs, rs) == ProtOf(hs, rs);
    }
  }

  lemma EntriesMore(hs: Hasher, es: seq<Word>, count: nat, i: nat, j: nat, r: Record, rs: seq<Record>, all: seq<Record>)
    requires i <= j <= count <= |es| && ProtOf(hs, rs) == es[j..count] && all == [r] + rs
    requires if Counted(r) then j == i + 1 && es[i] == Protect(hs, r) else j == i
    ensures ProtOf(hs, all) == es[i..count] && CountedIn(all) == CountedIn(rs) + (j - i)
  {
    ProtCons(hs, r, rs, all);
    if Counted(r) {
      SliceCons(es, i, count);
    }
  }

  lemma VouchesMore(hs: Hasher, input: Bytes, es: seq<Word>, count: uint32, i: nat, r: Record, next: Bytes, rs: seq<Record>, rest: Bytes, j: nat)
    requires input != [] && ReadRecord(input) == Some((r, next)) && i <= j <= |es| && Vouches(hs, next, es, count, j, rs, rest)
    requires if Counted(r) then j == i + 1 && es[i] == Protect(hs, r) else j == i
    ensures Vouches(hs, input, es, count, i, [r] + rs, rest)
  {
    var all := [r] + rs;
    ReadsMore(input, r, next, rs, all, rest);
    EntriesMore(hs, es, count, i, j, r, rs, all);
  }

  lemma {:induction false} OkVouches(hs: Hasher, input: Bytes, es: seq<Word>, count: uint32, i: nat) returns (rs: seq<Record>, rest: Bytes)
    requires i <= |es| && Checked(hs, input, es, count, i) == Ok
    ensures Vouches(hs, input, es, count, i, rs, rest)
    decreases |input|
  {
    if input == [] || i == |es| {
      rs, rest := [], input;
      assert es[i..i] == [];
    } else {
      var (r, next) := ReadRecord(input).value;
      var j := if Counted(r) then i + 1 else i;
      if Counted(r) {
        StripChecks(hs, es[i], r);
      }
      rs, rest := OkVouches(hs, next, es, count, j);
      VouchesMore(hs, input, es, count, i, r, next, rs, rest, j);
      rs := [r] + rs;
    }
  }

  lemma VouchesLess(hs: Hasher, input: Bytes, es: seq<Word>, count: uint32, i: nat, r: Record, next: Bytes, rs: seq<Record>, rest: Bytes, j: nat)
    requires i <= |es| && Vouches(hs, input, es, count, i, rs, rest) && rs != [] && r == rs[0]
    requires j == (if Counted(r) then i + 1 else i) && ReadRecord(input) == Some((r, next))
    ensures j <= |es| && Vouches(hs, next, es, count, j, rs[1..], rest) && (Counted(r) ==> es[i] == Protect(hs, r))
  {
    var more := ProtOf(hs, rs[1..]);
    if Counted(r) {
      assert ProtOf(hs, rs) == [Protect(hs, r)] + more;
      assert es[i..count][0] == es[i] && es[i..count][1..] == es[j..count];
      assert ([Protect(hs, r)] + more)[1..] == more;
    } else {
      assert [] + more == more;
    }
  }

  lemma {:induction false} VouchedOk(hs: Hasher, input: Bytes, es: seq<Word>, count: uint32, i: nat, rs: seq<Record>, rest: Bytes)
    requires i <= |es| && Vouches(hs, input, es, count, i, rs, rest)
    ensures Checked(hs, input, es, count, i) == Ok
    decreases |rs|
  {
    if rs == [] {
      assert CountedIn(rs) == 0;
    } else if i < |es| {
      var (r, next) := ReadRecord(input).value;
      var j := if Counted(r) then i + 1 else i;
      VouchesLess(hs, input, es, count, i, r, next, rs, rest, j);
      if Counted(r) {
        StripChecks(hs, es[i], r);
      }
      VouchedOk(hs, next, es, count, j, rs[1..], rest);
    }
  }

  /** What the check of any batch says: it passes if and only if the entries, as many as the header counts, are those of
      records the bytes begin with, and these are all entries there are or all bytes there are. */
  lemma ChecksIff(hs: Hasher, input: Bytes, es: seq<Word>, count: uint32)
    ensures Checked(hs, input, es, count, 0) == Ok <==> exists rs, rest :: Vouches(hs, input, es, count, 0, rs, rest)
  {
    if Checked(hs, input, es, count, 0) == Ok {
      var rs, rest := OkVouches(hs, input, es, count, 0);
    } else if rs, rest :| Vouches(hs, input, es, count, 0, rs, rest) {
      VouchedOk(hs, input, es, count, 0, rs, rest);
    }
  }

  /** Bytes behind the last record with an entry are never looked at. */
  lemma TailIsNotChecked(hs: Hasher, rs: seq<Record>, tail: Bytes)
    requires (forall r :: r in rs ==> Fits(r)) && CountedIn(rs) < TWO32
    ensures Checked(hs, EncodeAll(rs) + tail, ProtOf(hs, rs), CountedIn(rs), 0) == Ok
  {
    var es := ProtOf(hs, rs);
    ReadsEncoded(rs, tail);
    assert es[0..|es|] == es;
    VouchedOk(hs, EncodeAll(rs) + tail, es, CountedIn(rs), 0, rs, tail);
  }

  lemma {:induction false} ReadsEncoded(rs: seq<Record>, tail: Bytes)
    requires forall r :: r in rs ==> Fits(r)
    ensures Reads(EncodeAll(rs) + tail, rs, tail)
  {
    if rs == [] {
      assert EncodeAll(rs) + tail == tail;
    } else {
      var r, more := rs[0], EncodeAll(rs[1..]);
      Assoc3(Encode(r), more, tail);
      RecordRoundTrip(r, more + tail, EncodeAll(rs) + tail);
      ReadsEncoded(rs[1..], tail);
    }
  }

  /** The handler that rebuilds the entries from the records; it packs the time of a `TimedPut` again. */
  function Updater(hs: Hasher): Handler<seq<Word>> {
    Handler(
      (es: seq<Word>) => true,
      (es: seq<Word>, r: Record, e: bool) => (if Counted(r) then es + [Protect(hs, Repacked(r))] else es, Ok),
      Unspecified, Unspecified)
  }

  function Repacked(r: Record): (q: Record)
    ensures Counted(r) ==> Counted(q)
  {
    if r.Kv? && r.kind.TimedPut? && |r.value| >= 8 then
      r.(value := Pack(Unpack(r.value).value.0, Unpack(r.value).value.1))
    else r
  }

  lemma UpdaterTakes(hs: Hasher, es: seq<Word>, r: Record, empty: bool)
    ensures Updater(hs).apply(es, r, empty) == (es + ProtOf(hs, [r]), Ok)
  {
    if r.Kv? && r.kind.TimedPut? && |r.value| >= 8 {
      UnpackRoundTrip(r.value);
    }
    assert Repacked(r) == r;
    ProtAdded(hs, [], r);
    assert [] + [r] == [r];
    assert ProtOf(hs, [r]) == if Counted(r) then [Protect(hs, r)] else [];
    if !Counted(r) {
      assert es + [] == es;
    }
  }

  lemma {:induction false} UpdaterFolds(hs: Hasher, es: seq<Word>, empty: bool, rs: seq<Record>)
    ensures Folded(Updater(hs), es, empty, rs) == es + ProtOf(hs, rs)
    decreases |rs|
  {
    if rs == [] {
      assert es + [] == es;
    } else {
      var r, tail, es1 := rs[0], rs[1..], es + ProtOf(hs, [rs[0]]);
      UpdaterTakes(hs, es, r, empty);
      UpdaterFolds(hs, es1, EmptyAfter(r, empty, Ok), tail);
      assert rs == [r] + tail;
      ProtConcat(hs, [r], tail);
      Assoc3(es, ProtOf(hs, [r]), ProtOf(hs, tail));
    }
  }

  /** Rebuilding the entries by replaying the batch gives the entries that the append operations built. */
  lemma RebuiltEntriesAgree(hs: Hasher, b: Batch, rs: seq<Record>)
    requires Represents(hs, b, rs) && forall r :: r in rs ==> Fits(r) && Unpackable(r)
    ensures var o := Replay(Updater(hs), [], true, 0, b.body);
            o.defined && o.h == ProtOf(hs, rs) && Verdict(o, true, b.count) == Ok && (b.prot.Some? ==> o.h == b.prot.value)
  {
    BatchReplays(Updater(hs), [], rs, b.count);
    UpdaterFolds(hs, [], true, rs);
  }

  /** Replaying a whole batch to a handler that takes every record: all records, in order, and the count in the
      header is right. */
  lemma BuiltBatchReplays<H(!new)>(hs: Hasher, b: Batch, rs: seq<Record>, hd: Handler<H>, h: H)
    requires Represents(hs, b, rs) && Accepts(hd) && forall r :: r in rs ==> Fits(r) && Unpackable(r)
    ensures |Rep(b)| >= HEADER
    ensures var o := Replay(hd, h, true, 0, Rep(b)[HEADER..]);
            o.defined && o.h == Folded(hd, h, true, rs) && Verdict(o, true, Count(Rep(b))) == Ok
  {
    RepReads(b);
    BatchReplays(hd, h, rs, b.count);
  }
}
