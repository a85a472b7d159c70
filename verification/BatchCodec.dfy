/**
 The records of a write batch and their bytes: a tag, for most records a column family (written only when it is
 not the default one), and length-prefixed slices.
 */
module BatchCodec {
  import opened Coding

  type Bytes = seq<byte>

  datatype KvKind = Put | DeleteRange | Merge | PutBlobIndex | PutEntity | TimedPut
  datatype KeyKind = Delete | SingleDelete
  datatype BlobKind = LogData | EndPrepare | Commit | Rollback
  datatype MarkKind = Noop | BeginPrepare | BeginPersistedPrepare | BeginUnprepare

  /** One record. A `TimedPut` carries its value packed with the write time; a `DeleteRange` carries the begin
      key as `key` and the end key as `value`. */
  datatype Record =
    | Kv(kind: KvKind, cf: uint32, key: Bytes, value: Bytes)
    | Key(keyKind: KeyKind, cf: uint32, key: Bytes)
    | Blob(blobKind: BlobKind, data: Bytes)
    | CommitAt(ts: Bytes, xid: Bytes)
    | Mark(mark: MarkKind)

  /* ---------- tags ---------- */

  function KvTag(kind: KvKind, withCf: bool): byte {
    match kind
    case Put => if withCf then 0x5 else 0x1
    case DeleteRange => if withCf then 0xE else 0xF
    case Merge => if withCf then 0x6 else 0x2
    case PutBlobIndex => if withCf then 0x10 else 0x11
    case PutEntity => if withCf then 0x17 else 0x16
    case TimedPut => if withCf then 0x19 else 0x18
  }

  function KeyTag(kind: KeyKind, withCf: bool): byte {
    match kind
    case Delete => if withCf then 0x4 else 0x0
    case SingleDelete => if withCf then 0x8 else 0x7
  }

  function BlobTag(kind: BlobKind): byte {
    match kind case LogData => 0x3 case EndPrepare => 0xA case Commit => 0xB case Rollback => 0xC
  }

  function MarkTag(mark: MarkKind): byte {
    match mark case Noop => 0xD case BeginPrepare => 0x9 case BeginPersistedPrepare => 0x12 case BeginUnprepare => 0x13
  }

  const COMMIT_AT_TAG: byte := 0x15

  /** What follows a tag. */
  datatype Form =
    | KvForm(kind: KvKind, withCf: bool)
    | KeyForm(keyKind: KeyKind, withCf: bool)
    | BlobForm(blobKind: BlobKind)
    | CommitAtForm
    | MarkForm(mark: MarkKind)
    | Unknown

  function FormOf(tag: byte): Form {
    if tag == 0x0 then KeyForm(Delete, false)
    else if tag == 0x1 then KvForm(Put, false)
    else if tag == 0x2 then KvForm(Merge, false)
    else if tag == 0x3 then BlobForm(LogData)
    else if tag == 0x4 then KeyForm(Delete, true)
    else if tag == 0x5 then KvForm(Put, true)
    else if tag == 0x6 then KvForm(Merge, true)
    else if tag == 0x7 then KeyForm(SingleDelete, false)
    else if tag == 0x8 then KeyForm(SingleDelete, true)
    else if tag == 0x9 then MarkForm(BeginPrepare)
    else if tag == 0xA then BlobForm(EndPrepare)
    else if tag == 0xB then BlobForm(Commit)
    else if tag == 0xC then BlobForm(Rollback)
    else if tag == 0xD then MarkForm(Noop)
    else if tag == 0xE then KvForm(DeleteRange, true)
    else if tag == 0xF then KvForm(DeleteRange, false)
    else if tag == 0x10 then KvForm(PutBlobIndex, true)
    else if tag == 0x11 then KvForm(PutBlobIndex, false)
    else if tag == 0x12 then MarkForm(BeginPersistedPrepare)
    else if tag == 0x13 then MarkForm(BeginUnprepare)
    else if tag == 0x15 then CommitAtForm
    else if tag == 0x16 then KvForm(PutEntity, false)
    else if tag == 0x17 then KvForm(PutEntity, true)
    else if tag == 0x18 then KvForm(TimedPut, false)
    else if tag == 0x19 then KvForm(TimedPut, true)
    else Unknown
  }

  /* ---------- writing ---------- */

  /** The tag, and the column family when it is not the default one. */
  function Head(plain: byte, withCf: byte, cf: uint32): Bytes {
    if cf == 0 then [plain] else [withCf] + EncodeVarint32(cf)
  }

  function Encode(r: Record): (bs: Bytes)
    ensures bs != []
  {
    match r
    case Kv(kind, cf, key, value) => Head(KvTag(kind, false), KvTag(kind, true), cf) + LengthPrefixed(key) + LengthPrefixed(value)
    case Key(kind, cf, key) => Head(KeyTag(kind, false), KeyTag(kind, true), cf) + LengthPrefixed(key)
    case Blob(kind, data) => [BlobTag(kind)] + LengthPrefixed(data)
    case CommitAt(ts, xid) => [COMMIT_AT_TAG] + LengthPrefixed(ts) + LengthPrefixed(xid)
    case Mark(mark) => [MarkTag(mark)]
  }

  function EncodeAll(rs: seq<Record>): Bytes {
    if rs == [] then [] else Encode(rs[0]) + EncodeAll(rs[1..])
  }

  lemma {:induction false} EncodeAllConcat(a: seq<Record>, b: seq<Record>)
    ensures EncodeAll(a + b) == EncodeAll(a) + EncodeAll(b)
    decreases |a|
  {
    if a == [] {
      assert a + b == b;
    } else {
      assert (a + b)[1..] == a[1..] + b;
      EncodeAllConcat(a[1..], b);
    }
  }

  /** Every slice has a length that fits 32 bits. */
  predicate Fits(r: Record) {
    match r
    case Kv(_, _, key, value) => |key| < TWO32 && |value| < TWO32
    case Key(_, _, key) => |key| < TWO32
    case Blob(_, data) => |data| < TWO32
    case CommitAt(ts, xid) => |ts| < TWO32 && |xid| < TWO32
    case Mark(_) => true
  }

  /* ---------- reading ---------- */

  function ReadCf(withCf: bool, input: Bytes): (r: Option<(uint32, Bytes)>)
    ensures r.Some? ==> |r.value.1| <= |input|
  {
    if withCf then GetVarint32(input) else Some((0, input))
  }

  function ReadTwo(input: Bytes): (r: Option<(Bytes, Bytes, Bytes)>)
    ensures r.Some? ==> |r.value.2| <= |input|
  {
    match GetLengthPrefixed(input)
    case None => None
    case Some((first, rest)) =>
      match GetLengthPrefixed(rest)
      case None => None
      case Some((second, rest)) => Some((first, second, rest))
  }

  function ReadKv(kind: KvKind, withCf: bool, input: Bytes): (r: Option<(Record, Bytes)>)
    ensures r.Some? ==> |r.value.1| <= |input|
  {
    match ReadCf(withCf, input)
    case None => None
    case Some((cf, rest)) =>
      match ReadTwo(rest)
      case None => None
      case Some((key, value, rest)) => Some((Kv(kind, cf, key, value), rest))
  }

  function ReadKey(kind: KeyKind, withCf: bool, input: Bytes): (r: Option<(Record, Bytes)>)
    ensures r.Some? ==> |r.value.1| <= |input|
  {
    match ReadCf(withCf, input)
    case None => None
    case Some((cf, rest)) =>
      match GetLengthPrefixed(rest)
      case None => None
      case Some((key, rest)) => Some((Key(kind, cf, key), rest))
  }

  function ReadBody(form: Form, input: Bytes): (r: Option<(Record, Bytes)>)
    ensures r.Some? ==> |r.value.1| <= |input|
  {
    match form
    case KvForm(kind, withCf) => ReadKv(kind, withCf, input)
    case KeyForm(kind, withCf) => ReadKey(kind, withCf, input)
    case BlobForm(kind) => (
      match GetLengthPrefixed(input)
      case None => None
      case Some((data, rest)) => Some((Blob(kind, data), rest)))
    case CommitAtForm => (
      match ReadTwo(input)
      case None => None
      case Some((ts, xid, rest)) => Some((CommitAt(ts, xid), rest)))
    case MarkForm(mark) => Some((Mark(mark), input))
    case Unknown => None
  }

  /** The first record of the input and what follows it; nothing when the input is corrupt. */
  function ReadRecord(input: Bytes): (r: Option<(Record, Bytes)>)
    requires input != []
    ensures r.Some? ==> |r.value.1| < |input|
  {
    ReadBody(FormOf(input[0]), input[1..])
  }

  function ReadAll(input: Bytes): Option<seq<Record>>
    decreases |input|
  {
    if input == [] then Some([])
    else
      match ReadRecord(input)
      case None => None
      case Some((r, rest)) =>
        match ReadAll(rest)
        case None => None
        case Some(rs) => Some([r] + rs)
  }

  /* ---------- reading back what was written ---------- */

  lemma HeadReads(plain: byte, withCf: byte, cf: uint32, rest: Bytes)
    ensures var input := Head(plain, withCf, cf) + rest;
            input != [] && input[0] == (if cf == 0 then plain else withCf) && ReadCf(cf != 0, input[1..]) == Some((cf, rest))
  {
    var input := Head(plain, withCf, cf) + rest;
    if cf == 0 {
      assert input[1..] == rest;
    } else {
      assert input[1..] == EncodeVarint32(cf) + rest;
      Varint32RoundTrip(cf, rest);
    }
  }

  lemma TwoReads(a: Bytes, b: Bytes, rest: Bytes)
    ensures ReadTwo(LengthPrefixed(a) + LengthPrefixed(b) + rest) == Some((a, b, rest)) <==> |a| < TWO32 && |b| < TWO32
  {
    var mid := LengthPrefixed(b) + rest;
    assert LengthPrefixed(a) + LengthPrefixed(b) + rest == LengthPrefixed(a) + mid;
    LengthPrefixedReads(a, mid);
    LengthPrefixedRoundTrip(a, mid);
    LengthPrefixedRoundTrip(b, rest);
    if |a| >= TWO32 {
      assert |a[..|a| % TWO32]| < |a|;
    }
  }

  lemma KvReads(kind: KvKind, cf: uint32, key: Bytes, value: Bytes, rest: Bytes, input: Bytes)
    requires ReadCf(cf != 0, input) == Some((cf, LengthPrefixed(key) + LengthPrefixed(value) + rest))
    ensures ReadKv(kind, cf != 0, input) == Some((Kv(kind, cf, key, value), rest)) <==> |key| < TWO32 && |value| < TWO32
  {
    TwoReads(key, value, rest);
  }

  lemma KeyReads(kind: KeyKind, cf: uint32, key: Bytes, rest: Bytes, input: Bytes)
    requires ReadCf(cf != 0, input) == Some((cf, LengthPrefixed(key) + rest))
    ensures ReadKey(kind, cf != 0, input) == Some((Key(kind, cf, key), rest)) <==> |key| < TWO32
  {
    LengthPrefixedRoundTrip(key, rest);
  }

  lemma KvTagForm(kind: KvKind, withCf: bool)
    ensures FormOf(KvTag(kind, withCf)) == KvForm(kind, withCf)
  {
  }

  lemma KeyTagForm(kind: KeyKind, withCf: bool)
    ensures FormOf(KeyTag(kind, withCf)) == KeyForm(kind, withCf)
  {
  }

  lemma AfterTag(tag: byte, body: Bytes)
    ensures ([tag] + body)[0] == tag && ([tag] + body)[1..] == body
  {
  }

  lemma KvRoundTrip(r: Record, rest: Bytes, input: Bytes, tail: Bytes)
    requires r.Kv? && input == Encode(r) + rest && tail == input[1..]
    ensures ReadBody(KvForm(r.kind, r.cf != 0), tail) == Some((r, rest)) <==> Fits(r)
    ensures input[0] == KvTag(r.kind, r.cf != 0)
  {
    var body := LengthPrefixed(r.key) + LengthPrefixed(r.value) + rest;
    Assoc4(Head(KvTag(r.kind, false), KvTag(r.kind, true), r.cf), LengthPrefixed(r.key), LengthPrefixed(r.value), rest);
    HeadReads(KvTag(r.kind, false), KvTag(r.kind, true), r.cf, body);
    KvReads(r.kind, r.cf, r.key, r.value, rest, tail);
  }

  lemma KeyRoundTrip(r: Record, rest: Bytes, input: Bytes, tail: Bytes)
    requires r.Key? && input == Encode(r) + rest && tail == input[1..]
    ensures ReadBody(KeyForm(r.keyKind, r.cf != 0), tail) == Some((r, rest)) <==> Fits(r)
    ensures input[0] == KeyTag(r.keyKind, r.cf != 0)
  {
    var body := LengthPrefixed(r.key) + rest;
    Assoc3(Head(KeyTag(r.keyKind, false), KeyTag(r.keyKind, true), r.cf), LengthPrefixed(r.key), rest);
    HeadReads(KeyTag(r.keyKind, false), KeyTag(r.keyKind, true), r.cf, body);
    KeyReads(r.keyKind, r.cf, r.key, rest, tail);
  }

  lemma BlobRoundTrip(r: Record, rest: Bytes, input: Bytes, tail: Bytes)
    requires r.Blob? && input == Encode(r) + rest && tail == input[1..]
    ensures ReadBody(BlobForm(r.blobKind), tail) == Some((r, rest)) <==> Fits(r)
    ensures input[0] == BlobTag(r.blobKind)
  {
    Assoc3([BlobTag(r.blobKind)], LengthPrefixed(r.data), rest);
    AfterTag(BlobTag(r.blobKind), LengthPrefixed(r.data) + rest);
    LengthPrefixedRoundTrip(r.data, rest);
  }

  lemma CommitAtRoundTrip(r: Record, rest: Bytes, input: Bytes, tail: Bytes)
    requires r.CommitAt? && input == Encode(r) + rest && tail == input[1..]
    ensures ReadBody(CommitAtForm, tail) == Some((r, rest)) <==> Fits(r)
    ensures input[0] == COMMIT_AT_TAG
  {
    Assoc4([COMMIT_AT_TAG], LengthPrefixed(r.ts), LengthPrefixed(r.xid), rest);
    AfterTag(COMMIT_AT_TAG, LengthPrefixed(r.ts) + LengthPrefixed(r.xid) + rest);
    TwoReads(r.ts, r.xid, rest);
  }

  lemma OtherTagForms(kind: BlobKind, mark: MarkKind)
    ensures FormOf(BlobTag(kind)) == BlobForm(kind) && FormOf(MarkTag(mark)) == MarkForm(mark) && FormOf(COMMIT_AT_TAG) == CommitAtForm
  {
  }

  /** A record is read back, and what follows it left alone, exactly when its slices have 32-bit lengths. */
  lemma RecordRoundTrip(r: Record, rest: Bytes, input: Bytes)
    requires input == Encode(r) + rest
    ensures ReadRecord(input) == Some((r, rest)) <==> Fits(r)
  {
    match r
    case Kv(kind, cf, _, _) => KvRoundTrip(r, rest, input, input[1..]); KvTagForm(kind, cf != 0);
    case Key(kind, cf, _) => KeyRoundTrip(r, rest, input, input[1..]); KeyTagForm(kind, cf != 0);
    case Blob(kind, _) => BlobRoundTrip(r, rest, input, input[1..]); OtherTagForms(kind, Noop);
    case CommitAt(_, _) => CommitAtRoundTrip(r, rest, input, input[1..]); OtherTagForms(LogData, Noop);
    case Mark(mark) => AfterTag(MarkTag(mark), rest); OtherTagForms(LogData, mark);
  }

  lemma ReadAllStep(r: Record, rest: Bytes, rs: seq<Record>, input: Bytes)
    requires input != [] && ReadRecord(input) == Some((r, rest)) && ReadAll(rest) == Some(rs)
    ensures ReadAll(input) == Some([r] + rs)
  {
  }

  /** Any list of records is read back in order. */
  lemma {:induction false} ReadAllRoundTrip(rs: seq<Record>)
    requires forall r :: r in rs ==> Fits(r)
    ensures ReadAll(EncodeAll(rs)) == Some(rs)
  {
    if rs != [] {
      var r, rest := rs[0], EncodeAll(rs[1..]);
      RecordRoundTrip(r, rest, Encode(r) + rest);
      ReadAllRoundTrip(rs[1..]);
      ReadAllStep(r, rest, rs[1..], Encode(r) + rest);
      assert rs == [r] + rs[1..];
    }
  }

  /* ---------- packed values ---------- */

  function Pack(value: Bytes, time: uint64): Bytes {
    value + Fixed(time, 8)
  }

  function Unpack(packed: Bytes): Option<(Bytes, uint64)> {
    if |packed| < 8 then None
    else
      var cut := |packed| - 8;
      Some((packed[..cut], DecodeFixed64(packed[cut..])))
  }

  lemma PackRoundTrip(value: Bytes, time: uint64)
    ensures Unpack(Pack(value, time)) == Some((value, time))
  {
    var packed := Pack(value, time);
    assert packed[|packed| - 8..] == Fixed(time, 8) && packed[..|packed| - 8] == value;
    Fixed64RoundTrip(time);
  }

  lemma {:induction false} FixedOfValue(bs: Bytes)
    ensures Fixed(FixedValue(bs), |bs|) == bs
  {
    if bs != [] {
      FixedOfValue(bs[1..]);
    }
  }

  /** Packing again what was unpacked gives the same bytes. */
  lemma UnpackRoundTrip(packed: Bytes)
    requires |packed| >= 8
    ensures Pack(Unpack(packed).value.0, Unpack(packed).value.1) == packed
  {
    var cut := |packed| - 8;
    FixedOfValue(packed[cut..]);
    assert packed == packed[..cut] + packed[cut..];
  }
}
