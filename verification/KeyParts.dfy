/**
 A key put together from pieces when timestamps are stripped from stored keys: the next key of a block is the shared part
 of the previous one and new bytes, with a minimum timestamp padded in at the end of the user key.
 */
module KeyParts {
  import opened Coding
  import opened Seal

  type Bytes = seq<byte>

  const FOOTER: nat := 8
  const TS: nat := 8

  function Zeros(n: nat): (s: Bytes)
    ensures |s| == n
  {
    seq(n, _ => 0)
  }

  /* ---------- what the next key is ---------- */

  /** A key without its timestamp, which sits at the end of the user key. */
  function Strip(key: Bytes, isUser: bool): Bytes
    requires |key| >= if isUser then TS else FOOTER + TS
  {
    if isUser then key[..|key| - TS] else key[..|key| - FOOTER - TS] + key[|key| - FOOTER..]
  }

  /** A key with the minimum timestamp put at the end of the user key. */
  function Pad(key: Bytes, isUser: bool): Bytes
    requires isUser || |key| >= FOOTER
  {
    if isUser then key + Zeros(TS) else key[..|key| - FOOTER] + Zeros(TS) + key[|key| - FOOTER..]
  }

  lemma StripPad(key: Bytes, isUser: bool)
    requires isUser || |key| >= FOOTER
    ensures Strip(Pad(key, isUser), isUser) == key
  {
    var p := Pad(key, isUser);
    if isUser {
      assert p[..|p| - TS] == key;
    } else {
      assert p[..|p| - FOOTER - TS] == key[..|key| - FOOTER];
      assert p[|p| - FOOTER..] == key[|key| - FOOTER..];
    }
  }

  /** The eight bytes at the end of the user key. */
  function Timestamp(key: Bytes, isUser: bool): Bytes
    requires |key| >= if isUser then TS else FOOTER + TS
  {
    var end := if isUser then |key| else |key| - FOOTER;
    key[end - TS..end]
  }

  /** Padding gives back a stripped key if and only if its timestamp was the least there is, eight zero bytes. */
  lemma PadStripIff(key: Bytes, isUser: bool)
    requires |key| >= if isUser then TS else FOOTER + TS
    ensures Pad(Strip(key, isUser), isUser) == key <==> Timestamp(key, isUser) == [0, 0, 0, 0, 0, 0, 0, 0]
  {
    var end := if isUser then |key| else |key| - FOOTER;
    var p, zeros := Pad(Strip(key, isUser), isUser), Zeros(TS);
    assert zeros == [0, 0, 0, 0, 0, 0, 0, 0];
    assert p == key[..end - TS] + zeros + key[end..];
    assert key == key[..end - TS] + Timestamp(key, isUser) + key[end..];
    assert p[end - TS..end] == zeros;
  }

  /** The bytes of the previous key that may be shared; with nothing shared there need not be a previous key. */
  predicate CanShare(key: Bytes, isUser: bool, shared: nat) {
    shared == 0 || (|key| >= (if isUser then TS else FOOTER + TS) && shared <= |key| - TS)
  }

  function Shared(key: Bytes, isUser: bool, shared: nat): (s: Bytes)
    requires CanShare(key, isUser, shared)
    ensures |s| == shared
  {
    if shared == 0 then [] else Strip(key, isUser)[..shared]
  }

  /* ---------- the pieces ---------- */

  /** A piece of the previous key, of the new bytes, or of the timestamp. */
  datatype Part = OfKey(from: nat, len: nat) | OfData(from: nat, len: nat) | Min(len: nat)

  predicate PartOk(p: Part, key: Bytes, data: Bytes) {
    match p case OfKey(from, len) => from + len <= |key| case OfData(from, len) => from + len <= |data| case Min(_) => true
  }

  function PartBytes(p: Part, key: Bytes, data: Bytes): (s: Bytes)
    requires PartOk(p, key, data)
    ensures |s| == p.len
  {
    match p case OfKey(from, len) => key[from..from + len] case OfData(from, len) => data[from..from + len] case Min(len) => Zeros(len)
  }

  predicate PartsOk(ps: seq<Part>, key: Bytes, data: Bytes) {
    forall i :: 0 <= i < |ps| ==> PartOk(ps[i], key, data)
  }

  function Length(ps: seq<Part>, n: nat): nat
    requires n <= |ps|
  {
    if n == 0 then 0 else Length(ps, n - 1) + ps[n - 1].len
  }

  /** The pieces before the `n`th, put together. */
  function Assemble(ps: seq<Part>, n: nat, key: Bytes, data: Bytes): Bytes
    requires n <= |ps| && PartsOk(ps, key, data)
  {
    if n == 0 then [] else Assemble(ps, n - 1, key, data) + PartBytes(ps[n - 1], key, data)
  }

  /** The first `n` bytes of a piece, and the others. */
  function Front(p: Part, n: nat): Part {
    match p case OfKey(from, _) => OfKey(from, n) case OfData(from, _) => OfData(from, n) case Min(_) => Min(n)
  }

  function Back(p: Part, n: nat): Part
    requires n <= p.len
  {
    match p
    case OfKey(from, len) => OfKey(from + n, len - n)
    case OfData(from, len) => OfData(from + n, len - n)
    case Min(len) => Min(len - n)
  }

  lemma FrontBack(p: Part, n: nat, key: Bytes, data: Bytes, w: Bytes)
    requires PartOk(p, key, data) && n <= p.len && w == PartBytes(p, key, data)
    ensures PartOk(Front(p, n), key, data) && PartBytes(Front(p, n), key, data) == w[..n]
    ensures PartOk(Back(p, n), key, data) && PartBytes(Back(p, n), key, data) == w[n..]
  {
  }

  /** One more piece, split around the timestamp when that belongs into it. */
  function AddParts(ps: seq<Part>, whole: Part, addTs: bool, left: nat, added: bool): (seq<Part>, bool)
    requires addTs && !added ==> left <= whole.len
  {
    if addTs && !added then (ps + [Front(whole, left)] + [Min(TS)] + [Back(whole, left)], true) else (ps + [whole], added)
  }

  function Lesser(a: nat, b: nat): nat {
    if a < b then a else b
  }

  /** The pieces of a key that ends with a footer, with the timestamp added just before the footer. */
  function Three(first: Part, second: Part, third: Part): (seq<Part>, bool)
    requires first.len + second.len + third.len >= FOOTER
  {
    var rest := second.len + third.len;
    var (p1, t1) := AddParts([], first, rest < FOOTER, first.len + rest - FOOTER, false);
    var (p2, t2) := AddParts(p1, second, third.len < FOOTER, if rest >= FOOTER then rest - FOOTER else 0, t1);
    AddParts(p2, third, third.len >= FOOTER, if third.len >= FOOTER then third.len - FOOTER else 0, t2)
  }

  /** The pieces of an internal key. Lengths are unsigned 64-bit numbers: with nothing shared and no previous key the
      length of its user key wraps around, and no byte of it is used. */
  function Pieces(size: nat, shared: nat, added: nat): (Part, Part, Part)
    requires size < TWO64 && (shared == 0 || (size >= FOOTER + TS && shared <= size - TS))
  {
    var userLen := Sub64(size, FOOTER);
    var sharedUser := Lesser(shared, Sub64(userLen, TS));
    var sharedFooter := shared - sharedUser;
    (OfKey(0, sharedUser), OfKey(if sharedFooter == 0 then 0 else userLen, sharedFooter), OfData(0, added))
  }

  function Parts(size: nat, isUser: bool, shared: nat, added: nat): seq<Part>
    requires size < TWO64 && (isUser || shared + added >= FOOTER)
    requires shared == 0 || (size >= (if isUser then TS else FOOTER + TS) && shared <= size - TS)
  {
    if isUser then [OfKey(0, shared), OfData(0, added), Min(TS)] else var (a, b, c) := Pieces(size, shared, added); Three(a, b, c).0
  }

  /** The pieces are there, and put together they are `out`. */
  ghost predicate Makes(ps: seq<Part>, key: Bytes, data: Bytes, out: Bytes) {
    forall n: nat {:trigger Open(n)} :: Open(n) ==> PartsOk(ps, key, data) && Assemble(ps, |ps|, key, data) == out
  }

  lemma MakesNone(key: Bytes, data: Bytes)
    ensures Makes([], key, data, [])
  {
  }

  lemma MakesOne(ps: seq<Part>, p: Part, key: Bytes, data: Bytes, out: Bytes, w: Bytes)
    requires Makes(ps, key, data, out) && PartOk(p, key, data) && w == PartBytes(p, key, data)
    ensures Makes(ps + [p], key, data, out + w)
  {
    assert Open(0);
    assert PartsOk(ps + [p], key, data);
    AssemblePrefix(ps, [p], |ps|, key, data);
    assert (ps + [p])[|ps|] == p;
  }

  /** The pieces are there, and those before the `n`th are `s`. */
  ghost predicate MakesBefore(ps: seq<Part>, n: nat, key: Bytes, data: Bytes, s: Bytes)
    requires n <= |ps|
  {
    forall k: nat {:trigger Open(k)} :: Open(k) ==> PartsOk(ps, key, data) && Assemble(ps, n, key, data) == s
  }

  lemma FirstPart(ps: seq<Part>, key: Bytes, data: Bytes, out: Bytes)
    requires Makes(ps, key, data, out)
    ensures MakesBefore(ps, 0, key, data, [])
  {
    assert Open(0);
  }

  lemma LastPart(ps: seq<Part>, key: Bytes, data: Bytes, out: Bytes, s: Bytes)
    requires Makes(ps, key, data, out) && MakesBefore(ps, |ps|, key, data, s)
    ensures s == out
  {
    assert Open(0);
  }

  lemma NextPart(ps: seq<Part>, n: nat, key: Bytes, data: Bytes, out: Bytes, s: Bytes)
    requires n < |ps| && MakesBefore(ps, n, key, data, s) && Makes(ps, key, data, out)
    ensures PartOk(ps[n], key, data) && |s| + ps[n].len <= |out| && MakesBefore(ps, n + 1, key, data, s + PartBytes(ps[n], key, data))
  {
    assert Open(0);
    LengthIs(ps, n, key, data);
    LengthIs(ps, |ps|, key, data);
    LengthGrows(ps, n + 1, |ps|);
  }

  lemma {:induction false} LengthIs(ps: seq<Part>, n: nat, key: Bytes, data: Bytes)
    requires n <= |ps| && PartsOk(ps, key, data)
    ensures |Assemble(ps, n, key, data)| == Length(ps, n)
  {
    if n > 0 {
      LengthIs(ps, n - 1, key, data);
    }
  }

  lemma {:induction false} LengthGrows(ps: seq<Part>, n: nat, m: nat)
    requires n <= m <= |ps|
    ensures Length(ps, n) <= Length(ps, m)
    decreases m
  {
    if n < m {
      LengthGrows(ps, n, m - 1);
    }
  }

  lemma {:induction false} AssemblePrefix(ps: seq<Part>, qs: seq<Part>, n: nat, key: Bytes, data: Bytes)
    requires n <= |ps| && PartsOk(ps, key, data) && PartsOk(ps + qs, key, data)
    ensures Assemble(ps + qs, n, key, data) == Assemble(ps, n, key, data)
  {
    if n > 0 {
      AssemblePrefix(ps, qs, n - 1, key, data);
    }
  }

  /** Bytes with the timestamp after the first `left`. */
  function Split(w: Bytes, left: nat): Bytes
    requires left <= |w|
  {
    w[..left] + Zeros(TS) + w[left..]
  }

  lemma AddSplit(ps: seq<Part>, a: Part, b: Part, whole: Part, left: nat, key: Bytes, data: Bytes, done: Bytes, w: Bytes)
    requires Makes(ps, key, data, done) && PartOk(whole, key, data) && w == PartBytes(whole, key, data)
    requires left <= |w| && a == Front(whole, left) && b == Back(whole, left)
    ensures Makes(ps + [a] + [Min(TS)] + [b], key, data, done + Split(w, left))
  {
    FrontBack(whole, left, key, data, w);
    MakesOne(ps, a, key, data, done, w[..left]);
    MakesOne(ps + [a], Min(TS), key, data, done + w[..left], Zeros(TS));
    MakesOne(ps + [a] + [Min(TS)], b, key, data, done + w[..left] + Zeros(TS), w[left..]);
    Assoc4(done, w[..left], Zeros(TS), w[left..]);
  }

  /* ---------- the pieces make the next key ---------- */

  /** Three pieces of a key, the one the footer begins in split around the timestamp. */
  function Padded(a: Bytes, b: Bytes, c: Bytes): Bytes
    requires |a| + |b| + |c| >= FOOTER
  {
    if |b| + |c| < FOOTER then Split(a, |a| + |b| + |c| - FOOTER) + b + c
    else if |c| < FOOTER then a + Split(b, |b| + |c| - FOOTER) + c
    else a + b + Split(c, |c| - FOOTER)
  }

  lemma PadSplits(a: Bytes, b: Bytes, c: Bytes)
    requires |a| + |b| + |c| >= FOOTER
    ensures Padded(a, b, c) == Pad(a + b + c, false)
  {
    if |b| + |c| < FOOTER {
      PadFirst(a, b, c, |a| + |b| + |c| - FOOTER);
    } else if |c| < FOOTER {
      PadSecond(a, b, c, |b| + |c| - FOOTER);
    } else {
      PadThird(a, b, c, |c| - FOOTER);
    }
  }

  lemma PadFirst(a: Bytes, b: Bytes, c: Bytes, n: nat)
    requires |b| + |c| < FOOTER <= |a| + |b| + |c| && n == |a| + |b| + |c| - FOOTER
    ensures Padded(a, b, c) == Pad(a + b + c, false)
  {
    var z := Zeros(TS);
    assert a + b + c == a + (b + c);
    Cut(a, b + c, n);
    Assoc4(a[..n] + z, a[n..], b, c);
    assert a[n..] + (b + c) == a[n..] + b + c;
  }

  lemma PadThird(a: Bytes, b: Bytes, c: Bytes, k: nat)
    requires FOOTER <= |c| && k == |c| - FOOTER
    ensures Padded(a, b, c) == Pad(a + b + c, false)
  {
    CutSecond(a + b, c, k);
    Assoc4(a + b, c[..k], Zeros(TS), c[k..]);
  }

  lemma PadSecond(a: Bytes, b: Bytes, c: Bytes, k: nat)
    requires |c| < FOOTER <= |b| + |c| && k == |b| + |c| - FOOTER
    ensures Padded(a, b, c) == Pad(a + b + c, false)
  {
    var z := Zeros(TS);
    assert (a + b + c)[..|a| + k] == a + b[..k];
    assert (a + b + c)[|a| + k..] == b[k..] + c;
    Assoc4(a, b[..k], z, b[k..]);
    assert a + b[..k] + z + (b[k..] + c) == a + b[..k] + z + b[k..] + c;
  }

  lemma Cut(a: Bytes, b: Bytes, n: nat)
    requires n <= |a|
    ensures (a + b)[..n] == a[..n] && (a + b)[n..] == a[n..] + b
  {
  }

  lemma CutSecond(a: Bytes, b: Bytes, k: nat)
    requires k <= |b|
    ensures (a + b)[..|a| + k] == a + b[..k] && (a + b)[|a| + k..] == b[k..]
  {
  }

  /** The shared bytes: those of the user key without its timestamp, then those of the footer. */
  lemma SharedSplits(key: Bytes, shared: nat, sharedUser: nat, sharedFooter: nat, userLen: nat)
    requires CanShare(key, false, shared) && shared > 0 && userLen == |key| - FOOTER
    requires sharedUser == Lesser(shared, userLen - TS) && sharedFooter == shared - sharedUser
    ensures Shared(key, false, shared) == key[..sharedUser] + key[userLen..userLen + sharedFooter]
  {
    var stripped := Strip(key, false);
    assert stripped == key[..userLen - TS] + key[userLen..];
  }

  lemma ThreeFirst(k1: Part, k2: Part, d: Part, n: nat, ps: seq<Part>)
    requires k2.len + d.len < FOOTER && n == k1.len + k2.len + d.len - FOOTER
    requires ps == [] + [Front(k1, n)] + [Min(TS)] + [Back(k1, n)]
    ensures Three(k1, k2, d) == (ps + [k2] + [d], true)
  {
  }

  lemma ThreeSecond(k1: Part, k2: Part, d: Part, n: nat, ps: seq<Part>)
    requires d.len < FOOTER && n == k2.len + d.len - FOOTER
    requires ps == [] + [k1] + [Front(k2, n)] + [Min(TS)] + [Back(k2, n)]
    ensures Three(k1, k2, d) == (ps + [d], true)
  {
  }

  lemma ThreeThird(k1: Part, k2: Part, d: Part, n: nat, ps: seq<Part>)
    requires n == d.len - FOOTER
    requires ps == [] + [k1] + [k2] + [Front(d, n)] + [Min(TS)] + [Back(d, n)]
    ensures Three(k1, k2, d) == (ps, true)
  {
  }

  lemma MakesTwo(ps: seq<Part>, p: Part, q: Part, key: Bytes, data: Bytes, out: Bytes, v: Bytes, w: Bytes)
    requires Makes(ps, key, data, out) && PartOk(p, key, data) && v == PartBytes(p, key, data)
    requires PartOk(q, key, data) && w == PartBytes(q, key, data)
    ensures Makes(ps + [p] + [q], key, data, out + v + w)
  {
    MakesOne(ps, p, key, data, out, v);
    MakesOne(ps + [p], q, key, data, out + v, w);
  }

  lemma MakesFirst(p: Part, key: Bytes, data: Bytes, w: Bytes)
    requires Makes([], key, data, []) && PartOk(p, key, data) && w == PartBytes(p, key, data)
    ensures Makes([] + [p], key, data, w)
  {
    MakesOne([], p, key, data, [], w);
    Nothing(w);
  }

  lemma MakesFirstSplit(a: Part, b: Part, whole: Part, left: nat, key: Bytes, data: Bytes, w: Bytes)
    requires Makes([], key, data, []) && PartOk(whole, key, data) && w == PartBytes(whole, key, data)
    requires left <= |w| && a == Front(whole, left) && b == Back(whole, left)
    ensures Makes([] + [a] + [Min(TS)] + [b], key, data, Split(w, left))
  {
    AddSplit([], a, b, whole, left, key, data, [], w);
    Nothing(Split(w, left));
  }

  lemma FirstSplit(key: Bytes, data: Bytes, k1: Part, k2: Part, d: Part, a: Bytes, b: Bytes, c: Bytes, n: nat, ps: seq<Part>)
    requires PartOk(k1, key, data) && PartOk(k2, key, data) && PartOk(d, key, data) && Makes([], key, data, [])
    requires PartBytes(k1, key, data) == a && PartBytes(k2, key, data) == b && PartBytes(d, key, data) == c
    requires |b| + |c| < FOOTER && n == |a| + |b| + |c| - FOOTER && ps == [] + [Front(k1, n)] + [Min(TS)] + [Back(k1, n)]
    ensures Makes(ps + [k2] + [d], key, data, Padded(a, b, c))
  {
    MakesFirstSplit(Front(k1, n), Back(k1, n), k1, n, key, data, a);
    MakesTwo(ps, k2, d, key, data, Split(a, n), b, c);
  }

  lemma SecondTwo(key: Bytes, data: Bytes, k1: Part, k2: Part, a: Bytes, b: Bytes, n: nat, ps: seq<Part>, x: Part, y: Part)
    requires PartOk(k1, key, data) && PartOk(k2, key, data) && Makes([], key, data, []) && n <= |b|
    requires PartBytes(k1, key, data) == a && PartBytes(k2, key, data) == b
    requires x == Front(k2, n) && y == Back(k2, n) && ps == [] + [k1] + [x] + [Min(TS)] + [y]
    ensures Makes(ps, key, data, a + Split(b, n))
  {
    MakesFirst(k1, key, data, a);
    AddSplit([] + [k1], x, y, k2, n, key, data, a, b);
  }

  lemma SecondSplit(key: Bytes, data: Bytes, k1: Part, k2: Part, d: Part, a: Bytes, b: Bytes, c: Bytes, n: nat, ps: seq<Part>)
    requires PartOk(k1, key, data) && PartOk(k2, key, data) && PartOk(d, key, data) && Makes([], key, data, [])
    requires PartBytes(k1, key, data) == a && PartBytes(k2, key, data) == b && PartBytes(d, key, data) == c
    requires |c| < FOOTER && n == |b| + |c| - FOOTER && ps == [] + [k1] + [Front(k2, n)] + [Min(TS)] + [Back(k2, n)]
    ensures Makes(ps + [d], key, data, Padded(a, b, c))
  {
    SecondTwo(key, data, k1, k2, a, b, n, ps, Front(k2, n), Back(k2, n));
    MakesOne(ps, d, key, data, a + Split(b, n), c);
  }

  lemma ThirdSplit(key: Bytes, data: Bytes, k1: Part, k2: Part, d: Part, a: Bytes, b: Bytes, c: Bytes, n: nat, ps: seq<Part>)
    requires PartOk(k1, key, data) && PartOk(k2, key, data) && PartOk(d, key, data) && Makes([], key, data, [])
    requires PartBytes(k1, key, data) == a && PartBytes(k2, key, data) == b && PartBytes(d, key, data) == c
    requires n == |c| - FOOTER && ps == [] + [k1] + [k2] + [Front(d, n)] + [Min(TS)] + [Back(d, n)]
    ensures Makes(ps, key, data, Padded(a, b, c))
  {
    MakesFirst(k1, key, data, a);
    MakesOne([] + [k1], k2, key, data, a, b);
    AddSplit([] + [k1] + [k2], Front(d, n), Back(d, n), d, n, key, data, a + b, c);
  }

  /** The pieces make the key with the timestamp just before its footer, added exactly once. */
  lemma ThreeParts(key: Bytes, data: Bytes, k1: Part, k2: Part, d: Part, a: Bytes, b: Bytes, c: Bytes)
    requires PartOk(k1, key, data) && PartOk(k2, key, data) && PartOk(d, key, data)
    requires PartBytes(k1, key, data) == a && PartBytes(k2, key, data) == b && PartBytes(d, key, data) == c
    requires |a| + |b| + |c| >= FOOTER
    ensures Three(k1, k2, d).1 && |Three(k1, k2, d).0| == 5 && Makes(Three(k1, k2, d).0, key, data, Padded(a, b, c))
  {
    MakesNone(key, data);
    if |b| + |c| < FOOTER {
      var n := |a| + |b| + |c| - FOOTER;
      var ps := [] + [Front(k1, n)] + [Min(TS)] + [Back(k1, n)];
      ThreeFirst(k1, k2, d, n, ps);
      FirstSplit(key, data, k1, k2, d, a, b, c, n, ps);
    } else if |c| < FOOTER {
      var n := |b| + |c| - FOOTER;
      var ps := [] + [k1] + [Front(k2, n)] + [Min(TS)] + [Back(k2, n)];
      ThreeSecond(k1, k2, d, n, ps);
      SecondSplit(key, data, k1, k2, d, a, b, c, n, ps);
    } else {
      var n := |c| - FOOTER;
      var ps := [] + [k1] + [k2] + [Front(d, n)] + [Min(TS)] + [Back(d, n)];
      ThreeThird(k1, k2, d, n, ps);
      ThirdSplit(key, data, k1, k2, d, a, b, c, n, ps);
    }
  }

  lemma Nothing(a: Bytes)
    ensures [] + a == a
  {
  }

  lemma PiecesAre(size: nat, shared: nat, added: nat)
    requires size < TWO64 && FOOTER + TS <= size && 0 < shared <= size - TS
    ensures var user, u := size - FOOTER, Lesser(shared, size - FOOTER - TS);
            Pieces(size, shared, added) == (OfKey(0, u), OfKey(if shared == u then 0 else user, shared - u), OfData(0, added))
  {
  }

  lemma NothingShared(size: nat, added: nat)
    requires size < TWO64
    ensures Pieces(size, 0, added) == (OfKey(0, 0), OfKey(0, 0), OfData(0, added))
  {
  }

  /** The first two pieces are the shared bytes, the third is the new ones. */
  lemma PieceBytes(key: Bytes, data: Bytes, shared: nat, all: Bytes, k1: Part, k2: Part, d: Part)
    requires |key| < TWO64 && CanShare(key, false, shared) && all == Shared(key, false, shared)
    requires (k1, k2, d) == Pieces(|key|, shared, |data|)
    ensures PartOk(k1, key, data) && PartOk(k2, key, data) && PartOk(d, key, data)
    ensures PartBytes(k1, key, data) + PartBytes(k2, key, data) == all && PartBytes(d, key, data) == data
  {
    if shared > 0 {
      var userLen := |key| - FOOTER;
      var u := Lesser(shared, userLen - TS);
      PiecesAre(|key|, shared, |data|);
      SharedSplits(key, shared, u, shared - u, userLen);
    } else {
      NothingShared(|key|, |data|);
    }
  }

  lemma UserParts(key: Bytes, data: Bytes, shared: nat)
    requires CanShare(key, true, shared)
    ensures var ps := [OfKey(0, shared), OfData(0, |data|), Min(TS)];
            Makes(ps, key, data, Pad(Shared(key, true, shared) + data, true))
  {
    var k, d, m := OfKey(0, shared), OfData(0, |data|), Min(TS);
    MakesNone(key, data);
    assert Shared(key, true, shared) == key[0..shared] == key[..shared];
    MakesOne([], k, key, data, [], key[..shared]);
    assert [] + [k] == [k] && [] + key[..shared] == key[..shared];
    MakesOne([k], d, key, data, key[..shared], data);
    assert [k] + [d] == [k, d];
    MakesOne([k, d], m, key, data, key[..shared] + data, Zeros(TS));
    assert [k, d] + [m] == [k, d, m];
  }

  /** The pieces of a whole key given without its timestamp. */
  function WholeParts(isUser: bool, added: nat): seq<Part>
    requires isUser || added >= FOOTER
  {
    if isUser then [OfData(0, added)] + [Min(TS)]
    else [OfData(0, added - FOOTER)] + [Min(TS)] + [OfData(added - FOOTER, FOOTER)]
  }

  lemma WholePartsAre(key: Bytes, isUser: bool, data: Bytes)
    requires isUser || |data| >= FOOTER
    ensures Makes(WholeParts(isUser, |data|), key, data, Pad(data, isUser))
  {
    var d := OfData(0, |data|);
    MakesNone(key, data);
    if isUser {
      MakesOne([], d, key, data, [], data);
      Nothing(data);
      assert [] + [d] == [d];
      MakesOne([d], Min(TS), key, data, data, Zeros(TS));
    } else {
      var n := |data| - FOOTER;
      AddSplit([], Front(d, n), Back(d, n), d, n, key, data, [], data);
      Nothing(Split(data, n));
      assert [] + [Front(d, n)] == [Front(d, n)];
    }
  }

  /** Put together, the pieces are the shared bytes and the new ones, with the timestamp padded in exactly once. */
  lemma PartsAre(key: Bytes, isUser: bool, data: Bytes, shared: nat)
    requires |key| < TWO64 && CanShare(key, isUser, shared) && (isUser || shared + |data| >= FOOTER)
    ensures var ps := Parts(|key|, isUser, shared, |data|);
            |ps| <= 5 && Makes(ps, key, data, Pad(Shared(key, isUser, shared) + data, isUser))
  {
    if isUser {
      UserParts(key, data, shared);
    } else {
      var all := Shared(key, false, shared);
      var (k1, k2, d) := Pieces(|key|, shared, |data|);
      PieceBytes(key, data, shared, all, k1, k2, d);
      ThreeParts(key, data, k1, k2, d, PartBytes(k1, key, data), PartBytes(k2, key, data), data);
      PadSplits(PartBytes(k1, key, data), PartBytes(k2, key, data), data);
    }
  }
}
