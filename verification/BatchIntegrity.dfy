/**
 What the content flags and the checksum entries of a batch tell about its records: a flag is set exactly when a record of its
 kind is there, and a record that was changed in one part is noticed exactly when the hash of that part is another.
 */
module BatchIntegrity {
  import opened Coding
  import opened BatchCodec
  import opened BatchIterate
  import opened BatchState

  /* ---------- content flags ---------- */

  /** The records a flag stands for. */
  predicate Raises(r: Record, f: Flag) {
    match f
    case HasPut => r.Kv? && r.kind.Put?
    case HasTimedPut => r.Kv? && r.kind.TimedPut?
    case HasPutEntity => r.Kv? && r.kind.PutEntity?
    case HasDelete => r.Key? && r.keyKind.Delete?
    case HasSingleDelete => r.Key? && r.keyKind.SingleDelete?
    case HasDeleteRange => r.Kv? && r.kind.DeleteRange?
    case HasMerge => r.Kv? && r.kind.Merge?
    case HasBlobIndex => r.Kv? && r.kind.PutBlobIndex?
    case HasBeginPrepare => r.Mark? && !r.mark.Noop?
    case HasEndPrepare => r.Blob? && r.blobKind.EndPrepare?
    case HasCommit => r.CommitAt? || (r.Blob? && r.blobKind.Commit?)
    case HasRollback => r.Blob? && r.blobKind.Rollback?
  }

  lemma {:induction false} FlagsTell(rs: seq<Record>, f: Flag)
    ensures f in AllFlags(rs) <==> exists r :: r in rs && Raises(r, f)
    decreases |rs|
  {
    if rs != [] {
      assert f in FlagsOf(rs[0]) <==> Raises(rs[0], f);
      FlagsTell(rs[1..], f);
      assert forall r :: r in rs <==> r == rs[0] || r in rs[1..];
    }
  }

  /** A flag of a batch is set if and only if the batch holds a record of that kind. */
  lemma FlagSetIff(hs: Hasher, b: Batch, rs: seq<Record>, f: Flag)
    requires Represents(hs, b, rs)
    ensures f in b.flags <==> exists r :: r in rs && Raises(r, f)
  {
    FlagsTell(rs, f);
  }

  /* ---------- what a checksum depends on ---------- */

  function ValueOf(r: Record): Bytes
    requires Counted(r)
  {
    if r.Kv? then r.value else []
  }

  function OpOf(r: Record): byte
    requires Counted(r)
  {
    if r.Kv? then KvTag(r.kind, false) else KeyTag(r.keyKind, false)
  }

  lemma XorTells(a: Word, b: Word, c: Word)
    ensures Xor(a, c) == Xor(b, c) <==> a == b
    ensures Xor(c, a) == Xor(c, b) <==> a == b
  {
    XorUndone(a, c);
    XorUndone(b, c);
    XorComm(a, c);
    XorComm(b, c);
  }

  lemma XorUndone(a: Word, c: Word)
    ensures Xor(Xor(a, c), c) == a
  {
  }

  lemma FourTell(k: Word, v: Word, o: Word, c: Word, k': Word, v': Word, o': Word, c': Word)
    ensures v == v' && o == o' && c == c' ==> (Xor(Xor(Xor(k, v), o), c) == Xor(Xor(Xor(k', v'), o'), c') <==> k == k')
    ensures k == k' && o == o' && c == c' ==> (Xor(Xor(Xor(k, v), o), c) == Xor(Xor(Xor(k', v'), o'), c') <==> v == v')
    ensures k == k' && v == v' && c == c' ==> (Xor(Xor(Xor(k, v), o), c) == Xor(Xor(Xor(k', v'), o'), c') <==> o == o')
    ensures k == k' && v == v' && o == o' ==> (Xor(Xor(Xor(k, v), o), c) == Xor(Xor(Xor(k', v'), o'), c') <==> c == c')
  {
    XorTells(k, k', v);
    XorTells(v, v', k);
    XorTells(Xor(k, v), Xor(k', v'), o);
    XorTells(o, o', Xor(k, v));
    XorTells(Xor(Xor(k, v), o), Xor(Xor(k', v'), o'), c);
    XorTells(c, c', Xor(Xor(k, v), o));
  }

  /** The hasher agrees on every part of the two records. */
  ghost predicate SameHash(hs: Hasher, r: Record, q: Record)
    requires Counted(r) && Counted(q)
  {
    && hs.key(r.key) == hs.key(q.key) && hs.value(ValueOf(r)) == hs.value(ValueOf(q))
    && hs.op(OpOf(r)) == hs.op(OpOf(q)) && hs.cf(r.cf) == hs.cf(q.cf)
  }

  /** `q` is `r` with only the key, only the value, only the operation or only the column family changed. */
  ghost predicate OnePart(r: Record, q: Record)
    requires Counted(r) && Counted(q)
  {
    || (ValueOf(r) == ValueOf(q) && OpOf(r) == OpOf(q) && r.cf == q.cf)
    || (r.key == q.key && OpOf(r) == OpOf(q) && r.cf == q.cf)
    || (r.key == q.key && ValueOf(r) == ValueOf(q) && r.cf == q.cf)
    || (r.key == q.key && ValueOf(r) == ValueOf(q) && OpOf(r) == OpOf(q))
  }

  /** With one part changed, the checksum stays the same if and only if the hash of that part does. */
  lemma OnePartTells(hs: Hasher, r: Record, q: Record)
    requires Counted(r) && Counted(q) && OnePart(r, q)
    ensures Protect(hs, r) == Protect(hs, q) <==> SameHash(hs, r, q)
  {
    FourTell(hs.key(r.key), hs.value(ValueOf(r)), hs.op(OpOf(r)), hs.cf(r.cf), hs.key(q.key), hs.value(ValueOf(q)), hs.op(OpOf(q)), hs.cf(q.cf));
  }

  /* ---------- a changed record ---------- */

  /** As many entries as records with one pass if and only if they are theirs. */
  lemma {:induction false} CheckedIff(hs: Hasher, rs: seq<Record>, es: seq<Word>, count: uint32, i: nat)
    requires AllFit(rs) && i + CountedIn(rs) == |es| == count
    ensures Checked(hs, EncodeAll(rs), es, count, i) == Ok <==> es[i..] == ProtOf(hs, rs)
    decreases |rs|
  {
    if rs != [] && i < |es| {
      var r, tail, j := rs[0], rs[1..], i + if Counted(rs[0]) then 1 else 0;
      assert rs == [r] + tail;
      ProtCons(hs, r, tail, rs);
      CheckedStep(hs, r, EncodeAll(tail), EncodeAll(rs), es, count, i, j);
      CheckedIff(hs, tail, es, count, j);
      if Counted(r) {
        ConsTells(es, i, j, Protect(hs, r), ProtOf(hs, tail));
      }
    }
  }

  lemma CheckedStep(hs: Hasher, r: Record, rest: Bytes, input: Bytes, es: seq<Word>, count: uint32, i: nat, j: nat)
    requires Fits(r) && input == Encode(r) + rest && i < |es| && j == i + if Counted(r) then 1 else 0
    ensures Checked(hs, input, es, count, i) == Ok <==> (Counted(r) ==> es[i] == Protect(hs, r)) && Checked(hs, rest, es, count, j) == Ok
  {
    RecordRoundTrip(r, rest, input);
    if Counted(r) {
      StripChecks(hs, es[i], r);
    }
  }

  lemma ConsTells<T>(es: seq<T>, i: nat, j: nat, x: T, more: seq<T>)
    requires i < |es| && j == i + 1
    ensures es[i..] == [x] + more <==> es[i] == x && es[j..] == more
  {
    assert es[i..] == [es[i]] + es[j..];
    assert ([x] + more)[1..] == more && ([es[i]] + es[j..])[1..] == es[j..];
  }

  lemma ChangedEntry(hs: Hasher, rs: seq<Record>, k: nat, q: Record, changed: seq<Record>)
    requires k < |rs| && Counted(rs[k]) && Counted(q) && changed == rs[k := q]
    ensures CountedIn(changed) == CountedIn(rs)
    ensures ProtOf(hs, changed) == ProtOf(hs, rs) <==> Protect(hs, rs[k]) == Protect(hs, q)
  {
    var a, b := rs[..k], rs[k + 1..];
    assert rs == a + ([rs[k]] + b) && changed == a + ([q] + b);
    ProtConcat(hs, a, [rs[k]] + b);
    ProtConcat(hs, a, [q] + b);
    ProtCons(hs, rs[k], b, [rs[k]] + b);
    ProtCons(hs, q, b, [q] + b);
    CountedConcat(a, [rs[k]] + b);
    CountedConcat(a, [q] + b);
    SpliceTells(ProtOf(hs, a), Protect(hs, rs[k]), Protect(hs, q), ProtOf(hs, b));
  }

  lemma SpliceTells<T>(a: seq<T>, x: T, y: T, b: seq<T>)
    ensures a + ([x] + b) == a + ([y] + b) <==> x == y
  {
    assert (a + ([x] + b))[|a|] == x && (a + ([y] + b))[|a|] == y;
  }

  /** The entries of a batch over its bytes with one part of one record changed: the check passes if and only if the hasher agrees
      on that part before and after. */
  lemma ChangeShowsIff(hs: Hasher, b: Batch, rs: seq<Record>, k: nat, q: Record, body: Bytes)
    requires Represents(hs, b, rs) && b.prot.Some? && AllFit(rs) && CountedIn(rs) < TWO32
    requires k < |rs| && Counted(rs[k]) && Counted(q) && Fits(q) && OnePart(rs[k], q) && body == EncodeAll(rs[k := q])
    ensures Checked(hs, body, b.prot.value, b.count, 0) == Ok <==> SameHash(hs, rs[k], q)
  {
    var changed, es := rs[k := q], b.prot.value;
    ChangedEntry(hs, rs, k, q, changed);
    assert AllFit(changed);
    FitsCount(CountedIn(rs));
    assert es[0..] == es;
    CheckedIff(hs, changed, es, b.count, 0);
    OnePartTells(hs, rs[k], q);
  }
}
