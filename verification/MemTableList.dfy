/**
 The skip list as an object: its links, next to the shape they represent.
 */
module MemTableList {
  import opened SkipListSpec
  import opened SkipList

  class SortedList {
    var l: List
    ghost var sh: Shape
    ghost var last: nat

    ghost predicate Valid()
      reads this
    {
      IsList(l, sh) && Remembers(l, sh, last) && l.prevHeight <= l.maxHeight
    }

    /** The keys in the list, in order. */
    ghost function Keys(): seq<int>
      requires Valid()
      reads this
    {
      sh.ks[1..]
    }

    constructor (limit: nat)
      requires limit > 0
      ensures Valid() && Keys() == [] && l.limit == limit
    {
      l := List([Node(0, seq(limit, _ => NULL))], seq(limit, _ => 0), 1, 1, limit);
      sh, last := Shape([0], [limit], [0]), 0;
      new;
      assert Stored(l.nodes, sh, 0);
    }

    /** Adds exactly the new key, in its place; `height` is what the random number generator decided. */
    method Insert(key: int, height: nat)
      requires Valid() && key !in Keys() && 1 <= height <= l.limit
      modifies this
      ensures Valid() && l.limit == old(l).limit
      ensures exists at :: 0 <= at <= |old(Keys())| && Keys() == InsertAt(old(Keys()), at, key)
      ensures Ordered([0] + Keys())
    {
      var l1, sh1, last1 := SkipList.Insert(l, key, height, sh, last);
      ghost var at := last1 - 1;
      assert sh1.ks[1..] == InsertAt(sh.ks[1..], at, key);
      l, sh, last := l1, sh1, last1;
      assert forall i :: 1 <= i < |sh.ks| ==> ([0] + Keys())[i] == sh.ks[i];
    }

    method Contains(key: int) returns (b: bool)
      requires Valid()
      ensures b <==> key in Keys()
    {
      b := SkipList.Contains(l, key, sh);
    }
  }
}
