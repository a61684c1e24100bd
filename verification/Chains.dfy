/** Items standing back to back, for any notion of one item standing between two offsets. */
module Chains {

  ghost predicate Chain<T>(at: (nat, nat, T) -> bool, i: nat, e: nat, items: seq<T>)
    decreases |items|
  {
    if items == [] then i == e
    else exists m: nat :: at(i, m, items[0]) && Chain(at, m, e, items[1..])
  }

  lemma One<T>(at: (nat, nat, T) -> bool, i: nat, e: nat, item: T)
    requires at(i, e, item)
    ensures Chain(at, i, e, [item])
  {
    assert Chain(at, e, e, [item][1..]);
  }

  lemma {:induction false} ConcatChain<T>(at: (nat, nat, T) -> bool, i: nat, m: nat, e: nat, a: seq<T>, b: seq<T>)
    requires Chain(at, i, m, a) && Chain(at, m, e, b)
    ensures Chain(at, i, e, a + b)
    decreases |a|
  {
    if a == [] {
      assert a + b == b;
    } else {
      var j: nat :| at(i, j, a[0]) && Chain(at, j, m, a[1..]);
      ConcatChain(at, j, m, e, a[1..], b);
      assert (a + b)[1..] == a[1..] + b;
    }
  }

  lemma {:induction false} SplitChain<T>(at: (nat, nat, T) -> bool, i: nat, e: nat, a: seq<T>, b: seq<T>)
    returns (m: nat)
    requires Chain(at, i, e, a + b)
    ensures Chain(at, i, m, a) && Chain(at, m, e, b)
    decreases |a|
  {
    if a == [] {
      m := i;
      assert a + b == b;
    } else {
      var j: nat :| at(i, j, (a + b)[0]) && Chain(at, j, e, (a + b)[1..]);
      assert (a + b)[1..] == a[1..] + b;
      m := SplitChain(at, j, e, a[1..], b);
    }
  }

  lemma {:induction false} Transfer<T(!new)>(at: (nat, nat, T) -> bool, to: (nat, nat, T) -> bool,
                                             i: nat, e: nat, items: seq<T>)
    requires Chain(at, i, e, items)
    requires forall j, m, item :: at(j, m, item) ==> to(j, m, item)
    ensures Chain(to, i, e, items)
    decreases |items|
  {
    if items != [] {
      var m: nat :| at(i, m, items[0]) && Chain(at, m, e, items[1..]);
      Transfer(at, to, m, e, items[1..]);
    }
  }
}
