/** How many elements of a sequence satisfy a condition. */
module Counting {

  function Count<T>(p: T -> bool, xs: seq<T>): (n: nat)
    ensures n <= |xs|
  {
    if xs == [] then 0 else Count(p, xs[..|xs| - 1]) + if p(xs[|xs| - 1]) then 1 else 0
  }

  lemma CountAppend<T>(p: T -> bool, xs: seq<T>, x: T)
    ensures Count(p, xs + [x]) == Count(p, xs) + if p(x) then 1 else 0
  {
    assert (xs + [x])[..|xs|] == xs;
  }

  lemma {:induction false} CountConcat<T>(p: T -> bool, xs: seq<T>, ys: seq<T>)
    ensures Count(p, xs + ys) == Count(p, xs) + Count(p, ys)
  {
    if ys == [] {
      assert xs + ys == xs;
    } else {
      assert (xs + ys)[..|xs + ys| - 1] == xs + ys[..|ys| - 1];
      CountConcat(p, xs, ys[..|ys| - 1]);
    }
  }

  lemma CountOne<T>(p: T -> bool, x: T)
    ensures Count(p, [x]) == if p(x) then 1 else 0
  {
    assert [x][..0] == [];
  }
}
