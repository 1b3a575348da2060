/** Concatenation of a sequence of pages, as `concat` / `each` over pages produce it. */
module Seqs {

  function Flatten<T>(pages: seq<seq<T>>): (r: seq<T>)
    decreases |pages|
  {
    if pages == [] then [] else pages[0] + Flatten(pages[1..])
  }

  lemma {:induction false} FlattenAppend<T>(a: seq<seq<T>>, b: seq<seq<T>>)
    ensures Flatten(a + b) == Flatten(a) + Flatten(b)
    decreases |a|
  {
    if a == [] {
      assert a + b == b;
    } else {
      assert (a + b)[1..] == a[1..] + b;
      FlattenAppend(a[1..], b);
    }
  }

  lemma FlattenSnoc<T>(a: seq<seq<T>>, page: seq<T>)
    ensures Flatten(a + [page]) == Flatten(a) + page
  {
    FlattenAppend(a, [page]);
    assert Flatten([page]) == page + Flatten([page][1..]);
  }

  lemma AppendAssoc<T>(a: seq<T>, b: seq<T>, c: seq<T>)
    ensures a + (b + c) == (a + b) + c
  {
  }
}
