/** Sequence helpers for stating the order pages are merged in. */
module Seqs {
  /** The pages laid end to end, first page first. */
  function Flatten<T>(pages: seq<seq<T>>): seq<T>
    decreases |pages|
  {
    if |pages| == 0 then [] else pages[0] + Flatten(pages[1..])
  }

  /** The pages in the opposite order. */
  function Reverse<T>(pages: seq<seq<T>>): (r: seq<seq<T>>)
    ensures |r| == |pages|
    ensures forall i :: 0 <= i < |pages| ==> r[i] == pages[|pages| - 1 - i]
    decreases |pages|
  {
    if |pages| == 0 then [] else Reverse(pages[1..]) + [pages[0]]
  }

  lemma {:induction false} FlattenSnoc<T>(pages: seq<seq<T>>, last: seq<T>)
    ensures Flatten(pages + [last]) == Flatten(pages) + last
    decreases |pages|
  {
    if |pages| == 0 {
      assert pages + [last] == [last];
      assert Flatten([last]) == last + Flatten<T>([]);
    } else {
      assert (pages + [last])[1..] == pages[1..] + [last];
      FlattenSnoc(pages[1..], last);
    }
  }
}
