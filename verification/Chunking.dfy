/** Cutting a sequence into consecutive groups of one size. */
module Chunking {
  ghost predicate Started<T>(chunks: seq<seq<T>>) { forall j :: 0 <= j < |chunks| ==> 0 < |chunks[j]| }

  /** The items in consecutive groups of the bound. */
  function Chunks<T>(items: seq<T>, bound: nat): (chunks: seq<seq<T>>)
    requires 0 < bound
    ensures Started(chunks)
    decreases |items|
  {
    if items == [] then []
    else if |items| <= bound then [items]
    else [items[..bound]] + Chunks(items[bound..], bound)
  }

  function Flatten<T>(chunks: seq<seq<T>>): seq<T> {
    if chunks == [] then [] else chunks[0] + Flatten(chunks[1..])
  }

  /** The chunks are all the items in order, every chunk but the last is full, and the last is not empty. */
  lemma {:induction false} ChunksPartition<T>(items: seq<T>, bound: nat)
    requires 0 < bound
    ensures var chunks := Chunks(items, bound);
            && Flatten(chunks) == items
            && (forall j :: 0 <= j < |chunks| - 1 ==> |chunks[j]| == bound)
            && (forall j :: 0 <= j < |chunks| ==> 0 < |chunks[j]| <= bound)
    decreases |items|
  {
    if items == [] {
    } else {
      if |items| <= bound {
        assert Chunks(items, bound)[1..] == [];
        assert items + [] == items;
      } else {
        ChunksPartition(items[bound..], bound);
        assert Chunks(items, bound)[1..] == Chunks(items[bound..], bound);
        assert items == items[..bound] + items[bound..];
      }
    }
  }

  lemma FirstChunk<T>(items: seq<T>, bound: nat)
    requires 0 < bound && items != []
    ensures var chunks := Chunks(items, bound);
            && 0 < |chunks|
            && |chunks[0]| <= |items|
            && |chunks[0]| <= bound
            && chunks[0] + items[|chunks[0]|..] == items
            && chunks[1..] == Chunks(items[|chunks[0]|..], bound)
            && (items[|chunks[0]|..] != [] ==> |chunks[0]| == bound)
  {
    if |items| <= bound {
      assert items[|items|..] == [] && Chunks(items, bound)[1..] == [];
    } else {
      assert Chunks(items, bound)[1..] == Chunks(items[bound..], bound);
    }
  }

  lemma {:induction false} ChunksBeginWithItems<T>(items: seq<T>, bound: nat, j: nat)
    requires 0 < bound && j < |Chunks(items, bound)|
    ensures Chunks(items, bound)[j][0] in items
    decreases j
  {
    FirstChunk(items, bound);
    var chunks := Chunks(items, bound);
    if j == 0 {
      assert chunks[0][0] == (chunks[0] + items[|chunks[0]|..])[0];
    } else {
      ChunksBeginWithItems(items[|chunks[0]|..], bound, j - 1);
    }
  }
}
