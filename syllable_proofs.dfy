/**
 * What the answer-row operations of the syllable game promise.
 */
module SyllableProofs {
  import opened Wrappers
  import opened GameCommon
  import opened SyllableGame

  /**
   * A drop leaves the tile's index in the row; the row changes exactly when
   * the index was not there, and then grows by that one tile at the end.
   */
  lemma DropAppendsIfAbsent(order: seq<Tile>, item: Tile)
    ensures IndexUsed(Dropped(order, item), item.index)
    ensures Dropped(order, item) == order <==> IndexUsed(order, item.index)
    ensures !IndexUsed(order, item.index) ==> Dropped(order, item) == order + [item]
    ensures DistinctIndices(order) ==> DistinctIndices(Dropped(order, item))
  {
    if !IndexUsed(order, item.index) {
      assert Dropped(order, item)[|order|] == item;
      assert |Dropped(order, item)| != |order|;
    }
  }

  /** A move keeps the row's length and tiles, and puts the moved tile at the target. */
  lemma MoveWithinPermutes(order: seq<Tile>, from: nat, to: nat)
    requires from < |order| && to < |order|
    ensures |MoveWithin(order, from, to)| == |order|
    ensures multiset(MoveWithin(order, from, to)) == multiset(order)
    ensures MoveWithin(order, from, to)[to] == order[from]
  {
    var rest := RemoveAt(order, from);
    RemoveAtMultiset(order, from);
    assert MoveWithin(order, from, to) == rest[..to] + [order[from]] + rest[to..];
    assert rest == rest[..to] + rest[to..];
  }

  /** Apart from the moved tile, the row keeps its order. */
  lemma MoveWithinKeepsOthers(order: seq<Tile>, from: nat, to: nat)
    requires from < |order| && to < |order|
    ensures RemoveAt(MoveWithin(order, from, to), to) == RemoveAt(order, from)
  {
    var rest := RemoveAt(order, from);
    var r := MoveWithin(order, from, to);
    assert r == rest[..to] + [order[from]] + rest[to..];
    assert r[..to] == rest[..to];
    assert r[to + 1..] == rest[to..];
    assert rest == rest[..to] + rest[to..];
  }

  /**
   * Moving a tile onto its own place gives the same row, so the
   * `fromIndex !== toIndex` guard of `handleMove` does not change the result.
   */
  lemma MoveOntoItself(order: seq<Tile>, i: nat)
    requires i < |order|
    ensures MoveWithin(order, i, i) == order
  {
    assert order == order[..i] + [order[i]] + order[i + 1..];
  }

  /**
   * The row after a move: a palette tile with an unused index is inserted at
   * the target and the row grows by one; any other call keeps the row's
   * length and multiset of tiles.
   */
  lemma MovedShape(order: seq<Tile>, fromIndex: int, toIndex: nat, newItem: Option<Tile>)
    requires toIndex < |order|
    requires (fromIndex == -1 && newItem.Some?) || (0 <= fromIndex < |order| && newItem.None?)
    ensures var r := Moved(order, fromIndex, toIndex, newItem);
            if fromIndex == -1 && !IndexUsed(order, newItem.value.index) then
              |r| == |order| + 1 && r[toIndex] == newItem.value &&
              r[..toIndex] == order[..toIndex] && r[toIndex + 1..] == order[toIndex..]
            else
              |r| == |order| && multiset(r) == multiset(order)
  {
    if fromIndex != -1 && fromIndex != toIndex {
      MoveWithinPermutes(order, fromIndex, toIndex);
    }
  }

  lemma {:induction false} AnswerInOrder(order: seq<Tile>, syllables: seq<Syllable>)
    requires |order| == |syllables|
    requires forall k :: 0 <= k < |order| ==> order[k].syllable == syllables[k]
    ensures Answer(order) == Target(syllables)
  {
    if order != [] {
      AnswerInOrder(order[1..], syllables[1..]);
    }
  }

  /** Placing every syllable of the word in its own position is judged correct. */
  lemma InOrderIsCorrect(order: seq<Tile>, word: Word)
    requires |order| == |word.syllables|
    requires forall k :: 0 <= k < |order| ==> order[k].syllable == word.syllables[k]
    ensures Judge(order, word) == Some(true)
  {
    AnswerInOrder(order, word.syllables);
  }

  /** A row that is too short or too long gets no verdict. */
  lemma PartialRowHasNoVerdict(order: seq<Tile>, word: Word)
    requires |order| != |word.syllables|
    ensures Judge(order, word) == None
  {
  }

  function IndexSet(order: seq<Tile>): set<nat> {
    set k | 0 <= k < |order| :: order[k].index
  }

  lemma {:induction false} IndexSetSize(order: seq<Tile>)
    requires DistinctIndices(order)
    ensures |IndexSet(order)| == |order|
  {
    if order != [] {
      var init := order[..|order| - 1];
      var last := order[|order| - 1];
      IndexSetSize(init);
      assert IndexSet(order) == IndexSet(init) + {last.index};
      assert last.index !in IndexSet(init);
    }
  }

  /** The positions of a palette of `n` tiles. */
  function Below(n: nat): (r: set<nat>)
    ensures forall i: nat :: i in r <==> i < n
    ensures |r| == n
  {
    if n == 0 then {} else Below(n - 1) + {n - 1}
  }

  lemma {:induction false} SubsetSize(a: set<nat>, b: set<nat>)
    requires a <= b
    ensures |a| <= |b|
    decreases a
  {
    if a != {} {
      var x :| x in a;
      SubsetSize(a - {x}, b - {x});
    }
  }

  /** A row of distinct palette tiles never holds more tiles than the palette. */
  lemma RowNoLongerThanPalette(order: seq<Tile>, palette: seq<Syllable>)
    requires FromPalette(order, palette) && DistinctIndices(order)
    ensures |order| <= |palette|
  {
    IndexSetSize(order);
    assert forall k :: 0 <= k < |order| ==> order[k] in order;
    assert IndexSet(order) <= Below(|palette|);
    SubsetSize(IndexSet(order), Below(|palette|));
  }
}
