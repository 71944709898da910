/** The clipboard history list of both variants, as a sequence of entries.

    JavaScript compares history items by reference (`historyItem !== item`), and
    two items copied from the same text are different objects. An entry therefore
    carries, besides the item's fields, the allocation number the object got when
    `addToHistory` created it; two entries are the same object exactly when their
    numbers agree. Numbers are handed out in increasing order, so a well-formed
    history lists them strictly increasing. */
module History {

  datatype Entry<+T> = Entry(id: nat, item: T)

  /** The allocation numbers along the history increase strictly: each object
      occurs once, and in the order it was added. */
  ghost predicate Increasing<T>(h: seq<Entry<T>>)
  {
    forall i, j :: 0 <= i < j < |h| ==> h[i].id < h[j].id
  }

  /** Every entry was allocated before the number `bound` was handed out. */
  ghost predicate IdsBelow<T>(h: seq<Entry<T>>, bound: nat)
  {
    forall i :: 0 <= i < |h| ==> h[i].id < bound
  }

  /** `h.filter(x => x !== item)` where `item` is the object numbered `id`. */
  function Without<T>(h: seq<Entry<T>>, id: nat): (r: seq<Entry<T>>)
    ensures |r| <= |h|
    ensures forall i :: 0 <= i < |r| ==> r[i] in h && r[i].id != id
    ensures forall i :: 0 <= i < |h| && h[i].id != id ==> h[i] in r
  {
    if h == [] then []
    else if h[0].id == id then Without(h[1..], id)
    else [h[0]] + Without(h[1..], id)
  }

  /** Filtering distributes over concatenation: it keeps the relative order of
      what it keeps. */
  lemma {:induction false} WithoutConcat<T>(a: seq<Entry<T>>, b: seq<Entry<T>>, id: nat)
    ensures Without(a + b, id) == Without(a, id) + Without(b, id)
  {
    if a == [] {
      assert a + b == b;
    } else {
      assert (a + b)[1..] == a[1..] + b;
      WithoutConcat(a[1..], b, id);
    }
  }

  /** Filtering out an object that is not in the history leaves it as it is. */
  lemma {:induction false} WithoutAbsent<T>(h: seq<Entry<T>>, id: nat)
    requires forall i :: 0 <= i < |h| ==> h[i].id != id
    ensures Without(h, id) == h
  {
    if h != [] {
      WithoutAbsent(h[1..], id);
    }
  }

  /** Removing the same object twice is the same as removing it once. */
  lemma {:induction false} WithoutIdempotent<T>(h: seq<Entry<T>>, id: nat)
    ensures Without(Without(h, id), id) == Without(h, id)
  {
    var r := Without(h, id);
    WithoutAbsent(r, id);
  }

  /** Filtering keeps a well-formed history well formed. */
  lemma {:induction false} WithoutIncreasing<T>(h: seq<Entry<T>>, id: nat)
    requires Increasing(h)
    ensures Increasing(Without(h, id))
  {
    if h != [] {
      WithoutIncreasing(h[1..], id);
      var rest := Without(h[1..], id);
      if h[0].id != id {
        var r := [h[0]] + rest;
        forall i, j | 0 <= i < j < |r|
          ensures r[i].id < r[j].id
        {
          if i == 0 {
            assert r[j] == rest[j - 1];
            var k :| 0 <= k < |h[1..]| && h[1..][k] == r[j];
            assert h[k + 1] == r[j];
          }
        }
      }
    }
  }

  /** In a well-formed history, filtering by the number of the entry at position
      `i` removes exactly that entry and keeps every other one, in order. */
  lemma {:induction false} WithoutRemovesExactlyOne<T>(h: seq<Entry<T>>, i: nat)
    requires Increasing(h)
    requires i < |h|
    ensures Without(h, h[i].id) == h[..i] + h[i + 1..]
  {
    var id := h[i].id;
    assert h == h[..i] + ([h[i]] + h[i + 1..]);
    WithoutConcat(h[..i], [h[i]] + h[i + 1..], id);
    WithoutConcat([h[i]], h[i + 1..], id);
    WithoutAbsent(h[..i], id);
    WithoutAbsent(h[i + 1..], id);
    assert Without([h[i]], id) == [];
  }

  /** An entry appended with a fresh number and then filtered out again gives
      back the history it was appended to. */
  lemma {:induction false} WithoutAppended<T>(h: seq<Entry<T>>, e: Entry<T>)
    requires IdsBelow(h, e.id)
    ensures Without(h + [e], e.id) == h
  {
    WithoutConcat(h, [e], e.id);
    WithoutAbsent(h, e.id);
    assert Without([e], e.id) == [];
  }
}
