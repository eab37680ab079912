/**
 The history list as a sequence, newest first, and the removal of the entries
 with a given id.
 */
module HistoryLog {
  import opened Types

  /** The entries of `h` whose id differs from `id`, in their original order.
      Ids are not guaranteed unique, so every entry carrying `id` goes. */
  function RemoveId(h: seq<HistoryItem>, id: string): (r: seq<HistoryItem>)
    ensures |r| <= |h|
    ensures forall x :: x in r <==> x in h && x.id != id
  {
    if |h| == 0 then []
    else
      assert h == [h[0]] + h[1..];
      if h[0].id == id then RemoveId(h[1..], id)
      else [h[0]] + RemoveId(h[1..], id)
  }

  predicate HasId(h: seq<HistoryItem>, id: string)
  {
    exists i :: 0 <= i < |h| && h[i].id == id
  }

  /** Each surviving entry keeps its multiplicity; the matching ones all go. */
  lemma {:induction false} RemoveIdMultiplicity(h: seq<HistoryItem>, id: string)
    ensures forall x :: multiset(RemoveId(h, id))[x] == if x.id == id then 0 else multiset(h)[x]
  {
    if |h| > 0 {
      assert h == [h[0]] + h[1..];
      RemoveIdMultiplicity(h[1..], id);
    }
  }

  /** Removal works piecewise, so the survivors keep their relative order. */
  lemma {:induction false} RemoveIdAppend(a: seq<HistoryItem>, b: seq<HistoryItem>, id: string)
    ensures RemoveId(a + b, id) == RemoveId(a, id) + RemoveId(b, id)
  {
    if |a| > 0 {
      assert (a + b)[0] == a[0];
      assert (a + b)[1..] == a[1..] + b;
      RemoveIdAppend(a[1..], b, id);
    } else {
      assert a + b == b;
    }
  }

  /** Removing an id no entry carries changes nothing. */
  lemma {:induction false} RemoveAbsentId(h: seq<HistoryItem>, id: string)
    requires !HasId(h, id)
    ensures RemoveId(h, id) == h
  {
    if |h| > 0 {
      assert h[0].id != id;
      assert !HasId(h[1..], id) by {
        forall i | 0 <= i < |h[1..]| ensures h[1..][i].id != id {
          assert h[1..][i] == h[i + 1];
        }
      }
      RemoveAbsentId(h[1..], id);
      assert h == [h[0]] + h[1..];
    }
  }

  /** Removing an id that some entry carries shortens the list. */
  lemma RemovePresentId(h: seq<HistoryItem>, id: string)
    requires HasId(h, id)
    ensures |RemoveId(h, id)| < |h|
  {
  }

  /** Removing the same id twice is removing it once. */
  lemma {:induction false} RemoveIdIdempotent(h: seq<HistoryItem>, id: string)
    ensures RemoveId(RemoveId(h, id), id) == RemoveId(h, id)
  {
    var r := RemoveId(h, id);
    assert !HasId(r, id);
    RemoveAbsentId(r, id);
  }
}
