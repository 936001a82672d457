/** Bounded pages over entity ids in ascending order, each starting strictly
    after a cursor, as the store lists them. */
module Paging {
  import opened ByteOrder
  import opened Outcomes

  predicate After(cursor: Option<Bytes>, key: Bytes) {
    cursor.None? || Less(cursor.value, key)
  }

  function KeysAfter(keys: set<Bytes>, cursor: Option<Bytes>): set<Bytes> {
    set key | key in keys && After(cursor, key)
  }

  /** `entity_ids_after` */
  function Page(keys: set<Bytes>, cursor: Option<Bytes>, limit: nat): seq<Bytes> {
    var all := Listing(KeysAfter(keys, cursor));
    if limit < |all| then all[..limit] else all
  }

  /** The key is the next one past a point of the listing. */
  ghost predicate NextPast(keys: set<Bytes>, reached: Option<Bytes>, key: Bytes) {
    && key in keys && After(reached, key)
    && forall k :: k in keys && After(reached, k) ==> k == key || Less(key, k)
  }

  function Reached(cursor: Option<Bytes>, page: seq<Bytes>, i: nat): Option<Bytes>
    requires i <= |page|
  {
    if i == 0 then cursor else Some(page[i - 1])
  }

  ghost predicate WalksAt(keys: set<Bytes>, cursor: Option<Bytes>, page: seq<Bytes>, i: nat)
    requires i < |page|
  {
    NextPast(keys, Reached(cursor, page, i), page[i])
  }

  /** The keys follow the cursor one after another, with none in between. */
  ghost predicate Walks(keys: set<Bytes>, cursor: Option<Bytes>, page: seq<Bytes>) {
    forall i: nat :: i < |page| ==> WalksAt(keys, cursor, page, i)
  }

  /** In an ascending list of all the keys past the cursor, the next one past a
      point is the one that follows it. */
  lemma AscendingWalksAt(all: seq<Bytes>, keys: set<Bytes>, cursor: Option<Bytes>, i: nat, k: Bytes)
    requires Ascending(all) && (forall x :: x in all <==> x in keys && After(cursor, x))
    requires i < |all| && k in keys && After(Reached(cursor, all, i), k)
    ensures k == all[i] || Less(all[i], k)
  {
    if i > 0 && cursor.Some? {
      assert all[i - 1] in all;
      LessTransitive(cursor.value, all[i - 1], k);
    }
    assert k in all;
    var j :| 0 <= j < |all| && all[j] == k;
    if j < i {
      if j < i - 1 {
        LessTransitive(all[i - 1], k, all[i - 1]);
      }
      LessIrreflexive(all[i - 1]);
    }
  }

  lemma PageWalks(keys: set<Bytes>, cursor: Option<Bytes>, limit: nat)
    ensures Walks(keys, cursor, Page(keys, cursor, limit))
  {
    var all, page := Listing(KeysAfter(keys, cursor)), Page(keys, cursor, limit);
    forall i: nat | i < |page|
      ensures WalksAt(keys, cursor, page, i)
    {
      assert page[i] == all[i] && all[i] in all;
      assert Reached(cursor, page, i) == Reached(cursor, all, i);
      forall k | k in keys && After(Reached(cursor, page, i), k)
        ensures k == page[i] || Less(page[i], k)
      {
        AscendingWalksAt(all, keys, cursor, i, k);
      }
    }
  }

  lemma {:induction false} WalksPast(keys: set<Bytes>, cursor: Option<Bytes>, page: seq<Bytes>, i: nat)
    requires Walks(keys, cursor, page) && i < |page|
    ensures After(cursor, page[i])
  {
    assert WalksAt(keys, cursor, page, i);
    if i > 0 && cursor.Some? {
      WalksPast(keys, cursor, page, i - 1);
      LessTransitive(cursor.value, page[i - 1], page[i]);
    }
  }

  /** A page with room on it that lists nothing means nothing is left. */
  lemma PageEmpty(keys: set<Bytes>, cursor: Option<Bytes>, limit: nat)
    requires limit > 0
    ensures Page(keys, cursor, limit) == [] <==> KeysAfter(keys, cursor) == {}
  {
    assert |Listing(KeysAfter(keys, cursor))| == |KeysAfter(keys, cursor)|;
  }

  // ---------- What a walk has left to do ----------

  function MarkedAfter(keys: set<Bytes>, cursor: Option<Bytes>, marked: set<Bytes>): set<Bytes> {
    set key | key in keys && After(cursor, key) && key in marked
  }

  /** How many marked keys are still ahead. */
  function Left(keys: set<Bytes>, cursor: Option<Bytes>, marked: set<Bytes>): nat {
    |MarkedAfter(keys, cursor, marked)|
  }

  /** A page is as long as its limit and what is left allow. */
  lemma PageFull(keys: set<Bytes>, cursor: Option<Bytes>, limit: nat)
    ensures |Page(keys, cursor, limit)| == if Left(keys, cursor, keys) <= limit then Left(keys, cursor, keys) else limit
  {
    assert MarkedAfter(keys, cursor, keys) == KeysAfter(keys, cursor);
  }

  /** A scan with room for so many went that far, and is over exactly if nothing was left. */
  predicate Advanced(keys: set<Bytes>, cursor: Option<Bytes>, cursor': Option<Bytes>, room: nat, complete: bool) {
    var left := Left(keys, cursor, keys);
    && Left(keys, cursor', keys) == (if left <= room then 0 else left - room)
    && (complete <==> left == 0)
  }

  lemma PageAdvances(keys: set<Bytes>, cursor: Option<Bytes>, limit: nat)
    requires limit > 0
    ensures var page := Page(keys, cursor, limit);
            Walks(keys, cursor, page) && Advanced(keys, cursor, Reached(cursor, page, |page|), limit, page == [])
  {
    PageFull(keys, cursor, limit);
    PageWalks(keys, cursor, limit);
    WalkAdvances(keys, cursor, Page(keys, cursor, limit), |Page(keys, cursor, limit)|);
  }

  lemma LeftNext(keys: set<Bytes>, reached: Option<Bytes>, key: Bytes, marked: set<Bytes>)
    requires NextPast(keys, reached, key)
    ensures KeysAfter(keys, reached) == {key} + KeysAfter(keys, Some(key))
    ensures Left(keys, reached, marked) == Left(keys, Some(key), marked) + if key in marked then 1 else 0
  {
    LessIrreflexive(key);
    forall k | k in keys && Less(key, k)
      ensures After(reached, k)
    {
      if reached.Some? {
        LessTransitive(reached.value, key, k);
      }
    }
    var ahead, rest := MarkedAfter(keys, reached, marked), MarkedAfter(keys, Some(key), marked);
    assert KeysAfter(keys, reached) == {key} + KeysAfter(keys, Some(key));
    if key in marked {
      assert ahead == {key} + rest;
    } else {
      assert ahead == rest;
    }
  }

  lemma LeftAtStart(keys: set<Bytes>, marked: set<Bytes>)
    requires marked <= keys
    ensures Left(keys, None, marked) == |marked|
  {
    assert MarkedAfter(keys, None, marked) == marked;
  }

  lemma NoneLeft(keys: set<Bytes>, cursor: Option<Bytes>, marked: set<Bytes>)
    requires KeysAfter(keys, cursor) == {}
    ensures Left(keys, cursor, marked) == 0
  {
    assert forall key :: key in MarkedAfter(keys, cursor, marked) ==> key in KeysAfter(keys, cursor);
    assert MarkedAfter(keys, cursor, marked) == {};
  }

  /** A walk moves the cursor past exactly the keys it lists. */
  lemma {:induction false} WalkAdvances(keys: set<Bytes>, cursor: Option<Bytes>, page: seq<Bytes>, n: nat)
    requires Walks(keys, cursor, page) && n <= |page|
    ensures Left(keys, cursor, keys) == n + Left(keys, Reached(cursor, page, n), keys)
  {
    if n > 0 {
      WalkAdvances(keys, cursor, page, n - 1);
      assert WalksAt(keys, cursor, page, n - 1);
      LeftNext(keys, Reached(cursor, page, n - 1), page[n - 1], keys);
    }
  }
}
