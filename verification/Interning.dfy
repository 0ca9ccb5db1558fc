/**
 Interning of storage backends: scan the table and insert with the next id, with ids possibly lost in between.
 */
module Interning {
  import opened Tables
  import opened Operations

  /** Every id was issued once, no key twice, and the counter is past all of them. */
  ghost predicate WellNumbered<K>(t: Ids<K>) {
    && (forall i :: 0 <= i < |t.rows| ==> 0 < t.rows[i].id <= t.last)
    && (forall i, j :: 0 <= i < j < |t.rows| ==> t.rows[i].id < t.rows[j].id && t.rows[i].key != t.rows[j].key)
  }

  lemma {:induction false} FindMeans<K>(rows: seq<IdRow<K>>, key: K)
    ensures match FindId(rows, key)
      case Some(id) => exists i :: 0 <= i < |rows| && rows[i] == IdRow(id, key) && forall j :: 0 <= j < i ==> rows[j].key != key
      case None => forall i :: 0 <= i < |rows| ==> rows[i].key != key
  {
    if rows != [] && rows[0].key != key {
      FindMeans(rows[1..], key);
      if FindId(rows[1..], key).Some? {
        var i :| 0 <= i < |rows[1..]| && rows[1..][i] == IdRow(FindId(rows, key).value, key)
          && forall j :: 0 <= j < i ==> rows[1..][j].key != key;
        assert rows[i + 1] == IdRow(FindId(rows, key).value, key);
        assert forall j :: 0 < j < i + 1 ==> rows[j] == rows[1..][j - 1];
      } else {
        assert forall j :: 0 < j < |rows| ==> rows[j] == rows[1..][j - 1];
      }
    } else if rows != [] {
      assert rows[0] == IdRow(rows[0].id, key);
    }
  }

  /** Whatever the table, the answer is the id of a row that holds the key. */
  lemma AnswerIsARow<K>(t: Ids<K>, key: K, lost: nat)
    ensures IdRow(InternedId(t, key, lost), key) in Intern(t, key, lost).rows
  {
    FindMeans(t.rows, key);
    if FindId(t.rows, key).None? {
      assert Intern(t, key, lost).rows[|t.rows|] == IdRow(t.last + lost + 1, key);
    }
  }

  lemma InternKeepsNumbering<K>(t: Ids<K>, key: K, lost: nat)
    requires WellNumbered(t)
    ensures WellNumbered(Intern(t, key, lost))
    ensures t.rows <= Intern(t, key, lost).rows
    ensures IdRow(InternedId(t, key, lost), key) in Intern(t, key, lost).rows
  {
    AnswerIsARow(t, key, lost);
    FindMeans(t.rows, key);
  }

  /** A request for an id: a key, and how many ids the request's failed attempts use up. */
  datatype Request<K> = Request(key: K, lost: nat)

  function InternAll<K(==)>(t: Ids<K>, requests: seq<Request<K>>): Ids<K> {
    if requests == [] then t else
      var last := requests[|requests| - 1];
      Intern(InternAll(t, requests[..|requests| - 1]), last.key, last.lost)
  }

  /** The id that the i-th request gets. */
  function Answer<K(==)>(t: Ids<K>, requests: seq<Request<K>>, i: nat): nat
    requires i < |requests|
  {
    InternedId(InternAll(t, requests[..i]), requests[i].key, requests[i].lost)
  }

  lemma {:induction false} InternAllKeepsNumbering<K>(t: Ids<K>, requests: seq<Request<K>>, i: nat)
    requires WellNumbered(t) && i <= |requests|
    ensures WellNumbered(InternAll(t, requests))
    ensures InternAll(t, requests[..i]).rows <= InternAll(t, requests).rows
  {
    if i == |requests| {
      assert requests[..i] == requests;
    }
    if requests != [] {
      var front, last := requests[..|requests| - 1], requests[|requests| - 1];
      InternAllKeepsNumbering(t, front, if i < |requests| then i else |requests| - 1);
      InternKeepsNumbering(InternAll(t, front), last.key, last.lost);
      if i < |requests| {
        assert front[..i] == requests[..i];
      }
    }
  }

  /** The answer to a request is in the table for good, under its key. */
  lemma AnswerIsKept<K>(t: Ids<K>, requests: seq<Request<K>>, i: nat)
    requires WellNumbered(t) && i < |requests|
    ensures IdRow(Answer(t, requests, i), requests[i].key) in InternAll(t, requests).rows
    ensures Answer(t, requests, i) > 0
  {
    InternAllKeepsNumbering(t, requests[..i], 0);
    InternAllKeepsNumbering(t, requests, i + 1);
    var before := InternAll(t, requests[..i]);
    InternKeepsNumbering(before, requests[i].key, requests[i].lost);
    assert requests[..i + 1][..i] == requests[..i];
    var after := InternAll(t, requests[..i + 1]);
    InternAllKeepsNumbering(t, requests[..i + 1], 0);
    assert after == Intern(before, requests[i].key, requests[i].lost);
    var row := IdRow(Answer(t, requests, i), requests[i].key);
    var j :| 0 <= j < |after.rows| && after.rows[j] == row;
    assert InternAll(t, requests).rows[j] == row;
  }

  /** Interning: over any requests, two get the same id exactly when they ask for the same backend. */
  lemma SameIdIffSameBackend<K>(t: Ids<K>, requests: seq<Request<K>>, i: nat, j: nat)
    requires WellNumbered(t) && i < |requests| && j < |requests|
    ensures Answer(t, requests, i) == Answer(t, requests, j) <==> requests[i].key == requests[j].key
  {
    AnswerIsKept(t, requests, i);
    AnswerIsKept(t, requests, j);
    InternAllKeepsNumbering(t, requests, 0);
    var rows := InternAll(t, requests).rows;
    var a :| 0 <= a < |rows| && rows[a] == IdRow(Answer(t, requests, i), requests[i].key);
    var b :| 0 <= b < |rows| && rows[b] == IdRow(Answer(t, requests, j), requests[j].key);
  }

  /** Scan-plus-counter against map-plus-counter: the same ids under the same counter. */
  ghost predicate SameIds<K(!new)>(t: Ids<K>, ids: map<K, nat>, last: nat) {
    && t.last == last
    && forall key :: FindId(t.rows, key) == Lookup(ids, key)
  }

  lemma InternSimulates<K(!new)>(t: Ids<K>, ids: map<K, nat>, last: nat, key: K)
    requires SameIds(t, ids, last)
    ensures InternedId(t, key, 0) == if key in ids then ids[key] else last + 1
    ensures key in ids ==> SameIds(Intern(t, key, 0), ids, last)
    ensures key !in ids ==> SameIds(Intern(t, key, 0), ids[key := last + 1], last + 1)
  {
    assert FindId(t.rows, key) == Lookup(ids, key);
    if key !in ids {
      var t', ids' := Intern(t, key, 0), ids[key := last + 1];
      forall k ensures FindId(t'.rows, k) == Lookup(ids', k) {
        assert FindId(t.rows, k) == Lookup(ids, k);
        FindInConcat(t.rows, [IdRow(last + 1, key)], k);
      }
    }
  }
}
