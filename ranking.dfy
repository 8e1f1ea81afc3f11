/** `ORDER BY vector_distance_cos(embedding, ?) LIMIT ?` over the chunk table. The
    distance is left uninterpreted: any function into a totally ordered type (here
    `real`). Rows at equal distance keep their table order. */
module Ranking {
  import opened DocumentModel

  /** The store's cosine-distance operator. */
  type Distance = (Embedding, Embedding) -> real

  /** Rows ordered by non-decreasing distance to `query`. */
  predicate NearestFirst(rows: seq<ChunkRow>, query: Embedding, distance: Distance) {
    forall i, j :: 0 <= i < j < |rows| ==> distance(rows[i].embedding, query) <= distance(rows[j].embedding, query)
  }

  /** No row of `rows` is nearer to `query` than `d`. */
  predicate NoneNearer(rows: seq<ChunkRow>, d: real, query: Embedding, distance: Distance) {
    forall i :: 0 <= i < |rows| ==> d <= distance(rows[i].embedding, query)
  }

  /** Inserts `row` into rows already ordered by distance, before the first row that is at
      least as far. */
  function InsertByDistance(row: ChunkRow, sorted: seq<ChunkRow>, query: Embedding, distance: Distance): (s: seq<ChunkRow>)
    ensures multiset(s) == multiset(sorted) + multiset{row}
  {
    if sorted == [] || distance(row.embedding, query) <= distance(sorted[0].embedding, query) then
      [row] + sorted
    else
      assert sorted == [sorted[0]] + sorted[1..];
      [sorted[0]] + InsertByDistance(row, sorted[1..], query, distance)
  }

  /** Inserting a row no nearer than `d` keeps every row no nearer than `d`. */
  lemma {:induction false} InsertNoneNearer(row: ChunkRow, sorted: seq<ChunkRow>, d: real, query: Embedding, distance: Distance)
    requires NoneNearer(sorted, d, query, distance) && d <= distance(row.embedding, query)
    ensures NoneNearer(InsertByDistance(row, sorted, query, distance), d, query, distance)
  {
    if sorted == [] || distance(row.embedding, query) <= distance(sorted[0].embedding, query) {
    } else {
      InsertNoneNearer(row, sorted[1..], d, query, distance);
      var rest := InsertByDistance(row, sorted[1..], query, distance);
      assert InsertByDistance(row, sorted, query, distance) == [sorted[0]] + rest;
    }
  }

  /** Insertion keeps the rows ordered by distance. */
  lemma {:induction false} InsertKeepsOrder(row: ChunkRow, sorted: seq<ChunkRow>, query: Embedding, distance: Distance)
    requires NearestFirst(sorted, query, distance)
    ensures NearestFirst(InsertByDistance(row, sorted, query, distance), query, distance)
  {
    if sorted == [] || distance(row.embedding, query) <= distance(sorted[0].embedding, query) {
      var s := [row] + sorted;
      forall i, j | 0 <= i < j < |s|
        ensures distance(s[i].embedding, query) <= distance(s[j].embedding, query)
      {
        if i > 0 {
          assert s[i] == sorted[i - 1] && s[j] == sorted[j - 1];
        } else if j > 1 {
          assert s[j] == sorted[j - 1];
        }
      }
    } else {
      var first := sorted[0];
      var tail := sorted[1..];
      assert NearestFirst(tail, query, distance) by {
        forall i, j | 0 <= i < j < |tail|
          ensures distance(tail[i].embedding, query) <= distance(tail[j].embedding, query)
        {
          assert tail[i] == sorted[i + 1] && tail[j] == sorted[j + 1];
        }
      }
      assert NoneNearer(tail, distance(first.embedding, query), query, distance) by {
        forall i | 0 <= i < |tail|
          ensures distance(first.embedding, query) <= distance(tail[i].embedding, query)
        {
          assert tail[i] == sorted[i + 1];
        }
      }
      InsertKeepsOrder(row, tail, query, distance);
      InsertNoneNearer(row, tail, distance(first.embedding, query), query, distance);
      var rest := InsertByDistance(row, tail, query, distance);
      var s := [first] + rest;
      assert InsertByDistance(row, sorted, query, distance) == s;
      forall i, j | 0 <= i < j < |s|
        ensures distance(s[i].embedding, query) <= distance(s[j].embedding, query)
      {
        assert s[j] == rest[j - 1];
        if i > 0 {
          assert s[i] == rest[i - 1];
        }
      }
    }
  }

  /** The rows in order of distance to `query`. */
  function SortByDistance(rows: seq<ChunkRow>, query: Embedding, distance: Distance): (s: seq<ChunkRow>)
    ensures NearestFirst(s, query, distance)
    ensures multiset(s) == multiset(rows)
  {
    if rows == [] then []
    else
      assert rows == [rows[0]] + rows[1..];
      var sortedTail := SortByDistance(rows[1..], query, distance);
      InsertKeepsOrder(rows[0], sortedTail, query, distance);
      InsertByDistance(rows[0], sortedTail, query, distance)
  }

  /** The number of rows `LIMIT topK` lets through from `n`; a negative limit is no limit. */
  function LimitCount(topK: int, n: nat): nat {
    if 0 <= topK < n then topK else n
  }

  /** The `topK` rows nearest to `query`: as many as the limit allows, nearest first, all
      taken from `rows`, and none farther than a row left out. */
  function TopChunks(rows: seq<ChunkRow>, query: Embedding, distance: Distance, topK: int): (top: seq<ChunkRow>)
    ensures |top| == LimitCount(topK, |rows|)
    ensures NearestFirst(top, query, distance)
    ensures multiset(top) <= multiset(rows)
    ensures forall x, y :: x in rows && x !in top && y in top ==> distance(y.embedding, query) <= distance(x.embedding, query)
  {
    var s := SortByDistance(rows, query, distance);
    var k := LimitCount(topK, |rows|);
    TopSplit(rows, s, k, query, distance);
    s[..k]
  }

  lemma TopSplit(rows: seq<ChunkRow>, s: seq<ChunkRow>, k: nat, query: Embedding, distance: Distance)
    requires multiset(s) == multiset(rows) && NearestFirst(s, query, distance)
    requires k <= |rows|
    ensures |s| == |rows| && |s[..k]| == k
    ensures multiset(s[..k]) <= multiset(rows)
    ensures forall x, y :: x in rows && x !in s[..k] && y in s[..k] ==> distance(y.embedding, query) <= distance(x.embedding, query)
  {
    assert |s| == |multiset(s)| == |multiset(rows)| == |rows|;
    assert s == s[..k] + s[k..];
    assert multiset(s) == multiset(s[..k]) + multiset(s[k..]);
    forall x, y | x in rows && x !in s[..k] && y in s[..k]
      ensures distance(y.embedding, query) <= distance(x.embedding, query)
    {
      assert x in multiset(rows);
      assert x in s;
      var j :| 0 <= j < |s| && s[j] == x;
      var i :| 0 <= i < k && s[..k][i] == y;
      assert j >= k;
    }
  }
}
