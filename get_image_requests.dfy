/**
 * The listing handler: every stored request, most recently created first. Rows
 * are read in ascending id order and then sorted by creation time, stably, so
 * requests created at the same instant come out in id order.
 */
module ListHandler {
  import opened Schema
  import opened DbSchema

  /** Non-increasing creation times from front to back. */
  predicate SortedByRecency(s: seq<ImageGenerationRequest>) {
    forall i, j :: 0 <= i < j < |s| ==> s[i].created_at >= s[j].created_at
  }

  /** No two entries share an id. */
  predicate DistinctIds(s: seq<ImageGenerationRequest>) {
    forall i, j :: 0 <= i < j < |s| ==> s[i].id != s[j].id
  }

  /** The rows stored under ids `lo` to `hi - 1`, in ascending id order. */
  function RowsInIdOrder(rows: map<int, ImageGenerationRequest>, lo: int, hi: int): (s: seq<ImageGenerationRequest>)
    ensures forall x :: x in s <==> exists k :: lo <= k < hi && k in rows && rows[k] == x
    ensures WellFormed(rows, hi) ==> DistinctIds(s) && forall y :: y in s ==> lo <= y.id
    decreases hi - lo
  {
    if hi <= lo then []
    else
      var rest := RowsInIdOrder(rows, lo + 1, hi);
      if lo in rows then
        var s := [rows[lo]] + rest;
        assert forall x :: x in s <==> x == rows[lo] || x in rest;
        assert WellFormed(rows, hi) ==> forall i :: 1 <= i < |s| ==> s[i] in rest;
        s
      else rest
  }

  /** Under the primary-key invariant the scan of ids 1 to `nextId - 1` meets every row. */
  lemma ScanMeetsEveryRow(rows: map<int, ImageGenerationRequest>, nextId: int)
    requires WellFormed(rows, nextId)
    ensures forall k :: k in rows ==> rows[k] in RowsInIdOrder(rows, 1, nextId)
    ensures forall x :: x in RowsInIdOrder(rows, 1, nextId) ==> x.id in rows && rows[x.id] == x
  {
  }

  /** An empty table scans as the empty sequence. */
  lemma {:induction false} ScanOfEmpty(lo: int, hi: int)
    ensures RowsInIdOrder(map[], lo, hi) == []
    decreases hi - lo
  {
    if lo < hi {
      ScanOfEmpty(lo + 1, hi);
    }
  }

  /** Places `x` before the first request created strictly earlier than it. */
  function InsertByRecency(x: ImageGenerationRequest, s: seq<ImageGenerationRequest>): (r: seq<ImageGenerationRequest>)
    ensures multiset(r) == multiset(s) + multiset{x}
  {
    if s == [] || x.created_at >= s[0].created_at then
      [x] + s
    else
      assert s == [s[0]] + s[1..];
      [s[0]] + InsertByRecency(x, s[1..])
  }

  /** Inserting adds `x` and nothing else. */
  lemma InsertMembers(x: ImageGenerationRequest, s: seq<ImageGenerationRequest>)
    ensures forall y :: y in InsertByRecency(x, s) <==> y == x || y in s
  {
    var r := InsertByRecency(x, s);
    forall y ensures y in r <==> y == x || y in s {
      assert y in r <==> y in multiset(r);
      assert y in s <==> y in multiset(s);
    }
  }

  /** Inserting into a list sorted by recency keeps it sorted. */
  lemma {:induction false} InsertKeepsSorted(x: ImageGenerationRequest, s: seq<ImageGenerationRequest>)
    requires SortedByRecency(s)
    ensures SortedByRecency(InsertByRecency(x, s))
  {
    var r := InsertByRecency(x, s);
    if s == [] || x.created_at >= s[0].created_at {
      forall i, j | 0 <= i < j < |r| ensures r[i].created_at >= r[j].created_at {
        assert r[j] == s[j - 1];
        if i > 0 {
          assert r[i] == s[i - 1];
        }
      }
    } else {
      var tail := InsertByRecency(x, s[1..]);
      InsertKeepsSorted(x, s[1..]);
      InsertMembers(x, s[1..]);
      assert r == [s[0]] + tail;
      forall y | y in tail ensures y.created_at <= s[0].created_at {
        if y != x {
          var k :| 0 <= k < |s[1..]| && s[1..][k] == y;
          assert s[k + 1] == y;
        }
      }
      forall i, j | 0 <= i < j < |r| ensures r[i].created_at >= r[j].created_at {
        assert r[j] == tail[j - 1];
        if i > 0 {
          assert r[i] == tail[i - 1];
        }
      }
    }
  }

  /** Inserting a request whose id is new keeps the ids distinct. */
  lemma {:induction false} InsertKeepsDistinct(x: ImageGenerationRequest, s: seq<ImageGenerationRequest>)
    requires DistinctIds(s)
    requires forall y :: y in s ==> y.id != x.id
    ensures DistinctIds(InsertByRecency(x, s))
  {
    var r := InsertByRecency(x, s);
    if s == [] || x.created_at >= s[0].created_at {
      forall i, j | 0 <= i < j < |r| ensures r[i].id != r[j].id {
        assert r[j] == s[j - 1];
        if i > 0 {
          assert r[i] == s[i - 1];
        }
      }
    } else {
      var tail := InsertByRecency(x, s[1..]);
      InsertKeepsDistinct(x, s[1..]);
      InsertMembers(x, s[1..]);
      assert r == [s[0]] + tail;
      forall y | y in tail ensures y.id != s[0].id {
        if y != x {
          var k :| 0 <= k < |s[1..]| && s[1..][k] == y;
          assert s[k + 1] == y;
        }
      }
      forall i, j | 0 <= i < j < |r| ensures r[i].id != r[j].id {
        assert r[j] == tail[j - 1];
        if i > 0 {
          assert r[i] == tail[i - 1];
        }
      }
    }
  }

  /** A stable insertion sort on creation time, most recent first. */
  function SortByRecency(s: seq<ImageGenerationRequest>): (r: seq<ImageGenerationRequest>)
    ensures multiset(r) == multiset(s)
    ensures SortedByRecency(r)
  {
    if s == [] then []
    else
      assert s == [s[0]] + s[1..];
      var rest := SortByRecency(s[1..]);
      InsertKeepsSorted(s[0], rest);
      InsertByRecency(s[0], rest)
  }

  /** Sorting a list with distinct ids keeps them distinct. */
  lemma {:induction false} SortKeepsDistinct(s: seq<ImageGenerationRequest>)
    requires DistinctIds(s)
    ensures DistinctIds(SortByRecency(s))
  {
    if s != [] {
      var rest := SortByRecency(s[1..]);
      SortKeepsDistinct(s[1..]);
      forall y | y in rest ensures y.id != s[0].id {
        assert y in multiset(rest);
        var k :| 0 <= k < |s[1..]| && s[1..][k] == y;
        assert s[k + 1] == y;
      }
      InsertKeepsDistinct(s[0], rest);
    }
  }

  /** A permutation has the same members. */
  lemma SameMembers(a: seq<ImageGenerationRequest>, b: seq<ImageGenerationRequest>)
    requires multiset(a) == multiset(b)
    ensures forall x :: x in a <==> x in b
  {
    forall x ensures x in a <==> x in b {
      assert x in a <==> x in multiset(a);
      assert x in b <==> x in multiset(b);
    }
  }

  /**
   * All stored requests of a table whose serial sequence stands at `nextId`:
   * unmodified, none added, none dropped, none twice, with non-increasing
   * creation times.
   */
  function GetImageRequests(rows: map<int, ImageGenerationRequest>, nextId: int): (r: seq<ImageGenerationRequest>)
    requires WellFormed(rows, nextId)
    ensures forall k :: k in rows ==> rows[k] in r
    ensures forall x :: x in r ==> x.id in rows && rows[x.id] == x
    ensures DistinctIds(r)
    ensures SortedByRecency(r)
  {
    var stored := RowsInIdOrder(rows, 1, nextId);
    ScanMeetsEveryRow(rows, nextId);
    SameMembers(SortByRecency(stored), stored);
    SortKeepsDistinct(stored);
    SortByRecency(stored)
  }

  /** An empty table lists as the empty sequence. */
  lemma ListEmpty(nextId: int)
    requires 1 <= nextId
    ensures GetImageRequests(map[], nextId) == []
  {
    ScanOfEmpty(1, nextId);
  }
}
