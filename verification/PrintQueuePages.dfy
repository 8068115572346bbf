/** The global queue overview, page by page. */
module PrintQueuePages {
  import opened Common
  import opened PrintQueue

  function AllQueued(jobs: Jobs): set<Id> {
    set k | k in jobs && jobs[k].status == QUEUED
  }

  /** WHERE status = QUEUED ORDER BY printerId, queuePosition. */
  function QueuedRows(jobs: Jobs): (rows: seq<Id>)
    ensures Lists(rows, AllQueued(jobs), QueueOrder(jobs))
  {
    SortBy(AllQueued(jobs), QueueOrder(jobs))
  }

  function Min(a: int, b: int): int {
    if a <= b then a else b
  }

  /** TAKE pageSize SKIP (page - 1) * pageSize. */
  function Page<T>(rows: seq<T>, page: int, pageSize: int): seq<T>
    requires 1 <= page && 1 <= pageSize
  {
    var skip := (page - 1) * pageSize;
    rows[Min(skip, |rows|)..Min(skip + pageSize, |rows|)]
  }

  function TotalPages(total: nat, pageSize: int): nat
    requires 1 <= pageSize
  {
    (total + pageSize - 1) / pageSize
  }

  /** Pages 1 to n, one after the other. */
  function Pages<T>(rows: seq<T>, pageSize: int, n: nat): seq<T>
    requires 1 <= pageSize
  {
    if n == 0 then [] else Pages(rows, pageSize, n - 1) + Page(rows, n, pageSize)
  }

  lemma {:induction false} PagesArePrefix<T>(rows: seq<T>, pageSize: int, n: nat)
    requires 1 <= pageSize
    ensures 0 <= n * pageSize
    ensures Pages(rows, pageSize, n) == rows[..Min(n * pageSize, |rows|)]
  {
    if n > 0 {
      PagesArePrefix(rows, pageSize, n - 1);
      assert n * pageSize == (n - 1) * pageSize + pageSize;
    }
  }

  lemma LastPageReached(total: nat, pageSize: int)
    requires 1 <= pageSize
    ensures TotalPages(total, pageSize) * pageSize >= total
    ensures total > 0 ==> (TotalPages(total, pageSize) - 1) * pageSize < total
  {
    var n := TotalPages(total, pageSize);
    assert total + pageSize - 1 == n * pageSize + (total + pageSize - 1) % pageSize;
    assert (n - 1) * pageSize == n * pageSize - pageSize;
  }

  lemma MultiplyKeepsOrder(a: int, b: int, pageSize: int)
    requires a <= b && 1 <= pageSize
    ensures a * pageSize <= b * pageSize
  {
  }

  lemma PageEmptyIff<T>(rows: seq<T>, page: int, pageSize: int)
    requires 1 <= page && 1 <= pageSize
    ensures Page(rows, page, pageSize) == [] <==> TotalPages(|rows|, pageSize) < page
  {
    var n := TotalPages(|rows|, pageSize);
    LastPageReached(|rows|, pageSize);
    if n < page {
      MultiplyKeepsOrder(n, page - 1, pageSize);
    } else {
      MultiplyKeepsOrder(page - 1, n - 1, pageSize);
      MultiplyKeepsOrder(0, page - 1, pageSize);
      assert |rows| == 0 ==> n == 0;
    }
  }

  /** Reading pages 1 to totalPages gives every QUEUED job exactly once, in queue order; no page of them
      is empty, and every later page is. */
  lemma PagesPartitionQueue(jobs: Jobs, pageSize: int)
    requires 1 <= pageSize
    ensures var rows := QueuedRows(jobs);
            var n := TotalPages(|rows|, pageSize);
            && Pages(rows, pageSize, n) == rows
            && (forall page :: 1 <= page ==> (Page(rows, page, pageSize) == [] <==> n < page))
  {
    var rows := QueuedRows(jobs);
    var n := TotalPages(|rows|, pageSize);
    PagesArePrefix(rows, pageSize, n);
    LastPageReached(|rows|, pageSize);
    forall page | 1 <= page ensures Page(rows, page, pageSize) == [] <==> n < page {
      PageEmptyIff(rows, page, pageSize);
    }
  }

  /** Every QUEUED job is listed, by printer and by position within a printer; rows without either come first. */
  lemma RowsInOrder(jobs: Jobs, m: nat, n: nat)
    requires m < n < |QueuedRows(jobs)|
    ensures forall k :: k in QueuedRows(jobs) <==> k in jobs && jobs[k].status == QUEUED
    ensures var (a, b) := (QueuedRows(jobs)[m], QueuedRows(jobs)[n]);
            && a in jobs && b in jobs && a != b
            && (jobs[a].printerId.Some? ==>
                  jobs[b].printerId.Some? && jobs[a].printerId.value <= jobs[b].printerId.value)
            && (jobs[a].printerId == jobs[b].printerId && jobs[a].queuePosition.Some? ==>
                  jobs[b].queuePosition.Some? && jobs[a].queuePosition.value <= jobs[b].queuePosition.value)
  {
    var rows := QueuedRows(jobs);
    assert rows[m] in rows && rows[n] in rows;
    assert QueueOrder(jobs)(rows[m], rows[n]);
    assert Before(jobs, rows[m], rows[n]);
  }
}
