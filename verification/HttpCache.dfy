// http_cache.py: the validator store and its size cap.
module HttpCache {
  import opened Wrappers

  type Bytes = seq<bv8>

  const MAX_BODY_BYTES: nat := 4 * 1024 * 1024

  // A stored page; the table keeps its rows in rowid order, one row a url.
  datatype Row = Row(url: string, etag: Option<string>, lastModified: Option<string>, body: Bytes, fetchedAt: real)

  type Table = seq<Row>

  ghost predicate OneRowPerUrl(rows: Table) {
    forall i, j :: 0 <= i < j < |rows| ==> rows[i].url != rows[j].url
  }

  function Find(rows: Table, url: string): (r: Option<Row>)
    ensures r.Some? ==> r.value in rows && r.value.url == url
    ensures r.None? ==> forall row :: row in rows ==> row.url != url
  {
    if rows == [] then None else if rows[0].url == url then Some(rows[0]) else Find(rows[1..], url)
  }

  // INSERT ... ON CONFLICT(url) DO UPDATE: a known url keeps its rowid.
  function Upsert(rows: Table, row: Row): Table {
    if rows == [] then [row]
    else if rows[0].url == row.url then [row] + rows[1..]
    else [rows[0]] + Upsert(rows[1..], row)
  }

  function Total(rows: Table): nat {
    if rows == [] then 0 else |rows[0].body| + Total(rows[1..])
  }

  // ORDER BY fetched_at ASC, rowid ASC LIMIT 1
  function Oldest(rows: Table): (i: nat)
    requires rows != []
    ensures i < |rows|
    ensures forall j :: 0 <= j < |rows| ==> rows[i].fetchedAt <= rows[j].fetchedAt
    ensures forall j :: 0 <= j < i ==> rows[i].fetchedAt < rows[j].fetchedAt
  {
    if |rows| == 1 then 0
    else
      var k := Oldest(rows[1..]);
      assert forall j :: 1 <= j < |rows| ==> rows[j] == rows[1..][j - 1];
      if rows[0].fetchedAt <= rows[1..][k].fetchedAt then 0 else k + 1
  }

  function Without(rows: Table, i: nat): Table
    requires i < |rows|
  {
    rows[..i] + rows[i + 1..]
  }

  // The size cap as a function: drop the oldest row while the bodies exceed the budget.
  function Evict(rows: Table, maxBytes: int): Table
    decreases |rows|
  {
    if rows == [] || Total(rows) <= maxBytes then rows else Evict(Without(rows, Oldest(rows)), maxBytes)
  }

  lemma {:induction false} TotalConcat(a: Table, b: Table)
    ensures Total(a + b) == Total(a) + Total(b)
  {
    if a == [] {
      assert a + b == b;
    } else {
      assert (a + b)[1..] == a[1..] + b;
      TotalConcat(a[1..], b);
    }
  }

  lemma TotalWithout(rows: Table, i: nat)
    requires i < |rows|
    ensures Total(Without(rows, i)) == Total(rows) - |rows[i].body|
  {
    assert rows == rows[..i] + ([rows[i]] + rows[i + 1..]);
    TotalConcat(rows[..i], [rows[i]] + rows[i + 1..]);
    TotalConcat([rows[i]], rows[i + 1..]);
    TotalConcat(rows[..i], rows[i + 1..]);
  }

  lemma WithoutRows(rows: Table, i: nat)
    requires i < |rows| && OneRowPerUrl(rows)
    ensures OneRowPerUrl(Without(rows, i))
    ensures forall r :: r in Without(rows, i) <==> r in rows && r != rows[i]
  {
    var out := Without(rows, i);
    forall r | r in rows && r != rows[i] ensures r in out {
      var j :| 0 <= j < |rows| && rows[j] == r;
      assert j < i ==> out[j] == r;
      assert j > i ==> out[j - 1] == r;
    }
  }

  // Fits the budget; keeps only rows it had; evicts none younger than one it keeps; and
  // evicts no more than it must: with the last row evicted the bodies were over budget.
  lemma {:induction false} EvictProperties(rows: Table, maxBytes: int)
    requires OneRowPerUrl(rows)
    ensures var out := Evict(rows, maxBytes);
      && OneRowPerUrl(out)
      && (forall r :: r in out ==> r in rows)
      && Total(out) <= (if maxBytes > 0 then maxBytes else 0)
      && (forall gone, kept :: gone in rows && gone !in out && kept in out ==> gone.fetchedAt <= kept.fetchedAt)
      && (out != rows ==> exists gone :: gone in rows && gone !in out && Total(out) + |gone.body| > maxBytes)
    decreases |rows|
  {
    if rows != [] && Total(rows) > maxBytes {
      var i := Oldest(rows);
      var less := Without(rows, i);
      TotalWithout(rows, i);
      WithoutRows(rows, i);
      EvictProperties(less, maxBytes);
      var out := Evict(less, maxBytes);
      assert forall r :: r in rows ==> exists j :: 0 <= j < |rows| && rows[j] == r;
      if out == less {
        assert rows[i] in rows && rows[i] !in out;
      }
    }
  }

  lemma ConsRow(x: Row, rest: Table)
    requires OneRowPerUrl(rest) && forall r :: r in rest ==> r.url != x.url
    ensures OneRowPerUrl([x] + rest)
  {
    forall j | 0 <= j < |rest| ensures rest[j].url != x.url {
      assert rest[j] in rest;
    }
  }

  lemma TailRows(rows: Table)
    requires rows != [] && OneRowPerUrl(rows)
    ensures OneRowPerUrl(rows[1..]) && rows == [rows[0]] + rows[1..]
    ensures forall r :: r in rows[1..] ==> r.url != rows[0].url
  {
    forall r | r in rows[1..] ensures r.url != rows[0].url {
      var j :| 0 <= j < |rows[1..]| && rows[1..][j] == r;
      assert rows[j + 1] == r;
    }
  }

  // A put page is the one row of its url; every other row stays.
  lemma {:induction false} UpsertRows(rows: Table, row: Row)
    requires OneRowPerUrl(rows)
    ensures OneRowPerUrl(Upsert(rows, row))
    ensures forall r :: r in Upsert(rows, row) <==> r == row || (r in rows && r.url != row.url)
    ensures Find(Upsert(rows, row), row.url) == Some(row)
  {
    if rows != [] {
      TailRows(rows);
      if rows[0].url == row.url {
        ConsRow(row, rows[1..]);
      } else {
        UpsertRows(rows[1..], row);
        ConsRow(rows[0], Upsert(rows[1..], row));
      }
    }
  }

  // A known url keeps its place in the table, a new one comes last.
  lemma {:induction false} UpsertPlaces(rows: Table, row: Row)
    requires OneRowPerUrl(rows)
    ensures Find(rows, row.url).None? ==> Upsert(rows, row) == rows + [row]
    ensures Find(rows, row.url).Some? ==>
      && |Upsert(rows, row)| == |rows|
      && forall i :: 0 <= i < |rows| ==> Upsert(rows, row)[i] == if rows[i].url == row.url then row else rows[i]
  {
    if rows != [] {
      TailRows(rows);
      if rows[0].url != row.url {
        UpsertPlaces(rows[1..], row);
      }
    }
  }

  lemma {:induction false} FindRow(rows: Table, row: Row)
    requires OneRowPerUrl(rows) && row in rows
    ensures Find(rows, row.url) == Some(row)
  {
    if rows[0] != row {
      var j :| 0 <= j < |rows| && rows[j] == row;
      assert rows[1..][j - 1] == row;
      FindRow(rows[1..], row);
    }
  }

  // The store: what its methods do to the table, and its counters.
  class ConditionalCache {
    const maxBytes: int
    var rows: Table
    var stored: nat
    var revalidated: nat
    var bytesSaved: nat

    constructor (maxBytes: int, rows: Table)
      requires OneRowPerUrl(rows)
      ensures this.maxBytes == maxBytes && this.rows == rows && OneRowPerUrl(this.rows)
      ensures stored == revalidated == bytesSaved == 0
    {
      this.maxBytes, this.rows := maxBytes, rows;
      stored, revalidated, bytesSaved := 0, 0, 0;
    }

    // The table's row of this url, and nothing only if it has none.
    method Get(url: string) returns (page: Option<Row>)
      requires OneRowPerUrl(rows)
      ensures forall row :: page == Some(row) <==> row in rows && row.url == url
    {
      forall row | row in rows && row.url == url ensures Find(rows, url) == Some(row) {
        FindRow(rows, row);
      }
      page := Find(rows, url);
    }

    // Stored bytes are within the budget after every put.
    method Put(row: Row)
      requires OneRowPerUrl(rows)
      modifies this`rows, this`stored
      ensures OneRowPerUrl(rows) && rows == Evict(Upsert(old(rows), row), maxBytes)
      ensures Total(rows) <= (if maxBytes > 0 then maxBytes else 0)
      ensures stored == old(stored) + 1
    {
      UpsertRows(rows, row);
      EvictProperties(Upsert(rows, row), maxBytes);
      rows := Upsert(rows, row);
      EnforceSizeCap();
      stored := stored + 1;
    }

    method EnforceSizeCap()
      modifies this`rows
      ensures rows == Evict(old(rows), maxBytes)
    {
      var total: int := Total(rows);
      while total > maxBytes
        invariant total == Total(rows) && Evict(rows, maxBytes) == Evict(old(rows), maxBytes)
        decreases |rows|
      {
        if rows == [] {
          break;
        }
        var i := Oldest(rows);
        TotalWithout(rows, i);
        total := total - |rows[i].body|;
        rows := Without(rows, i);
      }
    }

    // A 304: refresh the validators and the timestamp, keep the body.
    method Touch(url: string, etag: Option<string>, lastModified: Option<string>, now: real) returns (page: Option<Row>)
      requires OneRowPerUrl(rows)
      modifies this`rows, this`revalidated, this`bytesSaved
      ensures OneRowPerUrl(rows) && rows == Touched(old(rows), url, etag, lastModified, now)
      ensures page == Find(rows, url)
      ensures revalidated == old(revalidated) + if page.Some? then 1 else 0
      ensures bytesSaved == old(bytesSaved) + if page.Some? then |page.value.body| else 0
    {
      TouchedRows(rows, url, etag, lastModified, now);
      rows := Touched(rows, url, etag, lastModified, now);
      page := Get(url);
      if page.Some? {
        revalidated := revalidated + 1;
        bytesSaved := bytesSaved + |page.value.body|;
      }
    }
  }

  function Touched(rows: Table, url: string, etag: Option<string>, lastModified: Option<string>, now: real): Table {
    if Find(rows, url).None? then rows
    else Upsert(rows, Row(url, etag, lastModified, Find(rows, url).value.body, now))
  }

  lemma TouchedRows(rows: Table, url: string, etag: Option<string>, lastModified: Option<string>, now: real)
    requires OneRowPerUrl(rows)
    ensures OneRowPerUrl(Touched(rows, url, etag, lastModified, now))
  {
    if Find(rows, url).Some? {
      UpsertRows(rows, Row(url, etag, lastModified, Find(rows, url).value.body, now));
    }
  }
}
