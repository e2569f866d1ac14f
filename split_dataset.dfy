/** The dataset split: every prepared row goes to exactly one of three files —
    explorable, accessible but not explorable, and dead links. Reading and writing the
    CSV files is left out; the rows arrive as records. */
module SplitDataset {
  import opened Common

  /** One row of the prepared CSV file, its columns as text. */
  datatype Row = Row(field: string, link: string, accessible: string, isExplorable: string)

  /** `value.strip().lower() == "true"`. */
  predicate Flag(value: string)
  {
    Lower(Strip(value)) == "true"
  }

  datatype Bucket = Explorable | NonExplorable | Dead

  /** Where a row goes: an inaccessible row is dead whether or not it is marked
      explorable. */
  function Classify(row: Row): (b: Bucket)
    ensures b == Explorable <==> Flag(row.accessible) && Flag(row.isExplorable)
    ensures b == NonExplorable <==> Flag(row.accessible) && !Flag(row.isExplorable)
    ensures b == Dead <==> !Flag(row.accessible)
  {
    var acc := Flag(row.accessible);
    var exp := Flag(row.isExplorable);
    if acc && exp then Explorable
    else if acc && !exp then NonExplorable
    else Dead
  }

  /** The rows a classification sends to bucket b, in input order. */
  function Filed(rows: seq<Row>, b: Bucket, classify: Row -> Bucket): (r: seq<Row>)
    ensures |r| <= |rows|
  {
    if rows == [] then []
    else
      var last := rows[|rows| - 1];
      Filed(rows[..|rows| - 1], b, classify) + (if classify(last) == b then [last] else [])
  }

  /** The rows of one bucket, in input order. */
  function InBucket(rows: seq<Row>, b: Bucket): seq<Row>
  {
    Filed(rows, b, Classify)
  }

  /** The buckets of a one-row-longer prefix. */
  lemma PrefixStep(rows: seq<Row>, i: nat)
    requires i < |rows|
    ensures forall b :: InBucket(rows[..i + 1], b) ==
                        InBucket(rows[..i], b) + (if Classify(rows[i]) == b then [rows[i]] else [])
  {
    assert rows[..i + 1][..i] == rows[..i];
  }

  /** The script's loop: each row is appended to the list of its bucket. */
  method Split(rows: seq<Row>) returns (explorable: seq<Row>, nonExplorable: seq<Row>, dead: seq<Row>)
    ensures explorable == InBucket(rows, Explorable)
    ensures nonExplorable == InBucket(rows, NonExplorable)
    ensures dead == InBucket(rows, Dead)
  {
    explorable, nonExplorable, dead := [], [], [];
    var i := 0;
    while i < |rows|
      invariant 0 <= i <= |rows|
      invariant explorable == InBucket(rows[..i], Explorable)
      invariant nonExplorable == InBucket(rows[..i], NonExplorable)
      invariant dead == InBucket(rows[..i], Dead)
    {
      var row := rows[i];
      PrefixStep(rows, i);
      var acc := Flag(row.accessible);
      var exp := Flag(row.isExplorable);
      if acc && exp {
        explorable := explorable + [row];
      } else if acc && !exp {
        nonExplorable := nonExplorable + [row];
      } else if !acc && !exp {
        dead := dead + [row];
      } else {
        dead := dead + [row];
      }
      i := i + 1;
    }
    assert rows[..i] == rows;
  }

  /** One more row adds it to the bucket its classification names, and to no other. */
  lemma FiledLast(rows: seq<Row>, b: Bucket, classify: Row -> Bucket)
    requires rows != []
    ensures multiset(Filed(rows, b, classify)) ==
            multiset(Filed(rows[..|rows| - 1], b, classify)) +
            (if classify(rows[|rows| - 1]) == b then multiset{rows[|rows| - 1]} else multiset{})
  {
  }

  /** Whatever the classification, the buckets together hold exactly the rows. */
  lemma {:induction false} FiledPartition(rows: seq<Row>, classify: Row -> Bucket)
    ensures multiset(Filed(rows, Explorable, classify)) + multiset(Filed(rows, NonExplorable, classify)) +
            multiset(Filed(rows, Dead, classify)) == multiset(rows)
  {
    if rows != [] {
      var pre, last := rows[..|rows| - 1], rows[|rows| - 1];
      FiledPartition(pre, classify);
      assert rows == pre + [last];
      FiledLast(rows, Explorable, classify);
      FiledLast(rows, NonExplorable, classify);
      FiledLast(rows, Dead, classify);
      AddToOneBucket(multiset(Filed(pre, Explorable, classify)), multiset(Filed(pre, NonExplorable, classify)),
                     multiset(Filed(pre, Dead, classify)), multiset(pre), last, classify(last));
    }
  }

  /** Adding x to the bucket b of a three-way split of m splits m plus x. */
  lemma AddToOneBucket(e: multiset<Row>, ne: multiset<Row>, d: multiset<Row>, m: multiset<Row>, x: Row, b: Bucket)
    requires e + ne + d == m
    ensures (e + (if b == Explorable then multiset{x} else multiset{})) +
            (ne + (if b == NonExplorable then multiset{x} else multiset{})) +
            (d + (if b == Dead then multiset{x} else multiset{})) == m + multiset{x}
  {
  }

  /** The three files together hold exactly the input rows, each once. */
  lemma SplitIsPartition(rows: seq<Row>)
    ensures multiset(InBucket(rows, Explorable)) + multiset(InBucket(rows, NonExplorable)) +
            multiset(InBucket(rows, Dead)) == multiset(rows)
  {
    FiledPartition(rows, Classify);
  }

  /** So the three row counts the script reports add up to the input's. */
  lemma SplitCounts(rows: seq<Row>)
    ensures |InBucket(rows, Explorable)| + |InBucket(rows, NonExplorable)| + |InBucket(rows, Dead)| == |rows|
  {
    SplitIsPartition(rows);
    assert |multiset(rows)| == |rows|;
  }
}
