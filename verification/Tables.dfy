/**
 What several tables share: units of time, the kinds of data, window quality, and the rows of the
 feature window table in their reading order.

 Times are microseconds since the epoch.
 */
module Tables {
  import opened Sequences

  const SECOND: int := 1_000_000
  const MINUTE: int := 60 * SECOND
  const HOUR: int := 60 * MINUTE

  datatype DatasetKind = Synthetic | Real

  datatype QualityStatus = Good | Degraded | Insufficient

  datatype WindowRow = WindowRow(
    id: string, datasetKind: DatasetKind, profile: string, start: int, end: int, inputHash: string, quality: QualityStatus)

  /** Rows are read by window start and then id. */
  predicate RowLeq(a: WindowRow, b: WindowRow) {
    a.start < b.start || (a.start == b.start && TextLeq(a.id, b.id))
  }

  lemma RowOrder()
    ensures TotalOrder(RowLeq)
  {
    forall a, b ensures RowLeq(a, b) || RowLeq(b, a) {
      TextLeqTotal(a.id, b.id);
    }
    forall a, b, c | RowLeq(a, b) && RowLeq(b, c) ensures RowLeq(a, c) {
      if TextLeq(a.id, b.id) && TextLeq(b.id, c.id) {
        TextLeqTransitive(a.id, b.id, c.id);
      }
    }
  }
}
