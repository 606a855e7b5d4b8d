/**
 * `ScoutRails::TransactionSample`: the immutable record of the slowest
 * transaction. The constructor only assigns fields and there are only readers,
 * so it is a datatype whose destructors are the readers.
 */
module TransactionSamples {
  import opened Wrappers
  import opened Metrics

  datatype TransactionSample = TransactionSample(
    uri: Option<string>,
    metricName: string,
    totalCallTime: real,
    metrics: Table)
  {
    /** The `meta` reader: declared, but no code assigns it, so it is always nil. */
    function Meta(): (m: Option<MetricMeta>)
      ensures m.None?
    {
      None
    }
  }
}
