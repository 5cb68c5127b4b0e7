/** The measurement log: what the provider tells an observer, in order. */
module InMemoryPcrObserver {
  import opened Common
  import opened PcrTypes

  datatype Operation = Extended | Evented

  datatype Measurement = Measurement(index: Index, operation: Operation, digests: seq<DigestValue>,
      eventData: seq<byte>)

  /** The records about one PCR, in order. */
  function EntriesByIndex(records: seq<Measurement>, index: Index): seq<Measurement> {
    if records == [] then []
    else
      var n := |records| - 1;
      EntriesByIndex(records[..n], index) + if records[n].index == index then [records[n]] else []
  }

  lemma EntriesAppend(records: seq<Measurement>, m: Measurement, index: Index)
    ensures EntriesByIndex(records + [m], index) ==
      EntriesByIndex(records, index) + if m.index == index then [m] else []
  {
    assert (records + [m])[..|records|] == records;
  }

  /** Every record is found under its own index and under no other: the per-index logs partition the log. */
  lemma {:induction false} EntriesPartition(records: seq<Measurement>, m: Measurement)
    ensures multiset(EntriesByIndex(records, m.index))[m] == multiset(records)[m]
    ensures forall i: Index :: i != m.index ==> m !in EntriesByIndex(records, i)
  {
    if records != [] {
      var n := |records| - 1;
      EntriesPartition(records[..n], m);
      assert records == records[..n] + [records[n]];
    }
  }

  class Observer {
    var records: seq<Measurement>

    constructor ()
      ensures records == []
    {
      records := [];
    }

    method OnExtend(index: Index, digests: seq<DigestValue>)
      modifies this
      ensures records == old(records) + [Measurement(index, Extended, digests, [])]
    {
      records := records + [Measurement(index, Extended, digests, [])];
    }

    method OnEvent(index: Index, eventData: seq<byte>, digests: seq<DigestValue>)
      modifies this
      ensures records == old(records) + [Measurement(index, Evented, digests, eventData)]
    {
      records := records + [Measurement(index, Evented, digests, eventData)];
    }

    method Clear()
      modifies this
      ensures records == []
    {
      records := [];
    }

    method EntriesOf(index: Index) returns (matches: seq<Measurement>)
      ensures matches == EntriesByIndex(records, index)
    {
      matches := [];
      for k := 0 to |records|
        invariant matches == EntriesByIndex(records[..k], index)
      {
        assert records[..k + 1] == records[..k] + [records[k]];
        EntriesAppend(records[..k], records[k], index);
        if records[k].index == index {
          matches := matches + [records[k]];
        }
      }
      assert records[..|records|] == records;
    }
  }
}
