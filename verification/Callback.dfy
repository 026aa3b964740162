/** What the ring callback of src/EbpfTelemetry.cpp decides about one record. */
module Callback {
  import opened Shared
  import opened Events

  datatype Source = Source(ifindex: word32, netnsInode: word64, sessionId: word64)

  /** TelemetryRecord. */
  datatype Record = Record(event: Event, netnsInode: word64, sessionId: word64)

  // errno values; the calls return them negated
  const ECANCELED: int := 125
  const EINTR: int := 4

  /** The record to queue, or None where the event does not decode or is another interface's. */
  function Accept(source: Source, data: seq<byte>): Option<Record> {
    match DecodeEvent(Some(data))
    case None => None
    case Some(e) =>
      if e.ifindex != source.ifindex then None else Some(Record(e, source.netnsInode, source.sessionId))
  }

  /** Whatever is queued passed the validator and carries its source's identity. */
  ghost predicate Genuine(source: Source, r: Record) {
    && Acceptable(r.event) && r.event.ifindex == source.ifindex
    && r.netnsInode == source.netnsInode && r.sessionId == source.sessionId
  }

  lemma AcceptedIsGenuine(source: Source, data: seq<byte>)
    ensures Accept(source, data).Some? ==>
              Genuine(source, Accept(source, data).value) && data == WriteEvent(Accept(source, data).value.event)
  {
    var d := DecodeEvent(Some(data));
    if d.Some? {
      DecodeExactly(data, d.value);
    }
  }

  /** A record is queued exactly for the bytes of an acceptable event of the source's own interface. */
  lemma AcceptedExactly(source: Source, data: seq<byte>, r: Record)
    ensures Accept(source, data) == Some(r) <==> Genuine(source, r) && data == WriteEvent(r.event)
  {
    hide WriteEvent, DecodeEvent;
    DecodeExactly(data, r.event);
    AcceptedIsGenuine(source, data);
  }
}
