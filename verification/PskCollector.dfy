/** What a collector of PSK Reporter makes of the records that IpfixDecoder.dfy hands it: it
    finds each value by the information element its template gives it, wherever that stands.
    The elements are those that PSK Reporter publishes under its enterprise number. */
module PskCollector {
  import opened Bytes
  import opened Wrappers
  import opened Utf8
  import opened IpfixDecoder
  import Ipfix

  const ENTERPRISE := 30351
  // an IPFIX element of IANA's registry: dateTimeSeconds
  const DATE_TIME_SECONDS := 150

  /** The value of the first element of this number. */
  function ValueOf(es: seq<Element>, values: seq<bytes>, id: nat, enterprise: Option<nat>): Option<bytes> {
    if es == [] || values == [] then None
    else if es[0].id == id && es[0].enterprise == enterprise then Some(values[0])
    else ValueOf(es[1..], values[1..], id, enterprise)
  }

  function TextOf(es: seq<Element>, values: seq<bytes>, id: nat): Option<Text> {
    match ValueOf(es, values, id, Some(ENTERPRISE))
    case None => None
    case Some(b) => FromUtf8(b)
  }

  function NumberOf(es: seq<Element>, values: seq<bytes>, id: nat, enterprise: Option<nat>): Option<nat> {
    match ValueOf(es, values, id, enterprise)
    case None => None
    case Some(b) => Some(FromBe(b))
  }

  function Signed(octet: nat): int {
    if octet < 0x80 then octet else octet - 0x100
  }

  /** senderCallsign 1, senderLocator 3, frequency 5, sNR 6 as a signed octet, mode 10, an
      informationSource 11 of one for automatic extraction, and the time. */
  function SpotOf(es: seq<Element>, values: seq<bytes>): Option<Ipfix.Spot> {
    var psk := Some(ENTERPRISE);
    match (TextOf(es, values, 1), TextOf(es, values, 3), TextOf(es, values, 10))
    case (Some(callsign), Some(locator), Some(mode)) =>
      (match (NumberOf(es, values, 5, psk), NumberOf(es, values, 6, psk), NumberOf(es, values, DATE_TIME_SECONDS, None))
       case (Some(frequency), Some(snr), Some(time)) =>
         if NumberOf(es, values, 11, psk) != Some(1) then None
         else
           Some(Ipfix.Spot(callsign, locator, Signed(snr), frequency, mode, time))
       case _ => None)
    case _ => None
  }

  /** receiverCallsign 2, receiverLocator 4, decodingSoftware 8, antennaInformation 9 and
      rigInformation 13. */
  function ReceiverOf(es: seq<Element>, values: seq<bytes>): Option<Ipfix.Receiver> {
    match (TextOf(es, values, 2), TextOf(es, values, 4), TextOf(es, values, 8))
    case (Some(callsign), Some(locator), Some(software)) =>
      (match (TextOf(es, values, 9), TextOf(es, values, 13))
       case (Some(antenna), Some(rig)) => Some(Ipfix.Receiver(callsign, locator, software, antenna, rig))
       case _ => None)
    case _ => None
  }

  /** The receivers and the spots of some records, in order. */
  datatype Reading = Reading(receivers: seq<Ipfix.Receiver>, spots: seq<Ipfix.Spot>)

  /** A record of an options template is about a receiver, any other one about a spot. */
  function ReadRecord(r: Record, ts: Templates): Option<Reading> {
    if r.template !in ts then None
    else
      var t := ts[r.template];
      if t.scopes > 0 then
        match ReceiverOf(t.elements, r.values)
        case None => None
        case Some(receiver) => Some(Reading([receiver], []))
      else
        match SpotOf(t.elements, r.values)
        case None => None
        case Some(spot) => Some(Reading([], [spot]))
  }

  function ReadRecords(rs: seq<Record>, ts: Templates): Option<Reading> {
    if rs == [] then Some(Reading([], []))
    else
      match (ReadRecord(rs[0], ts), ReadRecords(rs[1..], ts))
      case (Some(one), Some(rest)) => Some(Reading(one.receivers + rest.receivers, one.spots + rest.spots))
      case _ => None
  }

  function ReadMessage(d: Decoded): Option<Reading> {
    ReadRecords(d.records, d.templates)
  }

  /** The spots of a stream of messages. */
  function SpotsRead(ds: seq<Decoded>): Option<seq<Ipfix.Spot>> {
    if ds == [] then Some([])
    else
      match (ReadMessage(ds[0]), SpotsRead(ds[1..]))
      case (Some(one), Some(rest)) => Some(one.spots + rest)
      case _ => None
  }

  lemma SpotsReadNone()
    ensures SpotsRead([]) == Some([])
  {
  }

  lemma SpotsReadCons(ds: seq<Decoded>)
    requires ds != []
    ensures SpotsRead(ds) ==
            match (ReadMessage(ds[0]), SpotsRead(ds[1..]))
            case (Some(one), Some(rest)) => Some(one.spots + rest)
            case _ => None
  {
    hide ReadMessage;
  }

  lemma {:induction false} SpotsReadAppend(a: seq<Decoded>, b: seq<Decoded>)
    requires SpotsRead(a).Some? && SpotsRead(b).Some?
    ensures SpotsRead(a + b) == Some(SpotsRead(a).value + SpotsRead(b).value)
    decreases |a|
  {
    hide ReadMessage, SpotsRead;
    SpotsReadNone();
    if a == [] {
      assert a + b == b && [] + SpotsRead(b).value == SpotsRead(b).value;
    } else {
      assert (a + b)[1..] == a[1..] + b && (a + b)[0] == a[0];
      SpotsReadCons(a);
      SpotsReadCons(a + b);
      SpotsReadAppend(a[1..], b);
      var one, rest, more := ReadMessage(a[0]).value.spots, SpotsRead(a[1..]).value, SpotsRead(b).value;
      assert one + rest + more == one + (rest + more);
    }
  }
}
