/** A collector that follows RFC 7011 and knows nothing of the writer: message header
    (section 3.1), sets and their padding (3.3), templates (3.4.1), options templates
    (3.4.2), data records (3.4.3) and variable-length values (section 7). */
module IpfixDecoder {
  import opened Bytes
  import opened Wrappers

  const VARIABLE_LENGTH := 0xffff

  datatype Element = Element(id: nat, enterprise: Option<nat>, length: nat)
  datatype Template = Template(scopes: nat, elements: seq<Element>)
  type Templates = map<nat, Template>
  datatype Record = Record(template: nat, values: seq<bytes>)
  datatype Decoded = Decoded(time: nat, sequence: nat, domain: nat, records: seq<Record>, templates: Templates)

  function U(b: bytes): nat {
    FromBe(b)
  }

  /** `count` element descriptions and what follows them. */
  function DecodeElements(b: bytes, count: nat): (r: Option<(seq<Element>, bytes)>)
    ensures r.Some? ==> |r.value.1| <= |b|
    decreases count
  {
    if count == 0 then Some(([], b))
    else if |b| < 4 then None
    else
      var id, length := U(b[..2]), U(b[2..4]);
      if id >= 0x8000 && |b| < 8 then None
      else
        var e := if id >= 0x8000 then Element(id - 0x8000, Some(U(b[4..8])), length) else Element(id, None, length);
        match DecodeElements(b[if id >= 0x8000 then 8 else 4..], count - 1)
        case None => None
        case Some(es) => Some(([e] + es.0, es.1))
  }

  /** The template records of a set; fewer octets than a record header are padding. */
  function DecodeTemplates(b: bytes, options: bool, ts: Templates): Option<Templates>
    decreases |b|
  {
    var header := if options then 6 else 4;
    if |b| < header then Some(ts)
    else
      var id, count, scopes := U(b[..2]), U(b[2..4]), if options then U(b[4..6]) else 0;
      if id < 0x100 then None
      else
        match DecodeElements(b[header..], count)
        case None => None
        case Some(es) => DecodeTemplates(es.1, options, ts[id := Template(scopes, es.0)])
  }

  /** One value and what follows it. */
  function DecodeValue(b: bytes, length: nat): (r: Option<(bytes, bytes)>)
    ensures r.Some? ==> |r.value.1| + (if length == VARIABLE_LENGTH then 1 else length) <= |b|
  {
    if length != VARIABLE_LENGTH then
      if |b| < length then None else Some((b[..length], b[length..]))
    else if b == [] then None
    else if b[0] < 255 then
      if |b| < 1 + b[0] then None else Some((b[1..1 + b[0]], b[1 + b[0]..]))
    else if |b| < 3 then None
    else
      var n := U(b[1..3]);
      if |b| < 3 + n then None else Some((b[3..3 + n], b[3 + n..]))
  }

  /** The least number of octets a record with these elements can take. */
  function MinLength(es: seq<Element>): nat {
    if es == [] then 0 else (if es[0].length == VARIABLE_LENGTH then 1 else es[0].length) + MinLength(es[1..])
  }

  function DecodeRecord(b: bytes, es: seq<Element>): (r: Option<(seq<bytes>, bytes)>)
    ensures r.Some? ==> |r.value.1| + MinLength(es) <= |b|
    decreases |es|
  {
    if es == [] then Some(([], b))
    else
      match DecodeValue(b, es[0].length)
      case None => None
      case Some(v) =>
        match DecodeRecord(v.1, es[1..])
        case None => None
        case Some(vs) => Some(([v.0] + vs.0, vs.1))
  }

  /** The records of a data set; fewer octets than the shortest record are padding. */
  function DecodeRecords(b: bytes, id: nat, es: seq<Element>): Option<seq<Record>>
    decreases |b|
  {
    if MinLength(es) == 0 then None
    else if |b| < MinLength(es) then Some([])
    else
      match DecodeRecord(b, es)
      case None => None
      case Some(r) =>
        match DecodeRecords(r.1, id, es)
        case None => None
        case Some(rs) => Some([Record(id, r.0)] + rs)
  }

  function DecodeSets(b: bytes, ts: Templates): Option<(seq<Record>, Templates)>
    decreases |b|
  {
    if b == [] then Some(([], ts))
    else if |b| < 4 then None
    else
      var id, length := U(b[..2]), U(b[2..4]);
      if length < 4 || length > |b| then None
      else
        var body, rest := b[4..length], b[length..];
        if id == 2 || id == 3 then
          match DecodeTemplates(body, id == 3, ts)
          case None => None
          case Some(ts1) => DecodeSets(rest, ts1)
        else if id < 0x100 || id !in ts then None
        else
          match DecodeRecords(body, id, ts[id].elements)
          case None => None
          case Some(rs) =>
            match DecodeSets(rest, ts)
            case None => None
            case Some(more) => Some((rs + more.0, more.1))
  }

  function DecodeMessage(b: bytes, ts: Templates): Option<Decoded> {
    if |b| < 16 || U(b[..2]) != 10 || U(b[2..4]) != |b| then None
    else
      match DecodeSets(b[16..], ts)
      case None => None
      case Some(r) => Some(Decoded(U(b[4..8]), U(b[8..12]), U(b[12..16]), r.0, r.1))
  }
}
