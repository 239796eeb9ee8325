/** `buildPackets`: cutting a list of spots into messages that respect a size limit. */
module Packets {
  import opened Bytes
  import opened Wrappers
  import opened Utf8
  import opened Ipfix
  import opened IpfixDecoder
  import opened PskCollector
  import opened IpfixRoundTrip

  datatype Packet = Packet(payload: bytes, spotCount: nat)

  // ----- the split -----

  function SpotBytes(spots: seq<Spot>): nat {
    if spots == [] then 0 else SpotBytes(spots[..|spots| - 1]) + |SpotRecord(spots[|spots| - 1])|
  }

  /** The size of a message with `base` octets of other sets and these spots. */
  function PayloadSize(base: nat, spots: seq<Spot>): nat {
    MessageLength(base + SenderSetLength(SpotBytes(spots)))
  }

  /** How far a packet that already has the first `n` spots is extended: spot by spot, as
      long as the message stays within the limit. */
  function Extend(base: nat, limit: int, spots: seq<Spot>, n: nat): (k: nat)
    requires n <= |spots|
    ensures n <= k <= |spots|
    decreases |spots| - n
  {
    if n < |spots| && PayloadSize(base, spots[..n + 1]) <= limit then Extend(base, limit, spots, n + 1) else n
  }

  /** The groups of spots sent together: each takes one spot at least and then all it has
      room for; `base` octets of other sets go into the first message, `next` into each
      later one. */
  function Split(base: nat, next: nat, limit: int, spots: seq<Spot>): seq<seq<Spot>>
    decreases |spots|
  {
    if spots == [] then []
    else
      var k := Extend(base, limit, spots, 1);
      [spots[..k]] + Split(next, next, limit, spots[k..])
  }

  function Join(groups: seq<seq<Spot>>): seq<Spot> {
    if groups == [] then [] else groups[0] + Join(groups[1..])
  }

  lemma {:induction false} SplitJoins(base: nat, next: nat, limit: int, spots: seq<Spot>)
    ensures Join(Split(base, next, limit, spots)) == spots
    ensures forall g :: g in Split(base, next, limit, spots) ==> g != []
    decreases |spots|
  {
    if spots != [] {
      var k := Extend(base, limit, spots, 1);
      var rest := Split(next, next, limit, spots[k..]);
      SplitJoins(next, next, limit, spots[k..]);
      assert ([spots[..k]] + rest)[1..] == rest;
      assert spots[..k] + spots[k..] == spots;
    }
  }

  // ----- greedy is optimal -----

  /** These groups could have been sent instead: in order, each within the limit; a group
      may be empty. */
  ghost predicate Feasible(base: nat, next: nat, limit: int, groups: seq<seq<Spot>>) {
    forall i :: 0 <= i < |groups| ==>
      groups[i] == [] || PayloadSize(if i == 0 then base else next, groups[i]) <= limit
  }

  lemma {:induction false} SpotBytesAppend(a: seq<Spot>, b: seq<Spot>)
    ensures SpotBytes(a + b) == SpotBytes(a) + SpotBytes(b)
    decreases |b|
  {
    if b == [] {
      assert a + b == a;
    } else {
      hide SpotRecord;
      assert (a + b)[..|a + b| - 1] == a + b[..|b| - 1];
      SpotBytesAppend(a, b[..|b| - 1]);
    }
  }

  lemma PayloadMonotone(base: nat, small: seq<Spot>, large: seq<Spot>)
    requires SpotBytes(small) <= SpotBytes(large)
    ensures PayloadSize(base, small) <= PayloadSize(base, large)
  {
    hide SpotBytes;
    var a, b := SpotBytes(small), SpotBytes(large);
    hide NumPad;
    PadMonotone(4 + a, 4 + b);
    PadMonotone(16 + base + SenderSetLength(a), 16 + base + SenderSetLength(b));
  }

  lemma RoundedUp(a: nat)
    ensures a + NumPad(a) == (a + 3) / 4 * 4
  {
  }

  lemma PadMonotone(a: nat, b: nat)
    requires a <= b
    ensures a + NumPad(a) <= b + NumPad(b)
  {
    RoundedUp(a);
    RoundedUp(b);
  }

  /** A group takes every prefix that fits. */
  lemma {:induction false} ExtendReaches(base: nat, limit: int, spots: seq<Spot>, n: nat, m: nat)
    requires n <= m <= |spots| && PayloadSize(base, spots[..m]) <= limit
    ensures Extend(base, limit, spots, n) >= m
    decreases m - n
  {
    hide PayloadSize, SpotBytes;
    if n < m {
      assert spots[..m] == spots[..n + 1] + spots[n + 1..m];
      SpotBytesAppend(spots[..n + 1], spots[n + 1..m]);
      PayloadMonotone(base, spots[..n + 1], spots[..m]);
      ExtendReaches(base, limit, spots, n + 1, m);
    }
  }

  predicate IsSuffix(a: seq<Spot>, b: seq<Spot>) {
    |a| <= |b| && b[|b| - |a|..] == a
  }

  /** Greedy keeps ahead: with no more left to send than a rival that starts the same kind
      of packet, it leaves no more for the packets after it. */
  lemma StaysAhead(base: nat, limit: int, mine: seq<Spot>, group: seq<Spot>, others: seq<Spot>)
    requires mine != [] && IsSuffix(mine, group + others)
    requires group == [] || PayloadSize(base, group) <= limit
    ensures IsSuffix(mine[Extend(base, limit, mine, 1)..], others)
  {
    hide PayloadSize, Extend, SpotBytes;
    var k := Extend(base, limit, mine, 1);
    if |mine| > |others| {
      var m := |mine| - |others|;
      OverlapFits(base, mine, group, others, m);
      ExtendReaches(base, limit, mine, 1, m);
    }
    SuffixAfter(mine, group, others, k);
  }

  lemma OverlapFits(base: nat, mine: seq<Spot>, group: seq<Spot>, others: seq<Spot>, m: nat)
    requires IsSuffix(mine, group + others) && |mine| == |others| + m
    ensures PayloadSize(base, mine[..m]) <= PayloadSize(base, group)
  {
    hide PayloadSize;
    var skip := |group| - m;
    assert group == group[..skip] + group[skip..];
    assert mine[..m] == group[skip..];
    SpotBytesAppend(group[..skip], group[skip..]);
    PayloadMonotone(base, mine[..m], group);
  }

  lemma SuffixAfter(mine: seq<Spot>, group: seq<Spot>, others: seq<Spot>, k: nat)
    requires IsSuffix(mine, group + others) && k <= |mine| && |mine| - k <= |others|
    ensures IsSuffix(mine[k..], others)
  {
    var all := group + others;
    var skip := |all| - |mine|;
    assert mine[k..] == all[skip + k..];
    assert others[skip + k - |group|..] == all[skip + k..];
  }

  lemma {:induction false} GreedyAhead(base: nat, next: nat, limit: int, mine: seq<Spot>, groups: seq<seq<Spot>>)
    requires Feasible(base, next, limit, groups) && IsSuffix(mine, Join(groups))
    ensures |Split(base, next, limit, mine)| <= |groups|
    decreases |groups|
  {
    hide Extend, PayloadSize;
    if mine != [] {
      var k := Extend(base, limit, mine, 1);
      StaysAhead(base, limit, mine, groups[0], Join(groups[1..]));
      GreedyAhead(next, next, limit, mine[k..], groups[1..]);
    }
  }

  /** No split of the same spots in the same order, with the same base sets and the same
      limit, takes fewer packets. */
  lemma GreedyOptimal(base: nat, next: nat, limit: int, spots: seq<Spot>, groups: seq<seq<Spot>>)
    requires Feasible(base, next, limit, groups) && Join(groups) == spots
    ensures |Split(base, next, limit, spots)| <= |groups|
  {
    GreedyAhead(base, next, limit, spots, groups);
  }

  // ----- the limit -----

  lemma {:induction false} ExtendFits(base: nat, limit: int, spots: seq<Spot>, n: nat)
    requires n <= |spots| && PayloadSize(base, spots[..n]) <= limit
    ensures PayloadSize(base, spots[..Extend(base, limit, spots, n)]) <= limit
    decreases |spots| - n
  {
    hide PayloadSize;
    if n < |spots| && PayloadSize(base, spots[..n + 1]) <= limit {
      ExtendFits(base, limit, spots, n + 1);
    }
  }

  lemma OneFits(base: nat, limit: int, spots: seq<Spot>)
    requires spots != [] && base <= 508 && limit >= 608
    ensures PayloadSize(base, spots[..1]) <= limit
  {
    hide SpotRecord;
    SpotRecordSize(spots[0]);
    assert spots[..1][..0] == [];
    assert SpotBytes(spots[..1]) == |SpotRecord(spots[0])|;
  }

  /** With base sets as large as they get and a limit of at least 608 octets, every
      message is within the limit. */
  lemma {:induction false} SplitFits(base: nat, next: nat, limit: int, spots: seq<Spot>)
    requires base <= 508 && next <= 508 && limit >= 608
    ensures Feasible(base, next, limit, Split(base, next, limit, spots))
    decreases |spots|
  {
    hide PayloadSize, Extend;
    if spots != [] {
      var k := Extend(base, limit, spots, 1);
      OneFits(base, limit, spots);
      ExtendFits(base, limit, spots, 1);
      SplitFits(next, next, limit, spots[k..]);
    }
  }

  // ----- the packets -----

  function BaseSets(descriptors: bool, r: Receiver): bytes {
    (if descriptors then DescriptorSets() else []) + ReceiverSet(r)
  }

  function Groups(descriptors: bool, r: Receiver, spots: seq<Spot>, limit: int): (g: seq<seq<Spot>>)
    ensures g != []
  {
    if spots == [] then [[]] else Split(|BaseSets(descriptors, r)|, |ReceiverSet(r)|, limit, spots)
  }

  /** One message for each group; only the first carries descriptors, and each sequence
      number counts the spots of the messages before it. */
  function PacketsOf(descriptors: bool, r: Receiver, groups: seq<seq<Spot>>, sequence: nat, domain: nat,
                     time: nat): (p: seq<Packet>)
    ensures |p| == |groups|
  {
    if groups == [] then []
    else
      [Packet(Message(PacketSets(descriptors, r, groups[0]), sequence, domain, time), |groups[0]|)] +
      PacketsOf(false, r, groups[1..], (sequence + |groups[0]|) % 0x1_0000_0000, domain, time)
  }

  function Built(r: Receiver, spots: seq<Spot>, descriptors: bool, sequence: nat, domain: nat, time: nat,
                 limit: int): seq<Packet> {
    PacketsOf(descriptors, r, Groups(descriptors, r, spots, limit), sequence, domain, time)
  }

  lemma {:induction false} RecordsSize(spots: seq<Spot>)
    ensures |Concat(Records(spots))| == SpotBytes(spots)
    decreases |spots|
  {
    hide SpotRecord;
    if spots != [] {
      var init := spots[..|spots| - 1];
      RecordsSize(init);
      assert Records(spots) == Records(init) + [SpotRecord(spots[|spots| - 1])];
      ConcatSnoc(Records(init), SpotRecord(spots[|spots| - 1]));
    }
  }

  lemma SetsOfGroup(descriptors: bool, r: Receiver, group: seq<Spot>)
    ensures group != [] ==> BaseSets(descriptors, r) + SenderSet(Records(group)) == PacketSets(descriptors, r, group)
    ensures group == [] ==> BaseSets(descriptors, r) == PacketSets(descriptors, r, group)
  {
    hide DescriptorSets, ReceiverSet, SenderSet, Records;
    if group == [] {
      assert ReceiverSet(r) + [] == ReceiverSet(r);
    }
  }

  /** The payload of a group is as long as the split predicted, a multiple of four, and
      says so in its length field when sixteen bits can hold it. */
  lemma PayloadLength(descriptors: bool, r: Receiver, group: seq<Spot>, sequence: nat, domain: nat, time: nat)
    ensures var p := Message(PacketSets(descriptors, r, group), sequence, domain, time);
            && |p| % 4 == 0 && |p| == |PacketSets(descriptors, r, group)| + 16
            && (group != [] ==> |p| == PayloadSize(|BaseSets(descriptors, r)|, group))
            && (group == [] ==> |p| == MessageLength(|BaseSets(descriptors, r)|))
            && FromBe(p[2..4]) == |p| % 0x1_0000
  {
    hide Message, PacketSets, BaseSets, SenderSet, Records, SpotBytes, FromBe, Be, Pow256;
    var sets := PacketSets(descriptors, r, group);
    SetsOfGroup(descriptors, r, group);
    RecordsSize(group);
    PacketSetsAligned(descriptors, r, group);
    SizesPredicted(BaseSets(descriptors, r), Records(group), sequence, domain, time);
    MessageLayout(sets, sequence, domain, time);
    BeBack(|sets| + 16, 2);
  }

  lemma LastGroup(base: nat, next: nat, limit: int, spots: seq<Spot>, n: nat)
    requires 1 <= n <= |spots| && Extend(base, limit, spots, 1) == Extend(base, limit, spots, n)
    requires n < |spots| ==> PayloadSize(base, spots[..n + 1]) > limit
    ensures Split(base, next, limit, spots) == [spots[..n]] + Split(next, next, limit, spots[n..])
  {
    hide PayloadSize;
  }

  /** The loop of buildPackets: a spot that would take the current message over the limit
      closes it and opens the next, without descriptors. */
  method BuildPackets(r: Receiver, spots: seq<Spot>, includeDescriptors: bool, sequenceNumber: nat, domain: nat,
                      time: nat, maxPayload: int)
    returns (packets: seq<Packet>)
    ensures packets == Built(r, spots, includeDescriptors, sequenceNumber, domain, time, maxPayload)
  {
    hide Message, PacketSets, Split, DescriptorSets, ReceiverSet, SpotRecord, PayloadSize, Extend, PacketsOf, SenderSet,
         Records, SpotBytes, MessageLength, SenderSetLength, BaseSets, Built, Remaining, Filling;
    var receiverSet := BuildReceiverSet(r);
    var baseSets := (if includeDescriptors then DescriptorSets() else []) + receiverSet;
    BuiltFrom(r, spots, includeDescriptors, sequenceNumber, domain, time, maxPayload);
    if spots == [] {
      var payload := BuildMessage(baseSets, sequenceNumber, domain, time);
      return [Packet(payload, 0)];
    }
    packets := [];
    var records: seq<bytes>, recordCount, recordBytes := [], 0, 0;
    var sequence: nat := sequenceNumber;
    ghost var start, descriptors := 0, includeDescriptors;
    ghost var goal := Built(r, spots, includeDescriptors, sequenceNumber, domain, time, maxPayload);
    assert spots[0..] == spots;
    GroupGrows(spots, 0, 0, 0);
    for i := 0 to |spots|
      invariant 0 <= start <= i && (i > 0 ==> start < i)
      invariant records == Records(spots[start..i]) && recordCount == i - start &&
                recordBytes == SpotBytes(spots[start..i])
      invariant baseSets == BaseSets(descriptors, r)
      invariant Remaining(goal, packets, descriptors, r, spots[start..], maxPayload, sequence, domain, time)
      invariant i > start ==> Filling(|baseSets|, maxPayload, spots[start..], i - start)
    {
      var record := BuildSpotRecord(spots[i]);
      var candidateBytes := recordBytes + |record|;
      var candidateSize := MessageLength(|baseSets| + SenderSetLength(candidateBytes));
      ghost var rest := spots[start..];
      GroupGrows(spots, start, i, |baseSets|);
      if records != [] && candidateSize > maxPayload {
        ghost var group := spots[start..i];
        var senderSet := BuildSenderSet(records);
        var payload := BuildMessage(baseSets + senderSet, sequence, domain, time);
        assert rest[..i - start] == group && rest[i - start..] == spots[i..];
        CloseGroup(goal, packets, descriptors, r, rest, i - start, maxPayload, sequence, domain, time);
        packets := packets + [Packet(payload, recordCount)];
        sequence := (sequence + recordCount) % 0x1_0000_0000;
        records, recordCount, recordBytes := [], 0, 0;
        baseSets := receiverSet;
        start, descriptors := i, false;
        LaterBase(r);
        GroupGrows(spots, start, i, |baseSets|);
      }
      records := records + [record];
      recordCount := recordCount + 1;
      recordBytes := recordBytes + |record|;
      ExtendOnce(|baseSets|, maxPayload, spots[start..], i - start);
    }
    ghost var group := spots[start..];
    assert spots[start..|spots|] == group;
    var senderSet := BuildSenderSet(records);
    var payload := BuildMessage(baseSets + senderSet, sequence, domain, time);
    CloseLast(goal, packets, descriptors, r, group, maxPayload, sequence, domain, time);
    packets := packets + [Packet(payload, recordCount)];
  }

  lemma BuiltFrom(r: Receiver, spots: seq<Spot>, descriptors: bool, sequence: nat, domain: nat, time: nat, limit: int)
    ensures BaseSets(descriptors, r) == (if descriptors then DescriptorSets() else []) + ReceiverSet(r)
    ensures var built := Built(r, spots, descriptors, sequence, domain, time, limit);
            if spots == [] then built == [Packet(Message(BaseSets(descriptors, r), sequence, domain, time), 0)]
            else Remaining(built, [], descriptors, r, spots, limit, sequence, domain, time)
  {
    hide Message, PacketSets, Split, DescriptorSets, ReceiverSet, PacketsOf;
    SetsOfGroup(descriptors, r, []);
    OnePacket(descriptors, r, [], sequence, domain, time);
  }

  lemma LaterBase(r: Receiver)
    ensures BaseSets(false, r) == ReceiverSet(r)
  {
    hide ReceiverSet;
    assert [] + ReceiverSet(r) == ReceiverSet(r);
  }

  lemma GroupGrows(spots: seq<Spot>, start: nat, i: nat, base: nat)
    requires start <= i < |spots|
    ensures Records(spots[start..i + 1]) == Records(spots[start..i]) + [SpotRecord(spots[i])]
    ensures SpotBytes(spots[start..i + 1]) == SpotBytes(spots[start..i]) + |SpotRecord(spots[i])|
    ensures spots[start..][..i - start + 1] == spots[start..i + 1]
    ensures PayloadSize(base, spots[start..i + 1])
         == MessageLength(base + SenderSetLength(SpotBytes(spots[start..i]) + |SpotRecord(spots[i])|))
    ensures i == start ==> Records(spots[start..i]) == [] && SpotBytes(spots[start..i]) == 0
  {
    hide SpotRecord;
    assert spots[start..i + 1][..i - start] == spots[start..i];
  }

  /** So many spots go into the current message. */
  ghost predicate Filling(base: nat, limit: int, spots: seq<Spot>, n: nat) {
    1 <= n <= |spots| && Extend(base, limit, spots, 1) == Extend(base, limit, spots, n)
  }

  lemma ExtendOnce(base: nat, limit: int, spots: seq<Spot>, n: nat)
    requires n < |spots| && (n > 0 ==> Filling(base, limit, spots, n))
    requires n > 0 ==> PayloadSize(base, spots[..n + 1]) <= limit
    ensures Filling(base, limit, spots, n + 1)
  {
    hide PayloadSize;
  }

  /** `goal` is `packets` and what splitting the rest of the spots adds. */
  ghost predicate Remaining(goal: seq<Packet>, packets: seq<Packet>, descriptors: bool, r: Receiver, rest: seq<Spot>,
                            limit: int, sequence: nat, domain: nat, time: nat)
  {
    goal == packets + PacketsOf(descriptors, r, Split(|BaseSets(descriptors, r)|, |ReceiverSet(r)|, limit, rest),
      sequence, domain, time)
  }

  lemma NoneLeft(goal: seq<Packet>, packets: seq<Packet>, r: Receiver, limit: int, sequence: nat, domain: nat,
                 time: nat)
    requires Remaining(goal, packets, false, r, [], limit, sequence, domain, time)
    ensures goal == packets
  {
    hide BaseSets, ReceiverSet;
  }

  /** What remains to be sent begins with the message that is closed after `n` spots. */
  lemma CloseGroup(goal: seq<Packet>, packets: seq<Packet>, descriptors: bool, r: Receiver, rest: seq<Spot>, n: nat,
                   limit: int, sequence: nat, domain: nat, time: nat)
    requires var base := |BaseSets(descriptors, r)|;
             && Filling(base, limit, rest, n)
             && (n < |rest| ==> PayloadSize(base, rest[..n + 1]) > limit)
    requires Remaining(goal, packets, descriptors, r, rest, limit, sequence, domain, time)
    ensures var sets := BaseSets(descriptors, r) + SenderSet(Records(rest[..n]));
            var p := Packet(Message(sets, sequence, domain, time), n);
            Remaining(goal, packets + [p], false, r, rest[n..], limit, (sequence + n) % 0x1_0000_0000, domain, time)
  {
    hide Message, PacketSets, PayloadSize, Extend, BaseSets, ReceiverSet, SenderSet, Records, PacketsOf;
    var group, next := rest[..n], |ReceiverSet(r)|;
    var later := Split(next, next, limit, rest[n..]);
    SetsOfGroup(descriptors, r, group);
    LastGroup(|BaseSets(descriptors, r)|, next, limit, rest, n);
    NextPacket(descriptors, r, group, later, sequence, domain, time);
    LaterBase(r);
    var p := Packet(Message(PacketSets(descriptors, r, group), sequence, domain, time), n);
    var tail := PacketsOf(false, r, later, (sequence + n) % 0x1_0000_0000, domain, time);
    assert packets + ([p] + tail) == packets + [p] + tail;
  }

  /** What remains is the one message that is closed at the end. */
  lemma CloseLast(goal: seq<Packet>, packets: seq<Packet>, descriptors: bool, r: Receiver, group: seq<Spot>, limit: int,
                  sequence: nat, domain: nat, time: nat)
    requires Filling(|BaseSets(descriptors, r)|, limit, group, |group|)
    requires Remaining(goal, packets, descriptors, r, group, limit, sequence, domain, time)
    ensures var sets := BaseSets(descriptors, r) + SenderSet(Records(group));
            goal == packets + [Packet(Message(sets, sequence, domain, time), |group|)]
  {
    hide Message, Extend, BaseSets, SenderSet, Records, Remaining;
    assert group[..|group|] == group && group[|group|..] == [];
    CloseGroup(goal, packets, descriptors, r, group, |group|, limit, sequence, domain, time);
    var p := Packet(Message(BaseSets(descriptors, r) + SenderSet(Records(group)), sequence, domain, time), |group|);
    NoneLeft(goal, packets + [p], r, limit, (sequence + |group|) % 0x1_0000_0000, domain, time);
  }

  lemma NextPacket(descriptors: bool, r: Receiver, group: seq<Spot>, later: seq<seq<Spot>>, sequence: nat, domain: nat,
                   time: nat)
    ensures PacketsOf(descriptors, r, [group] + later, sequence, domain, time)
         == [Packet(Message(PacketSets(descriptors, r, group), sequence, domain, time), |group|)] +
            PacketsOf(false, r, later, (sequence + |group|) % 0x1_0000_0000, domain, time)
  {
    hide Message, PacketSets;
    assert ([group] + later)[1..] == later;
  }

  lemma OnePacket(descriptors: bool, r: Receiver, group: seq<Spot>, sequence: nat, domain: nat, time: nat)
    ensures PacketsOf(descriptors, r, [group], sequence, domain, time)
         == [Packet(Message(PacketSets(descriptors, r, group), sequence, domain, time), |group|)]
  {
    hide Message, PacketSets;
    NextPacket(descriptors, r, group, [], sequence, domain, time);
    assert [group] + [] == [group];
  }

  // ----- what a collector gets -----

  /** A collector's view of a stream of packets; templates learned stay known. */
  function Collect(packets: seq<Packet>, ts: Templates): Option<seq<Decoded>> {
    if packets == [] then Some([])
    else
      match DecodeMessage(packets[0].payload, ts)
      case None => None
      case Some(d) =>
        match Collect(packets[1..], d.templates)
        case None => None
        case Some(ds) => Some([d] + ds)
  }

  /** The templates a collector knows after these packets. */
  function TemplatesAfter(packets: seq<Packet>, ts: Templates): Templates {
    match Collect(packets, ts)
    case None => ts
    case Some(ds) => if ds == [] then ts else ds[|ds| - 1].templates
  }

  lemma TemplatesCons(a: seq<Packet>, ts: Templates)
    requires a != [] && Collect(a, ts).Some?
    ensures var d := DecodeMessage(a[0].payload, ts).value;
            Collect(a[1..], d.templates).Some? && TemplatesAfter(a, ts) == TemplatesAfter(a[1..], d.templates)
  {
    hide DecodeMessage;
    var d := DecodeMessage(a[0].payload, ts).value;
    var tail := Collect(a[1..], d.templates).value;
    assert Collect(a, ts).value == [d] + tail;
  }

  lemma AllOnTheWireAppend(a: seq<Spot>, b: seq<Spot>)
    ensures AllOnTheWire(a + b) == AllOnTheWire(a) + AllOnTheWire(b)
  {
  }

  ghost predicate Small(descriptors: bool, r: Receiver, groups: seq<seq<Spot>>) {
    && (groups != [] ==> |PacketSets(descriptors, r, groups[0])| + 16 < 0x1_0000)
    && forall i :: 1 <= i < |groups| ==> |PacketSets(false, r, groups[i])| + 16 < 0x1_0000
  }

  /** What the collector should find in the `i`th message. */
  ghost predicate Expected(d: Decoded, r: Receiver, groups: seq<seq<Spot>>, i: nat, sequence: nat, domain: nat,
                           time: nat)
    requires i < |groups|
  {
    && d.time == time && d.domain == domain
    && d.sequence == (sequence + |Join(groups[..i])|) % 0x1_0000_0000
    && |d.records| == |groups[i]| + 1
    && ReadMessage(d) == Some(Reading([ReceiverOnTheWire(r)], AllOnTheWire(groups[i])))
  }

  lemma ExpectedCons(d: Decoded, r: Receiver, groups: seq<seq<Spot>>, i: nat, sequence: nat, domain: nat, time: nat)
    requires i + 1 < |groups|
    requires Expected(d, r, groups[1..], i, (sequence + |groups[0]|) % 0x1_0000_0000, domain, time)
    ensures Expected(d, r, groups, i + 1, sequence, domain, time)
  {
    hide ReadMessage, AllOnTheWire, ReceiverOnTheWire;
    assert groups[..i + 1][1..] == groups[1..][..i];
    assert groups[1..][i] == groups[i + 1];
    CountedOn(sequence, |groups[0]|, |Join(groups[1..][..i])|);
  }

  lemma CountedOn(a: nat, b: nat, c: nat)
    ensures ((a + b) % 0x1_0000_0000 + c) % 0x1_0000_0000 == (a + (b + c)) % 0x1_0000_0000
  {
  }

  /** Every message is decoded to its receiver record and its group of spots, numbered by
      the spots of the messages before it. */
  lemma {:induction false} Collected(descriptors: bool, r: Receiver, groups: seq<seq<Spot>>, sequence: nat, domain: nat,
                                     time: nat, ts: Templates)
    requires (descriptors || Knows(ts)) && Small(descriptors, r, groups)
    requires sequence < 0x1_0000_0000 && domain < 0x1_0000_0000 && time < 0x1_0000_0000
    ensures var ds := Collect(PacketsOf(descriptors, r, groups, sequence, domain, time), ts);
            && ds.Some? && |ds.value| == |groups|
            && (forall i :: 0 <= i < |groups| ==> Expected(ds.value[i], r, groups, i, sequence, domain, time))
            && SpotsRead(ds.value) == Some(AllOnTheWire(Join(groups)))
    ensures groups != [] ==> Knows(TemplatesAfter(PacketsOf(descriptors, r, groups, sequence, domain, time), ts))
    decreases |groups|
  {
    hide Message, PacketSets, Knows, DecodeMessage, ReceiverValues, SpotRecordsOf, Expected, ReadMessage,
         TemplatesAfter, ReceiverOnTheWire, AllOnTheWire;
    if groups == [] {
      NoSpotsAtAll();
    } else {
      var next, rest := (sequence + |groups[0]|) % 0x1_0000_0000, groups[1..];
      var ps := PacketsOf(descriptors, r, groups, sequence, domain, time);
      assert ps[1..] == PacketsOf(false, r, rest, next, domain, time);
      PacketBack(descriptors, r, groups[0], sequence, domain, time, ts);
      var d := DecodeMessage(ps[0].payload, ts).value;
      assert Small(false, r, rest) by {
        SmallTail(descriptors, r, groups);
      }
      Collected(false, r, rest, next, domain, time, d.templates);
      var tail := Collect(ps[1..], d.templates).value;
      TemplatesCons(ps, ts);
      LastTemplates(d.templates);
      assert ReadMessage(d) == Some(Reading([ReceiverOnTheWire(r)], AllOnTheWire(groups[0]))) by {
        MessageRead(d, r, groups[0]);
      }
      AllOnTheWireAppend(groups[0], Join(rest));
      var ds := [d] + tail;
      assert ds[1..] == tail;
      assert Expected(ds[0], r, groups, 0, sequence, domain, time) by {
        ExpectedFirst(d, r, groups, sequence, domain, time);
      }
      forall i | 1 <= i < |groups| ensures Expected(ds[i], r, groups, i, sequence, domain, time) {
        ExpectedCons(tail[i - 1], r, groups, i - 1, sequence, domain, time);
      }
    }
  }

  lemma LastTemplates(ts: Templates)
    ensures Collect([], ts) == Some([]) && TemplatesAfter([], ts) == ts
  {
  }

  lemma MessageRead(d: Decoded, r: Receiver, spots: seq<Spot>)
    requires Knows(d.templates) && d.records == [Record(RECEIVER_ID, ReceiverValues(r))] + SpotRecordsOf(spots)
    ensures ReadMessage(d) == Some(Reading([ReceiverOnTheWire(r)], AllOnTheWire(spots)))
  {
    hide Knows, ReadRecords, ReceiverValues, SpotRecordsOf, ReceiverOnTheWire, AllOnTheWire;
    PacketRead(r, spots, d.templates);
  }

  lemma NoSpotsAtAll()
    ensures AllOnTheWire([]) == []
  {
  }

  lemma SmallTail(descriptors: bool, r: Receiver, groups: seq<seq<Spot>>)
    requires groups != [] && Small(descriptors, r, groups)
    ensures Small(false, r, groups[1..])
  {
    hide PacketSets;
  }

  lemma ExpectedFirst(d: Decoded, r: Receiver, groups: seq<seq<Spot>>, sequence: nat, domain: nat, time: nat)
    requires groups != [] && sequence < 0x1_0000_0000 && d.time == time && d.domain == domain && d.sequence == sequence
    requires Knows(d.templates) && d.records == [Record(RECEIVER_ID, ReceiverValues(r))] + SpotRecordsOf(groups[0])
    ensures Expected(d, r, groups, 0, sequence, domain, time)
  {
    hide Knows, ReadMessage, ReceiverValues, ReceiverOnTheWire, AllOnTheWire;
    assert groups[..0] == [];
    MessageRead(d, r, groups[0]);
  }

  /** Whatever the receiver, the spots and the limit between 608 and 65535: each payload is
      within the limit and a multiple of four octets long, and a collector that knows the
      templates, or is sent them, and looks values up by their elements reads the receiver in
      every message and, over all of them, exactly the spots in order. */
  lemma Delivered(r: Receiver, spots: seq<Spot>, descriptors: bool, sequence: nat, domain: nat, time: nat, limit: int,
                  ts: Templates)
    requires 608 <= limit <= 0xffff && (descriptors || Knows(ts))
    requires sequence < 0x1_0000_0000 && domain < 0x1_0000_0000 && time < 0x1_0000_0000
    ensures var groups := Groups(descriptors, r, spots, limit);
            var ps := Built(r, spots, descriptors, sequence, domain, time, limit);
            var ds := Collect(ps, ts);
            && (forall i :: 0 <= i < |ps| ==>
                  |ps[i].payload| <= limit && |ps[i].payload| % 4 == 0 && ps[i].spotCount == |groups[i]|)
            && ds.Some? && |ds.value| == |ps| == |groups| && Join(groups) == spots
            && (forall i :: 0 <= i < |ps| ==> Expected(ds.value[i], r, groups, i, sequence, domain, time))
            && SpotsRead(ds.value) == Some(AllOnTheWire(spots))
            && Knows(TemplatesAfter(ps, ts))
  {
    hide Message, PacketSets, Split, BaseSets, Expected, Knows, PacketsOf, Collect, SpotsRead, AllOnTheWire, Small,
         TemplatesAfter;
    var groups := Groups(descriptors, r, spots, limit);
    GroupsSmall(descriptors, r, spots, limit);
    GroupsJoin(descriptors, r, spots, limit);
    Collected(descriptors, r, groups, sequence, domain, time, ts);
    PayloadsOf(descriptors, r, groups, sequence, domain, time, limit);
  }

  lemma GroupsJoin(descriptors: bool, r: Receiver, spots: seq<Spot>, limit: int)
    ensures Join(Groups(descriptors, r, spots, limit)) == spots
  {
    hide Split, Join;
    if spots == [] {
      JoinOne([]);
    } else {
      SplitJoins(|BaseSets(descriptors, r)|, |ReceiverSet(r)|, limit, spots);
    }
  }

  lemma JoinOne(g: seq<Spot>)
    ensures Join([g]) == g
  {
    assert [g][1..] == [] && g + [] == g;
  }

  /** Every group's payload, with the descriptors counted where they go, is within the limit. */
  ghost predicate Within(descriptors: bool, r: Receiver, groups: seq<seq<Spot>>, limit: int) {
    && (groups != [] ==> |PacketSets(descriptors, r, groups[0])| + 16 <= limit)
    && forall i :: 1 <= i < |groups| ==> |PacketSets(false, r, groups[i])| + 16 <= limit
  }

  lemma GroupsSmall(descriptors: bool, r: Receiver, spots: seq<Spot>, limit: int)
    requires 608 <= limit <= 0xffff
    ensures Within(descriptors, r, Groups(descriptors, r, spots, limit), limit)
    ensures Small(descriptors, r, Groups(descriptors, r, spots, limit))
  {
    hide PacketSets, Split, Message, PayloadSize, DescriptorSets, ReceiverSet;
    var groups := Groups(descriptors, r, spots, limit);
    var base, next := |BaseSets(descriptors, r)|, |ReceiverSet(r)|;
    DescriptorsSize();
    ReceiverSetSize(r);
    LaterBase(r);
    if spots == [] {
      PayloadLength(descriptors, r, [], 0, 0, 0);
    } else {
      SplitFits(base, next, limit, spots);
      SplitJoins(base, next, limit, spots);
      forall i | 0 <= i < |groups| ensures |PacketSets(i == 0 && descriptors, r, groups[i])| + 16 <= limit {
        assert groups[i] in groups;
        PayloadLength(i == 0 && descriptors, r, groups[i], 0, 0, 0);
      }
    }
  }

  lemma {:induction false} PayloadsOf(descriptors: bool, r: Receiver, groups: seq<seq<Spot>>, sequence: nat,
                                      domain: nat, time: nat, limit: int)
    requires Within(descriptors, r, groups, limit)
    ensures var ps := PacketsOf(descriptors, r, groups, sequence, domain, time);
            forall i :: 0 <= i < |ps| ==>
              |ps[i].payload| <= limit && |ps[i].payload| % 4 == 0 && ps[i].spotCount == |groups[i]|
    decreases |groups|
  {
    hide Message, PacketSets, FromBe, PayloadSize, BaseSets, MessageLength;
    if groups != [] {
      PayloadLength(descriptors, r, groups[0], sequence, domain, time);
      PayloadsOf(false, r, groups[1..], (sequence + |groups[0]|) % 0x1_0000_0000, domain, time, limit);
    }
  }
}
