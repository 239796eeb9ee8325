/** The reporter that feeds buildPackets: which spots it accepts, how many it keeps
    waiting, and how the packets of successive reports are numbered. Time, the state of
    the socket and the eclipse calendar are parameters. */
module PskReporter {
  import opened Bytes
  import opened Wrappers
  import opened Utf8
  import opened Ipfix
  import opened IpfixDecoder
  import opened PskCollector
  import opened IpfixRoundTrip
  import opened Packets

  const MAX_PENDING_SPOTS := 2048
  const CACHE_TIMEOUT := 300
  const CACHE_KEPT := 600
  const UNLIMITED_ABOVE := 49_000_000
  const FLUSH_INTERVAL := 125

  /** A call to addRemoteStation: who was heard, when, and whether the spot is exempt
      from the repeat rule (high band or eclipse). */
  datatype Heard = Heard(call: Text, now: int, exempt: bool)

  /** When the call was last accepted, by the whole history. */
  function LastAccepted(history: seq<Heard>, call: Text): Option<int>
    decreases |history|, 0
  {
    if history == [] then None
    else
      var before, h := history[..|history| - 1], history[|history| - 1];
      if h.call == call && Accepts(before, h) then Some(h.now) else LastAccepted(before, call)
  }

  /** The repeat rule: a call is accepted when it is exempt or when none of its spots was
      accepted in the last CACHE_TIMEOUT seconds. */
  predicate Accepts(history: seq<Heard>, h: Heard)
    decreases |history|, 1
  {
    h.exempt ||
    match LastAccepted(history, h.call)
    case None => true
    case Some(t) => h.now - t > CACHE_TIMEOUT
  }

  ghost predicate Ordered(history: seq<Heard>) {
    forall i, j :: 0 <= i <= j < |history| ==> history[i].now <= history[j].now
  }

  /** The newest `n` of a sequence. */
  function Newest<T>(s: seq<T>, n: nat): seq<T> {
    if |s| <= n then s else s[|s| - n..]
  }

  function SpotsIn(packets: seq<Packet>): nat {
    if packets == [] then 0 else SpotsIn(packets[..|packets| - 1]) + packets[|packets| - 1].spotCount
  }

  function HeaderSequence(p: Packet): nat
    requires |p.payload| >= 16
  {
    FromBe(p.payload[8..12])
  }

  /** Every packet is numbered by the spots of all packets before it. */
  ghost predicate Numbered(packets: seq<Packet>) {
    forall i :: 0 <= i < |packets| ==>
      |packets[i].payload| >= 16 && HeaderSequence(packets[i]) == SpotsIn(packets[..i]) % 0x1_0000_0000
  }

  /** The cache remembers exactly the last acceptances that may still matter. */
  ghost predicate CacheOf(history: seq<Heard>, cache: map<Text, int>) {
    && Ordered(history)
    && (history == [] ==> cache == map[])
    && (history != [] ==>
          forall c :: c in cache <==>
            LastAccepted(history, c).Some? && history[|history| - 1].now - LastAccepted(history, c).value <= CACHE_KEPT)
    && (forall c :: c in cache ==> LastAccepted(history, c) == Some(cache[c]))
  }

  ghost predicate Later(history: seq<Heard>, h: Heard) {
    history != [] ==> history[|history| - 1].now <= h.now
  }

  /** What the cache says about the repeat rule is what the whole history says. */
  lemma CacheDecides(history: seq<Heard>, cache: map<Text, int>, h: Heard)
    requires CacheOf(history, cache) && Later(history, h)
    ensures Accepts(history, h) <==> h.exempt || h.call !in cache || h.now - cache[h.call] > CACHE_TIMEOUT
  {
    hide LastAccepted;
    NothingAccepted(h.call);
  }

  lemma NothingAccepted(call: Text)
    ensures LastAccepted([], call) == None
  {
  }

  lemma LastAcceptedSnoc(history: seq<Heard>, h: Heard, call: Text)
    ensures LastAccepted(history + [h], call) == if h.call == call && Accepts(history, h) then Some(h.now)
                                              else LastAccepted(history, call)
  {
    hide Accepts;
    assert (history + [h])[..|history|] == history;
  }

  /** The rule without the cache or the last acceptance: a spot is let through exactly when it
      is exempt or more than five minutes after each spot of the call that was. */
  lemma AcceptsWhen(history: seq<Heard>, h: Heard)
    requires Ordered(history)
    ensures Accepts(history, h) <==>
              || h.exempt
              || forall i :: 0 <= i < |history| && history[i].call == h.call && Accepts(history[..i], history[i]) ==>
                   h.now - history[i].now > 5 * 60
  {
    hide Accepts;
    LatestAccepted(history, h.call);
    AcceptsBy(history, h);
  }

  lemma AcceptsBy(history: seq<Heard>, h: Heard)
    ensures Accepts(history, h) <==>
            h.exempt || LastAccepted(history, h.call).None? || h.now - LastAccepted(history, h.call).value > 300
  {
  }

  lemma {:induction false} LatestAccepted(history: seq<Heard>, call: Text)
    requires Ordered(history)
    ensures match LastAccepted(history, call)
            case None =>
              forall i :: 0 <= i < |history| && history[i].call == call ==> !Accepts(history[..i], history[i])
            case Some(t) =>
              && (exists i :: 0 <= i < |history| && history[i].call == call && Accepts(history[..i], history[i])
                              && history[i].now == t)
              && forall i :: 0 <= i < |history| && history[i].call == call && Accepts(history[..i], history[i]) ==>
                   history[i].now <= t
  {
    hide Accepts;
    if history != [] {
      var front := history[..|history| - 1];
      LatestAccepted(front, call);
      assert forall i :: 0 <= i < |front| ==> front[..i] == history[..i] && front[i] == history[i];
    }
  }

  lemma CachePurged(history: seq<Heard>, h: Heard, cache: map<Text, int>, after: map<Text, int>)
    requires CacheOf(history, cache) && Later(history, h)
    requires var updated := if Accepts(history, h) then cache[h.call := h.now] else cache;
             after == map c | c in updated && h.now - updated[c] <= CACHE_KEPT :: updated[c]
    ensures CacheOf(history + [h], after)
  {
    hide LastAccepted, Accepts;
    var all := history + [h];
    forall c
      ensures c in after <==> LastAccepted(all, c).Some? && h.now - LastAccepted(all, c).value <= CACHE_KEPT
      ensures c in after ==> LastAccepted(all, c) == Some(after[c])
    {
      LastAcceptedSnoc(history, h, c);
      NothingAccepted(c);
    }
  }

  /** A collector that joined with the first of these packets, knowing no templates, has
      decoded them all and holds exactly the reported spots; it can go on without being
      sent templates, unless nothing was sent yet and they are `due`. */
  ghost predicate Follows(session: seq<Packet>, reported: seq<Spot>, due: bool) {
    if session == [] then due && reported == []
    else
      && Collect(session, map[]).Some? && Knows(TemplatesAfter(session, map[]))
      && SpotsRead(Collect(session, map[]).value) == Some(AllOnTheWire(reported))
      && Counted(session, Collect(session, map[]).value)
  }

  /** Every packet carries one data record more than it has spots: the receiver's. */
  ghost predicate Counted(packets: seq<Packet>, ds: seq<Decoded>) {
    |ds| == |packets| && forall i :: 0 <= i < |ds| ==> |ds[i].records| == packets[i].spotCount + 1
  }

  datatype Socket = NoSocket | Tcp | Udp

  datatype SocketError = RemoteHostClosed | Temporary | Other

  /** What happens to a reporter: calls of the application, timers and the network. */
  datatype Event =
    | SetStation(receiver: Receiver)
    | AddSpot(spot: Spot, now: int, eclipse: bool)
    | Report(connected: bool, sendResidue: bool, exportTime: nat)
    | NewSocket
    | DescriptorTimeout
    | SocketFailed(error: SocketError)

  /** The calls to addRemoteStation among the events. */
  function HeardIn(events: seq<Event>): seq<Heard> {
    if events == [] then []
    else
      var front, last := HeardIn(events[..|events| - 1]), events[|events| - 1];
      if last.AddSpot? then front + [HeardAs(last.spot, last.now, last.eclipse)] else front
  }

  /** A socket was made. */
  predicate Connected(events: seq<Event>) {
    NewSocket in events
  }

  /** The last event is a report that finds the socket connected. */
  predicate Reports(events: seq<Event>)
    requires events != []
  {
    var last := events[|events| - 1];
    last.Report? && last.connected && Connected(events[..|events| - 1])
  }

  /** The last event adds a spot that the repeat rule lets through. */
  predicate Adds(events: seq<Event>)
    requires events != []
  {
    var last := events[|events| - 1];
    last.AddSpot? && Accepts(HeardIn(events[..|events| - 1]), HeardAs(last.spot, last.now, last.eclipse))
  }

  /** The spots that the repeat rule lets through. */
  function AcceptedIn(events: seq<Event>): seq<Spot> {
    if events == [] then []
    else
      var before := AcceptedIn(events[..|events| - 1]);
      if Adds(events) then before + [events[|events| - 1].spot] else before
  }

  /** Those of them that came in since the queue was last emptied, by a report over a
      connected socket or by a failing one. */
  function PendingIn(events: seq<Event>): seq<Spot> {
    if events == [] then []
    else
      var before := PendingIn(events[..|events| - 1]);
      if Adds(events) then before + [events[|events| - 1].spot]
      else if Reports(events) || events[|events| - 1] == SocketFailed(Other) then []
      else before
  }

  /** The spots of all reports: each takes the newest of those that wait. */
  function SentIn(events: seq<Event>): seq<Spot> {
    if events == [] then []
    else
      var front := events[..|events| - 1];
      SentIn(front) + (if Reports(events) then Newest(PendingIn(front), MAX_PENDING_SPOTS) else [])
  }

  /** The spots of the reports since the last socket was made. */
  function ReportedIn(events: seq<Event>): seq<Spot> {
    if events == [] || events[|events| - 1] == NewSocket then []
    else
      var front := events[..|events| - 1];
      ReportedIn(front) + (if Reports(events) then Newest(PendingIn(front), MAX_PENDING_SPOTS) else [])
  }

  function HeardAs(spot: Spot, now: int, eclipse: bool): Heard {
    Heard(spot.callsign, now, spot.frequency > 49_000_000 || eclipse)
  }

  /** Time does not go back, and export times fit their field. */
  ghost predicate Timely(events: seq<Event>) {
    && (forall i, j :: 0 <= i <= j < |events| && events[i].AddSpot? && events[j].AddSpot? ==>
       events[i].now <= events[j].now)
    && (forall i :: 0 <= i < |events| && events[i].Report? ==> events[i].exportTime < 0x1_0000_0000)
  }

  class Reporter {
    var spotCache: map<Text, int>
    var spots: seq<Spot>
    var sequenceNumber: nat
    var sendDescriptors: nat
    var flushCounter: nat
    var socket: Socket
    var receiver: Receiver
    const useTcp: bool
    const observationId: nat

    // calls so far, spots accepted since the queue was last emptied, packets ever sent
    ghost var history: seq<Heard>
    ghost var pending: seq<Spot>
    ghost var sent: seq<Packet>
    // packets sent before the socket was made; packets sent and spots reported since
    ghost var earlier: seq<Packet>
    ghost var session: seq<Packet>
    ghost var reported: seq<Spot>

    ghost predicate CacheValid()
      reads `history, `spotCache
    {
      CacheOf(history, spotCache)
    }

    ghost predicate QueueValid()
      reads `spots, `pending
    {
      spots == Newest(pending, MAX_PENDING_SPOTS)
    }

    ghost predicate SentValid()
      reads `sequenceNumber, `sent, `earlier, `session
    {
      && observationId < 0x1_0000_0000
      && sequenceNumber == SpotsIn(sent) % 0x1_0000_0000 && Numbered(sent) && sent == earlier + session
      && forall i :: 0 <= i < |sent| ==> |sent[i].payload| <= if useTcp then 0xffff else 1000 - 40 - 8
    }

    ghost predicate SessionValid()
      reads `socket, `sendDescriptors, `session, `reported
    {
      if socket.NoSocket? then session == [] && reported == [] else Follows(session, reported, sendDescriptors > 0)
    }

    /** The reporter is where these events lead. */
    ghost predicate After(events: seq<Event>)
      reads this
    {
      && history == HeardIn(events) && pending == PendingIn(events) && reported == ReportedIn(events)
      && SpotsIn(sent) == |SentIn(events)| && (socket == NoSocket <==> !Connected(events))
    }

    /** The cache decides by the history, the queue is the newest of the accepted spots,
        packets are numbered by spots, and a collector on the socket can decode them. */
    ghost predicate Valid()
      reads this
    {
      CacheValid() && QueueValid() && SentValid() && SessionValid()
    }

    constructor (useTcp: bool, receiver: Receiver, observationId: nat)
      requires observationId < 0x1_0000_0000
      ensures Valid() && After([])
      ensures this.useTcp == useTcp && this.receiver == receiver && this.observationId == observationId
    {
      this.useTcp, this.receiver, this.observationId := useTcp, receiver, observationId;
      spotCache, spots, sequenceNumber, sendDescriptors, flushCounter, socket := map[], [], 0, 0, 0, NoSocket;
      history, pending, sent, earlier, session, reported := [], [], [], [], [], [];
    }

    method SetLocalStation(receiver: Receiver)
      modifies `receiver
      ensures this.receiver == receiver
    {
      if receiver != this.receiver {
        this.receiver := receiver;
      }
    }

    /** Forgets the spots older than CACHE_KEPT seconds. */
    method PurgeCache(now: int)
      modifies `spotCache
      ensures spotCache == map c | c in old(spotCache) && now - old(spotCache)[c] <= 600 :: old(spotCache)[c]
    {
      var todo := spotCache.Keys;
      while todo != {}
        invariant todo <= old(spotCache).Keys
        invariant spotCache == map c | c in old(spotCache) &&
                  (c in todo || now - old(spotCache)[c] <= CACHE_KEPT) :: old(spotCache)[c]
        decreases todo
      {
        var c :| c in todo;
        if now - spotCache[c] > CACHE_KEPT {
          spotCache := spotCache - {c};
        }
        todo := todo - {c};
      }
    }

    /** Accepts the spot exactly when the whole history says so, and keeps the newest
        MAX_PENDING_SPOTS of those accepted since the queue was emptied. The result tells
        whether the queue had room. */
    method AddRemoteStation(spot: Spot, now: int, eclipse: bool) returns (accepted: bool)
      requires CacheValid() && QueueValid() && (history != [] ==> history[|history| - 1].now <= now)
      modifies `spotCache, `spots, `history, `pending
      ensures CacheValid() && QueueValid()
      ensures var h := HeardAs(spot, now, eclipse);
              && history == old(history) + [h]
              && pending == (if Accepts(old(history), h) then old(pending) + [spot] else old(pending))
              && accepted == (|old(spots)| + (if Accepts(old(history), h) then 1 else 0) <= MAX_PENDING_SPOTS)
    {
      hide Newest, LastAccepted, CacheOf, Accepts;
      var call := spot.callsign;
      ghost var h := Heard(call, now, spot.frequency > UNLIMITED_ABOVE || eclipse);
      CacheDecides(history, spotCache, h);
      if call !in spotCache || spot.frequency > UNLIMITED_ABOVE || eclipse {
        spots := spots + [spot];
        spotCache := spotCache[call := now];
      } else if now - spotCache[call] > CACHE_TIMEOUT {
        spots := spots + [spot];
        spotCache := spotCache[call := now];
      }
      if Accepts(history, h) {
        pending := pending + [spot];
      }
      assert |spots| == |old(spots)| + (if Accepts(old(history), h) then 1 else 0);
      NewestSnoc(old(pending), spot, old(spots));
      accepted := TrimQueue();
      PurgeCache(now);
      CachePurged(history, h, old(spotCache), spotCache);
      history := history + [h];
    }

    /** Drops the oldest spots while there are too many; the result tells that there were not. */
    method TrimQueue() returns (accepted: bool)
      modifies `spots
      ensures spots == Newest(old(spots), MAX_PENDING_SPOTS) && accepted == (|old(spots)| <= MAX_PENDING_SPOTS)
      ensures spots == old(spots)[if |old(spots)| > 2048 then |old(spots)| - 2048 else 0..]
    {
      ghost var grown := spots;
      accepted := true;
      while |spots| > MAX_PENDING_SPOTS
        modifies `spots
        invariant |grown| - |spots| >= 0 && spots == grown[|grown| - |spots|..]
        invariant accepted == (spots == grown) && (|grown| >= MAX_PENDING_SPOTS ==> |spots| >= MAX_PENDING_SPOTS)
        invariant |grown| < MAX_PENDING_SPOTS ==> spots == grown
      {
        spots := spots[1..];
        accepted := false;
      }
    }

    // ----- reports -----

    /** A new socket: the collector behind it knows no templates. */
    method Reconnect()
      requires SentValid()
      modifies `socket, `sendDescriptors, `earlier, `session, `reported
      ensures SentValid() && SessionValid() && session == [] && reported == [] && earlier == sent
      ensures socket == (if useTcp then Tcp else Udp) && sendDescriptors == if useTcp then 1 else 3
    {
      if useTcp {
        socket := Tcp;
        sendDescriptors := 1;
      } else {
        socket := Udp;
        sendDescriptors := 3;
      }
      earlier, session, reported := sent, [], [];
      assert sent + [] == sent;
    }

    /** The hourly timer: a collector behind a UDP socket is sent the templates again. */
    method DescriptorTimer()
      requires SessionValid()
      modifies `sendDescriptors
      ensures SessionValid()
      ensures sendDescriptors == if socket == Udp then 3 else old(sendDescriptors)
    {
      if socket == Udp {
        sendDescriptors := 3;
      }
    }

    /** Errors other than a hang-up by the other side or a temporary one empty the queue. */
    method HandleSocketError(error: SocketError)
      requires QueueValid()
      modifies `spots, `pending
      ensures QueueValid()
      ensures if error == Other then spots == pending == [] else spots == old(spots) && pending == old(pending)
    {
      if error == Other {
        spots := [];
        pending := [];
      }
    }

    method Flushing() returns (flush: bool)
      modifies `flushCounter
      ensures flushCounter == (old(flushCounter) + 1) % 0x1_0000_0000 && flush == (flushCounter % 125 == 0)
    {
      flushCounter := (flushCounter + 1) % 0x1_0000_0000;
      flush := flushCounter % FLUSH_INTERVAL == 0;
    }

    function Limit(): int
      reads this
    {
      if useTcp then MAX_TCP_PAYLOAD else MAX_UDP_PAYLOAD
    }

    /** One report: over a connected socket, when there is something to send, every waiting
        spot goes out, in packets numbered on from those before, and a collector that has
        been on the socket since it was made can still decode everything sent on it. */
    method SendReport(connected: bool, sendResidue: bool, exportTime: nat)
      requires QueueValid() && SentValid() && SessionValid() && exportTime < 0x1_0000_0000
      modifies `flushCounter, `spots, `pending, `sendDescriptors, `sequenceNumber, `sent, `session, `reported
      ensures QueueValid() && SentValid() && SessionValid()
      ensures SpotsIn(sent) == SpotsIn(old(sent)) + |reported| - |old(reported)|
      ensures var live := socket != NoSocket && connected;
              flushCounter == if live then (old(flushCounter) + 1) % 0x1_0000_0000 else old(flushCounter)
      ensures var live := socket != NoSocket && connected;
              var idle := !live || (old(spots) == [] && !sendResidue && flushCounter % 125 != 0 &&
                old(sendDescriptors) == 0);
              var packets := Built(receiver, old(spots), old(sendDescriptors) > 0, old(sequenceNumber), observationId,
                exportTime, Limit());
              if idle then
                spots == old(spots) && pending == old(pending) && sendDescriptors == old(sendDescriptors) &&
                sent == old(sent) && session == old(session) && reported == old(reported)
              else
                spots == pending == [] && reported == old(reported) + old(spots) &&
                sendDescriptors == (if old(sendDescriptors) > 0 then old(sendDescriptors) - 1 else 0) &&
                sent == old(sent) + packets && session == old(session) + packets
    {
      hide Built, Newest, Numbered, Follows, SpotsIn;
      if socket == NoSocket || !connected {
        return;
      }
      var flush := Flushing();
      flush := flush || sendResidue;
      if spots == [] && !flush && sendDescriptors == 0 {
        return;
      }
      SendSpots(exportTime);
    }

    /** Builds and writes the packets for all that waits. */
    method SendSpots(exportTime: nat)
      requires SentValid() && Follows(session, reported, sendDescriptors > 0) && exportTime < 0x1_0000_0000
      modifies `spots, `pending, `sendDescriptors, `sequenceNumber, `sent, `session, `reported
      ensures QueueValid() && SentValid() && Follows(session, reported, sendDescriptors > 0)
      ensures spots == pending == [] && reported == old(reported) + old(spots)
      ensures sendDescriptors == (if old(sendDescriptors) > 0 then old(sendDescriptors) - 1 else 0)
      ensures var packets := Built(receiver, old(spots), old(sendDescriptors) > 0, old(sequenceNumber), observationId,
                exportTime, Limit());
              sent == old(sent) + packets && session == old(session) + packets
      ensures SpotsIn(sent) == SpotsIn(old(sent)) + |old(spots)|
    {
      hide Built, Newest, Numbered, Follows, SpotsIn;
      var batch := DrainQueue();
      var includeDescriptors := sendDescriptors > 0;
      if includeDescriptors {
        sendDescriptors := sendDescriptors - 1;
      }
      var packets := BuildPackets(receiver, batch, includeDescriptors, sequenceNumber, observationId, exportTime,
        Limit());
      SessionGrows(session, reported, receiver, batch, includeDescriptors, sequenceNumber, observationId, exportTime,
        Limit());
      FollowsOn(session + packets, reported + batch, sendDescriptors > 0);
      BuiltNumbered(sent, receiver, batch, includeDescriptors, sequenceNumber, observationId, exportTime, Limit());
      BuiltShort(receiver, batch, includeDescriptors, sequenceNumber, observationId, exportTime, Limit());
      BuiltCounted(receiver, batch, includeDescriptors, sequenceNumber, observationId, exportTime, Limit());
      SpotsInAppend(sent, packets);
      assert earlier + session + packets == earlier + (session + packets);
      reported := reported + batch;
      WritePackets(packets);
    }

    method DrainQueue() returns (batch: seq<Spot>)
      modifies `spots, `pending
      ensures spots == pending == [] && QueueValid() && batch == old(spots)
    {
      batch := [];
      while spots != []
        invariant batch + spots == old(spots)
        modifies `spots
        decreases |spots|
      {
        batch := batch + [spots[0]];
        spots := spots[1..];
      }
      pending := [];
    }

    method WritePackets(packets: seq<Packet>)
      requires sequenceNumber == SpotsIn(sent) % 0x1_0000_0000
      modifies `sent, `session, `sequenceNumber
      ensures sent == old(sent) + packets && session == old(session) + packets
      ensures sequenceNumber == SpotsIn(sent) % 0x1_0000_0000
    {
      hide SpotsIn;
      for i := 0 to |packets|
        invariant sent == old(sent) + packets[..i] && session == old(session) + packets[..i]
        invariant sequenceNumber == SpotsIn(sent) % 0x1_0000_0000
      {
        var packet := packets[i];
        SpotsInSnoc(sent, packet);
        ModStep(SpotsIn(sent), packet.spotCount);
        assert packets[..i + 1] == packets[..i] + [packet];
        sent := sent + [packet];
        session := session + [packet];
        sequenceNumber := (sequenceNumber + packet.spotCount) % 0x1_0000_0000;
      }
      assert packets[..|packets|] == packets;
    }

    // ----- runs -----

    method HandleSpot(ghost past: seq<Event>, spot: Spot, now: int, eclipse: bool)
      requires Valid() && After(past) && Timely(past + [AddSpot(spot, now, eclipse)])
      modifies `spotCache, `spots, `history, `pending
      ensures Valid() && After(past + [AddSpot(spot, now, eclipse)])
    {
      hide CacheValid, QueueValid, SentValid, SessionValid, Accepts, HeardIn, PendingIn, ReportedIn, SentIn, SpotsIn,
           HeardAs, Timely, Connected;
      LastHeardBy(past + [AddSpot(spot, now, eclipse)], |past|);
      assert (past + [AddSpot(spot, now, eclipse)])[..|past|] == past;
      NextEvent(past, AddSpot(spot, now, eclipse));
      var _ := AddRemoteStation(spot, now, eclipse);
    }

    method HandleReport(ghost past: seq<Event>, connected: bool, sendResidue: bool, exportTime: nat)
      requires Valid() && After(past) && exportTime < 0x1_0000_0000
      modifies `flushCounter, `spots, `pending, `sendDescriptors, `sequenceNumber, `sent, `session, `reported
      ensures Valid() && After(past + [Report(connected, sendResidue, exportTime)]) && old(sent) <= sent
    {
      hide Built, Newest, Numbered, Follows, CacheOf, Accepts, HeardIn, PendingIn, ReportedIn, SentIn, SpotsIn,
           Connected;
      NextEvent(past, Report(connected, sendResidue, exportTime));
      NewestNone(pending);
      assert reported + [] == reported;
      SendReport(connected, sendResidue, exportTime);
    }

    /** One more event. */
    method Handle(ghost past: seq<Event>, event: Event)
      requires Valid() && After(past) && Timely(past + [event])
      modifies this
      ensures Valid() && After(past + [event]) && old(sent) <= sent
    {
      hide *;
      match event {
        case AddSpot(spot, now, eclipse) => HandleSpot(past, spot, now, eclipse);
        case Report(connected, sendResidue, exportTime) =>
          LastTimely(past, event);
          HandleReport(past, connected, sendResidue, exportTime);
        case _ => HandleOther(past, event);
      }
    }

    method HandleOther(ghost past: seq<Event>, event: Event)
      requires Valid() && After(past) && !event.AddSpot? && !event.Report?
      modifies `receiver, `socket, `sendDescriptors, `spots, `pending, `earlier, `session, `reported
      ensures Valid() && After(past + [event])
    {
      hide CacheValid, QueueValid, SentValid, SessionValid, Accepts, HeardIn, PendingIn, ReportedIn, SentIn, SpotsIn,
           HeardAs, Connected;
      NextEvent(past, event);
      match event {
        case SetStation(receiver) => SetLocalStation(receiver);
        case NewSocket => Reconnect();
        case DescriptorTimeout => DescriptorTimer();
        case SocketFailed(error) => HandleSocketError(error);
      }
    }

    /** Over any run of events the cache stands for everything heard, the queue holds the
        newest 2048 spots accepted since it was last emptied, as many spots were sent as
        were taken from it, every packet ever sent is numbered by the spots before it and
        has the size its transport allows, and what was sent over the socket decodes to
        exactly the spots reported over it. */
    method HandleAll(events: seq<Event>)
      requires Valid() && After([]) && Timely(events)
      modifies this
      ensures Valid() && After(events) && old(sent) <= sent
      ensures CacheOf(HeardIn(events), spotCache)
      ensures spots == Newest(PendingIn(events), MAX_PENDING_SPOTS)
      ensures Numbered(sent) && SpotsIn(sent) == |SentIn(events)| && sequenceNumber == |SentIn(events)| % 0x1_0000_0000
      ensures forall i :: 0 <= i < |sent| ==> |sent[i].payload| <= if useTcp then 0xffff else 1000 - 40 - 8
      ensures sent == earlier + session && (session == [] ==> ReportedIn(events) == [])
      ensures session != [] ==>
                && Collect(session, map[]).Some? && Counted(session, Collect(session, map[]).value)
                && SpotsRead(Collect(session, map[]).value) == Some(AllOnTheWire(ReportedIn(events)))
    {
      hide Newest, Numbered, CacheOf, Collect, SpotsRead, SpotsIn, AllOnTheWire, HeardIn, PendingIn, ReportedIn, SentIn,
           Counted;
      for i := 0 to |events|
        invariant Valid() && After(events[..i]) && old(sent) <= sent
      {
        assert events[..i + 1] == events[..i] + [events[i]];
        TimelyFront(events, i + 1);
        Handle(events[..i], events[i]);
      }
      assert events[..|events|] == events;
    }
  }

  /** What one more event adds to what is heard, waits and is sent. */
  lemma NextEvent(past: seq<Event>, event: Event)
    ensures var all := past + [event];
            var adds := event.AddSpot? && Accepts(HeardIn(past), HeardAs(event.spot, event.now, event.eclipse));
            var reports := event.Report? && event.connected && Connected(past);
            var batch := Newest(PendingIn(past), MAX_PENDING_SPOTS);
            && HeardIn(all) == (if event.AddSpot? then
                                  HeardIn(past) + [HeardAs(event.spot, event.now, event.eclipse)]
                                else HeardIn(past))
            && PendingIn(all) == (if adds then PendingIn(past) + [event.spot]
                                  else if reports || event == SocketFailed(Other) then []
                                  else PendingIn(past))
            && AcceptedIn(all) == (if adds then AcceptedIn(past) + [event.spot] else AcceptedIn(past))
            && SentIn(all) == (if reports then SentIn(past) + batch else SentIn(past))
            && ReportedIn(all) == (if event == NewSocket then [] else if reports then ReportedIn(past) + batch
                                   else ReportedIn(past))
            && (Connected(all) <==> event == NewSocket || Connected(past))
  {
    hide Accepts, Newest, HeardAs;
    assert (past + [event])[..|past|] == past;
  }

  lemma NewestNone(s: seq<Spot>)
    ensures Newest(s, MAX_PENDING_SPOTS) == [] <==> s == []
  {
  }

  lemma LastTimely(past: seq<Event>, event: Event)
    requires Timely(past + [event]) && event.Report?
    ensures event.exportTime < 0x1_0000_0000
  {
    assert (past + [event])[|past|] == event;
  }

  lemma TimelyFront(events: seq<Event>, i: nat)
    requires i <= |events| && Timely(events)
    ensures Timely(events[..i])
  {
  }

  lemma {:induction false} LastHeardBy(events: seq<Event>, i: nat)
    requires i < |events| && Timely(events) && events[i].AddSpot?
    ensures var before := HeardIn(events[..i]); before != [] ==> before[|before| - 1].now <= events[i].now
  {
    HeardBy(events, i, events[i].now);
  }

  lemma {:induction false} HeardBy(events: seq<Event>, i: nat, now: int)
    requires i <= |events| && forall j :: 0 <= j < i && events[j].AddSpot? ==> events[j].now <= now
    ensures var before := HeardIn(events[..i]); before != [] ==> before[|before| - 1].now <= now
  {
    if i > 0 {
      assert events[..i][..i - 1] == events[..i - 1];
      HeardBy(events, i - 1, now);
    }
  }

  // ----- what RFC 7011 would count -----

  /** Section 3.1 of RFC 7011: a sequence number counts the data records sent before. */
  function RecordsIn(ds: seq<Decoded>): nat {
    if ds == [] then 0 else RecordsIn(ds[..|ds| - 1]) + |ds[|ds| - 1].records|
  }

  lemma {:induction false} RecordsCounted(packets: seq<Packet>, ds: seq<Decoded>)
    requires Counted(packets, ds)
    ensures RecordsIn(ds) == SpotsIn(packets) + |packets|
  {
    if ds != [] {
      RecordsCounted(packets[..|packets| - 1], ds[..|ds| - 1]);
    }
  }

  /** The number in a header is the one that RFC 7011 asks for on its socket exactly when
      the spots sent before the socket was made are as many, modulo 2^32, as the packets
      sent on it: the program counts those spots on, but not the receiver records. On the
      first socket that is when the number of packets before is a multiple of 2^32. */
  lemma SequenceAsRfc(earlier: seq<Packet>, session: seq<Packet>, ds: seq<Decoded>, i: nat)
    requires Numbered(earlier + session) && Counted(session, ds) && i < |session|
    ensures |session[i].payload| >= 16
    ensures HeaderSequence(session[i]) == RecordsIn(ds[..i]) % 0x1_0000_0000
       <==> (SpotsIn(earlier) - i) % 0x1_0000_0000 == 0
    ensures earlier == [] ==>
              (HeaderSequence(session[i]) == RecordsIn(ds[..i]) % 0x1_0000_0000 <==> i % 0x1_0000_0000 == 0)
  {
    hide HeaderSequence, SpotsIn, RecordsIn;
    var all, j := earlier + session, |earlier| + i;
    assert all[j] == session[i] && all[..j] == earlier + session[..i];
    SpotsInAppend(earlier, session[..i]);
    RecordsCounted(session[..i], ds[..i]);
    SameRemainder(SpotsIn(session[..i]), SpotsIn(earlier), i);
    if earlier == [] {
      NoSpots();
    }
  }

  lemma SameRemainder(n: nat, a: nat, b: nat)
    ensures (a + n) % 0x1_0000_0000 == (n + b) % 0x1_0000_0000 <==> (a - b) % 0x1_0000_0000 == 0
    ensures (0 - b) % 0x1_0000_0000 == 0 <==> b % 0x1_0000_0000 == 0
  {
    SameRemainders(a + n, n + b);
    SameRemainders(0, b);
  }

  lemma SameRemainders(x: nat, y: nat)
    ensures x % 0x1_0000_0000 == y % 0x1_0000_0000 <==> (x - y) % 0x1_0000_0000 == 0
  {
    var m := 0x1_0000_0000;
    var q, r := x / m - y / m, x % m - y % m;
    assert x - y == m * q + r && -m < r < m;
    if (x - y) % m == 0 {
      assert r == m * ((x - y) / m - q);
    }
  }

  lemma NoSpots()
    ensures SpotsIn([]) == 0
  {
  }

  // ----- what is lost -----

  /** The queue never held more than it can, and no failing socket found spots waiting. */
  predicate Lossless(events: seq<Event>) {
    events == [] ||
    var front := events[..|events| - 1];
    && Lossless(front) && |PendingIn(events)| <= 2048
    && (events[|events| - 1] == SocketFailed(Other) ==> PendingIn(front) == [])
  }

  /** Exactly then every spot the repeat rule lets through is sent or waits, in order. */
  lemma NothingLost(events: seq<Event>)
    ensures AcceptedIn(events) == SentIn(events) + Newest(PendingIn(events), MAX_PENDING_SPOTS) <==> Lossless(events)
  {
    LossesCounted(events);
  }

  lemma {:induction false} LossesCounted(events: seq<Event>)
    ensures |SentIn(events)| + |Newest(PendingIn(events), MAX_PENDING_SPOTS)| <= |AcceptedIn(events)|
    ensures Lossless(events) ==> AcceptedIn(events) == SentIn(events) + PendingIn(events)
    ensures !Lossless(events) ==>
              |SentIn(events)| + |Newest(PendingIn(events), MAX_PENDING_SPOTS)| < |AcceptedIn(events)|
  {
    hide Accepts, HeardIn, Connected;
    if events != [] {
      LossesCounted(events[..|events| - 1]);
    }
  }

  lemma FollowsOn(session: seq<Packet>, reported: seq<Spot>, due: bool)
    requires session != [] && Follows(session, reported, false)
    ensures Follows(session, reported, due)
  {
  }

  lemma NewestSnoc<T>(s: seq<T>, x: T, kept: seq<T>)
    requires kept == Newest(s, MAX_PENDING_SPOTS)
    ensures var grown := kept + [x];
            Newest(s + [x], MAX_PENDING_SPOTS) == Newest(grown, MAX_PENDING_SPOTS)
    ensures |kept| <= MAX_PENDING_SPOTS && Newest(kept, MAX_PENDING_SPOTS) == kept
  {
  }

  lemma ModStep(a: nat, c: nat)
    ensures (a % 0x1_0000_0000 + c) % 0x1_0000_0000 == (a + c) % 0x1_0000_0000
  {
  }

  lemma SpotsInSnoc(packets: seq<Packet>, p: Packet)
    ensures SpotsIn(packets + [p]) == SpotsIn(packets) + p.spotCount
  {
    assert (packets + [p])[..|packets|] == packets;
  }

  lemma {:induction false} SpotsInAppend(a: seq<Packet>, b: seq<Packet>)
    ensures SpotsIn(a + b) == SpotsIn(a) + SpotsIn(b)
    decreases |b|
  {
    if b == [] {
      assert a + b == a;
    } else {
      assert (a + b)[..|a + b| - 1] == a + b[..|b| - 1];
      SpotsInAppend(a, b[..|b| - 1]);
    }
  }

  lemma {:induction false} PacketsNumbered(before: seq<Packet>, descriptors: bool, r: Receiver, groups: seq<seq<Spot>>,
                                           sequence: nat, domain: nat, time: nat)
    requires Numbered(before) && sequence == SpotsIn(before) % 0x1_0000_0000
    ensures Numbered(before + PacketsOf(descriptors, r, groups, sequence, domain, time))
    decreases |groups|
  {
    hide Message, PacketSets, Numbered;
    if groups == [] {
      assert before + [] == before;
    } else {
      var p := Packet(Message(PacketSets(descriptors, r, groups[0]), sequence, domain, time), |groups[0]|);
      var next := (sequence + |groups[0]|) % 0x1_0000_0000;
      PacketSetsAligned(descriptors, r, groups[0]);
      NumberedSnoc(before, PacketSets(descriptors, r, groups[0]), sequence, domain, time, p);
      SpotsInSnoc(before, p);
      PacketsNumbered(before + [p], false, r, groups[1..], next, domain, time);
      var later := PacketsOf(false, r, groups[1..], next, domain, time);
      assert before + ([p] + later) == before + [p] + later;
    }
  }

  lemma HeaderOf(sets: bytes, sequence: nat, domain: nat, time: nat, p: Packet)
    requires |sets| % 4 == 0 && p.payload == Message(sets, sequence, domain, time) && sequence < 0x1_0000_0000
    ensures |p.payload| >= 16 && HeaderSequence(p) == sequence
  {
    hide Message, Be, FromBe, Pow256;
    MessageLayout(sets, sequence, domain, time);
    BeBack(sequence, 4);
  }

  lemma NumberedSnoc(before: seq<Packet>, sets: bytes, sequence: nat, domain: nat, time: nat, p: Packet)
    requires Numbered(before) && sequence == SpotsIn(before) % 0x1_0000_0000 && |sets| % 4 == 0
    requires p.payload == Message(sets, sequence, domain, time)
    ensures Numbered(before + [p])
  {
    hide Message, HeaderSequence, SpotsIn;
    HeaderOf(sets, sequence, domain, time, p);
    var all := before + [p];
    assert all[..|before|] == before;
    forall i | 0 <= i < |all|
      ensures |all[i].payload| >= 16 && HeaderSequence(all[i]) == SpotsIn(all[..i]) % 0x1_0000_0000
    {
      if i < |before| {
        assert all[..i] == before[..i];
      }
    }
  }

  /** The packets of a report carry on the numbering of all packets before it. */
  lemma BuiltNumbered(before: seq<Packet>, r: Receiver, spots: seq<Spot>, descriptors: bool, sequence: nat, domain: nat,
                      time: nat, limit: int)
    requires Numbered(before) && sequence == SpotsIn(before) % 0x1_0000_0000
    ensures Numbered(before + Built(r, spots, descriptors, sequence, domain, time, limit))
  {
    hide PacketsOf, Groups, Numbered;
    PacketsNumbered(before, descriptors, r, Groups(descriptors, r, spots, limit), sequence, domain, time);
  }

  /** None is larger than the limit. */
  lemma BuiltShort(r: Receiver, spots: seq<Spot>, descriptors: bool, sequence: nat, domain: nat, time: nat, limit: int)
    requires 608 <= limit <= 0xffff
    ensures var ps := Built(r, spots, descriptors, sequence, domain, time, limit);
            forall i :: 0 <= i < |ps| ==> |ps[i].payload| <= limit
  {
    hide Groups, Within, Small;
    var groups := Groups(descriptors, r, spots, limit);
    GroupsSmall(descriptors, r, spots, limit);
    PayloadsOf(descriptors, r, groups, sequence, domain, time, limit);
    var ps := PacketsOf(descriptors, r, groups, sequence, domain, time);
    assert forall i :: 0 <= i < |ps| ==> |ps[i].payload| <= limit;
  }

  /** They carry as many spots as were reported. */
  lemma BuiltCounted(r: Receiver, spots: seq<Spot>, descriptors: bool, sequence: nat, domain: nat, time: nat,
                     limit: int)
    ensures SpotsIn(Built(r, spots, descriptors, sequence, domain, time, limit)) == |spots|
  {
    hide Groups, PacketsOf, SpotsIn;
    var groups := Groups(descriptors, r, spots, limit);
    GroupsJoin(descriptors, r, spots, limit);
    PacketsCounted(descriptors, r, groups, sequence, domain, time);
  }

  lemma {:induction false} PacketsCounted(descriptors: bool, r: Receiver, groups: seq<seq<Spot>>, sequence: nat,
                                          domain: nat, time: nat)
    ensures SpotsIn(PacketsOf(descriptors, r, groups, sequence, domain, time)) == |Join(groups)|
    decreases |groups|
  {
    hide Message, PacketSets;
    if groups != [] {
      var p := Packet(Message(PacketSets(descriptors, r, groups[0]), sequence, domain, time), |groups[0]|);
      var later := PacketsOf(false, r, groups[1..], (sequence + |groups[0]|) % 0x1_0000_0000, domain, time);
      PacketsCounted(false, r, groups[1..], (sequence + |groups[0]|) % 0x1_0000_0000, domain, time);
      SpotsInAppend([p], later);
      SpotsInSnoc([], p);
      assert [] + [p] == [p];
    }
  }

  lemma CollectCons(ps: seq<Packet>, ts: Templates)
    requires ps != []
    ensures Collect(ps, ts) ==
            match DecodeMessage(ps[0].payload, ts)
            case None => None
            case Some(d) =>
              var rest := Collect(ps[1..], d.templates);
              if rest.None? then None else Some([d] + rest.value)
  {
  }

  lemma {:induction false} CollectAppend(a: seq<Packet>, b: seq<Packet>, ts: Templates)
    requires Collect(a, ts).Some? && Collect(b, TemplatesAfter(a, ts)).Some?
    ensures Collect(a + b, ts) == Some(Collect(a, ts).value + Collect(b, TemplatesAfter(a, ts)).value)
    decreases |a|
  {
    hide DecodeMessage;
    if a == [] {
      assert a + b == b;
      assert Collect(b, ts).value == [] + Collect(b, ts).value;
    } else {
      var d := DecodeMessage(a[0].payload, ts).value;
      TemplatesCons(a, ts);
      assert (a + b)[1..] == a[1..] + b;
      CollectCons(a, ts);
      CollectCons(a + b, ts);
      hide Collect;
      CollectAppend(a[1..], b, d.templates);
      var head, tail := Collect(a[1..], d.templates).value, Collect(b, TemplatesAfter(a, ts)).value;
      assert [d] + (head + tail) == [d] + head + tail;
    }
  }

  /** A collector that has followed the session so far, or one that has just joined and is
      sent descriptors, follows it through the next report. */
  lemma SessionGrows(session: seq<Packet>, reported: seq<Spot>, r: Receiver, spots: seq<Spot>, descriptors: bool,
                     sequence: nat, domain: nat, time: nat, limit: int)
    requires 608 <= limit <= 0xffff && sequence < 0x1_0000_0000 && domain < 0x1_0000_0000 && time < 0x1_0000_0000
    requires Follows(session, reported, descriptors)
    ensures var after := session + Built(r, spots, descriptors, sequence, domain, time, limit);
            after != [] && Follows(after, reported + spots, false)
  {
    hide Built, Collect, Knows, SpotsRead, AllOnTheWire, TemplatesAfter, Expected, Counted;
    var ts := TemplatesAfter(session, map[]);
    NothingCollected();
    var packets := Built(r, spots, descriptors, sequence, domain, time, limit);
    Delivered(r, spots, descriptors, sequence, domain, time, limit, ts);
    CollectAppend(session, packets, map[]);
    SpotsReadAppend(Collect(session, map[]).value, Collect(packets, ts).value);
    AllOnTheWireAppend(reported, spots);
    TemplatesAfterBoth(session, packets, map[]);
    DeliveredCounted(r, Groups(descriptors, r, spots, limit), sequence, domain, time, packets,
      Collect(packets, ts).value);
    CountedAppend(session, packets, Collect(session, map[]).value, Collect(packets, ts).value);
  }

  lemma DeliveredCounted(r: Receiver, groups: seq<seq<Spot>>, sequence: nat, domain: nat, time: nat,
                         packets: seq<Packet>, ds: seq<Decoded>)
    requires |groups| == |packets| == |ds|
    requires forall i :: 0 <= i < |ds| ==> packets[i].spotCount == |groups[i]|
    requires forall i :: 0 <= i < |ds| ==> Expected(ds[i], r, groups, i, sequence, domain, time)
    ensures Counted(packets, ds)
  {
  }

  lemma CountedAppend(a: seq<Packet>, b: seq<Packet>, ds: seq<Decoded>, es: seq<Decoded>)
    requires (a != [] ==> Counted(a, ds)) && (a == [] ==> ds == []) && Counted(b, es)
    ensures Counted(a + b, ds + es)
  {
  }

  lemma NothingCollected()
    ensures Collect([], map[]) == Some([]) && SpotsRead([]) == Some(AllOnTheWire([])) && Counted([], [])
  {
  }

  lemma TemplatesAfterBoth(a: seq<Packet>, b: seq<Packet>, ts: Templates)
    requires Collect(a, ts).Some? && Collect(b, TemplatesAfter(a, ts)).Some? && b != []
    ensures TemplatesAfter(a + b, ts) == TemplatesAfter(b, TemplatesAfter(a, ts))
  {
    CollectAppend(a, b, ts);
  }
}
