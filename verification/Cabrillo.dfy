/** all2cab.py: which contacts of a log of received and sent messages are complete enough,
    and far enough apart, to be entered in a contest log. */
module Cabrillo {
  import opened Decimals
  import opened Wrappers

  /** A line of the log: when, whether it was transmitted here, its words, and the frequency
      in whole megahertz and in kilohertz with the audio offset. */
  datatype Line = Line(time: int, tx: bool, words: seq<string>, mhz: nat, freq: int)

  // ----- reading a line -----

  predicate IsGrid(g: string) {
    |g| == 4 && g != "RR73" && 'A' <= g[0] <= 'R' && 'A' <= g[1] <= 'R' && '0' <= g[2] <= '9' && '0' <= g[3] <= '9'
  }

  /** Four characters, letters up to R and digits; a roger with good wishes is not meant. */
  lemma GridsAre(a: char, b: char, c: char, d: char, g: string)
    ensures IsGrid([a, b, c, d]) <==>
              && 'A' <= a <= 'R' && 'A' <= b <= 'R' && '0' <= c <= '9' && '0' <= d <= '9'
              && !(a == b == 'R' && c == '7' && d == '3')
    ensures IsGrid(g) ==> |g| == 4
  {
    assert [a, b, c, d] == "RR73" <==> a == b == 'R' && c == '7' && d == '3';
  }

  predicate IsAlpha(s: string) {
    s != "" && forall i :: 0 <= i < |s| ==> 'A' <= s[i] <= 'Z' || 'a' <= s[i] <= 'z'
  }

  /** The words once every " CQ " is replaced by " CQ_". */
  function Glued(words: seq<string>, first: bool): seq<string> {
    if |words| <= 1 then words
    else if !first && words[0] == "CQ" then ["CQ_" + words[1]] + Glued(words[2..], false)
    else [words[0]] + Glued(words[1..], false)
  }

  /** The message: two calls and what follows; a line too short is skipped, and one that
      ends with a roger and nothing after it makes the program fail. */
  datatype Parsed = Skipped | Broken | Fields(c1: string, c2: string, c3: string, roger: bool) {
    predicate Cq()
      requires Fields?
    {
      c1 == "CQ" || "CQ_" <= c1
    }

    predicate EndsIt()
      requires Fields?
    {
      c3 == "RR73" || c3 == "RRR" || c3 == "73"
    }
  }

  function Parse(words: seq<string>): Parsed {
    if |words| < 10 then Skipped
    else
      var w := if words[7] == "CQ" && IsAlpha(words[8]) then Glued(words, true) else words;
      if |w| < 10 then Skipped
      else if w[9] != "R" then Fields(w[7], w[8], w[9], false)
      else if |w| == 10 then Broken
      else Fields(w[7], w[8], w[10], true)
  }

  /** The word is a "CQ" that is glued to the next one: neither the first word nor the last,
      and not glued itself to the one before. */
  predicate Joins(words: seq<string>, i: int)
    decreases i
  {
    0 < i < |words| - 1 && words[i] == "CQ" && !Joins(words, i - 1)
  }

  function JoinsFrom(words: seq<string>, i: nat): nat
    decreases |words| - i
  {
    if i >= |words| then 0 else (if Joins(words, i) then 1 else 0) + JoinsFrom(words, i + 1)
  }

  lemma {:induction false} GluedShape(words: seq<string>, i: nat)
    requires i < |words| && !Joins(words, i - 1)
    ensures var g := Glued(words[i..], i == 0);
            && |g| == |words| - i - JoinsFrom(words, i) > 0
            && (g[|g| - 1] == "R" <==> words[|words| - 1] == "R" && !(i <= |words| - 2 && Joins(words, |words| - 2)))
    decreases |words| - i
  {
    var rest := words[i..];
    if |rest| == 1 {
      assert JoinsFrom(words, i) == JoinsFrom(words, i + 1) == 0;
    } else if Joins(words, i) {
      assert rest[2..] == words[i + 2..];
      assert JoinsFrom(words, i) == 1 + JoinsFrom(words, i + 1) && JoinsFrom(words, i + 1) == JoinsFrom(words, i + 2);
      if |rest| == 2 {
        assert Glued([], false) == [];
      } else {
        GluedShape(words, i + 2);
      }
    } else {
      assert rest[1..] == words[i + 1..];
      GluedShape(words, i + 1);
    }
  }

  /** A line starts a message to all when its eighth word is CQ and letters follow. */
  predicate CallsAll(words: seq<string>) {
    |words| >= 10 && words[7] == "CQ" && IsAlpha(words[8])
  }

  /** Where the program breaks off: a bare roger is the tenth and last word, counting a CQ
      and the word it is glued to as one when the line calls all. */
  lemma BreaksAt(words: seq<string>)
    ensures Parse(words).Broken? <==>
            && |words| >= 10 && words[|words| - 1] == "R"
            && (if CallsAll(words) then |words| - JoinsFrom(words, 0) == 10 && !Joins(words, |words| - 2)
               else |words| == 10)
  {
    if CallsAll(words) {
      assert words[0..] == words;
      GluedShape(words, 0);
    }
  }

  /** Eleven words that break the program as ten do. */
  lemma BreaksOnEleven(words: seq<string>)
    requires |words| == 11 && words[7..] == ["CQ", "DX", "K1ABC", "R"] && forall i :: 0 <= i < 7 ==> words[i] != "CQ"
    ensures Parse(words).Broken?
  {
    assert words[7] == words[7..][0] && words[8] == words[7..][1] && words[9] == words[7..][2] &&
           words[10] == words[7..][3];
    assert !Joins(words, 6) && Joins(words, 7) && !Joins(words, 8) && !Joins(words, 9) && !Joins(words, 10);
    assert JoinsFrom(words, 11) == 0;
    assert JoinsFrom(words, 10) == 0;
    assert JoinsFrom(words, 9) == 0;
    assert JoinsFrom(words, 8) == 0;
    assert JoinsFrom(words, 7) == 1;
    NoJoins(words, 0, 7);
    BreaksAt(words);
  }

  lemma {:induction false} NoJoins(words: seq<string>, i: nat, j: nat)
    requires i <= j <= |words| && forall k :: i <= k < j ==> words[k] != "CQ"
    ensures JoinsFrom(words, i) == JoinsFrom(words, j)
    decreases j - i
  {
    if i < j {
      NoJoins(words, i + 1, j);
    }
  }

  /** The dictionaries' key: the call and the megahertz, the latter at least three wide. */
  function BandKey(call: string, mhz: nat): string {
    call + RightJustified(Number(mhz), 3, ' ')
  }

  lemma KeyLength(call: string, mhz: nat)
    ensures |BandKey(call, mhz)| >= |call| + 3 && (mhz < 1000 ==> |BandKey(call, mhz)| == |call| + 3)
  {
    assert Pow10(1) == 10 && Pow10(2) == 100;
    if mhz < 1000 {
      NumberLength(mhz, 3);
    }
  }

  /** Below 1000 MHz a key belongs to one call. */
  lemma KeyDetermines(call: string, mhz: nat, other: string, otherMhz: nat)
    requires mhz < 1000 && otherMhz < 1000 && BandKey(call, mhz) == BandKey(other, otherMhz)
    ensures call == other
  {
    KeyLength(call, mhz);
    KeyLength(other, otherMhz);
    assert call == BandKey(call, mhz)[..|call|];
  }

  /** Above that, two stations can share one. */
  lemma KeysCollide()
    ensures BandKey("K1A", 1296) == BandKey("K1A1", 296)
  {
    hide Number;
    Numeral1296();
    Numeral296();
  }

  lemma Numeral1296()
    ensures Number(1296) == "1296"
  {
    hide Decimal, Digits;
    assert Number(1) == "1";
    assert Number(12) == "12";
    assert Number(129) == "129";
  }

  lemma Numeral296()
    ensures Number(296) == "296"
  {
    hide Decimal, Digits;
    assert Number(2) == "2";
    assert Number(29) == "29";
  }

  // ----- what has to happen for a contact -----

  datatype Milestone = HeCalledMe | ICalledHim | GotExchange | GotRoger | SentRoger

  const ALL := {HeCalledMe, ICalledHim, GotExchange, GotRoger, SentRoger}

  /** What a line says about a contact: the milestones it reaches, and the frequency and
      the exchange when it has them. */
  datatype Sighting = Sighting(
    call: string, mhz: nat, time: int, marks: set<Milestone>, freq: Option<int>, exchange: Option<string>)
  {
    function Key(): string {
      BandKey(call, mhz)
    }
  }

  function Lookup<T>(m: map<string, T>, key: string): Option<T> {
    if key in m then Some(m[key]) else None
  }

  /** The grids that stations calling CQ gave so far. */
  function Grids(lines: seq<Line>): map<string, string> {
    if lines == [] then map[]
    else
      var before, f := Grids(lines[..|lines| - 1]), Parse(lines[|lines| - 1].words);
      if f.Fields? && f.Cq() then before[f.c2 := f.c3] else before
  }

  function HeardMarks(f: Parsed, exchange: Option<string>): set<Milestone>
    requires f.Fields?
  {
    {HeCalledMe} + (if f.roger || f.EndsIt() then {GotRoger} else {}) + (if exchange.Some? then {GotExchange} else {})
  }

  function SentMarks(f: Parsed): set<Milestone>
    requires f.Fields?
  {
    {ICalledHim} + (if f.roger || f.EndsIt() then {GotExchange, SentRoger} else {}) +
      (if f.EndsIt() then {GotRoger} else {})
  }

  function Exchange(f: Parsed, grids: map<string, string>): Option<string>
    requires f.Fields?
  {
    var known := Lookup(grids, f.c2);
    if IsGrid(f.c3) then Some(f.c3) else if known.Some? && IsGrid(known.value) then known else None
  }

  // ----- the same told by the words -----

  /** The words as the program splits them in the end. */
  function Spoken(words: seq<string>): seq<string> {
    if |words| >= 10 && words[7] == "CQ" && IsAlpha(words[8]) then Glued(words, true) else words
  }

  lemma {:induction false} GluedFrom(words: seq<string>, i: nat)
    requires i <= 7 < |words| - 1 && forall k :: i <= k < 7 ==> words[k] != "CQ"
    ensures Glued(words[i..], i == 0) == words[i..7] + Glued(words[7..], false)
    decreases 7 - i
  {
    hide Glued;
    if i < 7 {
      GluedNext(words, i);
      GluedFrom(words, i + 1);
      assert [words[i]] + words[i + 1..7] == words[i..7];
    } else {
      assert words[7..7] == [] && [] + Glued(words[7..], false) == Glued(words[7..], false);
    }
  }

  lemma GluedNext(words: seq<string>, i: nat)
    requires i < |words| - 1 && words[i] != "CQ"
    ensures Glued(words[i..], i == 0) == [words[i]] + Glued(words[i + 1..], false)
  {
    assert words[i..][1..] == words[i + 1..];
  }

  /** A directed call to everyone: the direction belongs to the CQ, and then come the station
      and its grid. */
  lemma DirectedCall(words: seq<string>)
    requires |words| >= 11 && words[7] == "CQ" && IsAlpha(words[8]) && words[9] != "CQ" && words[10] != "CQ"
    requires forall k :: 0 <= k < 7 ==> words[k] != "CQ"
    ensures var w := Spoken(words);
            |w| >= 10 && w[7] == "CQ_" + words[8] && w[8] == words[9] && w[9] == words[10]
  {
    assert words[0..] == words;
    GluedFrom(words, 0);
    assert words[7..][2..] == words[9..] && words[9..][1..] == words[10..];
    var tail, rest := Glued(words[9..], false), Glued(words[10..], false);
    assert words[10..][0] == words[10] && words[7..][0] == "CQ" && words[7..][1] == words[8];
    assert rest != [] && rest[0] == words[10];
    assert words[9..][0] == words[9] && tail == [words[9]] + rest;
    assert Glued(words[7..], false) == ["CQ_" + words[8]] + tail;
    assert Spoken(words) == words[0..7] + (["CQ_" + words[8]] + ([words[9]] + rest));
  }

  /** A message that can be taken apart: two calls and a third word, which a bare roger may
      come before. */
  predicate Spelt(w: seq<string>) {
    |w| >= 10 && (w[9] == "R" ==> |w| > 10)
  }

  function Third(w: seq<string>): string
    requires Spelt(w)
  {
    if w[9] == "R" then w[10] else w[9]
  }

  predicate CallsEveryone(w: seq<string>)
    requires Spelt(w)
  {
    w[7] == "CQ" || "CQ_" <= w[7]
  }

  /** I send it, to a station that can be logged. */
  predicate FromMe(mycall: string, tx: bool, w: seq<string>)
    requires Spelt(w)
  {
    tx && if w[7] == mycall then |w[8]| >= 3 else |w[7]| >= 3 && !CallsEveryone(w)
  }

  /** The line reaches a milestone: he calls me; I call him; he sends me his grid, or gave it
      when he called everyone, or I answer it with a roger; his roger comes, or I answer it
      with an ending; I send mine. */
  predicate Reaches(mycall: string, line: Line, grids: map<string, string>, m: Milestone) {
    var w := Spoken(line.words);
    Spelt(w) &&
    var toMe, fromMe := w[7] == mycall, FromMe(mycall, line.tx, w);
    var ends := Third(w) == "RR73" || Third(w) == "RRR" || Third(w) == "73";
    match m
    case HeCalledMe => toMe
    case ICalledHim => fromMe
    case GotExchange =>
      (toMe && (IsGrid(Third(w)) || (w[8] in grids && IsGrid(grids[w[8]])))) || (fromMe && (w[9] == "R" || ends))
    case GotRoger => (toMe && (w[9] == "R" || ends)) || (fromMe && ends)
    case SentRoger => fromMe && (w[9] == "R" || ends)
  }

  /** What a sighting is of, and what it marks. */
  lemma SightingMeans(mycall: string, line: Line, grids: map<string, string>, m: Milestone)
    ensures var w, x := Spoken(line.words), SightingOf(mycall, line, grids);
            && (x.Some? <==> Spelt(w) && (w[7] == mycall || FromMe(mycall, line.tx, w)))
            && (x.Some? ==>
                  && x.value.call == (if w[7] == mycall then w[8] else w[7])
                  && x.value.mhz == line.mhz && x.value.time == line.time
                  && (m in x.value.marks <==> Reaches(mycall, line, grids, m)))
  {
    hide Glued, IsGrid, IsAlpha;
  }

  /** A station gives this grid, or whatever stands in its place, calling everyone. */
  predicate Gives(line: Line, call: string, grid: string) {
    var w := Spoken(line.words);
    Spelt(w) && CallsEveryone(w) && w[8] == call && Third(w) == grid
  }

  /** The grid that is known of a station is the one it gave last. */
  lemma {:induction false} GridGiven(lines: seq<Line>, call: string)
    ensures match Lookup(Grids(lines), call)
            case None => forall i, g :: 0 <= i < |lines| ==> !Gives(lines[i], call, g)
            case Some(grid) =>
              exists i :: && 0 <= i < |lines| && Gives(lines[i], call, grid)
                          && forall j, g :: i < j < |lines| ==> !Gives(lines[j], call, g)
  {
    hide Gives, Parse, Parsed.Cq;
    if lines != [] {
      var front, last := lines[..|lines| - 1], lines[|lines| - 1];
      GridGiven(front, call);
      GivesMeans(last, call);
    }
  }

  lemma GivesMeans(line: Line, call: string)
    ensures var f := Parse(line.words);
            forall g :: Gives(line, call, g) <==> f.Fields? && f.Cq() && f.c2 == call && f.c3 == g
  {
    hide Glued, IsAlpha;
  }

  function SightingOf(mycall: string, line: Line, grids: map<string, string>): Option<Sighting> {
    var f := Parse(line.words);
    if !f.Fields? then None
    else if f.c1 == mycall then
      var exchange := Exchange(f, grids);
      var sent := if line.tx && |f.c2| >= 3 then SentMarks(f) else {};
      Some(Sighting(f.c2, line.mhz, line.time, HeardMarks(f, exchange) + sent, Some(line.freq), exchange))
    else if line.tx && !f.Cq() && |f.c1| >= 3 then
      Some(Sighting(f.c1, line.mhz, line.time, SentMarks(f), None, None))
    else None
  }

  function Sightings(mycall: string, lines: seq<Line>): seq<Sighting> {
    if lines == [] then []
    else
      var s := SightingOf(mycall, lines[|lines| - 1], Grids(lines));
      Sightings(mycall, lines[..|lines| - 1]) + (if s.Some? then [s.value] else [])
  }

  // ----- which sightings complete a contact -----

  /** The milestones reached with a station on a band since it was last logged there. */
  ghost function Since(s: seq<Sighting>, key: string): set<Milestone>
    decreases |s|, 2
  {
    if s == [] then {}
    else
      var front, last := s[..|s| - 1], s[|s| - 1];
      if last.Key() != key then Since(front, key)
      else if Logged(s) then {}
      else Since(front, key) + last.marks
  }

  ghost function LastLogged(s: seq<Sighting>, key: string): Option<int>
    decreases |s|, 2
  {
    if s == [] then None
    else if s[|s| - 1].Key() == key && Logged(s) then Some(s[|s| - 1].time)
    else LastLogged(s[..|s| - 1], key)
  }

  /** The last sighting completes the milestones. */
  ghost predicate Completes(s: seq<Sighting>)
    requires s != []
    decreases |s|, 0
  {
    var last := s[|s| - 1];
    |last.call| >= 3 && Since(s[..|s| - 1], last.Key()) + last.marks == ALL
  }

  /** More than three minutes after the last entry; the program also takes a difference of
      minus one second for there being none. */
  predicate Due(before: Option<int>, time: int) {
    before.None? || time - before.value > 180 || time - before.value == -1
  }

  /** The last sighting is entered in the log. */
  ghost predicate Logged(s: seq<Sighting>)
    requires s != []
    decreases |s|, 1
  {
    var last := s[|s| - 1];
    Completes(s) && Due(LastLogged(s[..|s| - 1], last.Key()), last.time)
  }

  ghost function LastFreq(s: seq<Sighting>, call: string): Option<int> {
    if s == [] then None
    else if s[|s| - 1].call == call && s[|s| - 1].freq.Some? then s[|s| - 1].freq
    else LastFreq(s[..|s| - 1], call)
  }

  ghost function LastExchange(s: seq<Sighting>, call: string): Option<string> {
    if s == [] then None
    else if s[|s| - 1].call == call && s[|s| - 1].exchange.Some? then s[|s| - 1].exchange
    else LastExchange(s[..|s| - 1], call)
  }

  datatype Entry = Entry(freq: int, time: int, call: string, exchange: string)

  /** A frequency is stored exactly when the station called. */
  ghost predicate Proper(s: seq<Sighting>) {
    forall i :: 0 <= i < |s| ==> (HeCalledMe in s[i].marks <==> s[i].freq.Some?)
  }

  /** The program gets through: whenever a contact is complete, the station's frequency is
      there to be looked up. */
  ghost predicate Running(s: seq<Sighting>) {
    s == [] || (Running(s[..|s| - 1]) && (Completes(s) ==> LastFreq(s, s[|s| - 1].call).Some?))
  }

  /** The log: an entry for every sighting that completes a contact and is due. */
  ghost function Logbook(s: seq<Sighting>): seq<Entry>
    requires Running(s)
  {
    if s == [] then [] else Logbook(s[..|s| - 1]) + (if Logged(s) then [NewEntry(s)] else [])
  }

  ghost function NewEntry(s: seq<Sighting>): Entry
    requires s != [] && LastFreq(s, s[|s| - 1].call).Some?
  {
    var last := s[|s| - 1];
    var exchange := LastExchange(s, last.call);
    Entry(LastFreq(s, last.call).value, last.time, last.call, if exchange.Some? then exchange.value else "    ")
  }

  /** An entry tells when and with whom, on the frequency he was last heard calling me on,
      and the exchange he last gave, or blanks when there was none. */
  lemma EntryTells(s: seq<Sighting>)
    requires Running(s) && s != [] && Logged(s)
    ensures var e, call := Logbook(s)[|Logbook(s)| - 1], s[|s| - 1].call;
            && e.call == call && e.time == s[|s| - 1].time
            && (exists i :: 0 <= i < |s| && s[i].call == call && s[i].freq == Some(e.freq)
                            && forall j :: i < j < |s| && s[j].call == call ==> s[j].freq.None?)
            && if forall i :: 0 <= i < |s| && s[i].call == call ==> s[i].exchange.None? then e.exchange == "    "
               else
                 exists i :: 0 <= i < |s| && s[i].call == call && s[i].exchange == Some(e.exchange)
                             && forall j :: i < j < |s| && s[j].call == call ==> s[j].exchange.None?
  {
    hide Completes, Due, LastLogged, Since;
    FreqLast(s, s[|s| - 1].call);
    ExchangeLast(s, s[|s| - 1].call);
  }

  lemma {:induction false} FreqLast(s: seq<Sighting>, call: string)
    ensures LastFreq(s, call).Some? ==>
              exists i :: 0 <= i < |s| && s[i].call == call && s[i].freq == LastFreq(s, call)
                          && forall j :: i < j < |s| && s[j].call == call ==> s[j].freq.None?
  {
    if s != [] {
      FreqLast(s[..|s| - 1], call);
    }
  }

  lemma {:induction false} ExchangeLast(s: seq<Sighting>, call: string)
    ensures match LastExchange(s, call)
            case None => forall i :: 0 <= i < |s| && s[i].call == call ==> s[i].exchange.None?
            case Some(_) =>
              exists i :: 0 <= i < |s| && s[i].call == call && s[i].exchange == LastExchange(s, call)
                          && forall j :: i < j < |s| && s[j].call == call ==> s[j].exchange.None?
  {
    if s != [] {
      ExchangeLast(s[..|s| - 1], call);
    }
  }

  // ----- when the frequency is there -----

  /** Having called on some band, a station that shares its key with no other has a
      frequency. */
  lemma {:induction false} CallerHasFrequency(s: seq<Sighting>, call: string, key: string)
    requires Proper(s) && HeCalledMe in Since(s, key)
    requires forall i :: 0 <= i < |s| && s[i].Key() == key ==> s[i].call == call
    ensures LastFreq(s, call).Some?
  {
    hide Logged, BandKey;
    var front, last := s[..|s| - 1], s[|s| - 1];
    if !(last.call == call && last.freq.Some?) {
      CallerHasFrequency(front, call, key);
    }
  }

  /** All sightings are of these stations on these bands. */
  ghost predicate Over(s: seq<Sighting>, stations: set<(string, nat)>) {
    forall i :: 0 <= i < |s| ==> (s[i].call, s[i].mhz) in stations
  }

  /** No station that can be logged shares a key with another one. */
  ghost predicate NoClash(stations: set<(string, nat)>) {
    forall x, y :: x in stations && y in stations && |y.0| >= 3 && BandKey(x.0, x.1) == BandKey(y.0, y.1) ==> x.0 == y.0
  }

  lemma {:induction false} FrequencyKnown(s: seq<Sighting>, stations: set<(string, nat)>)
    requires Proper(s) && Over(s, stations) && NoClash(stations)
    ensures Running(s)
  {
    hide Since, BandKey, Logged;
    if s != [] {
      var front, last := s[..|s| - 1], s[|s| - 1];
      assert Over(front, stations) && Proper(front);
      FrequencyKnown(front, stations);
      if Completes(s) && last.freq.None? {
        assert HeCalledMe in ALL;
        forall i | 0 <= i < |front| && front[i].Key() == last.Key() ensures front[i].call == last.call {
          assert (front[i].call, front[i].mhz) in stations && (last.call, last.mhz) in stations;
        }
        CallerHasFrequency(front, last.call, last.Key());
      }
    }
  }

  /** A call sign that a line can carry as a word of its own and as the other party's. */
  predicate Ordinary(mycall: string, call: string) {
    call != "" && ' ' !in call && call != mycall && call != "CQ" && !("CQ_" <= call)
  }

  /** He calls me with a report. */
  function HeardLine(mycall: string, call: string, mhz: nat): Line {
    Line(0, false, ["190830_000000", "0.0", "Rx", "FT8", "-5", "0.1", "1500", mycall, call, "-10"], mhz, 1000 * mhz)
  }

  /** I end a contact with him. */
  function SentLine(mycall: string, call: string, mhz: nat): Line {
    Line(15, true, ["190830_000015", "0.0", "Tx", "FT8", "0", "0.0", "1500", call, mycall, "RR73"], mhz, 1000 * mhz)
  }

  /** Two lines of a log after which the lookup fails, for any two stations with one key. */
  lemma ClashFails(mycall: string, x: (string, nat), y: (string, nat))
    requires mycall != "CQ" && Ordinary(mycall, y.0) && |y.0| >= 3
    requires x.0 != y.0 && BandKey(x.0, x.1) == BandKey(y.0, y.1)
    ensures var s := Sightings(mycall, [HeardLine(mycall, x.0, x.1), SentLine(mycall, y.0, y.1)]);
            Over(s, {x, y}) && !Running(s)
  {
    hide BandKey;
    var l1, l2 := HeardLine(mycall, x.0, x.1), SentLine(mycall, y.0, y.1);
    var s1 := Sighting(x.0, x.1, 0, {HeCalledMe}, Some(1000 * x.1), None);
    var s2 := Sighting(y.0, y.1, 15, ALL - {HeCalledMe}, None, None);
    TwoSightings(mycall, l1, l2, s1, s2) by {
      HeardSighting(mycall, x);
      SentSighting(mycall, y, Grids([l1, l2]));
      assert [l1][..0] == [];
    }
    StopsAtSecond(s1, s2);
  }

  lemma StopsAtSecond(s1: Sighting, s2: Sighting)
    requires s1.marks == {HeCalledMe} && s2.marks == ALL - {HeCalledMe} && s2.freq.None? && |s2.call| >= 3
    requires s1.Key() == s2.Key() && s1.call != s2.call
    ensures !Running([s1, s2])
  {
    hide BandKey, Since;
    OneCall(s1);
    assert [s1, s2][..1] == [s1] && [s1][..0] == [];
    assert {HeCalledMe} + (ALL - {HeCalledMe}) == ALL;
    assert Completes([s1, s2]);
    assert LastFreq([s1], s2.call) == LastFreq([], s2.call);
  }

  lemma HeardSighting(mycall: string, x: (string, nat))
    requires mycall != "CQ"
    ensures var l := HeardLine(mycall, x.0, x.1);
            SightingOf(mycall, l, Grids([l])) == Some(Sighting(x.0, x.1, 0, {HeCalledMe}, Some(1000 * x.1), None))
  {
    var l := HeardLine(mycall, x.0, x.1);
    assert [l][..0] == [] && Grids([]) == map[];
    assert Parse(l.words) == Fields(mycall, x.0, "-10", false);
  }

  lemma SentSighting(mycall: string, y: (string, nat), grids: map<string, string>)
    requires Ordinary(mycall, y.0) && |y.0| >= 3
    ensures SightingOf(mycall, SentLine(mycall, y.0, y.1), grids)
         == Some(Sighting(y.0, y.1, 15, ALL - {HeCalledMe}, None, None))
  {
    var l := SentLine(mycall, y.0, y.1);
    var f := Parse(l.words);
    assert f == Fields(y.0, mycall, "RR73", false);
    assert SentMarks(f) == ALL - {HeCalledMe};
  }

  lemma TwoSightings(mycall: string, l1: Line, l2: Line, s1: Sighting, s2: Sighting)
    requires SightingOf(mycall, l1, Grids([l1])) == Some(s1) && SightingOf(mycall, l2, Grids([l1, l2])) == Some(s2)
    ensures Sightings(mycall, [l1, l2]) == [s1, s2]
  {
    hide Grids, SightingOf;
    assert [l1, l2][..1] == [l1] && [l1][..0] == [];
    assert Sightings(mycall, []) == [] && Sightings(mycall, [l1]) == [] + [s1] == [s1];
    assert [s1] + [s2] == [s1, s2];
  }

  /** For stations of ordinary calls: every log about them is gone through without a lookup
      failing exactly when none that can be logged shares its key with another. */
  lemma LookupsSucceed(mycall: string, stations: set<(string, nat)>)
    requires mycall != "CQ" && forall x :: x in stations ==> Ordinary(mycall, x.0)
    ensures (forall lines :: Over(Sightings(mycall, lines), stations) ==> Running(Sightings(mycall, lines)))
       <==> NoClash(stations)
  {
    hide BandKey, Sightings, Running, Ordinary;
    if NoClash(stations) {
      forall lines | Over(Sightings(mycall, lines), stations) ensures Running(Sightings(mycall, lines)) {
        SightingsProper(mycall, lines);
        FrequencyKnown(Sightings(mycall, lines), stations);
      }
    } else {
      var x, y :| x in stations && y in stations && |y.0| >= 3 && BandKey(x.0, x.1) == BandKey(y.0, y.1) && x.0 != y.0;
      ClashFails(mycall, x, y);
      var lines := [HeardLine(mycall, x.0, x.1), SentLine(mycall, y.0, y.1)];
      assert Over(Sightings(mycall, lines), stations);
    }
  }

  /** Below 1000 MHz that is always so. */
  lemma NarrowNoClash(stations: set<(string, nat)>)
    requires forall x :: x in stations ==> x.1 < 1000
    ensures NoClash(stations)
  {
    hide BandKey;
    forall x, y | x in stations && y in stations && BandKey(x.0, x.1) == BandKey(y.0, y.1) ensures x.0 == y.0 {
      KeyDetermines(x.0, x.1, y.0, y.1);
    }
  }

  /** Above, a station that never called is taken for one that did. */
  lemma FrequencyCanBeUnknown()
    ensures !Running(Sightings("K1JT", [HeardLine("K1JT", "K1A", 1296), SentLine("K1JT", "K1A1", 296)]))
  {
    hide BandKey, Sightings, Running, HeardLine, SentLine, Over;
    KeysCollide();
    assert "K1A1"[0] == 'K' && "CQ_"[0] == 'C';
    ClashFails("K1JT", ("K1A", 1296), ("K1A1", 296));
  }

  lemma {:induction false} SightingsProper(mycall: string, lines: seq<Line>)
    ensures Proper(Sightings(mycall, lines))
  {
    hide Grids, Parse, Exchange;
    if lines != [] {
      SightingsProper(mycall, lines[..|lines| - 1]);
    }
  }

  // ----- what the log guarantees -----

  ghost predicate LoggedAt(s: seq<Sighting>, k: nat)
    requires k < |s|
  {
    Logged(s[..k + 1])
  }

  lemma SameInFront(s: seq<Sighting>, k: nat)
    requires k < |s| - 1
    ensures LoggedAt(s[..|s| - 1], k) == LoggedAt(s, k)
  {
    assert s[..|s| - 1][..k + 1] == s[..k + 1];
  }

  /** No entry for the station on that band was made from a sighting in the range. */
  ghost predicate NoEntry(s: seq<Sighting>, key: string, from: nat, to: nat)
    requires to <= |s|
  {
    forall k :: from <= k < to && s[k].Key() == key ==> !LoggedAt(s, k)
  }

  lemma NoEntryInFront(s: seq<Sighting>, key: string, from: nat)
    requires s != [] && NoEntry(s[..|s| - 1], key, from, |s| - 1)
    ensures NoEntry(s, key, from, |s| - 1)
  {
    hide LoggedAt;
    forall k | from <= k < |s| - 1 && s[k].Key() == key ensures !LoggedAt(s, k) {
      SameInFront(s, k);
    }
  }

  /** Each milestone counted was reached by a sighting since the last entry. */
  lemma {:induction false} SinceWitness(s: seq<Sighting>, key: string, m: Milestone) returns (j: nat)
    requires m in Since(s, key)
    ensures j < |s| && m in s[j].marks && s[j].Key() == key && NoEntry(s, key, j, |s|)
  {
    hide Logged, NoEntry, LoggedAt;
    var front, last := s[..|s| - 1], s[|s| - 1];
    if last.Key() == key && m in last.marks {
      j := |s| - 1;
      NoSightings(s, key, j);
    } else {
      j := SinceWitness(front, key, m);
      NoEntryInFront(s, key, j);
    }
    NoEntryToEnd(s, key, j);
  }

  lemma LoggedAtEnd(s: seq<Sighting>)
    requires s != []
    ensures LoggedAt(s, |s| - 1) <==> Logged(s)
  {
    hide Logged;
    assert s[..|s|] == s;
  }

  lemma NoEntryToEnd(s: seq<Sighting>, key: string, from: nat)
    requires s != [] && NoEntry(s, key, from, |s| - 1) && !(s[|s| - 1].Key() == key && Logged(s))
    ensures NoEntry(s, key, from, |s|)
  {
    hide Logged, LoggedAt, Sighting.Key;
    LoggedAtEnd(s);
    forall k | from <= k < |s| && s[k].Key() == key ensures !LoggedAt(s, k) {
    }
  }

  /** Every sighting is of a line. */
  lemma {:induction false} SightingLine(mycall: string, lines: seq<Line>, j: nat) returns (i: nat)
    requires j < |Sightings(mycall, lines)|
    ensures i < |lines|
    ensures SightingOf(mycall, lines[i], Grids(lines[..i + 1])) == Some(Sightings(mycall, lines)[j])
  {
    hide SightingOf, Grids;
    var front := lines[..|lines| - 1];
    if j < |Sightings(mycall, front)| {
      i := SightingLine(mycall, front, j);
      assert front[..i + 1] == lines[..i + 1];
    } else {
      i := |lines| - 1;
      assert lines[..|lines|] == lines;
    }
  }

  /** Line `i` of the log is that of sighting `j`, about the station and band of the last
      one, which was not entered since, and its words reach the milestone. */
  ghost predicate Evidence(mycall: string, lines: seq<Line>, j: nat, i: nat, m: Milestone) {
    var s := Sightings(mycall, lines);
    && j < |s| && i < |lines|
    && SightingOf(mycall, lines[i], Grids(lines[..i + 1])) == Some(s[j])
    && s[j].Key() == s[|s| - 1].Key() && NoEntry(s, s[j].Key(), j, |s| - 1)
    && Reaches(mycall, lines[i], Grids(lines[..i + 1]), m)
  }

  /** Every entry is preceded, since the station's last entry on the band, by a line for each
      of the five milestones. */
  lemma EntryHasAll(mycall: string, lines: seq<Line>, m: Milestone)
    requires Sightings(mycall, lines) != [] && Logged(Sightings(mycall, lines))
    ensures exists j: nat, i: nat :: Evidence(mycall, lines, j, i, m)
  {
    hide NoEntry, Logged, BandKey, Sightings, SightingOf, Grids, Reaches;
    var s := Sightings(mycall, lines);
    var j := EntryMark(s, m);
    var i := SightingLine(mycall, lines, j);
    SightingMeans(mycall, lines[i], Grids(lines[..i + 1]), m);
    assert Evidence(mycall, lines, j, i, m);
  }

  lemma EntryMark(s: seq<Sighting>, m: Milestone) returns (j: nat)
    requires s != [] && Logged(s)
    ensures j < |s| && m in s[j].marks && s[j].Key() == s[|s| - 1].Key()
    ensures NoEntry(s, s[|s| - 1].Key(), j, |s| - 1)
  {
    hide NoEntry, Since, LastLogged, Due, BandKey;
    var front, last := s[..|s| - 1], s[|s| - 1];
    assert m in ALL;
    if m in last.marks {
      j := |s| - 1;
      NoSightings(s, last.Key(), |s| - 1);
    } else {
      j := SinceWitness(front, last.Key(), m);
      NoEntryInFront(s, last.Key(), j);
    }
  }

  lemma NoSightings(s: seq<Sighting>, key: string, from: nat)
    requires from <= |s|
    ensures NoEntry(s, key, from, from)
  {
  }

  ghost predicate InOrder(s: seq<Sighting>) {
    forall i, j :: 0 <= i <= j < |s| ==> s[i].time <= s[j].time
  }

  lemma {:induction false} LastLoggedIsLater(s: seq<Sighting>, i: nat)
    requires InOrder(s) && i < |s| && LoggedAt(s, i)
    ensures LastLogged(s, s[i].Key()).Some? && LastLogged(s, s[i].Key()).value >= s[i].time
  {
    hide Logged;
    assert s[..|s|] == s;
    if i < |s| - 1 {
      SameInFront(s, i);
      LastLoggedIsLater(s[..|s| - 1], i);
    }
  }

  /** Two entries for a station on a band are more than three minutes apart. */
  lemma EntriesApart(s: seq<Sighting>, i: nat, j: nat)
    requires InOrder(s) && i < j < |s| && s[i].Key() == s[j].Key() && LoggedAt(s, i) && LoggedAt(s, j)
    ensures s[j].time - s[i].time > 180
  {
    hide Completes, LastLogged, Since, Sighting.Key;
    var front := s[..j + 1][..j];
    assert front[..i + 1] == s[..i + 1];
    LastLoggedIsLater(front, i);
    LastLoggedBound(front, s[j].Key(), s[j].time);
  }

  // ----- the program -----

  function Bits(marks: set<Milestone>): bv8 {
    (if HeCalledMe in marks then 1 else 0) | (if ICalledHim in marks then 2 else 0) |
    (if GotExchange in marks then 4 else 0)
    | (if GotRoger in marks then 8 else 0) | (if SentRoger in marks then 16 else 0)
  }

  function Or(n: bv8, m: bv8): bv8 {
    n | m
  }

  /** What the program asks of a progress value. */
  predicate Complete(n: bv8) {
    n >= 31
  }

  lemma BitsUnion(a: set<Milestone>, b: set<Milestone>)
    ensures Bits(a + b) == Bits(a) | Bits(b)
  {
  }

  lemma BitsOfAll(marks: set<Milestone>)
    ensures Bits(marks) < 32 && (Bits(marks) == 31 <==> marks == ALL)
  {
    if Bits(marks) == 31 {
      assert HeCalledMe in marks && ICalledHim in marks && GotExchange in marks && GotRoger in marks &&
             SentRoger in marks;
      forall m: Milestone ensures m in marks && m in ALL {
        match m
        case HeCalledMe =>
        case ICalledHim =>
        case GotExchange =>
        case GotRoger =>
        case SentRoger =>
      }
    }
  }

  /** A progress value: the milestones, and 32 once the contact was staged. */
  ghost predicate Shows(n: bv8, marks: set<Milestone>) {
    n < 64 && n & 31 == Bits(marks) && (n & 32 != 0 ==> marks == ALL)
  }

  /** Comparing the value with 31 amounts to asking for all five low bits. */
  lemma ProgressComplete(n: bv8, marks: set<Milestone>)
    requires Shows(n, marks)
    ensures Complete(n) <==> marks == ALL
    ensures Complete(n) <==> n & 31 == 31
  {
    BitsOfAll(marks);
  }

  lemma ProgressMarked(n: bv8, marks: set<Milestone>, more: set<Milestone>)
    requires Shows(n, marks)
    ensures Shows(Or(n, Bits(more)), marks + more)
    ensures marks + more == ALL ==> Shows(Or(Or(n, Bits(more)), 32), marks + more)
  {
    BitsUnion(marks, more);
    BitsOfAll(more);
    BitsOfAll(marks + more);
    assert marks == ALL ==> marks + more == ALL;
  }

  /** What the dictionaries hold, in terms of the sightings so far. */
  ghost predicate ProgressAgrees(progress: map<string, bv8>, s: seq<Sighting>) {
    forall key :: Shows(ProgressOf(progress, key), Since(s, key))
  }

  function ProgressOf(progress: map<string, bv8>, key: string): bv8 {
    if key in progress then progress[key] else 0
  }

  ghost predicate TimesAgree(times: map<string, int>, s: seq<Sighting>) {
    forall key :: Lookup(times, key) == LastLogged(s, key)
  }

  ghost predicate FreqsAgree(freqs: map<string, int>, s: seq<Sighting>) {
    forall call :: Lookup(freqs, call) == LastFreq(s, call)
  }

  ghost predicate ExchangesAgree(exchanges: map<string, string>, s: seq<Sighting>) {
    forall call :: Lookup(exchanges, call) == LastExchange(s, call)
  }

  lemma FreqsKept(freqs: map<string, int>, s: seq<Sighting>, x: Sighting)
    requires FreqsAgree(freqs, s)
    ensures FreqsAgree(if x.freq.Some? then freqs[x.call := x.freq.value] else freqs, s + [x])
  {
    assert (s + [x])[..|s|] == s;
    var after := if x.freq.Some? then freqs[x.call := x.freq.value] else freqs;
    forall call: string ensures Lookup(after, call) == LastFreq(s + [x], call) {
      assert Lookup(freqs, call) == LastFreq(s, call);
    }
  }

  lemma ExchangesKept(exchanges: map<string, string>, s: seq<Sighting>, x: Sighting)
    requires ExchangesAgree(exchanges, s)
    ensures ExchangesAgree(if x.exchange.Some? then exchanges[x.call := x.exchange.value] else exchanges, s + [x])
  {
    assert (s + [x])[..|s|] == s;
    var after := if x.exchange.Some? then exchanges[x.call := x.exchange.value] else exchanges;
    forall call: string ensures Lookup(after, call) == LastExchange(s + [x], call) {
      assert Lookup(exchanges, call) == LastExchange(s, call);
    }
  }

  lemma TimesKept(times: map<string, int>, s: seq<Sighting>, x: Sighting)
    requires TimesAgree(times, s)
    ensures TimesAgree(if Logged(s + [x]) then times[x.Key() := x.time] else times, s + [x])
  {
    hide Logged;
    assert (s + [x])[..|s|] == s;
    var after := if Logged(s + [x]) then times[x.Key() := x.time] else times;
    forall key: string ensures Lookup(after, key) == LastLogged(s + [x], key) {
      assert Lookup(times, key) == LastLogged(s, key);
    }
  }

  lemma ProgressKept(progress: map<string, bv8>, s: seq<Sighting>, x: Sighting, n: bv8)
    requires ProgressAgrees(progress, s)
    requires Shows(n, Since(s, x.Key()) + x.marks)
    ensures ProgressAgrees(if Logged(s + [x]) then progress - {x.Key()} else progress[x.Key() := n], s + [x])
  {
    hide Logged, Shows;
    assert (s + [x])[..|s|] == s;
    NothingShown();
    var after := if Logged(s + [x]) then progress - {x.Key()} else progress[x.Key() := n];
    forall key: string ensures Shows(ProgressOf(after, key), Since(s + [x], key)) {
      assert Shows(ProgressOf(progress, key), Since(s, key));
    }
  }

  lemma NothingShown()
    ensures Shows(0, {})
  {
  }

  lemma GridsAreNotEmpty()
    ensures !IsGrid("")
  {
  }

  /** The bits that a message to me adds to a progress value. */
  method MarkHeard(n0: bv8, f: Parsed, exchange: Option<string>) returns (n: bv8)
    requires f.Fields?
    ensures n == Or(n0, Bits(HeardMarks(f, exchange)))
  {
    n := n0 | 1;
    if f.roger || f.EndsIt() {
      n := n | 8;
    }
    if exchange.Some? {
      n := n | 4;
    }
  }

  /** The bits that a message of mine adds. */
  method MarkSent(n0: bv8, f: Parsed) returns (n: bv8)
    requires f.Fields?
    ensures n == Or(n0, Bits(SentMarks(f)))
  {
    n := n0 | 2;
    if f.roger || f.EndsIt() {
      n := n | 4 | 16;
    }
    if f.EndsIt() {
      n := n | 8;
    }
  }

  class Cabrillo {
    const mycall: string
    var grid: map<string, string>
    var freq: map<string, int>
    var t0: map<string, int>
    var rcvdExch: map<string, string>
    var staged: map<string, Entry>
    var timeLogged: map<string, int>
    var qsoInProgress: map<string, bv8>
    var hiscallBand: string
    var nqso: nat
    var printed: seq<Entry>
    ghost var lines: seq<Line>

    ghost predicate Valid()
      reads this
    {
      var s := Sightings(mycall, lines);
      && Running(s) && grid == Grids(lines)
      && FreqsAgree(freq, s) && ExchangesAgree(rcvdExch, s) && TimesAgree(timeLogged, s) &&
         ProgressAgrees(qsoInProgress, s)
      && printed == Logbook(s) && nqso == |printed|
    }

    constructor (mycall: string)
      ensures Valid() && this.mycall == mycall && lines == [] && printed == []
    {
      this.mycall := mycall;
      grid, freq, t0, rcvdExch, staged, timeLogged := map[], map[], map[], map[], map[], map[];
      qsoInProgress, hiscallBand, nqso, printed, lines := map[], "", 0, [], [];
    }

    /** Lines 63 to 65: a station calling CQ gives its grid. */
    method NoteGrid(f: Parsed)
      requires f.Fields?
      modifies `grid
      ensures grid == if f.Cq() then old(grid)[f.c2 := f.c3] else old(grid)
    {
      if f.Cq() {
        grid := grid[f.c2 := f.c3];
      }
    }

    /** Lines 70 to 89: he called me. */
    method Heard(f: Parsed, line: Line)
      requires f.Fields?
      modifies `freq, `rcvdExch, `qsoInProgress, `hiscallBand
      ensures var exchange, key := Exchange(f, grid), BandKey(f.c2, line.mhz);
              && freq == old(freq)[f.c2 := line.freq]
              && rcvdExch == (if exchange.Some? then old(rcvdExch)[f.c2 := exchange.value] else old(rcvdExch))
              && qsoInProgress == old(qsoInProgress)[key := Or(ProgressOf(old(qsoInProgress), key),
                 Bits(HeardMarks(f, exchange)))]
    {
      hide Bits, Or, HeardMarks, IsGrid, BandKey;
      GridsAreNotEmpty();
      var hiscall := f.c2;
      freq := freq[hiscall := line.freq];
      hiscallBand := BandKey(hiscall, line.mhz);
      var exchange: Option<string> := None;
      if IsGrid(f.c3) {
        exchange := Some(f.c3);
      } else {
        var g := if hiscall in grid then grid[hiscall] else "";
        if IsGrid(g) {
          exchange := Some(g);
        }
      }
      if exchange.Some? {
        rcvdExch := rcvdExch[hiscall := exchange.value];
      }
      var n := MarkHeard(ProgressOf(qsoInProgress, hiscallBand), f, exchange);
      qsoInProgress := qsoInProgress[hiscallBand := n];
    }

    /** Lines 91 to 102: a message of mine to him. */
    method Sent(f: Parsed, hiscall: string, line: Line)
      requires f.Fields?
      modifies `qsoInProgress, `hiscallBand, `t0
      ensures var key := BandKey(hiscall, line.mhz);
              && hiscallBand == key && t0 == old(t0)[hiscall := line.time]
              && qsoInProgress ==
                   if line.tx then old(qsoInProgress)[key := Or(ProgressOf(old(qsoInProgress), key),
                     Bits(SentMarks(f)))]
                   else old(qsoInProgress)
    {
      hide Bits, Or, SentMarks, BandKey;
      hiscallBand := BandKey(hiscall, line.mhz);
      if line.tx {
        var n := MarkSent(ProgressOf(qsoInProgress, hiscallBand), f);
        qsoInProgress := qsoInProgress[hiscallBand := n];
      }
      t0 := t0[hiscall := line.time];
    }

    /** Lines 58 to 102, for a line that is long enough: what it adds to the dictionaries. */
    method TakeIn(f: Parsed, line: Line) returns (hiscall: string)
      requires f.Fields? && f == Parse(line.words) && grid == Grids(lines)
      modifies `grid, `freq, `rcvdExch, `qsoInProgress, `hiscallBand, `t0
      ensures grid == Grids(lines + [line])
      ensures var x := SightingOf(mycall, line, grid);
              && (x.None? ==> |hiscall| < 3)
              && TookIn(x, old(freq), freq, old(rcvdExch), rcvdExch, old(qsoInProgress), qsoInProgress)
              && (x.Some? ==> hiscall == x.value.call)
              && (x.Some? && |hiscall| >= 3 ==>
                    hiscallBand == x.value.Key() && hiscall in t0 && t0[hiscall] == line.time)
    {
      hide Bits, Or, IsGrid, BandKey, Exchange, HeardMarks, SentMarks, Parse, SightingOf, TookIn, Parsed.Cq;
      NextGrids(lines, line);
      var cq := f.Cq();
      NoteGrid(f);
      hiscall := "";
      if line.tx && !cq {
        hiscall := f.c1;
      }
      if f.c1 == mycall {
        hiscall := f.c2;
        Heard(f, line);
      }
      ghost var heard := qsoInProgress;
      if |hiscall| >= 3 {
        Sent(f, hiscall, line);
      }
      Taken(mycall, line, grid, hiscall, old(freq), freq, old(rcvdExch), rcvdExch, old(qsoInProgress), heard,
        qsoInProgress);
    }

    /** Lines 106 to 125: the entry, when the contact is complete and due. Looking up a
        frequency that was never stored ends the program. */
    method LogIfComplete(hiscall: string, line: Line) returns (ok: bool)
      requires hiscallBand == BandKey(hiscall, line.mhz) && hiscall in t0 && t0[hiscall] == line.time
      modifies `qsoInProgress, `staged, `timeLogged, `nqso, `printed
      ensures ok <==> (Complete(ProgressOf(old(qsoInProgress), hiscallBand)) ==> hiscall in freq)
      ensures var key, n := hiscallBand, ProgressOf(old(qsoInProgress), hiscallBand);
              var due := ok && Complete(n) && Due(Lookup(old(timeLogged), key), line.time);
              && qsoInProgress == (if due then old(qsoInProgress) - {key}
                                   else if Complete(n) then old(qsoInProgress)[key := Or(n, 32)]
                                     else old(qsoInProgress))
              && timeLogged == (if due then old(timeLogged)[key := line.time] else old(timeLogged))
              && nqso == old(nqso) + (if due then 1 else 0)
              && printed == if due then old(printed) + [EntryFor(hiscall, line.time)] else old(printed)
    {
      hide BandKey, Or, Complete;
      ok := true;
      if !Complete(ProgressOf(qsoInProgress, hiscallBand)) {
        return;
      }
      ghost var before := qsoInProgress;
      var n := ProgressOf(qsoInProgress, hiscallBand);
      n := Or(n, 32);
      qsoInProgress := qsoInProgress[hiscallBand := n];
      if hiscall !in freq {
        return false;
      }
      var buf := EntryFor(hiscall, t0[hiscall]);
      var timeDiff := -1;
      if hiscallBand in timeLogged {
        timeDiff := t0[hiscall] - timeLogged[hiscallBand];
      }
      if timeDiff == -1 || timeDiff > 180 {
        Enter(buf);
        assert qsoInProgress == before - {hiscallBand};
      }
    }

    /** Lines 121 to 125: prints an entry and forgets the progress that led to it. */
    method Enter(buf: Entry)
      modifies `qsoInProgress, `staged, `timeLogged, `nqso, `printed
      ensures qsoInProgress == old(qsoInProgress) - {hiscallBand} && staged == old(staged)[hiscallBand := buf]
      ensures timeLogged == old(timeLogged)[hiscallBand := buf.time]
      ensures nqso == old(nqso) + 1 && printed == old(printed) + [buf]
    {
      staged := staged[hiscallBand := buf];
      nqso := nqso + 1;
      timeLogged := timeLogged[hiscallBand := buf.time];
      printed := printed + [buf];
      qsoInProgress := qsoInProgress - {hiscallBand};
    }

    /** One line of the log. A line that ends the program prints nothing. */
    method ProcessLine(line: Line) returns (ok: bool)
      requires Valid()
      modifies `grid, `freq, `t0, `rcvdExch, `staged, `timeLogged, `qsoInProgress, `hiscallBand, `nqso, `printed, `lines
      ensures ok <==> !Parse(line.words).Broken? && Running(Sightings(mycall, old(lines) + [line]))
      ensures if ok then Valid() && lines == old(lines) + [line] else lines == old(lines) && printed == old(printed)
    {
      hide Bits, Or, Shows, Complete, BandKey, SightingOf, Parse, Logged, Since, LastLogged, NewEntry, Completes,
        FreqsAgree, ExchangesAgree, TimesAgree, ProgressAgrees, Running, Logbook, Sightings, Grids, LastFreq, Due;
      var f := Parse(line.words);
      ok := !f.Broken?;
      if f.Broken? {
        return;
      }
      ghost var s, x := Sightings(mycall, lines), SightingOf(mycall, line, Grids(lines + [line]));
      NextSightings(mycall, lines, line);
      if f.Skipped? {
        NothingIn(mycall, lines, line);
      } else {
        var hiscall := TakeIn(f, line);
        if x.Some? {
          SightingIs(mycall, lines, line);
          Judge(s, x.value, timeLogged, old(qsoInProgress));
          Known(s, x.value, old(freq), freq, old(rcvdExch), rcvdExch, old(qsoInProgress), qsoInProgress);
          RunningStep(s, x.value);
          KeyLength(x.value.call, x.value.mhz);
        }
        ghost var marked := qsoInProgress;
        if |hiscallBand| >= 5 && |hiscall| >= 3 {
          ok := LogIfComplete(hiscall, line);
          if !ok {
            return;
          }
        }
        if x.Some? {
          ghost var settled := if Logged(s + [x.value]) then marked else qsoInProgress;
          ProgressKept(old(qsoInProgress), s, x.value, ProgressOf(settled, x.value.Key()));
          PutTwice(old(qsoInProgress), x.value.Key(), ProgressOf(marked, x.value.Key()),
            ProgressOf(qsoInProgress, x.value.Key()));
          TimesKept(old(timeLogged), s, x.value);
          LogbookStep(s, x.value);
        }
      }
      lines := lines + [line];
    }

    function EntryFor(hiscall: string, time: int): Entry
      requires hiscall in freq
      reads `freq, `rcvdExch
    {
      Entry(freq[hiscall], time, hiscall, if hiscall in rcvdExch then rcvdExch[hiscall] else "    ")
    }
  }

  lemma NextGrids(lines: seq<Line>, line: Line)
    ensures var f := Parse(line.words);
            Grids(lines + [line]) == if f.Fields? && f.Cq() then Grids(lines)[f.c2 := f.c3] else Grids(lines)
  {
    assert (lines + [line])[..|lines|] == lines;
  }

  lemma BothBits(n: bv8, a: set<Milestone>, b: set<Milestone>)
    ensures Or(Or(n, Bits(a)), Bits(b)) == Or(n, Bits(a + b))
    ensures a + {} == a
  {
    BitsUnion(a, b);
  }

  /** The sighting of a line is what the two parts of the loop body do between them. */
  lemma Taken(mycall: string, line: Line, grids: map<string, string>, hiscall: string,
              freq0: map<string, int>, freq: map<string, int>, exch0: map<string, string>, exch: map<string, string>,
              progress0: map<string, bv8>, heard: map<string, bv8>, progress: map<string, bv8>)
    requires var f := Parse(line.words);
             f.Fields? && hiscall == if f.c1 == mycall then f.c2 else if line.tx && !f.Cq() then f.c1 else ""
    requires var f := Parse(line.words);
             if f.c1 == mycall then
               var exchange, key := Exchange(f, grids), BandKey(f.c2, line.mhz);
               && freq == freq0[f.c2 := line.freq]
               && exch == (if exchange.Some? then exch0[f.c2 := exchange.value] else exch0)
               && heard == progress0[key := Or(ProgressOf(progress0, key), Bits(HeardMarks(f, exchange)))]
             else freq == freq0 && exch == exch0 && heard == progress0
    requires var key := BandKey(hiscall, line.mhz);
             if |hiscall| >= 3 && line.tx then
               progress == heard[key := Or(ProgressOf(heard, key), Bits(SentMarks(Parse(line.words))))]
             else progress == heard
    ensures var x := SightingOf(mycall, line, grids);
            && (x.None? ==> |hiscall| < 3) && (x.Some? ==> hiscall == x.value.call && line.mhz == x.value.mhz)
            && TookIn(x, freq0, freq, exch0, exch, progress0, progress)
  {
    hide Bits, Or, BandKey, Exchange, HeardMarks, SentMarks, Parse, Parsed.Cq;
    var f := Parse(line.words);
    BothBits(ProgressOf(progress0, BandKey(hiscall, line.mhz)), HeardMarks(f, Exchange(f, grids)), SentMarks(f));
  }

  /** What a line with this sighting, or with none, does to the dictionaries. */
  ghost predicate TookIn(x: Option<Sighting>, freq0: map<string, int>, freq: map<string, int>,
                         exch0: map<string, string>, exch: map<string, string>,
                         progress0: map<string, bv8>, progress: map<string, bv8>)
  {
    match x
    case None => freq == freq0 && exch == exch0 && progress == progress0
    case Some(s) =>
      && freq == (if s.freq.Some? then freq0[s.call := s.freq.value] else freq0)
      && exch == (if s.exchange.Some? then exch0[s.call := s.exchange.value] else exch0)
      && progress == progress0[s.Key() := Or(ProgressOf(progress0, s.Key()), Bits(s.marks))]
  }

  lemma NextSightings(mycall: string, lines: seq<Line>, line: Line)
    ensures var x := SightingOf(mycall, line, Grids(lines + [line]));
            Sightings(mycall, lines + [line]) ==
              if x.Some? then Sightings(mycall, lines) + [x.value] else Sightings(mycall, lines)
  {
    assert (lines + [line])[..|lines|] == lines;
  }

  lemma NothingIn(mycall: string, lines: seq<Line>, line: Line)
    requires !Parse(line.words).Fields?
    ensures SightingOf(mycall, line, Grids(lines + [line])) == None && Grids(lines + [line]) == Grids(lines)
  {
    NextGrids(lines, line);
  }

  lemma SightingIs(mycall: string, lines: seq<Line>, line: Line)
    requires SightingOf(mycall, line, Grids(lines + [line])).Some?
    ensures var x := SightingOf(mycall, line, Grids(lines + [line])).value; x.mhz == line.mhz && x.time == line.time
  {
    hide Parse, Exchange;
  }

  /** The progress value and the time of the last entry decide as the history does. */
  lemma Judge(s: seq<Sighting>, x: Sighting, times: map<string, int>, progress: map<string, bv8>)
    requires TimesAgree(times, s) && ProgressAgrees(progress, s)
    ensures var key, n := x.Key(), Or(ProgressOf(progress, x.Key()), Bits(x.marks));
            && Shows(n, Since(s, key) + x.marks)
            && (Complete(n) ==> Shows(Or(n, 32), Since(s, key) + x.marks))
            && (Completes(s + [x]) <==> |x.call| >= 3 && Complete(n))
            && (Logged(s + [x]) <==> |x.call| >= 3 && Complete(n) && Due(Lookup(times, key), x.time))
  {
    hide Bits, Or, Shows, Complete, Since, LastLogged, Due;
    var key, n := x.Key(), Or(ProgressOf(progress, x.Key()), Bits(x.marks));
    assert (s + [x])[..|s|] == s;
    assert Shows(ProgressOf(progress, key), Since(s, key));
    assert Lookup(times, key) == LastLogged(s, key);
    ProgressMarked(ProgressOf(progress, key), Since(s, key), x.marks);
    ProgressComplete(n, Since(s, key) + x.marks);
  }

  lemma Known(s: seq<Sighting>, x: Sighting, freq0: map<string, int>, freq: map<string, int>,
              exch0: map<string, string>, exch: map<string, string>,
              progress0: map<string, bv8>, progress: map<string, bv8>)
    requires FreqsAgree(freq0, s) && ExchangesAgree(exch0, s)
    requires TookIn(Some(x), freq0, freq, exch0, exch, progress0, progress)
    ensures FreqsAgree(freq, s + [x]) && ExchangesAgree(exch, s + [x])
    ensures ProgressOf(progress, x.Key()) == Or(ProgressOf(progress0, x.Key()), Bits(x.marks))
    ensures progress == progress0[x.Key() := ProgressOf(progress, x.Key())]
    ensures x.call in freq <==> LastFreq(s + [x], x.call).Some?
    ensures x.call in freq ==>
              NewEntry(s + [x]) == Entry(freq[x.call], x.time, x.call, if x.call in exch then exch[x.call] else "    ")
  {
    hide Bits, Or, Since, LastLogged, Logged;
    FreqsKept(freq0, s, x);
    ExchangesKept(exch0, s, x);
    assert Lookup(freq, x.call) == LastFreq(s + [x], x.call);
    assert Lookup(exch, x.call) == LastExchange(s + [x], x.call);
  }

  lemma RunningStep(s: seq<Sighting>, x: Sighting)
    ensures Running(s + [x]) <==> Running(s) && (Completes(s + [x]) ==> LastFreq(s + [x], x.call).Some?)
  {
    hide Completes, LastFreq;
    assert (s + [x])[..|s|] == s;
  }

  ghost predicate NoneAfter(s: seq<Sighting>, time: int) {
    forall i :: 0 <= i < |s| ==> s[i].time <= time
  }

  lemma {:induction false} SightingsNotBefore(mycall: string, lines: seq<Line>, time: int)
    requires forall i :: 0 <= i < |lines| ==> lines[i].time <= time
    ensures NoneAfter(Sightings(mycall, lines), time)
  {
    hide Grids, Parse;
    if lines != [] {
      SightingsNotBefore(mycall, lines[..|lines| - 1], time);
    }
  }

  lemma {:induction false} LastLoggedBound(s: seq<Sighting>, key: string, time: int)
    requires NoneAfter(s, time)
    ensures LastLogged(s, key).Some? ==> LastLogged(s, key).value <= time
  {
    hide Logged;
    if s != [] {
      LastLoggedBound(s[..|s| - 1], key, time);
    }
  }

  lemma LogbookStep(s: seq<Sighting>, x: Sighting)
    requires Running(s) && Running(s + [x])
    ensures Logbook(s + [x]) == if Logged(s + [x]) then Logbook(s) + [NewEntry(s + [x])] else Logbook(s)
  {
    assert (s + [x])[..|s|] == s;
  }

  lemma PutTwice(m: map<string, bv8>, key: string, a: bv8, b: bv8)
    ensures m[key := a][key := b] == m[key := b] && m[key := a] - {key} == m - {key}
  {
  }

  /** A log in order of time has its sightings in order: entries are apart as proved above. */
  lemma {:induction false} SightingsInOrder(mycall: string, lines: seq<Line>)
    requires forall i, j :: 0 <= i <= j < |lines| ==> lines[i].time <= lines[j].time
    ensures InOrder(Sightings(mycall, lines))
  {
    hide Grids, Parse;
    if lines != [] {
      var front, last := lines[..|lines| - 1], lines[|lines| - 1];
      SightingsInOrder(mycall, front);
      SightingsNotBefore(mycall, front, last.time);
    }
  }

  lemma OneCall(x: Sighting)
    requires x.marks == {HeCalledMe}
    ensures Since([x], x.Key()) == {HeCalledMe} && LastLogged([x], x.Key()).None?
  {
    hide BandKey;
    assert [x][..0] == [];
    assert ICalledHim in ALL && ICalledHim !in {HeCalledMe};
    assert Since([], x.Key()) == {} && {} + {HeCalledMe} == {HeCalledMe};
    assert !Completes([x]) && LastLogged([], x.Key()).None?;
  }

  /** The whole log, as far as the program gets: the entries are those of the history up to
      there, and it ends early exactly at a line that breaks it or a lookup that fails. */
  method Run(mycall: string, lines: seq<Line>) returns (processed: nat, entries: seq<Entry>)
    ensures processed <= |lines| && forall i :: 0 <= i < processed ==> !Parse(lines[i].words).Broken?
    ensures Running(Sightings(mycall, lines[..processed])) && entries == Logbook(Sightings(mycall, lines[..processed]))
    ensures processed < |lines| ==>
              Parse(lines[processed].words).Broken? || !Running(Sightings(mycall, lines[..processed + 1]))
  {
    hide Parse, Running, Logbook, Sightings;
    var c := new Cabrillo(mycall);
    processed := 0;
    while processed < |lines|
      invariant processed <= |lines| && c.mycall == mycall && fresh(c)
      invariant forall j :: 0 <= j < processed ==> !Parse(lines[j].words).Broken?
      invariant c.Valid() && c.lines == lines[..processed]
    {
      assert lines[..processed + 1] == lines[..processed] + [lines[processed]];
      var ok := c.ProcessLine(lines[processed]);
      if !ok {
        return processed, c.printed;
      }
      processed := processed + 1;
    }
    entries := c.printed;
  }
}
