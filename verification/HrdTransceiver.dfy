/** Control of a two-VFO rig through Ham Radio Deluxe: which buttons and dropdowns the
    transceiver operates, against a rig that answers them. */
module HrdTransceiver {
  import opened Wrappers

  datatype Mode = UNK | CW | CW_R | LSB | USB | FSK | FSK_R | DIG_U | DIG_L | AM | FM | DIG_FM

  /** The source's exceptions. */
  datatype Outcome = Pass | Fail(error: Error) {
    predicate IsFailure() {
      Fail?
    }

    function PropagateFailure(): Outcome {
      this
    }
  }

  datatype Error = NoButton | NoSelection | UnsupportedMode | UnrecognisedMode

  /** Dropdown selections for each mode, in order of preference. */
  datatype ModeEntry = ModeEntry(mode: Mode, selections: seq<nat>)
  type ModeMap = seq<ModeEntry>

  /** What do_start found out about the rig; a negative index stands for a control that is
      not there. */
  datatype Controls = Controls(
    vfoCount: nat, vfoA: int, vfoB: int, vfoToggle: int, rxA: int, rxB: int, txA: int, txB: int,
    splitMode: int, splitOff: int,
    splitDropdown: int, splitOnSelection: seq<nat>, splitOffSelection: seq<nat>,
    receiverDropdown: int, rxASelection: seq<nat>, rxBSelection: seq<nat>,
    modeADropdown: int, modeBDropdown: int, modeAMap: ModeMap, modeBMap: ModeMap)

  /** The rig: which buttons are down, what the dropdowns show, whether the toggle button
      has taken it to VFO B, and the two VFOs. */
  datatype Rig = Rig(
    down: map<int, bool>, shown: map<int, nat>, toggled: bool, freqA: nat, freqB: nat, modeA: nat, modeB: nat)

  predicate Down(r: Rig, button: int) {
    button in r.down && r.down[button]
  }

  /** The other button of an exclusive pair. */
  function Partner(c: Controls, button: int): Option<int> {
    if button == c.rxA then Some(c.rxB)
    else if button == c.rxB then Some(c.rxA)
    else if button == c.txA then Some(c.txB)
    else if button == c.txB then Some(c.txA)
    else if button == c.vfoA then Some(c.vfoB)
    else if button == c.vfoB then Some(c.vfoA)
    else None
  }

  function Press(c: Controls, r: Rig, button: int, on: bool): Rig {
    var down := r.down[button := on];
    var toggled := if button == c.vfoToggle then !r.toggled else r.toggled;
    match Partner(c, button)
    case None => r.(down := down, toggled := toggled)
    case Some(other) => r.(down := if on then down[other := false] else down, toggled := toggled)
  }

  /** Whether the rig is listening on its second VFO. */
  predicate OnB(c: Controls, r: Rig) {
    if c.rxB >= 0 then Down(r, c.rxB)
    else if c.receiverDropdown >= 0 && c.rxBSelection != [] then
      c.receiverDropdown in r.shown && r.shown[c.receiverDropdown] == c.rxBSelection[0]
    else if c.vfoB >= 0 then Down(r, c.vfoB)
    else r.toggled
  }

  /** A mode dropdown sets its own VFO; a single one sets the VFO that is listening. */
  function Choose(c: Controls, r: Rig, dropdown: int, value: nat): Rig {
    if dropdown == c.modeBDropdown then r.(modeB := value)
    else if dropdown == c.modeADropdown then
      if c.modeBDropdown < 0 && OnB(c, r) then r.(modeB := value) else r.(modeA := value)
    else r.(shown := r.shown[dropdown := value])
  }

  /** QString::toUInt: numbers of more than 32 bits read as zero. */
  function ToUInt(f: nat): nat {
    if f < 0x1_0000_0000 then f else 0
  }

  function LookupMode(mode: Mode, m: ModeMap): Option<ModeEntry> {
    if m == [] then None else if m[0].mode == mode then Some(m[0]) else LookupMode(mode, m[1..])
  }

  function LookupSelection(selection: nat, m: ModeMap): Option<Mode> {
    if m == [] then None
    else if selection in m[0].selections then Some(m[0].mode)
    else LookupSelection(selection, m[1..])
  }

  /** The mode of the first entry that lists the selection. */
  lemma {:induction false} SelectionMeans(selection: nat, m: ModeMap)
    ensures match LookupSelection(selection, m)
            case None => forall i :: 0 <= i < |m| ==> selection !in m[i].selections
            case Some(mode) =>
              exists i :: && 0 <= i < |m| && m[i].mode == mode && selection in m[i].selections
                          && forall j :: 0 <= j < i ==> selection !in m[j].selections
  {
    if m != [] && selection !in m[0].selections {
      SelectionMeans(selection, m[1..]);
      assert forall j :: 1 <= j < |m| ==> m[j] == m[1..][j - 1];
      if LookupSelection(selection, m).Some? {
        var i :| && 0 <= i < |m| - 1 && m[1..][i].mode == LookupSelection(selection, m).value
                 && selection in m[1..][i].selections
                 && forall j :: 0 <= j < i ==> selection !in m[1..][j].selections;
        assert m[i + 1].mode == m[1..][i].mode;
        assert forall j :: 1 <= j < i + 1 ==> m[j] == m[1..][j - 1];
      }
    }
  }

  /** A mode is set to the first selection of its first entry. Read back, that stands for the
      mode exactly when no earlier entry lists it too. */
  lemma {:induction false} ModeComesBack(mode: Mode, m: ModeMap, i: nat)
    requires i < |m| && m[i].mode == mode && m[i].selections != [] && forall j :: 0 <= j < i ==> m[j].mode != mode
    ensures Supports(mode, m) && Selection(mode, m) == m[i].selections[0]
    ensures LookupSelection(Selection(mode, m), m) == Some(mode) <==>
            forall j :: 0 <= j < i ==> Selection(mode, m) !in m[j].selections
  {
    if i > 0 {
      assert forall j :: 0 <= j < i - 1 ==> m[1..][j] == m[j + 1];
      assert forall j :: 1 <= j < i ==> m[j] == m[1..][j - 1];
      ModeComesBack(mode, m[1..], i - 1);
    }
  }

  predicate Supports(mode: Mode, m: ModeMap) {
    LookupMode(mode, m).Some? && LookupMode(mode, m).value.selections != []
  }

  function Selection(mode: Mode, m: ModeMap): nat
    requires Supports(mode, m)
  {
    LookupMode(mode, m).value.selections[0]
  }

  /** The receiver is chosen by a pair of exclusive buttons. */
  predicate ReceiverButtons(c: Controls) {
    && c.rxA >= 0 && c.rxB >= 0 && c.receiverDropdown < 0
    && |{c.vfoA, c.vfoB, c.rxA, c.rxB, c.txA, c.txB}| == 6
  }

  /** The receiver is chosen in a dropdown. */
  predicate ReceiverDropdown(c: Controls) {
    && c.rxA < 0 && c.rxB < 0 && c.receiverDropdown >= 0 && c.receiverDropdown !in {c.modeADropdown, c.modeBDropdown}
    && c.rxASelection != [] && c.rxBSelection != [] && c.rxASelection[0] != c.rxBSelection[0]
    && |{c.vfoA, c.vfoB, c.txA, c.txB}| == 4
  }

  /** A rig with two VFOs, exclusive TX A/B buttons, one control of the receiver, and no
      other control of split. */
  predicate DualVfo(c: Controls) {
    && c.vfoCount > 1 && c.vfoA >= 0 && c.vfoB >= 0 && c.txA >= 0 && c.txB >= 0
    && (ReceiverButtons(c) || ReceiverDropdown(c))
    && c.splitMode < 0 && c.splitOff < 0 && c.splitDropdown < 0
    && c.modeADropdown >= 0 && c.modeBDropdown != c.modeADropdown
  }

  /** Of each pair one is chosen. */
  predicate Exclusive(c: Controls, r: Rig) {
    && Down(r, c.txA) != Down(r, c.txB)
    && if c.rxB >= 0 then Down(r, c.rxA) != Down(r, c.rxB)
       else
         && c.receiverDropdown in r.shown && c.rxASelection != [] && c.rxBSelection != []
         && r.shown[c.receiverDropdown] in {c.rxASelection[0], c.rxBSelection[0]}
  }

  /** A rig that is addressed one VFO at a time, with exclusive buttons to select it or one
      that goes to and fro. */
  predicate SingleVfo(c: Controls) {
    && c.vfoCount <= 1
    && (if c.vfoB >= 0 then c.vfoA >= 0 && c.vfoA != c.vfoB else c.vfoA < 0 && c.vfoToggle >= 0)
    && c.rxA < 0 && c.rxB < 0 && c.txA < 0 && c.txB < 0 && c.receiverDropdown < 0
    && c.splitMode !in {c.vfoA, c.vfoB, c.vfoToggle} && c.splitOff !in {c.vfoA, c.vfoB, c.vfoToggle}
    && c.modeADropdown >= 0 && c.modeBDropdown != c.modeADropdown &&
       c.splitDropdown !in {c.modeADropdown, c.modeBDropdown}
  }

  predicate OnA(c: Controls, r: Rig) {
    if c.vfoB >= 0 then Down(r, c.vfoA) && !Down(r, c.vfoB) else !r.toggled
  }

  /** Split is set by a button and read from the same one. */
  predicate SplitButton(c: Controls) {
    && c.splitMode >= 0 && c.splitOff < 0 && (c.txA < 0 || c.txB < 0)
    && c.splitMode !in {c.vfoA, c.vfoB, c.rxA, c.rxB, c.txA, c.txB}
  }

  /** Split is set by a dropdown and read from the same one. */
  predicate SplitDropdown(c: Controls) {
    && c.splitMode < 0 && c.splitOff < 0 && c.splitDropdown >= 0 &&
       c.splitDropdown !in {c.modeADropdown, c.modeBDropdown}
    && c.splitOnSelection != [] && c.splitOffSelection != [] && c.splitOnSelection[0] != c.splitOffSelection[0]
  }

  /** The rig shows split, or not, on the control it has for it. */
  predicate ShowsSplit(c: Controls, r: Rig, on: bool) {
    && (SplitButton(c) ==> Down(r, c.splitMode) == on)
    && (SplitDropdown(c) ==>
          c.splitDropdown in r.shown &&
          r.shown[c.splitDropdown] == if on then c.splitOnSelection[0] else c.splitOffSelection[0])
  }

  /** The rig as the other way round: VFO A's part and VFO B's part by role. */
  function RxFreq(c: Controls, r: Rig): nat {
    if OnB(c, r) then r.freqB else r.freqA
  }

  function OtherFreq(c: Controls, r: Rig): nat {
    if OnB(c, r) then r.freqA else r.freqB
  }

  function RxMode(c: Controls, r: Rig): nat {
    if OnB(c, r) then r.modeB else r.modeA
  }

  function OtherMode(c: Controls, r: Rig): nat {
    if OnB(c, r) then r.modeA else r.modeB
  }

  /** Transmitting on the VFO that is not listening. */
  predicate Splitting(c: Controls, r: Rig) {
    OnB(c, r) == Down(r, c.txA)
  }

  class HrdTransceiver {
    const controls: Controls
    var rig: Rig
    var reversed: bool
    var splitWriteOnly: bool
    // the state reported to the application
    var split: bool
    var rxFrequency: nat
    var otherFrequency: nat
    var mode: Mode
    var ptt: bool

    constructor (controls: Controls, rig: Rig)
      ensures this.controls == controls && this.rig == rig && !reversed && !split
    {
      this.controls, this.rig := controls, rig;
      reversed, splitWriteOnly, split, rxFrequency, otherFrequency, mode, ptt := false, false, false, 0, 0, UNK, false;
    }

    // ----- commands -----

    method SetButton(button: int, on: bool) returns (o: Outcome)
      modifies `rig
      ensures o == if button < 0 then Fail(NoButton) else Pass
      ensures rig == if button < 0 then old(rig) else Press(controls, old(rig), button, on)
    {
      if button < 0 {
        return Fail(NoButton);
      }
      rig := Press(controls, rig, button, on);
      o := Pass;
    }

    method SetDropdown(dropdown: int, value: int) returns (o: Outcome)
      modifies `rig
      ensures o == if value < 0 then Fail(NoSelection) else Pass
      ensures rig == if value < 0 then old(rig) else Choose(controls, old(rig), dropdown, value)
    {
      if value < 0 {
        return Fail(NoSelection);
      }
      rig := Choose(controls, rig, dropdown, value);
      o := Pass;
    }

    /** Sets a mode dropdown to the preferred selection for a mode. */
    method SetMode(dropdown: int, m: Mode, modes: ModeMap) returns (o: Outcome)
      modifies `rig
      ensures o == if Supports(m, modes) then Pass else Fail(UnsupportedMode)
      ensures rig == if Supports(m, modes) then Choose(controls, old(rig), dropdown, Selection(m, modes)) else old(rig)
    {
      var entry := LookupMode(m, modes);
      if entry.None? || entry.value.selections == [] {
        return Fail(UnsupportedMode);
      }
      o := SetDropdown(dropdown, entry.value.selections[0]);
    }

    function GetDropdown(dropdown: int): int
      reads this
    {
      if dropdown < 0 then -1
      else if dropdown == controls.modeBDropdown then rig.modeB
      else if dropdown == controls.modeADropdown then
        if controls.modeBDropdown < 0 && OnB(controls, rig) then rig.modeB else rig.modeA
      else if dropdown in rig.shown then rig.shown[dropdown] else -1
    }

    function IsButtonChecked(button: int): bool
      reads this
    {
      button >= 0 && Down(rig, button)
    }

    /** Which VFO is heard, by whichever control the rig has for it. */
    method CheckReceiver() returns (rxB: bool)
      ensures DualVfo(controls) && Exclusive(controls, rig) ==> rxB == OnB(controls, rig)
      ensures SingleVfo(controls) && OnA(controls, rig) ==> !rxB
    {
      var c := controls;
      var rxA := true;
      rxB := false;
      if c.receiverDropdown >= 0 && c.rxASelection != [] {
        var selection := GetDropdown(c.receiverDropdown);
        rxA := selection == c.rxASelection[0];
        if !rxA && c.rxBSelection != [] {
          rxB := selection == c.rxBSelection[0];
        }
      } else if c.vfoB >= 0 || c.rxB >= 0 {
        rxA := IsButtonChecked(if c.rxA >= 0 then c.rxA else c.vfoA);
        if !rxA {
          rxB := IsButtonChecked(if c.rxB >= 0 then c.rxB else c.vfoB);
        }
      }
    }

    // ----- setting the transmit frequency -----

    /** Sets the mode of the VFO that is not heard. On a dual-VFO rig nothing else changes,
        unless the mode is not supported and the rig has to be switched over to set it: then
        it is left listening on the other VFO. */
    method SetOtherMode(m: Mode) returns (o: Outcome)
      modifies `rig
      ensures DualVfo(controls) && Exclusive(controls, old(rig)) && reversed == OnB(controls, old(rig)) ==>
                SetsOtherMode(controls, old(rig), rig, m, o)
      ensures SingleVfo(controls) && !reversed ==> SetsOtherSingly(controls, old(rig), rig, m, o)
    {
      hide LookupMode, LookupSelection, Supports, Selection;
      var c := controls;
      if !reversed && c.modeBDropdown >= 0 {
        :- SetMode(c.modeBDropdown, m, c.modeBMap);
      } else if reversed && c.modeBDropdown >= 0 {
        :- SetMode(c.modeADropdown, m, c.modeAMap);
      } else {
        :- VisitOther(m);
      }
      o := Pass;
    }

    /** With one mode dropdown: over to the other VFO, its mode set, and back. */
    method VisitOther(m: Mode) returns (o: Outcome)
      modifies `rig
      ensures DualVfo(controls) && Exclusive(controls, old(rig)) && reversed == OnB(controls, old(rig))
              && controls.modeBDropdown < 0 ==>
                SetsOtherMode(controls, old(rig), rig, m, o)
      ensures SingleVfo(controls) ==> o.Pass? && rig == old(rig)
    {
      hide LookupMode, LookupSelection, Supports, Selection, Press, Choose, SameButtons, Exclusive, OnB, OtherMode,
           RxMode;
      var c := controls;
      ghost var value := if Supports(m, c.modeAMap) then Selection(m, c.modeAMap) else 0;
      if DualVfo(c) && Exclusive(c, rig) && c.modeBDropdown < 0 {
        SwitchingOver(c, rig, reversed, value);
      }
      if c.rxB >= 0 {
        :- SetButton(if reversed then c.rxA else c.rxB, true);
        :- SetMode(c.modeADropdown, m, c.modeAMap);
        :- SetButton(if reversed then c.rxB else c.rxA, true);
      } else if c.receiverDropdown >= 0 && c.rxASelection != [] && c.rxBSelection != [] {
        :- SetDropdown(c.receiverDropdown, if reversed then c.rxASelection[0] else c.rxBSelection[0]);
        :- SetMode(c.modeADropdown, m, c.modeAMap);
        :- SetDropdown(c.receiverDropdown, if reversed then c.rxBSelection[0] else c.rxASelection[0]);
      } else if c.vfoCount > 1 && ((c.vfoA >= 0 && c.vfoB >= 0) || c.vfoToggle >= 0) {
        :- SetButton(if c.vfoA >= 0 then (if reversed then c.vfoA else c.vfoB) else c.vfoToggle, true);
        :- SetMode(c.modeADropdown, m, c.modeAMap);
        :- SetButton(if c.vfoA >= 0 then (if reversed then c.vfoB else c.vfoA) else c.vfoToggle, true);
      }
      o := Pass;
    }

    method SetTxFrequency(tx: nat, m: Mode) returns (o: Outcome)
      modifies `rig
      ensures DualVfo(controls) ==>
                o.Pass? && rig == OtherTuned(old(rig), reversed, tx)
      ensures SingleVfo(controls) && !reversed && OnA(controls, old(rig)) ==>
                TunesOtherSingly(controls, old(rig), rig, tx, m, o)
    {
      var c := controls;
      if reversed {
        rig := rig.(freqA := tx, freqB := ToUInt(rig.freqB));
      } else if c.vfoCount > 1 {
        rig := rig.(freqA := ToUInt(rig.freqA), freqB := tx);
      } else if (c.vfoB >= 0 && c.vfoA >= 0) || c.vfoToggle >= 0 {
        :- SetButton(if c.vfoB >= 0 then c.vfoB else c.vfoToggle, true);
        rig := SetFrequency(controls, rig, tx);
        if m != UNK && c.modeBDropdown < 0 {
          :- SetMode(c.modeADropdown, m, c.modeAMap);
        }
        :- SetButton(if c.vfoA >= 0 then c.vfoA else c.vfoToggle, true);
      }
      o := Pass;
    }

    /** Selects the VFO to receive on; used before choosing the one to transmit on. */
    method SelectReceiver() returns (o: Outcome)
      modifies `rig
      ensures DualVfo(controls) ==> o.Pass? && rig == ReceiverOn(controls, old(rig), reversed)
    {
      var c := controls;
      if c.rxA >= 0 && c.rxB >= 0 {
        :- SetButton(if reversed then c.rxB else c.rxA, true);
      } else if c.receiverDropdown >= 0 && c.rxASelection != [] && c.rxBSelection != [] {
        :- SetDropdown(c.receiverDropdown, if reversed then c.rxBSelection[0] else c.rxASelection[0]);
      } else {
        :- SetButton(if reversed then c.vfoB else c.vfoA, true);
      }
      o := Pass;
    }

    /** Makes the rig transmit on the other VFO, or on the one that is heard. */
    method SetSplit(on: bool) returns (o: Outcome)
      modifies `rig
      ensures DualVfo(controls) && Exclusive(controls, old(rig)) && reversed == OnB(controls, old(rig)) ==>
                o.Pass? && SplitSet(controls, old(rig), rig, on)
      ensures o.Pass? ==> ShowsSplit(controls, rig, on)
      ensures SingleVfo(controls) ==>
                o.Pass? && SameVfos(old(rig), rig) && (OnA(controls, old(rig)) ==> OnA(controls, rig))
    {
      var c := controls;
      if c.splitMode >= 0 {
        if c.splitOff >= 0 && !on {
          :- SetButton(c.splitOff, true);
        } else {
          :- SetButton(c.splitMode, on);
        }
      } else if c.splitDropdown >= 0 && c.splitOffSelection != [] && c.splitOnSelection != [] {
        :- SetDropdown(c.splitDropdown, if on then c.splitOnSelection[0] else c.splitOffSelection[0]);
      } else if c.vfoA >= 0 && c.vfoB >= 0 && c.txA >= 0 && c.txB >= 0 {
        :- MoveTransmitter(on);
      }
      o := Pass;
    }

    /** With TX A/B buttons: to the VFO that is not heard, or to the one that is. */
    method MoveTransmitter(on: bool) returns (o: Outcome)
      modifies `rig
      ensures DualVfo(controls) && Exclusive(controls, old(rig)) && reversed == OnB(controls, old(rig)) ==>
                o.Pass? && SplitSet(controls, old(rig), rig, on)
    {
      hide OnB, Press, Choose, SplitSet;
      var c := controls;
      if DualVfo(c) && Exclusive(c, rig) {
        AlreadySplit(c, rig, on);
      }
      if on {
        if reversed != IsButtonChecked(c.txA) {
          if DualVfo(c) && Exclusive(c, rig) {
            TransmitterMoved(c, rig, on);
          }
          :- SelectReceiver();
          :- SetButton(if reversed then c.txA else c.txB, true);
        }
      } else {
        if reversed != IsButtonChecked(c.txB) {
          if DualVfo(c) && Exclusive(c, rig) {
            TransmitterMoved(c, rig, on);
          }
          :- SelectReceiver();
          :- SetButton(if reversed then c.txB else c.txA, true);
        }
      }
      o := Pass;
    }

    /** Sets up split operation with this transmit frequency, or simplex when it is zero.
        It fails only for a mode that is not supported. */
    method DoTxFrequency(tx: nat, m: Mode) returns (o: Outcome)
      modifies `rig, `reversed, `split, `otherFrequency
      ensures DualVfo(controls) && Exclusive(controls, old(rig)) ==>
                TxSet(controls, old(rig), rig, tx, m, o) && reversed == OnB(controls, old(rig)) &&
                (o.Pass? ==> split == (tx != 0) && otherFrequency == tx)
      ensures SingleVfo(controls) && OnA(controls, old(rig)) ==> TxSetSingly(controls, old(rig), rig, tx, m, o)
      ensures o.Pass? ==> split == (tx != 0) && otherFrequency == tx && ShowsSplit(controls, rig, split)
    {
      hide DualVfo, SingleVfo, Exclusive, OnA, OnB, Splitting, ShowsSplit, Supports, Selection, LookupMode, TxSet,
           TxSetSingly, Prepared, SplitSet;
      ghost var c, before := controls, rig;
      reversed := CheckReceiver();
      var on := tx != 0;
      o := Pass;
      if on {
        o := PrepareSplit(tx, m);
        if DualVfo(c) && Exclusive(c, before) {
          PreparedOrNot(c, before, rig, tx, m, o);
        }
        if o.Fail? {
          return;
        }
      }
      ghost var prepared := rig;
      otherFrequency := tx;
      :- SetSplit(on);
      split := on;
      if DualVfo(c) && Exclusive(c, before) {
        SplitPrepared(c, before, prepared, rig, tx, m);
      }
      if SingleVfo(c) && OnA(c, before) {
        SplitSingly(c, before, prepared, rig, tx, m);
      }
    }

    /** Mode and frequency of the VFO to transmit on. */
    method PrepareSplit(tx: nat, m: Mode) returns (o: Outcome)
      modifies `rig
      ensures DualVfo(controls) && Exclusive(controls, old(rig)) && reversed == OnB(controls, old(rig)) ==>
                Prepared(controls, old(rig), rig, tx, m, o)
      ensures SingleVfo(controls) && !reversed && OnA(controls, old(rig)) && tx != 0 ==>
                TxSetSingly(controls, old(rig), rig, tx, m, o)
    {
      hide DualVfo, SingleVfo, Exclusive, OnB, Supports, Selection, Prepared, TxSetSingly, SetsOtherMode;
      ghost var c, before := controls, rig;
      o := Pass;
      if m != UNK {
        o := SetOtherMode(m);
      }
      ghost var p, moded := o, rig;
      if o.Pass? {
        o := SetTxFrequency(tx, m);
      }
      if DualVfo(c) && Exclusive(c, before) && reversed == OnB(c, before) {
        PreparedBy(c, before, moded, rig, tx, m, p, o);
      }
      if SingleVfo(c) && !reversed && OnA(c, before) && tx != 0 {
        PreparedSingly(c, before, moded, rig, tx, m, p, o);
      }
    }

    // ----- setting the mode and the receive frequency -----

    /** Sets the mode of the VFO that is heard and, when split, of the other one too; which
        is which goes by what the last poll saw. Failing half way leaves only the first of
        them set. */
    method DoMode(m: Mode) returns (o: Outcome)
      modifies `rig, `mode
      ensures DualVfo(controls) && Exclusive(controls, old(rig)) ==>
                ModeSetBy(controls, old(rig), rig, reversed, m, split, o)
      ensures DualVfo(controls) && Exclusive(controls, old(rig)) && reversed == OnB(controls, old(rig)) ==>
                ModeSet(controls, old(rig), rig, m, split, o)
      ensures SingleVfo(controls) && !reversed && OnA(controls, old(rig)) ==>
                ModeSetSingly(controls, old(rig), rig, m, split, o)
      ensures mode == if o.Pass? then m else old(mode)
    {
      hide *;
      ghost var c, before := controls, rig;
      o := SetOwnMode(m);
      ghost var own, between := o, rig;
      if o.Pass? && m != UNK && split {
        o := SetOtherModeToo(m);
      }
      if o.Pass? {
        mode := m;
      }
      if DualVfo(c) && Exclusive(c, before) {
        BothSet(c, before, between, rig, reversed, m, split, own, o);
        if reversed == OnB(c, before) {
          SetByRightFlag(c, before, rig, m, split, o);
        }
      }
      if SingleVfo(c) && !reversed && OnA(c, before) {
        BothSetSingly(c, before, between, rig, m, split, own, o);
      }
    }

    /** The part of do_mode that sets the mode of the VFO that is taken to be heard. */
    method SetOwnMode(m: Mode) returns (o: Outcome)
      modifies `rig
      ensures OwnSet(controls, old(rig), rig, reversed, m, o)
    {
      hide LookupMode, LookupSelection, Supports, Selection;
      var c := controls;
      if reversed && c.modeBDropdown >= 0 {
        o := SetMode(c.modeBDropdown, m, c.modeBMap);
      } else {
        o := SetMode(c.modeADropdown, m, c.modeAMap);
      }
    }

    /** The part of do_mode that brings the mode of the other VFO into line. */
    method SetOtherModeToo(m: Mode) returns (o: Outcome)
      modifies `rig
      ensures DualVfo(controls) && Exclusive(controls, old(rig))
              && (controls.modeBDropdown < 0 ==> Supports(m, controls.modeAMap)) ==>
                OtherSet(controls, old(rig), rig, reversed, m, o)
      ensures SingleVfo(controls) && !reversed ==>
                if controls.modeBDropdown >= 0 && !Supports(m, controls.modeBMap) then o.Fail? && rig == old(rig)
                else
                  && o.Pass?
                  && rig == if controls.modeBDropdown < 0 then old(rig)
                     else old(rig).(modeB := Selection(m, controls.modeBMap))
    {
      hide LookupMode, LookupSelection, Supports, Selection, Exclusive, OnB;
      var c := controls;
      if c.modeBDropdown >= 0 {
        if reversed {
          o := SetMode(c.modeADropdown, m, c.modeAMap);
        } else {
          o := SetMode(c.modeBDropdown, m, c.modeBMap);
        }
        return;
      }
      :- SwitchOverAndSet(m);
      if DualVfo(c) && Exclusive(c, rig) {
        TransmitOnOther(c, rig, reversed);
      }
      var tx := if reversed then c.txA else c.txB;
      if tx >= 0 {
        :- SetButton(tx, true);
      }
      o := Pass;
    }

    /** With one mode dropdown: over to the VFO that is taken for the other one, set its
        mode, and back to the one taken to be heard. */
    method SwitchOverAndSet(m: Mode) returns (o: Outcome)
      modifies `rig
      ensures DualVfo(controls) && Exclusive(controls, old(rig))
              && controls.modeBDropdown < 0 && Supports(m, controls.modeAMap) ==>
                o.Pass? && SwitchedOver(controls, old(rig), rig, reversed, Selection(m, controls.modeAMap))
      ensures SingleVfo(controls) ==> o.Pass? && rig == old(rig)
    {
      hide LookupMode, LookupSelection, Supports, Selection, Press, Choose, Exclusive, SwitchedOver, OnB;
      var c := controls;
      if DualVfo(c) && Exclusive(c, rig) && c.modeBDropdown < 0 && Supports(m, c.modeAMap) {
        SwitchingOver(c, rig, reversed, Selection(m, c.modeAMap));
      }
      if c.rxB >= 0 {
        :- SetButton(if reversed then c.rxA else c.rxB, true);
        :- SetMode(c.modeADropdown, m, c.modeAMap);
        :- SetButton(if reversed then c.rxB else c.rxA, true);
      } else if c.receiverDropdown >= 0 && c.rxASelection != [] && c.rxBSelection != [] {
        :- SetDropdown(c.receiverDropdown, if reversed then c.rxASelection[0] else c.rxBSelection[0]);
        :- SetMode(c.modeADropdown, m, c.modeAMap);
        :- SetDropdown(c.receiverDropdown, if reversed then c.rxBSelection[0] else c.rxASelection[0]);
      } else if c.vfoCount > 1 && ((c.vfoA >= 0 && c.vfoB >= 0) || c.vfoToggle >= 0) {
        var away := if reversed then c.vfoA else c.vfoB;
        var back := if reversed then c.vfoB else c.vfoA;
        :- SetButton(if away >= 0 then away else c.vfoToggle, true);
        :- SetMode(c.modeADropdown, m, c.modeAMap);
        :- SetButton(if back >= 0 then back else c.vfoToggle, true);
      }
      o := Pass;
    }

    /** Sets the mode and tunes the receiver. Which VFO that is depends on what the last poll
        saw: when it saw the VFOs reversed and they no longer are, the VFO that is not heard
        is tuned instead; the other way round is harmless. */
    method DoFrequency(f: nat, m: Mode) returns (o: Outcome)
      modifies `rig, `mode, `rxFrequency
      ensures DualVfo(controls) && Exclusive(controls, old(rig)) ==>
                TunedBy(controls, old(rig), rig, reversed, f, m, split, o)
      ensures DualVfo(controls) && Exclusive(controls, old(rig)) && reversed == OnB(controls, old(rig)) && o.Pass? ==>
                && RxFreq(controls, rig) == f && Exclusive(controls, rig) && OnB(controls, rig) == reversed
                && OtherFreq(controls, rig) == (if reversed then ToUInt(OtherFreq(controls, old(rig)))
                   else OtherFreq(controls, old(rig)))
                && (Splitting(controls, old(rig)) == split ==> Splitting(controls, rig) == split)
                && (m != UNK ==> Supports(m, OwnModeMap(controls, reversed)))
                && (m != UNK ==> RxMode(controls, rig) == Selection(m, OwnModeMap(controls, reversed)))
      ensures SingleVfo(controls) && !reversed && OnA(controls, old(rig)) ==>
                && (m == UNK ==> o.Pass?)
                && (o.Pass? ==> OnA(controls, rig) && rig.freqA == f && rig.freqB == old(rig).freqB)
                && (o.Pass? && m != UNK ==>
                    ModeSetSingly(controls, old(rig), rig.(freqA := old(rig).freqA), m, split, Pass))
      ensures rxFrequency == if o.Pass? then f else old(rxFrequency)
    {
      hide LookupMode, Supports, Selection, DualVfo, SingleVfo, Exclusive, OnA, OnB, ModeSetBy, ModeSet, ModeSetSingly,
           Tuned, ToUInt, RxFreq, OtherFreq, Splitting;
      ghost var c, before := controls, rig;
      if m != UNK {
        :- DoMode(m);
      }
      ghost var moded := rig;
      Tune(f);
      if DualVfo(c) && Exclusive(c, before) {
        TuningGives(c, before, moded, reversed, f, m, split);
        if reversed == OnB(c, before) {
          TuningByRightFlag(c, before, moded, f, m, split);
        }
      }
      if SingleVfo(c) && !reversed && OnA(c, before) {
        TuningSingly(c, before, moded, f, m, split);
      }
      rxFrequency := f;
      o := Pass;
    }

    /** The part of do_frequency that sends the frequency. */
    method Tune(f: nat)
      modifies `rig
      ensures rig == Tuned(controls, old(rig), reversed, f)
    {
      if controls.vfoCount > 1 && reversed {
        rig := rig.(freqA := ToUInt(rig.freqA), freqB := f);
      } else {
        rig := SetFrequency(controls, rig, f);
      }
    }

    // ----- polling -----

    /** Reads the rig's state back. */
    method DoPoll() returns (o: Outcome)
      modifies `splitWriteOnly, `split, `reversed, `rxFrequency, `otherFrequency, `mode
      ensures DualVfo(controls) && Exclusive(controls, rig) ==>
                && split == Splitting(controls, rig) && reversed == OnB(controls, rig)
                && rxFrequency == ToUInt(RxFreq(controls, rig)) && otherFrequency == ToUInt(OtherFreq(controls, rig))
      ensures DualVfo(controls) && Exclusive(controls, rig) &&
              rig.freqA < 0x1_0000_0000 && rig.freqB < 0x1_0000_0000 ==>
                InStep()
      ensures SingleVfo(controls) ==> reversed == old(reversed)
      ensures DualVfo(controls) || (SingleVfo(controls) && !ptt) ==>
                var found := LookupSelection(PolledMode(controls, rig), controls.modeAMap);
                if found.Some? then o.Pass? && mode == found.value else o.Fail? && mode == old(mode)
      ensures SplitButton(controls) || (SplitDropdown(controls) && !old(splitWriteOnly)) ==>
                (ShowsSplit(controls, rig, true) ==> split) && (ShowsSplit(controls, rig, false) ==> !split)
      ensures controls.splitOff >= 0 || (SplitDropdown(controls) && old(splitWriteOnly)) ==> split == old(split)
      ensures SingleVfo(controls) && !ptt ==> rxFrequency == ToUInt(RxFreq(controls, rig))
    {
      hide Exclusive, OnB, ShowsSplit, SplitButton, SplitDropdown, LookupSelection, PolledMode, Splitting;
      PollSplit();
      PollFrequencies();
      o := PollMode();
    }

    /** The part of do_poll that finds out about split and which VFO is heard. */
    method PollSplit()
      modifies `splitWriteOnly, `split, `reversed
      ensures DualVfo(controls) && Exclusive(controls, rig) ==>
                split == Splitting(controls, rig) && reversed == OnB(controls, rig)
      ensures SingleVfo(controls) ==> reversed == old(reversed)
      ensures SplitButton(controls) || (SplitDropdown(controls) && !old(splitWriteOnly)) ==>
                (ShowsSplit(controls, rig, true) ==> split) && (ShowsSplit(controls, rig, false) ==> !split)
      ensures controls.splitOff >= 0 || (SplitDropdown(controls) && old(splitWriteOnly)) ==> split == old(split)
    {
      hide OnB;
      var c := controls;
      if c.splitOff >= 0 {
        // split cannot be read
      } else if c.splitMode >= 0 && !(c.txA >= 0 && c.txB >= 0) {
        split := IsButtonChecked(c.splitMode);
      } else if c.splitDropdown >= 0 {
        if !splitWriteOnly {
          var selection := GetDropdown(c.splitDropdown);
          if selection >= 0 && c.splitOffSelection != [] {
            split := c.splitOnSelection != [] && selection == c.splitOnSelection[0];
          } else {
            splitWriteOnly := true;
          }
        }
      } else if c.vfoA >= 0 && c.vfoB >= 0 && c.txA >= 0 && c.txB >= 0 {
        var txA := IsButtonChecked(c.txA);
        var rxB := CheckReceiver();
        split := rxB == txA;
        reversed := rxB;
      }
    }

    /** The part of do_poll that reads the frequencies. */
    method PollFrequencies()
      modifies `rxFrequency, `otherFrequency
      ensures if controls.vfoCount > 1 then
                && rxFrequency == ToUInt(if reversed then rig.freqB else rig.freqA)
                && otherFrequency == ToUInt(if reversed then rig.freqA else rig.freqB)
              else
                && rxFrequency == (if ptt then old(rxFrequency) else ToUInt(RxFreq(controls, rig)))
                && otherFrequency == old(otherFrequency)
    {
      var c := controls;
      if c.vfoCount > 1 {
        rxFrequency := ToUInt(if reversed then rig.freqB else rig.freqA);
        otherFrequency := ToUInt(if reversed then rig.freqA else rig.freqB);
      } else if !ptt {
        rxFrequency := ToUInt(if OnB(c, rig) then rig.freqB else rig.freqA);
      }
    }

    /** The part of do_poll that reads the mode. */
    method PollMode() returns (o: Outcome)
      modifies `mode
      ensures controls.vfoCount <= 1 && ptt ==> o.Pass? && mode == old(mode)
      ensures (controls.vfoCount > 1 || !ptt) && controls.modeADropdown < 0 ==> o.Pass? && mode == UNK
      ensures (controls.vfoCount > 1 || !ptt) && controls.modeADropdown >= 0
              && controls.modeBDropdown != controls.modeADropdown ==>
                var found := LookupSelection(PolledMode(controls, rig), controls.modeAMap);
                if found.Some? then o.Pass? && mode == found.value else o.Fail? && mode == old(mode)
    {
      hide LookupSelection, OnB;
      var c := controls;
      if c.vfoCount > 1 || !ptt {
        var selection := GetDropdown(c.modeADropdown);
        if selection < 0 {
          mode := UNK;
        } else {
          var found := LookupSelection(selection, c.modeAMap);
          if found.None? {
            return Fail(UnrecognisedMode);
          }
          mode := found.value;
        }
      }
      o := Pass;
    }

    /** What a poll reports after the transmit frequency was set, whichever VFO is heard:
        split exactly when there was one, and then that one as the other frequency, with
        the receiver where it was. Frequencies of more than 32 bits are the exception. */
    method SetThenPoll(tx: nat, m: Mode) returns (o: Outcome)
      requires DualVfo(controls) && Exclusive(controls, rig)
      requires tx == 0 || m == UNK || Supports(m, OtherModeMap(controls, OnB(controls, rig)))
      modifies `rig, `reversed, `split, `otherFrequency, `splitWriteOnly, `rxFrequency, `mode
      ensures OnB(controls, rig) == OnB(controls, old(rig)) == reversed && Exclusive(controls, rig)
      ensures split == (tx != 0)
      ensures tx != 0 ==> otherFrequency == ToUInt(tx)
      ensures rxFrequency == ToUInt(RxFreq(controls, old(rig)))
      ensures RxFreq(controls, rig) == RxFreq(controls, old(rig)) <==>
              tx == 0 || RxFreq(controls, old(rig)) < 0x1_0000_0000
      ensures tx == 0 ==> SameVfos(old(rig), rig)
    {
      hide DualVfo, SetsOtherMode;
      o := DoTxFrequency(tx, m);
      o := DoPoll();
    }

    /** What a poll reports after a mode was set and passed, on a rig that is listening where
        the last poll saw it, and on VFO A if that has a mode dropdown of its own: that mode,
        as long as no earlier entry of the mode map lists its selection. */
    method ModeThenPoll(m: Mode, ghost i: nat) returns (o: Outcome)
      requires DualVfo(controls) && Exclusive(controls, rig) && reversed == OnB(controls, rig)
      requires controls.modeBDropdown < 0 || !reversed
      requires i < |controls.modeAMap| && controls.modeAMap[i].mode == m && controls.modeAMap[i].selections != []
      requires forall j :: 0 <= j < i ==>
                 && controls.modeAMap[j].mode != m
                 && controls.modeAMap[i].selections[0] !in controls.modeAMap[j].selections
      modifies `rig, `mode, `splitWriteOnly, `split, `reversed, `rxFrequency, `otherFrequency
      ensures o.Pass? ==> mode == m && RxMode(controls, rig) == controls.modeAMap[i].selections[0]
    {
      hide LookupMode, LookupSelection, Supports, Selection, DualVfo, Exclusive, OnB;
      ModeComesBack(m, controls.modeAMap, i);
      :- DoMode(m);
      PolledIsHeard(controls, rig);
      o := DoPoll();
    }

    /** The same for rigs that have a control of their own for split, whatever else they
        have: a button, a dropdown, or a pair of buttons that cannot be read back. */
    method SplitThenPoll(tx: nat, m: Mode) returns (o: Outcome)
      requires SplitButton(controls) || SplitDropdown(controls) || controls.splitOff >= 0
      modifies `rig, `reversed, `split, `otherFrequency, `splitWriteOnly, `rxFrequency, `mode
      ensures o.Pass? ==> split == (tx != 0)
    {
      hide DualVfo, SingleVfo, SplitButton, SplitDropdown;
      o := DoTxFrequency(tx, m);
      if o.Pass? {
        var polled := DoPoll();
      }
    }

    // ----- runs -----

    /** What was reported to the application is what the rig does. */
    ghost predicate InStep()
      reads this
    {
      && DualVfo(controls) && Exclusive(controls, rig) && rig.freqA < 0x1_0000_0000 && rig.freqB < 0x1_0000_0000
      && reversed == OnB(controls, rig) && split == Splitting(controls, rig) && rxFrequency == RxFreq(controls, rig)
      && (split ==> otherFrequency == OtherFreq(controls, rig))
    }

    /** The frequency of the other VFO is part of it only when it is the one transmitted on. */
    ghost predicate Shows(d: Dial)
      reads this
    {
      rxFrequency == d.rx && split == d.split && (split ==> otherFrequency == d.other)
    }

    method Perform(command: Command) returns (o: Outcome)
      requires InStep() && command.Narrow()
      modifies `rig, `reversed, `split, `otherFrequency, `splitWriteOnly, `rxFrequency, `mode
      ensures o.Pass? ==> InStep() && OnB(controls, rig) == OnB(controls, old(rig))
      ensures o.Pass? ==> Shows(Turn(Dial(old(rxFrequency), old(otherFrequency), old(split)), command))
    {
      hide DualVfo, Splitting, Press, Choose, LookupSelection, PolledMode, LookupMode, Supports, Selection;
      match command
      case Tune(f, m) => o := DoFrequency(f, m);
      case UseMode(m) => o := DoMode(m);
      case TransmitOn(tx, m) => o := DoTxFrequency(tx, m);
      case Poll => o := DoPoll();
    }

    /** Over any run of commands and polls that none of them fails, the application is
        shown the frequencies and the split it asked for, they are what the rig does, and
        the receiver stays where it was. */
    method PerformAll(commands: seq<Command>) returns (o: Outcome)
      requires InStep() && forall i :: 0 <= i < |commands| ==> commands[i].Narrow()
      modifies `rig, `reversed, `split, `otherFrequency, `splitWriteOnly, `rxFrequency, `mode
      ensures o.Pass? ==> InStep() && OnB(controls, rig) == OnB(controls, old(rig))
      ensures o.Pass? ==> Shows(TurnAll(Dial(old(rxFrequency), old(otherFrequency), old(split)), commands))
    {
      hide DualVfo, Splitting;
      ghost var dial := Dial(rxFrequency, otherFrequency, split);
      for i := 0 to |commands|
        invariant InStep() && OnB(controls, rig) == OnB(controls, old(rig))
        invariant Shows(TurnAll(dial, commands[..i]))
      {
        assert commands[..i + 1][..i] == commands[..i];
        TurnAgrees(Dial(rxFrequency, otherFrequency, split), TurnAll(dial, commands[..i]), commands[i]);
        :- Perform(commands[i]);
      }
      assert commands[..|commands|] == commands;
      o := Pass;
    }
  }

  datatype Command = Tune(f: nat, m: Mode) | UseMode(m: Mode) | TransmitOn(tx: nat, m: Mode) | Poll {
    predicate Narrow() {
      (Tune? ==> f < 0x1_0000_0000) && (TransmitOn? ==> tx < 0x1_0000_0000)
    }
  }

  /** What the application asked for: a receive frequency and, when split, another one to
      transmit on. */
  datatype Dial = Dial(rx: nat, other: nat, split: bool)

  function Turn(d: Dial, command: Command): Dial {
    match command
    case Tune(f, _) => d.(rx := f)
    case TransmitOn(tx, _) => d.(other := tx, split := tx != 0)
    case _ => d
  }

  function TurnAll(d: Dial, commands: seq<Command>): Dial {
    if commands == [] then d else Turn(TurnAll(d, commands[..|commands| - 1]), commands[|commands| - 1])
  }

  ghost predicate Agree(d: Dial, e: Dial) {
    d.rx == e.rx && d.split == e.split && (d.split ==> d.other == e.other)
  }

  lemma TurnAgrees(d: Dial, e: Dial, command: Command)
    ensures Agree(d, e) ==> Agree(Turn(d, command), Turn(e, command))
  {
  }

  // ----- dropdowns -----

  /** QStringList::lastIndexOf: searches down from an index, a negative one counting from
      the end; -1 when there is no match. */
  function LastIndexOf(matches: seq<bool>, from: int): (r: int)
    ensures -1 <= r < |matches|
  {
    var start := if from < 0 then from + |matches| else if from >= |matches| then |matches| - 1 else from;
    LastMatch(matches, start)
  }

  function LastMatch(matches: seq<bool>, i: int): (r: int)
    requires i < |matches|
    ensures if r == -1 then forall j :: 0 <= j <= i ==> !matches[j]
            else 0 <= r <= i && matches[r] && forall j :: r < j <= i ==> !matches[j]
  {
    if i < 0 then -1 else if matches[i] then i else LastMatch(matches, i - 1)
  }

  /** The dropdown entries a pattern matches, last entry first: all of them, and none when
      nothing matches, although the comment in the source promises at least a -1. */
  method FindDropdownSelection(matches: seq<bool>) returns (indices: seq<nat>)
    ensures forall i :: i in indices <==> 0 <= i < |matches| && matches[i]
    ensures forall i, j :: 0 <= i < j < |indices| ==> indices[i] > indices[j]
  {
    indices := [];
    var index := LastIndexOf(matches, -1);
    while index != -1
      invariant -1 <= index < |matches| && (index != -1 ==> matches[index])
      invariant forall i :: i in indices ==> index < i < |matches| && matches[i]
      invariant forall i :: 0 <= i < |indices| ==> indices[i] in indices
      invariant forall i :: index < i < |matches| && matches[i] ==> i in indices
      invariant forall i, j :: 0 <= i < j < |indices| ==> indices[i] > indices[j]
      decreases index
    {
      indices := indices + [index];
      if index == 0 {
        break;
      }
      index := LastIndexOf(matches, index - 1);
    }
  }

  function ModeOf(r: Rig, b: bool): nat {
    if b then r.modeB else r.modeA
  }

  function WithMode(r: Rig, b: bool, value: nat): Rig {
    if b then r.(modeB := value) else r.(modeA := value)
  }

  /** The mode of the VFO that is not flagged is set, and the flagged one is listened to. */
  ghost predicate SwitchedOver(c: Controls, before: Rig, after: Rig, flag: bool, value: nat) {
    && OnB(c, after) == flag && Exclusive(c, after)
    && Down(after, c.txA) == Down(before, c.txA) && Down(after, c.txB) == Down(before, c.txB)
    && after.freqA == before.freqA && after.freqB == before.freqB
    && ModeOf(after, !flag) == value && ModeOf(after, flag) == ModeOf(before, flag)
    && (flag == OnB(c, before) ==>
          SameButtons(c, before, after) && OtherMode(c, after) == value && RxMode(c, after) == RxMode(c, before))
  }

  /** Over to the VFO that is not flagged, its mode set, and to the flagged one. */
  lemma SwitchingOver(c: Controls, r: Rig, flag: bool, value: nat)
    requires DualVfo(c) && c.modeBDropdown < 0 && Exclusive(c, r)
    ensures c.rxB >= 0 ==>
              var r1 := Press(c, r, if flag then c.rxA else c.rxB, true);
              var r2 := Choose(c, r1, c.modeADropdown, value);
              && OnB(c, r1) == !flag && SameVfos(r, r1)
              && SwitchedOver(c, r, Press(c, r2, if flag then c.rxB else c.rxA, true), flag, value)
    ensures c.rxB < 0 ==>
              var a, b := c.rxASelection[0], c.rxBSelection[0];
              var r1 := Choose(c, r, c.receiverDropdown, if flag then a else b);
              var r2 := Choose(c, r1, c.modeADropdown, value);
              && OnB(c, r1) == !flag && SameVfos(r, r1)
              && SwitchedOver(c, r, Choose(c, r2, c.receiverDropdown, if flag then b else a), flag, value)
  {
  }

  predicate SameVfos(before: Rig, after: Rig) {
    && after.freqA == before.freqA && after.freqB == before.freqB && after.modeA == before.modeA &&
       after.modeB == before.modeB
  }

  /** "set frequency-hz": the VFO that is heard. */
  function SetFrequency(c: Controls, r: Rig, f: nat): Rig {
    if OnB(c, r) then r.(freqB := f) else r.(freqA := f)
  }

  /** The mode a poll looks at: always what dropdown A shows, so a rig with a second mode
      dropdown reports the mode of VFO A even while VFO B is heard. */
  function PolledMode(c: Controls, r: Rig): nat {
    if c.modeBDropdown < 0 then RxMode(c, r) else r.modeA
  }

  /** On a rig with two VFOs that is the mode of the VFO heard exactly when there is one
      dropdown, or VFO A is heard, or both show the same. */
  lemma PolledIsHeard(c: Controls, r: Rig)
    requires DualVfo(c)
    ensures PolledMode(c, r) == RxMode(c, r) <==> c.modeBDropdown < 0 || !OnB(c, r) || r.modeA == r.modeB
  {
  }

  /** "set frequency-hz", or for the VFO that is flagged as heard "set frequencies-hz". */
  function Tuned(c: Controls, r: Rig, flag: bool, f: nat): Rig {
    if c.vfoCount > 1 && flag then r.(freqA := ToUInt(r.freqA), freqB := f) else SetFrequency(c, r, f)
  }

  /** What do_frequency makes of the rig: its mode set, if there was one to set, and then a
      VFO tuned. The one that is heard by then is at the frequency exactly when the flag
      did not wrongly say VFO B, or VFO A was there. */
  ghost predicate TunedBy(c: Controls, before: Rig, after: Rig, flag: bool, f: nat, m: Mode, split: bool, o: Outcome) {
    var moded := after.(freqA := before.freqA, freqB := before.freqB);
    if o.Fail? then m != UNK && ModeSetBy(c, before, after, flag, m, split, o)
    else
      && (if m == UNK then moded == before else ModeSetBy(c, before, moded, flag, m, split, o))
      && after == Tuned(c, moded, flag, f)
      && (RxFreq(c, after) == f <==> (flag ==> OnB(c, after)) || ToUInt(before.freqA) == f)
  }

  lemma TuningGives(c: Controls, before: Rig, moded: Rig, flag: bool, f: nat, m: Mode, split: bool)
    requires DualVfo(c) && Exclusive(c, before)
    requires if m == UNK then moded == before else ModeSetBy(c, before, moded, flag, m, split, Pass)
    ensures TunedBy(c, before, Tuned(c, moded, flag, f), flag, f, m, split, Pass)
  {
    hide Supports, Selection;
  }

  lemma TuningByRightFlag(c: Controls, before: Rig, moded: Rig, f: nat, m: Mode, split: bool)
    requires DualVfo(c) && Exclusive(c, before)
    requires if m == UNK then moded == before else ModeSet(c, before, moded, m, split, Pass)
    ensures var heard := OnB(c, before);
            var after := Tuned(c, moded, heard, f);
            && RxFreq(c, after) == f && Exclusive(c, after) && OnB(c, after) == heard
            && OtherFreq(c, after) == (if heard then ToUInt(OtherFreq(c, before)) else OtherFreq(c, before))
            && (Splitting(c, before) == split ==> Splitting(c, after) == split)
            && (m != UNK ==> Supports(m, OwnModeMap(c, heard)))
            && (m != UNK ==> RxMode(c, after) == Selection(m, OwnModeMap(c, heard)))
  {
    hide LookupMode, Supports, Selection;
  }

  lemma TuningSingly(c: Controls, before: Rig, moded: Rig, f: nat, m: Mode, split: bool)
    requires SingleVfo(c) && OnA(c, before)
    requires if m == UNK then moded == before else ModeSetSingly(c, before, moded, m, split, Pass)
    ensures var after := Tuned(c, moded, false, f);
            && OnA(c, after) && after.freqA == f && after.freqB == before.freqB
            && (m != UNK ==> ModeSetSingly(c, before, after.(freqA := before.freqA), m, split, Pass))
  {
    hide LookupMode, Supports, Selection;
  }

  /** What do_tx_frequency makes of the rig. */
  ghost predicate TxSet(c: Controls, before: Rig, after: Rig, tx: nat, m: Mode, o: Outcome) {
    var modes := OtherModeMap(c, OnB(c, before));
    && (o.Pass? <==> tx == 0 || m == UNK || Supports(m, modes))
    && (o.Pass? ==>
          && Exclusive(c, after) && OnB(c, after) == OnB(c, before) && Splitting(c, after) == (tx != 0)
          && RxMode(c, after) == RxMode(c, before)
          && (tx == 0 ==> SameVfos(before, after))
          && (tx != 0 ==>
                OtherFreq(c, after) == tx && RxFreq(c, after) == ToUInt(RxFreq(c, before)) &&
                OtherMode(c, after) == if m == UNK then OtherMode(c, before) else Selection(m, modes)))
    && (o.Fail? ==> SetsOtherMode(c, before, after, m, o))
  }

  /** The transmit frequency and mode are set, the receiver is where it was. */
  ghost predicate Prepared(c: Controls, before: Rig, after: Rig, tx: nat, m: Mode, o: Outcome) {
    var modes := OtherModeMap(c, OnB(c, before));
    && (o.Pass? <==> m == UNK || Supports(m, modes))
    && (o.Pass? ==>
          && SameButtons(c, before, after) && RxMode(c, after) == RxMode(c, before)
          && OtherFreq(c, after) == tx && RxFreq(c, after) == ToUInt(RxFreq(c, before))
          && OtherMode(c, after) == if m == UNK then OtherMode(c, before) else Selection(m, modes))
    && (o.Fail? ==> SetsOtherMode(c, before, after, m, o))
  }

  function OtherTuned(r: Rig, flag: bool, tx: nat): Rig {
    if flag then r.(freqA := tx, freqB := ToUInt(r.freqB)) else r.(freqA := ToUInt(r.freqA), freqB := tx)
  }

  /** A rig addressed one VFO at a time: its other mode is set by a dropdown of its own, or
      else along with the frequency. */
  ghost predicate SetsOtherSingly(c: Controls, before: Rig, after: Rig, m: Mode, o: Outcome) {
    if c.modeBDropdown < 0 then o.Pass? && after == before
    else if Supports(m, c.modeBMap) then o.Pass? && after == before.(modeB := Selection(m, c.modeBMap))
    else o.Fail? && after == before
  }

  ghost predicate TunesOtherSingly(c: Controls, before: Rig, after: Rig, tx: nat, m: Mode, o: Outcome) {
    && (o.Fail? <==> m != UNK && c.modeBDropdown < 0 && !Supports(m, c.modeAMap))
    && after.freqA == before.freqA && after.modeA == before.modeA && after.freqB == tx
    && after.modeB ==
         (if o.Pass? && m != UNK && c.modeBDropdown < 0 then Selection(m, c.modeAMap) else before.modeB)
    && (o.Pass? ==> OnA(c, after)) && (o.Fail? ==> OnB(c, after))
  }

  lemma PreparedBy(c: Controls, before: Rig, moded: Rig, after: Rig, tx: nat, m: Mode, p: Outcome, o: Outcome)
    requires Exclusive(c, before)
    requires if m == UNK then moded == before
             else SetsOtherMode(c, before, moded, m, p) && if p.Fail? then o == p && after == moded else o.Pass?
    requires o.Pass? ==> after == OtherTuned(moded, OnB(c, before), tx)
    requires m == UNK ==> o.Pass?
    ensures Prepared(c, before, after, tx, m, o)
  {
    hide Supports, Selection;
  }

  lemma PreparedSingly(c: Controls, before: Rig, moded: Rig, after: Rig, tx: nat, m: Mode, p: Outcome, o: Outcome)
    requires SingleVfo(c) && OnA(c, before) && tx != 0
    requires if m == UNK then moded == before && TunesOtherSingly(c, before, after, tx, m, o)
             else
               && SetsOtherSingly(c, before, moded, m, p)
               && if p.Fail? then o == p && after == moded else TunesOtherSingly(c, moded, after, tx, m, o)
    ensures TxSetSingly(c, before, after, tx, m, o)
  {
    hide Supports, Selection;
  }

  lemma PreparedOrNot(c: Controls, before: Rig, after: Rig, tx: nat, m: Mode, o: Outcome)
    requires DualVfo(c) && Exclusive(c, before) && Prepared(c, before, after, tx, m, o) && tx != 0
    ensures o.Fail? ==> TxSet(c, before, after, tx, m, o)
    ensures o.Pass? ==> Exclusive(c, after) && OnB(c, after) == OnB(c, before)
  {
    hide Supports, Selection;
  }

  lemma SplitPrepared(c: Controls, before: Rig, prepared: Rig, after: Rig, tx: nat, m: Mode)
    requires if tx == 0 then prepared == before else Prepared(c, before, prepared, tx, m, Pass)
    requires SplitSet(c, prepared, after, tx != 0)
    ensures TxSet(c, before, after, tx, m, Pass)
  {
    hide Supports, Selection;
  }

  lemma SplitSingly(c: Controls, before: Rig, prepared: Rig, after: Rig, tx: nat, m: Mode)
    requires OnA(c, before)
    requires if tx == 0 then prepared == before else TxSetSingly(c, before, prepared, tx, m, Pass)
    requires SameVfos(prepared, after) && (OnA(c, prepared) ==> OnA(c, after))
    ensures TxSetSingly(c, before, after, tx, m, Pass)
  {
    hide Supports, Selection;
  }

  /** What do_tx_frequency makes of a rig addressed one VFO at a time and listening on VFO A:
      it is left on VFO B when the mode turns out not to be supported only there. */
  ghost predicate TxSetSingly(c: Controls, before: Rig, after: Rig, tx: nat, m: Mode, o: Outcome) {
    var modes := OtherModeMap(c, false);
    && (o.Pass? <==> tx == 0 || m == UNK || Supports(m, modes))
    && after.freqA == before.freqA && after.modeA == before.modeA
    && (o.Pass? ==>
          && OnA(c, after) && after.freqB == (if tx != 0 then tx else before.freqB)
          && after.modeB == if tx == 0 || m == UNK then before.modeB else Selection(m, modes))
    && (o.Fail? ==> if c.modeBDropdown >= 0 then after == before else OnB(c, after) && after.freqB == tx)
  }

  /** The mode map that is consulted to set the mode of the VFO not heard. */
  function OtherModeMap(c: Controls, onB: bool): ModeMap {
    if c.modeBDropdown >= 0 && !onB then c.modeBMap else c.modeAMap
  }

  ghost predicate SetsOtherMode(c: Controls, before: Rig, after: Rig, m: Mode, o: Outcome) {
    var modes := OtherModeMap(c, OnB(c, before));
    && (o.Pass? <==> Supports(m, modes))
    && (o.Pass? ==>
          && SameButtons(c, before, after) && after.freqA == before.freqA && after.freqB == before.freqB
          && OtherMode(c, after) == Selection(m, modes) && RxMode(c, after) == RxMode(c, before))
    && (o.Fail? ==>
          && o == Fail(UnsupportedMode)
          && after.freqA == before.freqA && after.freqB == before.freqB && after.modeA == before.modeA &&
             after.modeB == before.modeB
          && (OnB(c, after) == OnB(c, before) <==> c.modeBDropdown >= 0))
  }

  /** The mode map that is consulted to set the mode of the VFO that is heard. */
  function OwnModeMap(c: Controls, onB: bool): ModeMap {
    if c.modeBDropdown >= 0 && onB then c.modeBMap else c.modeAMap
  }

  /** The mode of the VFO that is flagged as heard is set by a dropdown of its own; a single
      dropdown sets that of the VFO that is heard. */
  ghost predicate OwnSet(c: Controls, before: Rig, after: Rig, flag: bool, m: Mode, o: Outcome) {
    var own := OwnModeMap(c, flag);
    && o == (if Supports(m, own) then Pass else Fail(UnsupportedMode))
    && (o.Fail? ==> after == before)
    && (o.Pass? && c.modeADropdown >= 0 && c.modeBDropdown != c.modeADropdown ==>
          after == WithMode(before, if c.modeBDropdown >= 0 then flag else OnB(c, before), Selection(m, own)))
  }

  /** The mode of the VFO that is not flagged is set; a single dropdown has the receiver end
      up on the flagged VFO and the transmitter on the other one. */
  ghost predicate OtherSet(c: Controls, before: Rig, after: Rig, flag: bool, m: Mode, o: Outcome) {
    var modes := OtherModeMap(c, flag);
    && (o.Pass? <==> Supports(m, modes))
    && (o.Fail? ==> after == before)
    && (o.Pass? && c.modeBDropdown >= 0 ==> after == WithMode(before, !flag, Selection(m, modes)))
    && (o.Pass? && c.modeBDropdown < 0 ==>
          && OnB(c, after) == flag && Exclusive(c, after) && Splitting(c, after)
          && after.freqA == before.freqA && after.freqB == before.freqB
          && ModeOf(after, !flag) == Selection(m, modes) && ModeOf(after, flag) == ModeOf(before, flag))
  }

  /** What do_mode makes of the rig, whether or not the VFO that is flagged is the one that
      is heard. */
  ghost predicate ModeSetBy(c: Controls, before: Rig, after: Rig, flag: bool, m: Mode, split: bool, o: Outcome) {
    var own, other := OwnModeMap(c, flag), OtherModeMap(c, flag);
    var both, heard := m != UNK && split, OnB(c, before);
    && (o.Pass? <==> Supports(m, own) && (both ==> Supports(m, other)))
    && (!Supports(m, own) ==> after == before)
    && (Supports(m, own) ==>
          && Exclusive(c, after) && after.freqA == before.freqA && after.freqB == before.freqB
          && (c.modeBDropdown >= 0 ==>
                && SameButtons(c, before, after) && ModeOf(after, flag) == Selection(m, own)
                && ModeOf(after, !flag) == if both && o.Pass? then Selection(m, other) else ModeOf(before, !flag))
          && (c.modeBDropdown < 0 ==>
                && OnB(c, after) == (if both then flag else heard)
                && ModeOf(after, heard) == Selection(m, own)
                && ModeOf(after, !heard) ==
                     (if both && flag == heard then Selection(m, own) else ModeOf(before, !heard))
                && if both then Splitting(c, after) else SameButtons(c, before, after)))
  }

  lemma BothSet(c: Controls, before: Rig, between: Rig, after: Rig, flag: bool, m: Mode, split: bool, own: Outcome,
                o: Outcome)
    requires DualVfo(c) && Exclusive(c, before) && OwnSet(c, before, between, flag, m, own)
    requires if own.Pass? && m != UNK && split then
               Exclusive(c, between) && (c.modeBDropdown < 0 ==> Supports(m, c.modeAMap)) ==>
                 OtherSet(c, between, after, flag, m, o)
             else after == between && o == own
    ensures ModeSetBy(c, before, after, flag, m, split, o)
  {
    hide LookupMode, Supports, Selection;
    if c.modeBDropdown >= 0 {
      BothDropdowns(c, before, between, after, flag, m, split, own, o);
    } else {
      OneDropdown(c, before, between, after, flag, m, split, own, o);
    }
  }

  lemma BothDropdowns(c: Controls, before: Rig, between: Rig, after: Rig, flag: bool, m: Mode, split: bool,
                      own: Outcome, o: Outcome)
    requires c.modeADropdown >= 0 && c.modeBDropdown >= 0 && c.modeBDropdown != c.modeADropdown
    requires Exclusive(c, before) && OwnSet(c, before, between, flag, m, own)
    requires if own.Pass? && m != UNK && split then Exclusive(c, between) ==> OtherSet(c, between, after, flag, m, o)
             else after == between && o == own
    ensures ModeSetBy(c, before, after, flag, m, split, o)
  {
    hide LookupMode, Supports, Selection;
  }

  lemma OneDropdown(c: Controls, before: Rig, between: Rig, after: Rig, flag: bool, m: Mode, split: bool, own: Outcome,
                    o: Outcome)
    requires DualVfo(c) && c.modeBDropdown < 0 && Exclusive(c, before) && OwnSet(c, before, between, flag, m, own)
    requires if own.Pass? && m != UNK && split then
               Exclusive(c, between) && Supports(m, c.modeAMap) ==> OtherSet(c, between, after, flag, m, o)
             else after == between && o == own
    ensures ModeSetBy(c, before, after, flag, m, split, o)
  {
    hide LookupMode, Supports, Selection;
  }

  lemma BothSetSingly(c: Controls, before: Rig, between: Rig, after: Rig, m: Mode, split: bool, own: Outcome,
                      o: Outcome)
    requires SingleVfo(c) && OnA(c, before) && OwnSet(c, before, between, false, m, own)
    requires if !(own.Pass? && m != UNK && split) then after == between && o == own
             else if c.modeBDropdown >= 0 && !Supports(m, c.modeBMap) then o.Fail? && after == between
             else
               && o.Pass?
               && after == if c.modeBDropdown < 0 then between else between.(modeB := Selection(m, c.modeBMap))
    ensures ModeSetSingly(c, before, after, m, split, o)
  {
    hide LookupMode, Supports, Selection;
  }

  /** When the flag is right, that is the mode of the VFO heard and, when split, of the
      other one. */
  lemma SetByRightFlag(c: Controls, before: Rig, after: Rig, m: Mode, split: bool, o: Outcome)
    requires Exclusive(c, before) && ModeSetBy(c, before, after, OnB(c, before), m, split, o)
    ensures ModeSet(c, before, after, m, split, o)
  {
    hide LookupMode, Supports, Selection;
  }

  /** With two mode dropdowns a VFO that is heard and shows another mode gets this one
      exactly when the flag is right or both are set; with a single one it gets it always,
      and stays the one that is heard exactly when the flag is right or not both are set. */
  lemma HeardGetsMode(c: Controls, before: Rig, after: Rig, flag: bool, m: Mode, split: bool)
    requires DualVfo(c) && Exclusive(c, before) && ModeSetBy(c, before, after, flag, m, split, Pass)
    requires Supports(m, if c.modeBDropdown >= 0 && OnB(c, before) then c.modeBMap else c.modeAMap)
    requires var modes := if c.modeBDropdown >= 0 && OnB(c, before) then c.modeBMap else c.modeAMap;
             RxMode(c, before) != Selection(m, modes)
    ensures var modes := if c.modeBDropdown >= 0 && OnB(c, before) then c.modeBMap else c.modeAMap;
            var heard, value := OnB(c, before), Selection(m, modes);
            && (c.modeBDropdown >= 0 ==>
                  && OnB(c, after) == heard
                  && (ModeOf(after, heard) == value <==> flag == heard || (m != UNK && split)))
            && (c.modeBDropdown < 0 ==>
                  && ModeOf(after, heard) == value
                  && (OnB(c, after) == heard <==> flag == heard || !(m != UNK && split)))
  {
    hide LookupMode, Supports, Selection;
  }

  /** What do_mode makes of the rig. */
  ghost predicate ModeSet(c: Controls, before: Rig, after: Rig, m: Mode, split: bool, o: Outcome) {
    var own, other := OwnModeMap(c, OnB(c, before)), OtherModeMap(c, OnB(c, before));
    var both := m != UNK && split;
    && (o.Pass? <==> Supports(m, own) && (both ==> Supports(m, other)))
    && (!Supports(m, own) ==> after == before)
    && (Supports(m, own) ==>
          && Exclusive(c, after) && OnB(c, after) == OnB(c, before)
          && after.freqA == before.freqA && after.freqB == before.freqB
          && RxMode(c, after) == Selection(m, own)
          && OtherMode(c, after) == (if both && Supports(m, other) then Selection(m, other) else OtherMode(c, before))
          && Splitting(c, after) == (Splitting(c, before) || (both && c.modeBDropdown < 0)))
  }

  /** The receiver is on one of the VFOs. */
  function ReceiverOn(c: Controls, r: Rig, b: bool): Rig
    requires DualVfo(c)
  {
    if c.rxB >= 0 then Press(c, r, if b then c.rxB else c.rxA, true)
    else Choose(c, r, c.receiverDropdown, if b then c.rxBSelection[0] else c.rxASelection[0])
  }

  /** Splitting or not, with everything else as it was. */
  ghost predicate SplitSet(c: Controls, before: Rig, after: Rig, on: bool) {
    && Splitting(c, after) == on && Exclusive(c, after) && OnB(c, after) == OnB(c, before)
    && SameVfos(before, after)
  }

  lemma AlreadySplit(c: Controls, r: Rig, on: bool)
    requires DualVfo(c) && Exclusive(c, r)
    ensures OnB(c, r) == Down(r, if on then c.txA else c.txB) ==> SplitSet(c, r, r, on)
  {
  }

  lemma TransmitterMoved(c: Controls, r: Rig, on: bool)
    requires DualVfo(c) && Exclusive(c, r)
    ensures var r1 := ReceiverOn(c, r, OnB(c, r));
            var button := if OnB(c, r) == on then c.txA else c.txB;
            button >= 0 && SplitSet(c, r, Press(c, r1, button, true), on)
  {
  }

  lemma TransmitOnOther(c: Controls, r: Rig, flag: bool)
    requires DualVfo(c) && Exclusive(c, r)
    ensures var r1 := Press(c, r, if flag then c.txA else c.txB, true);
            && c.txA >= 0 && c.txB >= 0
            && Exclusive(c, r1) && OnB(c, r1) == OnB(c, r) && Down(r1, c.txA) == flag && SameVfos(r, r1)
  {
  }

  /** What do_mode makes of a rig addressed one VFO at a time and listening on VFO A: the
      other mode follows when it has a dropdown of its own. */
  ghost predicate ModeSetSingly(c: Controls, before: Rig, after: Rig, m: Mode, split: bool, o: Outcome) {
    var both := m != UNK && split && c.modeBDropdown >= 0;
    && (o.Pass? <==> Supports(m, c.modeAMap) && (both ==> Supports(m, c.modeBMap)))
    && after == if !Supports(m, c.modeAMap) then before
                else
                  var own := before.(modeA := Selection(m, c.modeAMap));
                  if both && Supports(m, c.modeBMap) then own.(modeB := Selection(m, c.modeBMap)) else own
  }

  ghost predicate SameButtons(c: Controls, before: Rig, after: Rig) {
    && OnB(c, after) == OnB(c, before) && Exclusive(c, after)
    && Down(after, c.txA) == Down(before, c.txA) && Down(after, c.txB) == Down(before, c.txB)
  }
}
