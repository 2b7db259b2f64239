/** The macro editor: 32 slots, the tab-selection flags, the recording session
    and the memory figure shown for all slots together. A slot is identified by
    its index in [0, 32). Keystroke capture is external: `OnKeystroke` and
    `OnStop` are the notifications it delivers. */
module Recorder {
  import opened MacroTypes
  import opened ListOps
  import opened Serialization
  import opened MacroTabs

  /** Number of macro slots. */
  const SLOTS: nat := 32

  /** All tabs selectable except `t`, whose flag is `keep`. */
  function OthersDisabled(t: nat, keep: bool): (r: seq<bool>)
    requires t < SLOTS
    ensures |r| == SLOTS && r[t] == keep
    ensures forall x :: 0 <= x < SLOTS && x != t ==> !r[x]
  {
    seq(SLOTS, x requires 0 <= x < SLOTS => if x == t then keep else false)
  }

  /** Appends to `tab`, in order, the action of each event of `ks`. */
  method AppendEvents(tab: MacroTab, ks: seq<KeyEvent>)
    requires tab.Valid()
    modifies tab
    ensures tab.Valid() && old(tab.lines) <= tab.lines
    ensures tab.Actions() == old(tab.Actions()) + Materialize(ks)
  {
    for i := 0 to |ks|
      invariant tab.Valid() && old(tab.lines) <= tab.lines
      invariant tab.Actions() == old(tab.Actions()) + Materialize(ks[..i])
    {
      assert ks[..i + 1] == ks[..i] + [ks[i]];
      MaterializeAppend(ks[..i], ks[i]);
      var line := tab.AddAction(ToAction(ks[i]));
    }
    assert ks[..|ks|] == ks;
  }

  class MacroRecorder {
    /** The slots, created once and never replaced. */
    const tabs: seq<MacroTab>
    /** Encoding of one action into device bytes. */
    const encode: Action -> seq<byte>
    /** The keystroke-stream optimiser run when a recording stops. */
    const optimize: seq<KeyEvent> -> seq<KeyEvent>

    /** Whether each slot's tab can be selected. */
    var enabled: seq<bool>
    /** Raw events buffered by the current recording; the optimised stream after a stop. */
    var keystrokes: seq<KeyEvent>
    var recording: bool
    var recordingTab: Option<nat>
    var recordingAppend: bool
    /** The memory figure last computed for display. */
    var memoryUsed: nat

    ghost predicate Valid()
      reads this, tabs
    {
      && |tabs| == SLOTS
      && |enabled| == SLOTS
      && Distinct(tabs)
      && (forall i :: 0 <= i < SLOTS ==> tabs[i].Valid())
      && (recordingTab.Some? ==> recordingTab.value < SLOTS)
    }

    /** The actions of every slot, by slot index. */
    function Slots(): (r: seq<seq<Action>>)
      reads tabs
    {
      seq(|tabs|, i reads tabs requires 0 <= i < |tabs| => tabs[i].Actions())
    }

    /** Memory used by all slots together. */
    function TotalUsage(): (n: nat)
      reads tabs
    {
      Usage(Slots(), encode)
    }

    /** Creates the 32 empty slots, all selectable, not recording, and shows the
        memory figure of the empty slots. */
    constructor (enc: Action -> seq<byte>, opt: seq<KeyEvent> -> seq<KeyEvent>)
      ensures Valid() && fresh(tabs) && encode == enc && optimize == opt
      ensures forall i :: 0 <= i < SLOTS ==> fresh(tabs[i]) && tabs[i].lines == []
      ensures forall i :: 0 <= i < SLOTS ==> enabled[i]
      ensures keystrokes == [] && !recording && recordingTab == None && !recordingAppend
      ensures memoryUsed == TotalUsage() == 0
    {
      var ts: seq<MacroTab> := [];
      for x := 0 to SLOTS
        invariant |ts| == x && Distinct(ts)
        invariant forall i :: 0 <= i < x ==> fresh(ts[i]) && ts[i].Valid() && ts[i].lines == []
      {
        var tab := new MacroTab();
        ts := ts + [tab];
      }
      tabs := ts;
      encode := enc;
      optimize := opt;
      enabled := seq(SLOTS, _ => true);
      keystrokes := [];
      recording := false;
      recordingTab := None;
      recordingAppend := false;
      memoryUsed := 0;
      new;
      UsageOfEmptySlots(Slots(), encode);
      OnChange();
    }

    /** Starts recording into slot `t`: every other slot's tab is disabled (the
        target's flag is left as it is) and the event buffer is emptied. A
        recording already in progress is not checked for. */
    method OnRecord(t: nat, append: bool)
      requires Valid() && t < SLOTS
      modifies this
      ensures Valid()
      ensures recording && keystrokes == []
      ensures recordingTab == Some(t) && recordingAppend == append
      ensures enabled == OthersDisabled(t, old(enabled)[t])
      ensures memoryUsed == old(memoryUsed)
    {
      recordingTab := Some(t);
      recordingAppend := append;
      var flags := enabled;
      for x := 0 to SLOTS
        invariant |flags| == SLOTS && flags[t] == enabled[t]
        invariant forall i :: 0 <= i < x && i != t ==> !flags[i]
        invariant forall i :: x <= i < SLOTS ==> flags[i] == enabled[i]
      {
        if x != t {
          flags := flags[x := false];
        }
      }
      enabled := flags;
      recording := true;
      keystrokes := [];
    }

    /** Buffers one captured event, in arrival order, without filtering. */
    method OnKeystroke(k: KeyEvent)
      requires Valid()
      modifies this
      ensures Valid()
      ensures keystrokes == old(keystrokes) + [k]
      ensures recording == old(recording) && recordingTab == old(recordingTab)
      ensures recordingAppend == old(recordingAppend) && enabled == old(enabled)
      ensures memoryUsed == old(memoryUsed)
    {
      keystrokes := keystrokes + [k];
    }

    /** Ends the recording into the target slot: every tab becomes selectable, the
        target is emptied unless appending, and each event of the optimised buffer
        becomes one action appended to the target, in order. Only the target slot
        changes, and the recording flag is left as it was. */
    method OnStop()
      requires Valid() && recordingTab.Some?
      modifies this, tabs[recordingTab.value]
      ensures Valid()
      ensures forall i :: 0 <= i < SLOTS ==> enabled[i]
      ensures keystrokes == optimize(old(keystrokes))
      ensures recording == old(recording) && recordingTab == old(recordingTab)
      ensures recordingAppend == old(recordingAppend)
      ensures var t := recordingTab.value;
        tabs[t].Actions()
          == (if recordingAppend then old(tabs[t].Actions()) else [])
             + Materialize(optimize(old(keystrokes)))
      ensures var t := recordingTab.value;
        recordingAppend ==> old(tabs[t].lines) <= tabs[t].lines
      ensures forall i :: 0 <= i < SLOTS && i != recordingTab.value ==>
        tabs[i].lines == old(tabs[i].lines)
      ensures memoryUsed == old(memoryUsed)
    {
      EnableAllTabs();
      var tab := tabs[recordingTab.value];
      if !recordingAppend {
        tab.Clear();
      }
      keystrokes := optimize(keystrokes);
      AppendEvents(tab, keystrokes);
    }

    /** Makes every tab selectable again, one tab at a time. */
    method EnableAllTabs()
      requires |enabled| == SLOTS
      modifies this`enabled
      ensures |enabled| == SLOTS && forall i :: 0 <= i < SLOTS ==> enabled[i]
    {
      for x := 0 to SLOTS
        invariant |enabled| == SLOTS
        invariant forall i :: 0 <= i < x ==> enabled[i]
      {
        enabled := enabled[x := true];
      }
    }

    /** Recomputes the memory figure: the sizes of all slots' bytes, summed slot by slot. */
    method OnChange()
      requires Valid()
      modifies this`memoryUsed
      ensures memoryUsed == TotalUsage()
    {
      var memory := 0;
      for x := 0 to |tabs|
        invariant memory + Usage(Slots()[x..], encode) == TotalUsage()
      {
        var bytes := tabs[x].Serialize(encode);
        assert Slots()[x..][1..] == Slots()[x + 1..];
        memory := memory + |bytes|;
      }
      assert Slots()[|tabs|..] == [];
      memoryUsed := memory;
    }
  }
}
