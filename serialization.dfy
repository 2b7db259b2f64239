/** The byte image of a macro slot and the memory all slots use together.
    The bytes of one action come from the device encoding, which is a
    parameter `enc` here: nothing below depends on what it produces. */
module Serialization {
  import opened MacroTypes

  /** The bytes of a slot: the bytes of its actions, concatenated in list order. */
  function Serialized(acts: seq<Action>, enc: Action -> seq<byte>): (r: seq<byte>)
    ensures acts != [] ==> |enc(acts[0])| <= |r| && r[..|enc(acts[0])|] == enc(acts[0])
  {
    if acts == [] then [] else enc(acts[0]) + Serialized(acts[1..], enc)
  }

  /** Sum of the encoded lengths of the actions, one action at a time. */
  function SumLengths(acts: seq<Action>, enc: Action -> seq<byte>): (n: nat)
  {
    if acts == [] then 0 else |enc(acts[0])| + SumLengths(acts[1..], enc)
  }

  /** The bytes of two consecutive runs of actions are the bytes of the first
      followed by the bytes of the second. */
  lemma {:induction false} SerializedConcat(a: seq<Action>, b: seq<Action>, enc: Action -> seq<byte>)
    ensures Serialized(a + b, enc) == Serialized(a, enc) + Serialized(b, enc)
  {
    if a != [] {
      SerializedConcat(a[1..], b, enc);
      assert (a + b)[1..] == a[1..] + b;
    } else {
      assert a + b == b;
    }
  }

  /** Appending an action to a slot appends exactly that action's bytes. */
  lemma SerializedAppend(acts: seq<Action>, a: Action, enc: Action -> seq<byte>)
    ensures Serialized(acts + [a], enc) == Serialized(acts, enc) + enc(a)
  {
    SerializedConcat(acts, [a], enc);
    assert Serialized([a], enc) == enc(a) + Serialized([], enc);
  }

  /** The size of a slot is the sum of the sizes of its actions. */
  lemma {:induction false} SerializedLength(acts: seq<Action>, enc: Action -> seq<byte>)
    ensures |Serialized(acts, enc)| == SumLengths(acts, enc)
  {
    if acts != [] {
      SerializedLength(acts[1..], enc);
    }
  }

  /** Appending an action whose encoding is not empty strictly grows the slot. */
  lemma SerializedGrows(acts: seq<Action>, a: Action, enc: Action -> seq<byte>)
    requires |enc(a)| > 0
    ensures |Serialized(acts + [a], enc)| > |Serialized(acts, enc)|
  {
    SerializedAppend(acts, a, enc);
  }

  /** Memory used by all slots: the sum of the sizes of their byte images. */
  function Usage(slots: seq<seq<Action>>, enc: Action -> seq<byte>): (n: nat)
    ensures forall i :: 0 <= i < |slots| ==> |Serialized(slots[i], enc)| <= n
  {
    if slots == [] then 0 else |Serialized(slots[0], enc)| + Usage(slots[1..], enc)
  }

  /** Slots that hold no actions use no memory. */
  lemma {:induction false} UsageOfEmptySlots(slots: seq<seq<Action>>, enc: Action -> seq<byte>)
    requires forall i :: 0 <= i < |slots| ==> slots[i] == []
    ensures Usage(slots, enc) == 0
  {
    if slots != [] {
      UsageOfEmptySlots(slots[1..], enc);
    }
  }

  /** Replacing the contents of one slot changes the total by exactly the change
      in that slot's size: no other slot contributes differently. */
  lemma {:induction false} UsageUpdate(slots: seq<seq<Action>>, i: nat, acts: seq<Action>, enc: Action -> seq<byte>)
    requires i < |slots|
    ensures Usage(slots[i := acts], enc) + |Serialized(slots[i], enc)|
         == Usage(slots, enc) + |Serialized(acts, enc)|
  {
    if i > 0 {
      UsageUpdate(slots[1..], i - 1, acts, enc);
      assert slots[i := acts][1..] == slots[1..][i - 1 := acts];
    }
  }

  /** Appending an action with a non-empty encoding to any slot strictly
      increases the memory used by all slots. */
  lemma UsageGrows(slots: seq<seq<Action>>, i: nat, a: Action, enc: Action -> seq<byte>)
    requires i < |slots| && |enc(a)| > 0
    ensures Usage(slots[i := slots[i] + [a]], enc) > Usage(slots, enc)
  {
    UsageUpdate(slots, i, slots[i] + [a], enc);
    SerializedGrows(slots[i], a, enc);
  }
}
