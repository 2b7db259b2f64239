/** One macro slot of the editor: an ordered list of lines, each holding one action.
    Lines are objects, so two lines holding equal actions are still different lines,
    and the editor finds the line to remove or move by identity. */
module MacroTabs {
  import opened MacroTypes
  import opened ListOps
  import opened Serialization

  /** One line of a slot. Its widgets are not modelled; what it contributes is its action. */
  class MacroLine {
    const action: Action

    constructor (act: Action)
      ensures action == act
    {
      action := act;
    }
  }

  /** The actions of a list of lines, in order. */
  function ActionsOf(ls: seq<MacroLine>): (r: seq<Action>)
    ensures |r| == |ls|
  {
    seq(|ls|, i requires 0 <= i < |ls| => ls[i].action)
  }

  lemma ActionsOfAppend(ls: seq<MacroLine>, l: MacroLine)
    ensures ActionsOf(ls + [l]) == ActionsOf(ls) + [l.action]
  {
  }

  class MacroTab {
    var lines: seq<MacroLine>

    /** A line appears at most once in its slot. */
    ghost predicate Valid()
      reads this
    {
      Distinct(lines)
    }

    /** The actions of the slot, top to bottom. */
    function Actions(): (r: seq<Action>)
      reads this
    {
      ActionsOf(lines)
    }

    constructor ()
      ensures Valid() && lines == []
    {
      lines := [];
    }

    /** Appends a new line holding `act` after every existing line. */
    method AddAction(act: Action) returns (line: MacroLine)
      requires Valid()
      modifies this
      ensures Valid() && fresh(line) && line.action == act
      ensures lines == old(lines) + [line]
      ensures Actions() == old(Actions()) + [act]
    {
      line := new MacroLine(act);
      lines := lines + [line];
      assert lines[..|lines| - 1] == old(lines);
    }

    /** The "Add action" button: appends an empty text action. */
    method OnAdd() returns (line: MacroLine)
      requires Valid()
      modifies this
      ensures Valid() && fresh(line)
      ensures lines == old(lines) + [line]
      ensures Actions() == old(Actions()) + [Text("")]
    {
      line := AddAction(Text(""));
    }

    /** The "Tap Enter" button: appends a tap of the Enter key. */
    method OnTapEnter() returns (line: MacroLine)
      requires Valid()
      modifies this
      ensures Valid() && fresh(line)
      ensures lines == old(lines) + [line]
      ensures Actions() == old(Actions()) + [Tap([KC_ENTER])]
    {
      line := AddAction(Tap([KC_ENTER]));
    }

    /** Removes the line `obj`, which must be in the slot, keeping the others in order. */
    method OnRemove(obj: MacroLine)
      requires Valid() && obj in lines
      modifies this
      ensures Valid()
      ensures obj !in lines && |lines| == |old(lines)| - 1
      ensures lines == RemoveAt(old(lines), IndexOf(old(lines), obj))
      ensures multiset(lines) + multiset{obj} == multiset(old(lines))
    {
      var i := IndexOf(lines, obj);
      RemoveAtSpec(lines, i);
      RemoveAtDistinct(lines, i);
      lines := RemoveAt(lines, i);
    }

    /** Removes the lines one at a time, in order, from a copy of the list. */
    method Clear()
      requires Valid()
      modifies this
      ensures Valid() && lines == []
    {
      var snapshot := lines;
      for k := 0 to |snapshot|
        invariant Valid()
        invariant lines == snapshot[k..]
      {
        IndexOfDistinct(lines, 0);
        OnRemove(snapshot[k]);
      }
    }

    /** Exchanges the line `obj` with the line `offset` positions further down
        (up, when negative). A zero offset, or a neighbour outside the slot,
        changes nothing; `obj` is looked up only for a non-zero offset. */
    method OnMove(obj: MacroLine, offset: int)
      requires Valid()
      requires offset != 0 ==> obj in lines
      modifies this
      ensures Valid()
      ensures offset == 0 ==> lines == old(lines)
      ensures offset != 0 ==>
        var index := IndexOf(old(lines), obj);
        if index + offset < 0 || index + offset >= |old(lines)| then lines == old(lines)
        else lines == Swapped(old(lines), index, index + offset)
      ensures multiset(lines) == multiset(old(lines))
    {
      if offset == 0 {
        return;
      }
      var index := IndexOf(lines, obj);
      if index + offset < 0 || index + offset >= |lines| {
        return;
      }
      var other := IndexOf(lines, lines[index + offset]);
      IndexOfDistinct(lines, index + offset);
      SwappedSpec(lines, index, other);
      SwappedDistinct(lines, index, other);
      lines := lines[index := lines[other]][other := lines[index]];
    }

    /** The bytes of the slot, built by appending each line's bytes in turn. */
    method Serialize(enc: Action -> seq<byte>) returns (out: seq<byte>)
      ensures out == Serialized(Actions(), enc)
      ensures |out| == SumLengths(Actions(), enc)
    {
      out := [];
      for i := 0 to |lines|
        invariant out == Serialized(ActionsOf(lines[..i]), enc)
      {
        assert lines[..i + 1] == lines[..i] + [lines[i]];
        ActionsOfAppend(lines[..i], lines[i]);
        SerializedAppend(ActionsOf(lines[..i]), lines[i].action, enc);
        out := out + enc(lines[i].action);
      }
      assert lines[..|lines|] == lines;
      SerializedLength(Actions(), enc);
    }
  }
}
