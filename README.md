# Macro recorder model

A Dafny model of the macro editor of vial-gui (`src/main/python/macro_recorder.py`).
The editor holds 32 macro slots. Each slot (`MacroTab`) is an ordered list of lines,
and each line holds one action: type a text, or tap, press or release keys. The user
adds, removes, reorders and clears lines. The recorder (`MacroRecorder`) starts a
recording into one slot and buffers the captured keystrokes. When capture stops, it
optimises the buffer and appends one action per optimised keystroke to that slot.
It also reports the memory all slots use: the sum of their serialised sizes.

Files:

- `macro_types.dfy` (module `MacroTypes`): keystroke events, actions, and how
  recorded events become actions.
- `list_ops.dfy` (module `ListOps`): the Python list operations the editor uses.
  These are lookup by identity, removal of one entry and exchange of two entries.
- `serialization.dfy` (module `Serialization`): a slot's bytes and the memory
  figure over all slots.
- `macro_tab.dfy` (module `MacroTabs`): the classes `MacroLine` and `MacroTab`.
- `macro_recorder.dfy` (module `Recorder`): the class `MacroRecorder`.

Modelling choices:

- A line is an object (`MacroLine`), as in the source. Two lines with equal actions
  are still different lines. `MacroTab.Valid()` says that a slot never holds the same
  line twice.
- A slot is identified by its index in [0, 32). The recording target is
  `recordingTab: Option<nat>`, which is `None` until the first recording starts.
- The bytes of one action come from the device encoding, which this model does not
  contain. It is the function `encode`, supplied when the recorder is created.
  The optimiser is the function `optimize`, also supplied when the recorder is created.
- The per-tab "enabled" flags of the tab bar are the field `enabled`. The memory
  label is the field `memoryUsed`.

Behaviour of the code that the model keeps:

- `on_record` does not check whether a recording is already in progress. No
  "already recording" error exists.
- `on_stop` never sets `recording` back to false (`OnStop` ensures it is unchanged).
- `on_stop` relies on an earlier `on_record`, because `recording_tab` starts as
  `None`. This is the precondition `recordingTab.Some?`.
- Serialising cannot fail here. `macro_recorder.py` raises no encoding error; the encoding
  is the parameter `encode`, and the model has no error path for it.

## Model

| member | source | states |
|---|---|---|
| MacroTypes.ToAction | src/main/python/macro_recorder.py:206-210 | each event kind becomes its own action kind (text to Text, down to Down, up to Up, tap to Tap); text keeps its string and the others carry the one-key chord of the event's keycode |
| MacroTypes.ToEvent | src/main/python/macro_recorder.py:205-210 | an action with the shape of a recorded event gives that event back, and mapping the event forward gives the action again |
| MacroTypes.ToActionRoundTrip | src/main/python/macro_recorder.py:205-210 | each keystroke kind maps to its own action kind (text to Text, down to Down, up to Up, tap to Tap) on the one-key chord, so nothing is lost |
| MacroTypes.Materialize | src/main/python/macro_recorder.py:205-210 | the stop loop yields exactly one action per optimised event, at the same position |
| MacroTypes.Unmaterialize | src/main/python/macro_recorder.py:205-210 | reading events back from actions, when it succeeds, gives one event per action |
| MacroTypes.MaterializeRoundTrip | src/main/python/macro_recorder.py:204-210 | the optimised event stream can be recovered from the actions appended to the slot |
| MacroTypes.MaterializeAppend | src/main/python/macro_recorder.py:205-210 | materialising one more event appends that event's action at the end |
| ListOps.IndexOf | src/main/python/macro_recorder.py:94 | `list.index` returns a position holding the line, with no earlier position holding it |
| ListOps.IndexOfDistinct | src/main/python/macro_recorder.py:97 | in a list of distinct lines, looking up the line at `index + offset` gives back `index + offset` |
| ListOps.RemoveAt | src/main/python/macro_recorder.py:80 | removing one entry shortens the list by one, and the entry together with the rest is the original multiset |
| ListOps.RemoveAtSpec | src/main/python/macro_recorder.py:80 | removal shortens the list by one and keeps the other lines in their relative order; the multiset loses exactly that line |
| ListOps.RemoveAtDistinct | src/main/python/macro_recorder.py:75-80 | after removing a line from distinct lines, the rest stay distinct and the removed line no longer occurs |
| ListOps.Swapped | src/main/python/macro_recorder.py:100 | the tuple assignment keeps the length and puts each of the two entries at the other's position |
| ListOps.SwappedSpec | src/main/python/macro_recorder.py:100 | the exchange puts each line at the other's position, leaves every other position alone and yields a permutation |
| ListOps.SwappedTwice | src/main/python/macro_recorder.py:91-103 | exchanging the same two positions again restores the list, so moving a line by `offset` and back by `-offset` undoes the move |
| ListOps.SwappedDistinct | src/main/python/macro_recorder.py:100 | exchanging two lines keeps the lines distinct |
| Serialization.Serialized | src/main/python/macro_recorder.py:105-109 | the slot's bytes begin with the first line's bytes (the join is in line order) |
| Serialization.SerializedConcat | src/main/python/macro_recorder.py:105-109 | the bytes of two consecutive runs of actions are the first run's bytes followed by the second's |
| Serialization.SerializedAppend | src/main/python/macro_recorder.py:105-109 | appending a line appends exactly that line's bytes at the end of the slot's bytes |
| Serialization.SerializedLength | src/main/python/macro_recorder.py:105-109 | the size of a slot's bytes is the sum of its lines' sizes |
| Serialization.SerializedGrows | src/main/python/macro_recorder.py:105-109 | appending an action whose encoding is not empty strictly grows the slot's bytes |
| Serialization.Usage | src/main/python/macro_recorder.py:215-218 | the memory figure is at least the size of every single slot's bytes |
| Serialization.UsageOfEmptySlots | src/main/python/macro_recorder.py:147-168 | 32 empty slots use no memory, so the figure shown after construction is 0 |
| Serialization.UsageUpdate | src/main/python/macro_recorder.py:215-218 | changing one slot changes the memory figure by exactly the change in that slot's size |
| Serialization.UsageGrows | src/main/python/macro_recorder.py:215-218 | appending an action with a non-empty encoding to any slot strictly increases the memory figure |
| MacroTabs.MacroLine.constructor | src/main/python/macro_recorder.py:66 | a new line holds the action it was created with |
| MacroTabs.MacroTab.constructor | src/main/python/macro_recorder.py:24-27 | a new slot holds no lines |
| MacroTabs.MacroTab.AddAction | src/main/python/macro_recorder.py:65-70 | the new, fresh line holding the action is the last line; earlier lines are unchanged and the length grows by one |
| MacroTabs.MacroTab.OnAdd | src/main/python/macro_recorder.py:72-73 | appends one fresh line holding an empty text action |
| MacroTabs.MacroTab.OnTapEnter | src/main/python/macro_recorder.py:114-115 | appends one fresh line holding a tap of the Enter key (keycode 0x28) |
| MacroTabs.MacroTab.OnRemove | src/main/python/macro_recorder.py:75-85 | for a line in the slot: removes exactly that line, keeps the others in order, and the length drops by one |
| MacroTabs.MacroTab.Clear | src/main/python/macro_recorder.py:87-89 | removing each line of a copy of the list, one at a time, leaves the slot empty |
| MacroTabs.MacroTab.OnMove | src/main/python/macro_recorder.py:91-103 | a zero offset or a neighbour outside the slot leaves the lines unchanged; otherwise the line and its neighbour at `index + offset` are exchanged, and the result is always a permutation |
| MacroTabs.MacroTab.Serialize | src/main/python/macro_recorder.py:105-109 | the returned bytes are the in-order concatenation of the lines' bytes, and their length is the sum of the lines' sizes |
| Recorder.OthersDisabled | src/main/python/macro_recorder.py:184-186 | every tab other than the target is disabled, and the target keeps its flag |
| Recorder.MacroRecorder.constructor | src/main/python/macro_recorder.py:132-168 | creates exactly 32 distinct empty slots, all enabled, not recording, with memory figure 0 |
| Recorder.MacroRecorder.OnRecord | src/main/python/macro_recorder.py:178-190 | sets the target and the append flag, sets `recording`, empties the buffer, and disables every tab except the target, whose flag is untouched; no slot's lines change |
| Recorder.MacroRecorder.OnKeystroke | src/main/python/macro_recorder.py:212-213 | appends the event to the buffer, with no filtering; nothing else changes |
| Recorder.MacroRecorder.OnStop | src/main/python/macro_recorder.py:195-210 | enables all 32 tabs; empties the target unless appending (when appending, the old lines stay as a prefix); appends one action per optimised event, in order; changes no other slot; leaves `recording` as it was |
| Recorder.AppendEvents | src/main/python/macro_recorder.py:205-210 | each event of the optimised stream becomes one action appended to the target slot, in order; the slot's earlier lines stay as a prefix |
| Recorder.MacroRecorder.EnableAllTabs | src/main/python/macro_recorder.py:196-197 | after the loop, all 32 tabs are selectable |
| Recorder.MacroRecorder.OnChange | src/main/python/macro_recorder.py:215-219 | the memory figure is the sum over all 32 slots of the length of their serialised bytes |

## Left out

- Qt widgets, layouts, menus, button visibility (`pre_record`, `post_record`) and a line's `insert`, `remove` and `delete` are not modelled. They only change what is displayed.
- The `changed` signals are not modelled. In the source they make every edit recompute the memory figure. Here `OnChange` is called by the caller, and every other method leaves `memoryUsed` as it was.
- The label text, its translation and the literal budget 345 in it are not modelled. They are display only.
- `LinuxRecorder` and `on_tab_stop` are not modelled. Keystroke capture, with its asynchronous start, stop and stop notification, is I/O. `OnKeystroke` and `OnStop` are the notifications it delivers.
- `macro_optimize` is not part of this model. It is the function `optimize` given to the recorder, and nothing is assumed about it: not idempotence, not pairing, not merging to text.
- `MacroLine.serialize` and the action byte encoding are not part of this model. The encoding is the parameter `encode`, so there is no round trip through bytes and no unsupported-keycode error.
- A line's action is fixed when the line is created. Editing an action through its widget is not modelled.
- `find_keycode` is not part of this model. A keycode is its numeric value, so `OnTapEnter` taps keycode 0x28.
- MacroTabs.MacroTab.OnRemove: requires `obj in lines`. In the source, `self.lines.remove(obj)` raises `ValueError` for a line not in the slot; that error is not modelled.
- MacroTabs.MacroTab.OnMove: requires `offset != 0 ==> obj in lines`. In the source, `self.lines.index(obj)` raises `ValueError` for a line not in the slot when the offset is not zero; that error is not modelled.
- MacroTabs.MacroTab.OnAdd: the initial text of a new text action is taken to be empty, because the `ActionText` constructor is not part of this model.
- `valid`, `rebuild` and the `VialKeyboard` device check are not modelled. They are device plumbing.
