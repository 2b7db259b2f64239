/** Value types shared by the macro editor and the recorder: keycodes, the
    keystroke events a recording produces, and the actions a macro slot holds. */
module MacroTypes {

  datatype Option<+T> = None | Some(value: T)

  /** A keycode is the numeric identifier of a key in the keyboard's keycode space. */
  type Keycode = nat

  type byte = bv8

  /** The keycode of the Enter key, inserted by the "Tap Enter" button. */
  const KC_ENTER: Keycode := 0x28

  /** One event of a keystroke stream: raw captures are KeyDown/KeyUp, the
      optimiser may also produce KeyTap and KeyString. */
  datatype KeyEvent =
    | KeyString(text: string)
    | KeyDown(keycode: Keycode)
    | KeyUp(keycode: Keycode)
    | KeyTap(keycode: Keycode)

  /** One step of a macro: type a literal text, or tap, press or release a chord of keys. */
  datatype Action =
    | Text(text: string)
    | Tap(keycodes: seq<Keycode>)
    | Down(keycodes: seq<Keycode>)
    | Up(keycodes: seq<Keycode>)

  /** The action a recorded event becomes: a text run becomes a Text action,
      a tap, press or release of one key becomes the same kind of action on the
      one-key chord holding that key. */
  function ToAction(k: KeyEvent): (a: Action)
    ensures k.KeyString? <==> a.Text?
    ensures k.KeyDown? <==> a.Down?
    ensures k.KeyUp? <==> a.Up?
    ensures k.KeyTap? <==> a.Tap?
    ensures k.KeyString? ==> a.text == k.text
    ensures !k.KeyString? ==> a.keycodes == [k.keycode]
  {
    match k
    case KeyString(s) => Text(s)
    case KeyDown(c) => Down([c])
    case KeyUp(c) => Up([c])
    case KeyTap(c) => Tap([c])
  }

  /** The event an action was made from, if it has the shape of one: actions on a
      chord of more or fewer than one key were not produced by a recording. */
  function ToEvent(a: Action): (k: Option<KeyEvent>)
    ensures k.Some? ==> ToAction(k.value) == a
  {
    match a
    case Text(s) => Some(KeyString(s))
    case Tap(cs) => if |cs| == 1 then assert cs == [cs[0]]; Some(KeyTap(cs[0])) else None
    case Down(cs) => if |cs| == 1 then assert cs == [cs[0]]; Some(KeyDown(cs[0])) else None
    case Up(cs) => if |cs| == 1 then assert cs == [cs[0]]; Some(KeyUp(cs[0])) else None
  }

  /** Every event maps to exactly one action, and no information is lost. */
  lemma ToActionRoundTrip(k: KeyEvent)
    ensures ToEvent(ToAction(k)) == Some(k)
  {
  }

  /** The actions materialised from an event stream, one per event, in order. */
  function Materialize(ks: seq<KeyEvent>): (r: seq<Action>)
    ensures |r| == |ks|
    ensures forall i :: 0 <= i < |ks| ==> r[i] == ToAction(ks[i])
  {
    if ks == [] then [] else [ToAction(ks[0])] + Materialize(ks[1..])
  }

  /** Recovers the event stream from materialised actions, failing on any
      action that no event maps to. */
  function Unmaterialize(acts: seq<Action>): (r: Option<seq<KeyEvent>>)
    ensures r.Some? ==> |r.value| == |acts|
  {
    if acts == [] then Some([])
    else match (ToEvent(acts[0]), Unmaterialize(acts[1..]))
      case (Some(k), Some(ks)) => Some([k] + ks)
      case _ => None
  }

  /** Materialisation is lossless: the recorded stream can be read back from the actions. */
  lemma {:induction false} MaterializeRoundTrip(ks: seq<KeyEvent>)
    ensures Unmaterialize(Materialize(ks)) == Some(ks)
  {
    if ks != [] {
      MaterializeRoundTrip(ks[1..]);
      ToActionRoundTrip(ks[0]);
      assert Materialize(ks)[1..] == Materialize(ks[1..]);
      assert [ks[0]] + ks[1..] == ks;
    }
  }

  /** Materialising a concatenation materialises each part. */
  lemma MaterializeAppend(ks: seq<KeyEvent>, k: KeyEvent)
    ensures Materialize(ks + [k]) == Materialize(ks) + [ToAction(k)]
  {
  }
}
