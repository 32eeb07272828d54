/** The key table of the time-bar viewer: each key press becomes an
    operation on the comment bubbles and the amount it applies. */
module KeyEvent {
  import opened Wrappers

  /** The operations, under the names the viewer dispatches on. */
  datatype Op =
    | ESC    // remove all comment bubbles
    | UD     // shift a bubble up or down
    | LR     // shift a bubble left or right
    | PM     // show more or fewer levels of the pin hierarchy
    | BT     // choose the bubble type
    | RESET  // put the bubbles back
    | NONE   // not a bound key

  /** The keys the viewer binds. */
  const BoundKeys: set<string> := {"escape", "up", "down", "left", "right", "a", "d", "1", "2", "r"}

  /** The operation and amount of a key press. */
  function KeyEventCheck(action: string): (r: (Op, real))
    ensures r.0 == NONE <==> action !in BoundKeys
    ensures r.0 == NONE ==> r.1 == 0.0
  {
    if action == "escape" then (ESC, 0.0)
    else if action == "up" then (UD, 0.1)
    else if action == "down" then (UD, -0.1)
    else if action == "left" then (LR, -0.5)
    else if action == "right" then (LR, 0.5)
    else if action == "a" then (PM, 1.0)
    else if action == "d" then (PM, -1.0)
    else if action == "1" then (BT, 1.0)
    else if action == "2" then (BT, 2.0)
    else if action == "r" then (RESET, 0.0)
    else (NONE, 0.0)
  }

  /** The key that produces an operation and amount, if any does. */
  function KeyOf(op: Op, amount: real): (key: Option<string>)
    ensures key.Some? ==> key.value in BoundKeys
  {
    match op
    case ESC => if amount == 0.0 then Some("escape") else None
    case UD => if amount == 0.1 then Some("up") else if amount == -0.1 then Some("down") else None
    case LR => if amount == -0.5 then Some("left") else if amount == 0.5 then Some("right") else None
    case PM => if amount == 1.0 then Some("a") else if amount == -1.0 then Some("d") else None
    case BT => if amount == 1.0 then Some("1") else if amount == 2.0 then Some("2") else None
    case RESET => if amount == 0.0 then Some("r") else None
    case NONE => None
  }

  /** Every bound key is recovered from what it produces, so no two bound
      keys do the same thing. */
  lemma KeyRoundTrip(action: string)
    requires action in BoundKeys
    ensures KeyOf(KeyEventCheck(action).0, KeyEventCheck(action).1) == Some(action)
  {
  }

  /** Two bound keys that produce the same thing are the same key. */
  lemma KeysDistinct(a: string, b: string)
    requires a in BoundKeys && b in BoundKeys
    requires KeyEventCheck(a) == KeyEventCheck(b)
    ensures a == b
  {
    KeyRoundTrip(a);
    KeyRoundTrip(b);
  }

  /** Up and down, left and right, and `a` and `d` are the same operation
      in opposite directions: their amounts cancel. */
  lemma OppositeKeysCancel()
    ensures KeyEventCheck("up").0 == KeyEventCheck("down").0
    ensures KeyEventCheck("up").1 + KeyEventCheck("down").1 == 0.0
    ensures KeyEventCheck("left").0 == KeyEventCheck("right").0
    ensures KeyEventCheck("left").1 + KeyEventCheck("right").1 == 0.0
    ensures KeyEventCheck("a").0 == KeyEventCheck("d").0
    ensures KeyEventCheck("a").1 + KeyEventCheck("d").1 == 0.0
  {
  }
}
