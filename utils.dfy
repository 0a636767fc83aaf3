/**
 * The `Action` enum of utils/index.ts: the two editing modes of the canvas.
 *
 * TypeScript compiles a numeric enum to an object holding both the forward
 * (`DRAG -> 0`) and the reverse (`0 -> "DRAG"`) mappings, so `Object.keys`
 * of it has twice as many entries as the enum has members.
 */
module Utils {

  import opened Optional

  datatype Action = DRAG | DRAW

  /** `Object.keys(Action).length`: "0", "1", "DRAG" and "DRAW". */
  const EnumKeyCount: nat := 4

  /** The number `Action.X` stands for. */
  function Ordinal(a: Action): (n: nat)
    ensures n < EnumKeyCount / 2
    ensures (n == 0) == (a == DRAG)
  {
    match a
    case DRAG => 0
    case DRAW => 1
  }

  /** The member a number stands for; numbers outside the enum have none. */
  function FromOrdinal(n: int): (r: Option<Action>)
    ensures r.Some? <==> 0 <= n < EnumKeyCount / 2
    ensures r.Some? ==> Ordinal(r.value) == n
  {
    if n == 0 then Some(DRAG)
    else if n == 1 then Some(DRAW)
    else None
  }
}
