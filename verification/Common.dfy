/** What several parts of the model share. */
module Common {
  // Mapping slots of a translation page (EPP).
  const EPP: nat := 512
  // UINT32_MAX: no page, no slot.
  const NIL: nat := 0xFFFF_FFFF

  function Flat<T>(parts: seq<seq<T>>): seq<T> {
    if parts == [] then [] else parts[0] + Flat(parts[1..])
  }
}
