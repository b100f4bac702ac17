/** The pygame key codes the source binds (pygame uses the ASCII code of a
    letter key, and 32 for the space bar). */
module Keys {
  const KeyW: int := 119
  const KeyA: int := 97
  const KeyS: int := 115
  const KeyD: int := 100
  const KeyU: int := 117
  const KeyH: int := 104
  const KeySpace: int := 32
}
