/** `get_line_color`: which colour of the selected scale draws the line. */
module ColorScale {

  /** The index picked from a scale of `len` colours: roughly 70% of the
      way along a scale of more than four colours, the middle otherwise.
      `int(len * 0.7)` is taken as the exact floor of 7·len/10. */
  function LineColorIndex(len: nat): (idx: nat)
    requires len > 0
    ensures idx < len
    ensures len > 4 ==> idx * 10 <= 7 * len < (idx + 1) * 10
    ensures len <= 4 ==> 2 * idx <= len < 2 * idx + 2
  {
    if len > 4 then (7 * len) / 10 else len / 2
  }
}
