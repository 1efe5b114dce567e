/** Where the children of an FMM box lie: 0 upper right, 1 upper left, 2 lower left, 3 lower right, each
    with half the length of its parent. */
module BoxGeometry {

  function ChildX(x: real, length: real, q: int): real {
    if q == 0 || q == 3 then x + length / 4.0 else x - length / 4.0
  }

  function ChildY(y: real, length: real, q: int): real {
    if q == 0 || q == 1 then y + length / 4.0 else y - length / 4.0
  }
}
