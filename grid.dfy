/** The grid layout for each level. */
module Grid {

  datatype GridConfig = GridConfig(rows: nat, cols: nat)

  /** `getGridConfig`: 2×2, 3×3, 3×4 and 4×4 for levels 0 to 3, and 4×5 for
      every other level. Every grid is square or one column wider than tall. */
  function GetGridConfig(level: int): (g: GridConfig)
    ensures 2 <= g.rows <= 4
    ensures g.rows <= g.cols <= g.rows + 1
  {
    if level == 0 then GridConfig(2, 2)
    else if level == 1 then GridConfig(3, 3)
    else if level == 2 then GridConfig(3, 4)
    else if level == 3 then GridConfig(4, 4)
    else GridConfig(4, 5)
  }

  /** The number of tiles `buildGrid` creates: rows times columns. */
  function TileCount(level: int): (n: nat)
    ensures 4 <= n <= 20
  {
    var g := GetGridConfig(level);
    g.rows * g.cols
  }

  /** The tile counts of the table: 4, 9, 12, 16, then 20 from level 4 on
      (and for any negative level, which falls through to the last case). */
  lemma TileCounts(level: int)
    ensures level == 0 ==> TileCount(level) == 4
    ensures level == 1 ==> TileCount(level) == 9
    ensures level == 2 ==> TileCount(level) == 12
    ensures level == 3 ==> TileCount(level) == 16
    ensures (level >= 4 || level < 0) ==> TileCount(level) == 20
  {
  }

  /** Grids never shrink as the player advances. */
  lemma TileCountMonotone(l1: int, l2: int)
    requires 0 <= l1 <= l2
    ensures TileCount(l1) <= TileCount(l2)
  {
    TileCounts(l1);
    TileCounts(l2);
  }
}
