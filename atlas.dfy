/**
 * `TileAtlas` (src/main.rs): one packed image cut into a grid of
 * equally sized sprite cells, owning the half-open global id range
 * `[tilesStart, tilesEnd)` in row-major order, and the content hash of a
 * cell.
 *
 * The decoded image is given (width, height and rows of RGBA pixels); the
 * hash function is a parameter `hasher` of type `Hasher`.  `DefaultHasher`
 * is fed the cell size and then, for each pixel of the cell, its `(x, y)`
 * position inside the cell and its value, and is truncated to 32 bits.  The
 * positions follow from the cell size and the row-major order, so the hash
 * is a function of the cell size and the cell's row-major pixels.
 */
module Atlas {
  import opened Types

  datatype Rgba = Rgba(r: u8, g: u8, b: u8, a: u8)

  /** A decoded RGBA image: `height` rows of `width` pixels each. */
  datatype Image = Image(width: u32, height: u32, rows: seq<seq<Rgba>>) {
    predicate Valid() {
      |rows| == height && forall y :: 0 <= y < |rows| ==> |rows[y]| == width
    }
  }

  /** What the image decoder and `to_rgba8` produce: a well-formed pixel grid. */
  type RgbaImage = img: Image | img.Valid() witness Image(0, 0, [])

  /** A pixel rectangle, as passed to `GenericImageView::view(x, y, w, h)`. */
  datatype Rect = Rect(x: nat, y: nat, w: nat, h: nat)

  /** `view` panics unless the rectangle lies inside the image. */
  predicate Inside(r: Rect, img: Image) {
    r.x + r.w <= img.width && r.y + r.h <= img.height
  }

  /** The content hash: a function of the cell size and the cell's pixels only. */
  type Hasher = (u32, u32, seq<Rgba>) -> u32

  /** The pixels of a rectangle in row-major order, as `SubImage::pixels` yields them. */
  function Crop(img: RgbaImage, r: Rect): (px: seq<Rgba>)
    requires Inside(r, img)
    ensures |px| == r.w * r.h
    decreases r.h
  {
    if r.h == 0 then []
    else
      var rest := Crop(img, Rect(r.x, r.y + 1, r.w, r.h - 1));
      assert r.w * r.h == r.w + r.w * (r.h - 1);
      img.rows[r.y][r.x .. r.x + r.w] + rest
  }

  datatype TileAtlas = TileAtlas(
    img: RgbaImage,
    spriteW: u32,
    spriteH: u32,
    tilesX: u32,
    tilesY: u32,
    tilesStart: u32,
    tilesEnd: u32)
  {
    /** How `generate_variations` builds every atlas (src/main.rs:251-260). */
    predicate Valid() {
      && spriteW > 0 && spriteH > 0
      && tilesX == img.width / spriteW
      && tilesY == img.height / spriteH
      && RangeFitsGrid()
    }

    /** `tiles_end == tiles_start + tiles_total()` (src/main.rs:260). */
    predicate RangeFitsGrid() {
      tilesEnd == tilesStart + tilesX * tilesY
    }

    /** `tiles_total`: the number of cells in the grid. */
    function TilesTotal(): (n: nat)
      ensures Valid() ==> tilesStart + n == tilesEnd
      ensures Valid() ==> n * spriteW * spriteH <= img.width * img.height
    {
      var n := tilesX * tilesY;
      assert Valid() ==> n * spriteW * spriteH <= img.width * img.height by {
        if Valid() {
          GridFits(img.width, spriteW);
          GridFits(img.height, spriteH);
          calc {
            n * spriteW * spriteH;
            == (tilesX * spriteW) * (tilesY * spriteH);
            <= { MulMonotone(tilesX * spriteW, img.width, tilesY * spriteH);
                 MulMonotone(tilesY * spriteH, img.height, img.width); }
               img.width * img.height;
          }
        }
      }
      n
    }

    /** `in_bounds`. */
    predicate InBounds(id: u32) {
      tilesStart <= id < tilesEnd
    }

    /**
     * The grid cell `(column, row)` of an in-bounds id, in row-major order
     * (src/main.rs:143-145).
     */
    function Cell(id: u32): (c: (nat, nat))
      requires RangeFitsGrid() && InBounds(id)
      ensures c.0 < tilesX && c.1 < tilesY
      ensures id == tilesStart + c.1 * tilesX + c.0
    {
      var local: nat := id - tilesStart;
      var cols: nat, rows: nat := tilesX, tilesY;
      assert local < cols * rows;
      GridDivision(local, cols, rows);
      (local % cols, local / cols)
    }

    /** The id of grid cell `(col, row)`: the inverse of `Cell`. */
    function IdOfCell(col: nat, row: nat): int {
      tilesStart + row * tilesX + col
    }

    /** `get_sprite`: the cell's pixel rectangle, always inside the image. */
    function GetSprite(id: u32): (r: Rect)
      requires Valid() && InBounds(id)
      ensures Inside(r, img) && r.w == spriteW && r.h == spriteH
      ensures r.x == Cell(id).0 * spriteW && r.y == Cell(id).1 * spriteH
    {
      var (col, row) := Cell(id);
      GridFits(img.width, spriteW);
      GridFits(img.height, spriteH);
      MulMonotone(col + 1, tilesX, spriteW);
      MulMonotone(row + 1, tilesY, spriteH);
      Rect(col * spriteW, row * spriteH, spriteW, spriteH)
    }

    /** The pixels of the sprite with this id. */
    function SpritePixels(id: u32): (px: seq<Rgba>)
      requires Valid() && InBounds(id)
      ensures |px| == spriteW * spriteH
    {
      Crop(img, GetSprite(id))
    }

    /** `TileAtlas::get_sprite_hash`: 0 outside the range, else the cell's content hash. */
    function SpriteHash(hasher: Hasher, id: u32): (h: u32)
      requires Valid()
      ensures !InBounds(id) ==> h == 0
      ensures InBounds(id) ==> h == hasher(spriteW, spriteH, SpritePixels(id))
    {
      if !InBounds(id) then 0 else hasher(spriteW, spriteH, SpritePixels(id))
    }
  }

  /** Splitting an index below `cols * rows` into a column and a row. */
  lemma GridDivision(local: nat, cols: nat, rows: nat)
    requires local < cols * rows
    ensures cols > 0
    ensures local % cols < cols && local / cols < rows
    ensures local == (local / cols) * cols + local % cols
  {
    assert cols != 0;
    var q := local / cols;
    MulMonotone(rows, if q < rows then rows else q, cols);
  }

  /** The grid covers at most the image: `(total / cell) * cell <= total`. */
  lemma GridFits(total: nat, cell: nat)
    requires cell > 0
    ensures (total / cell) * cell <= total
  {
  }

  lemma MulMonotone(a: nat, b: nat, c: nat)
    requires a <= b
    ensures a * c <= b * c
  {
  }

  /** `m == q * n + c` with `c < n` fixes the quotient and the remainder. */
  lemma DivModUnique(m: nat, n: nat, q: nat, c: nat)
    requires n > 0 && c < n && m == q * n + c
    ensures m / n == q && m % n == c
  {
    var q', c' := m / n, m % n;
    assert m == q' * n + c';
    if q' < q {
      MulMonotone(q' + 1, q, n);
    } else if q < q' {
      MulMonotone(q + 1, q', n);
    }
  }

  /**
   * Row-major numbering is a bijection between the atlas's id range and its
   * grid: each cell's id is in range and maps back to that cell.
   */
  lemma CellRoundTrip(a: TileAtlas, col: nat, row: nat)
    requires a.RangeFitsGrid() && col < a.tilesX && row < a.tilesY
    ensures 0 <= a.IdOfCell(col, row) < U32_LIMIT
    ensures a.InBounds(a.IdOfCell(col, row))
    ensures a.Cell(a.IdOfCell(col, row)) == (col, row)
  {
    var cols: nat, rows: nat := a.tilesX, a.tilesY;
    var local: nat := row * cols + col;
    MulMonotone(row + 1, rows, cols);
    assert local < rows * cols;
    DivModUnique(local, cols, row, col);
  }

  /** The range `[tilesStart, tilesEnd)` has exactly `TilesTotal()` ids, all of them cells. */
  lemma InBoundsIsGrid(a: TileAtlas, id: u32)
    requires a.Valid()
    ensures a.InBounds(id) <==> a.tilesStart <= id < a.tilesStart + a.TilesTotal()
    ensures a.InBounds(id) ==> a.IdOfCell(a.Cell(id).0, a.Cell(id).1) == id
  {
  }

  /**
   * Content addressing: the hash of a sprite depends only on the cell size
   * and the cell's pixels, not on the atlas, its id range or the cell's
   * position in the grid.
   */
  lemma HashIsPositionIndependent(hasher: Hasher, a: TileAtlas, i: u32, b: TileAtlas, j: u32)
    requires a.Valid() && b.Valid() && a.InBounds(i) && b.InBounds(j)
    requires a.spriteW == b.spriteW && a.spriteH == b.spriteH
    requires a.SpritePixels(i) == b.SpritePixels(j)
    ensures a.SpriteHash(hasher, i) == b.SpriteHash(hasher, j)
  {
  }

  /**
   * The free `get_sprite_hash` (src/main.rs:189-197): the hash from the
   * first atlas whose range holds the id, or 0 when none does.
   */
  function LookupHash(atlases: seq<TileAtlas>, hasher: Hasher, id: u32): u32
    requires forall k :: 0 <= k < |atlases| ==> atlases[k].Valid()
    decreases |atlases|
  {
    if |atlases| == 0 then 0
    else if atlases[0].InBounds(id) then atlases[0].SpriteHash(hasher, id)
    else LookupHash(atlases[1..], hasher, id)
  }

  /** The loop of the free `get_sprite_hash`, with its early return. */
  method GetSpriteHash(atlases: seq<TileAtlas>, hasher: Hasher, id: u32) returns (h: u32)
    requires forall k :: 0 <= k < |atlases| ==> atlases[k].Valid()
    ensures h == LookupHash(atlases, hasher, id)
  {
    var i := 0;
    while i < |atlases|
      invariant 0 <= i <= |atlases|
      invariant LookupHash(atlases, hasher, id) == LookupHash(atlases[i..], hasher, id)
    {
      if atlases[i].InBounds(id) {
        return atlases[i].SpriteHash(hasher, id);
      }
      assert atlases[i..][1..] == atlases[i + 1..];
      i := i + 1;
    }
    return 0;
  }

  /** The first atlas holding the id decides its hash. */
  lemma {:induction false} LookupFirstMatch(atlases: seq<TileAtlas>, hasher: Hasher, id: u32, k: nat)
    requires forall j :: 0 <= j < |atlases| ==> atlases[j].Valid()
    requires k < |atlases| && atlases[k].InBounds(id)
    requires forall j :: 0 <= j < k ==> !atlases[j].InBounds(id)
    ensures LookupHash(atlases, hasher, id) == atlases[k].SpriteHash(hasher, id)
    decreases k
  {
    if k > 0 {
      LookupFirstMatch(atlases[1..], hasher, id, k - 1);
    }
  }

  /** An id outside every atlas hashes to the sentinel 0. */
  lemma {:induction false} LookupNoMatch(atlases: seq<TileAtlas>, hasher: Hasher, id: u32)
    requires forall j :: 0 <= j < |atlases| ==> atlases[j].Valid()
    requires forall j :: 0 <= j < |atlases| ==> !atlases[j].InBounds(id)
    ensures LookupHash(atlases, hasher, id) == 0
    decreases |atlases|
  {
    if |atlases| > 0 {
      LookupNoMatch(atlases[1..], hasher, id);
    }
  }
}
