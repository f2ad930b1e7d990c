# tileset-comparator: a verified model of variation generation and comparison

`tileset-comparator` reads a Cataclysm-style tileset (`tile_config.json` plus
packed atlas images). It expands every compact tile definition into its
concrete variations, replaces positional sprite ids by content hashes of the
sprite pixels, and then either compares two tilesets or extracts chosen
tiles. This project models that pipeline in Dafny and proves its properties:

- **Atlas indexing** (`atlas.dfy`, module `Atlas`). A `TileAtlas` cuts an
  image into a grid of cells and owns a half-open range of global sprite ids
  in row-major order. `get_sprite` maps an id to its pixel rectangle, and
  `get_sprite_hash` hashes the cell's size and pixels, giving 0 for an id
  outside the range. The free `get_sprite_hash` takes the first atlas whose
  range holds the id.
- **Variation generation** (`variations.dfy`, module `Variations`).
  `generate_variations` has two loops. The first builds one atlas per atlas
  block with a running id counter. The second emits, for every alias id of
  every tile, the composite tiles of its `additional_tiles` and then the
  parent. With `do_hash`, `hash_sprites` rewrites the sprite ids. The result
  is sorted by the derived order. The loops are methods, proved against pure
  specification functions (`Atlases`, `Emitted`).
- **Comparison** (`compare.dfy`, module `Compare`). `find_duplicates` sorts
  the primary ids and runs `partition_dedup`. `compare_tilesets` computes the
  id-set exclusives of each side. When neither side has duplicates, it also
  computes the full-record differences restricted to ids both sides have.
- **Extraction** (`extract.dfy`, module `Extract`). `extract_tiles` expands
  the tileset twice, once without hashing and once with. It maps each
  primary id to its position in the unhashed list, and for each requested id
  takes the hashed record at that position.
- **Parsed shapes and orders**:
  - `single_or_vec.dfy` models `SingleOrVec`, a field written as one value
    or as a list.
  - `sprite_id_with_weight.dfy` models `SpriteIdWithWeight`, a sprite entry
    that is a bare id list or `{weight, sprite}`.
  - `tileset.dfy` models the parsed tileset records.
  - `order.dfy` models the derived `Ord` on all of these, proved a total
    order.
  - `sorting.dfy` holds the sort, which is modelled as an insertion sort. A
    sorted permutation is unique, so the choice of sort algorithm and its
    stability cannot matter.

The hash function is a parameter `hasher`. In the source, `DefaultHasher`
is fed the cell size and then, for each pixel, its `(x, y)` position inside
the cell and its value, and the result is truncated to `u32`. Those
positions are fixed by the cell size and the row-major order, so the hash is
a function of the cell size and the cell's row-major pixels, which is all
the model relies on. The decoded RGBA image is an input.

The panics of `generate_variations` become the error result `BuildError`:
- `NoTileInfo`: `tile_info[0]` on an empty list;
- `ZeroSpriteSize`: a zero cell size in `%` or `/`;
- `IdOverflow`: `u32` overflow of `tiles_total()` or of
  `tiles_start + tiles_total()`, which panics in a debug build.

Three behaviours of the code are easy to miss. The model follows the code in
each:
- `unwrap_or(self.tile_info[0].width)` evaluates its argument first.
  An empty `tile_info` therefore panics even for a block that gives its own
  cell size, and the model reports `NoTileInfo` in that case.
- The variation list is sorted but never deduplicated. Duplicates stay in
  the list and are only reported.
- `src/sprite_id_with_weight.rs` declares sprite ids as `i32`, but
  `src/main.rs` passes them as `u32` and stores `u32` hashes back into them.
  The model uses `u32` throughout.

## Model

| member | source | states |
|---|---|---|
| Order.CmpIntTotal | src/main.rs:55-56 | the derived order on `i32` (`height_3d`, `weight`) is antisymmetric, separates distinct values and is transitive |
| Order.CmpBoolTotal | src/main.rs:50-54 | the derived order on `bool` (`false < true`) is a total order |
| Order.CmpCharTotal | src/main.rs:44-45 | the order on characters used by `String`'s `Ord` is a total order |
| Order.OptionAntisymmetric | src/main.rs:50 | `Option`'s derived order (`None` first) flips when its arguments are swapped, if the inner order does |
| Order.OptionSeparating | src/main.rs:50 | two options compare equal only if they are equal, if the inner order separates |
| Order.OptionTransitive | src/main.rs:50 | `Option`'s derived order is transitive, if the inner order is |
| Order.LexAntisymmetric | src/single_or_vec.rs:3-5 | the lexicographic order of `Vec` flips when its arguments are swapped |
| Order.LexSeparating | src/single_or_vec.rs:3-5 | two sequences compare equal under the lexicographic order only if they are equal |
| Order.LexTransitive | src/single_or_vec.rs:3-5 | the lexicographic order is transitive over a total element order |
| Order.CmpStringTotal | src/main.rs:44-45 | `String`'s order (lexicographic over characters) is a total order |
| Order.LexPrefixFirst | src/single_or_vec.rs:3-5 | a proper prefix sorts strictly before the longer sequence |
| Sorting.Insert | src/main.rs:302 | inserting into a sorted sequence keeps it sorted and adds exactly the one element, as a multiset |
| Sorting.SortBy | src/main.rs:302 | the sort's output is sorted and is a permutation of its input |
| Sorting.SortedUnique | src/main.rs:302 | two sorted permutations of the same multiset are equal under a total order, so any sort (stable or `sort_unstable`) gives the same list |
| Sorting.SortedSameHead | src/main.rs:302 | two sorted permutations of the same multiset start with the same element |
| Sorting.SortedNewValue | src/main.rs:314-315 | in a sorted sequence an element different from its predecessor occurs nowhere before it |
| Sorting.DistinctCounts | src/main.rs:315 | a sequence has no repeated element exactly when every element has multiplicity at most one |
| Sorting.MapPermutation | src/main.rs:313 | mapping two permutations of each other element-wise gives permutations of each other |
| SingleOrVec.FromSource | src/single_or_vec.rs:15-22 | a bare value becomes the one-element list of it; a list is kept as written |
| SingleOrVec.FromSingle | src/single_or_vec.rs:24-28 | `from_single(v)` is the list holding exactly `v` |
| SingleOrVec.Default | src/single_or_vec.rs:3-5 | the derived default is the empty list |
| SingleOrVec.SingleIsOneElementVector | src/single_or_vec.rs:15-28 | the bare form, the one-element list form and `from_single` give the same value |
| SingleOrVec.FromSourceIdempotent | src/single_or_vec.rs:15-22 | a normal form read back as a list is unchanged |
| SingleOrVec.FromSourceElements | src/single_or_vec.rs:15-22 | the normal form holds exactly the values written in the source, in both directions |
| SingleOrVec.DefaultIsLeast | src/single_or_vec.rs:3-5 | the default is the least value of the derived order, and the only one equal to it |
| SpriteIdWithWeight.FromSource | src/sprite_id_with_weight.rs:22-32 | a bare id list gets no weight; `{weight, sprite}` keeps the ids and the weight |
| SpriteIdWithWeight.Default | src/sprite_id_with_weight.rs:4-9 | the derived default has no ids and no weight |
| SpriteIdWithWeight.FromSourceFaithful | src/sprite_id_with_weight.rs:22-32 | conversion keeps the ids and the weight exactly and is injective: the source shape is determined by the result |
| SpriteIdWithWeight.UnweightedFirst | src/sprite_id_with_weight.rs:4-9 | a bare id list sorts strictly before a weighted entry with the same ids |
| SpriteIdWithWeight.CmpTotal | src/sprite_id_with_weight.rs:4-9 | the derived order (ids, then weight) is a total order |
| SpriteIdWithWeight.CmpListTotal | src/sprite_id_with_weight.rs:4-9 | the derived order on a layer list is a total order |
| Atlas.TileAtlas.InBounds | src/main.rs:138-140 | `in_bounds`: the id lies in the half-open range `[tiles_start, tiles_end)` (definition, no contract) |
| Atlas.LookupHash | src/main.rs:189-197 | the free `get_sprite_hash` as a value: the hash from the first atlas whose range holds the id, else 0 (definition; its properties are in `LookupFirstMatch`, `LookupNoMatch`, and `GetSpriteHash` is proved equal to it) |
| Atlas.Crop | src/main.rs:146-151 | the pixels of a rectangle inside the image, row by row: exactly width × height pixels |
| Atlas.TileAtlas.TilesTotal | src/main.rs:134-136 | for an atlas built as `generate_variations` builds it, the range ends `tiles_total` after its start, and the cells cover no more pixels than the image |
| Atlas.TileAtlas.Cell | src/main.rs:142-145 | an in-range id's column is below `tiles_x`, its row below `tiles_y`, and `start + row·tiles_x + col` gives back the id |
| Atlas.TileAtlas.GetSprite | src/main.rs:142-152 | the sprite rectangle of an in-range id has the cell size, starts at the cell's pixel origin and lies inside the image, so `view` cannot panic |
| Atlas.TileAtlas.SpritePixels | src/main.rs:163-171 | the sprite's pixels are exactly cell width × cell height pixels |
| Atlas.TileAtlas.SpriteHash | src/main.rs:154-175 | an out-of-range id hashes to 0; an in-range id hashes to the hasher applied to the cell size and the cell's pixels |
| Atlas.CellRoundTrip | src/main.rs:143-145 | row-major numbering is a bijection: every grid cell's id is in range and maps back to that cell |
| Atlas.InBoundsIsGrid | src/main.rs:138-140 | an id is in range exactly when it is one of the `tiles_total` ids from the start, and then it is the id of its own cell |
| Atlas.HashIsPositionIndependent | src/main.rs:165-174 | two sprites with the same cell size and pixels hash equally, whatever atlas, range or grid position they come from |
| Atlas.GetSpriteHash | src/main.rs:189-197 | the loop with early return yields the hash of the first atlas whose range holds the id, or 0 |
| Atlas.LookupFirstMatch | src/main.rs:189-194 | the first atlas holding the id decides its hash |
| Atlas.LookupNoMatch | src/main.rs:195-196 | an id outside every atlas hashes to the sentinel 0 |
| Order.LexCmp | src/single_or_vec.rs:3-5 | the derived `Ord` of `Vec`: the first unequal element decides, and a proper prefix comes first (definition; proved total by `LexAntisymmetric`, `LexSeparating`, `LexTransitive`) |
| Order.CmpOption | src/main.rs:50 | `Option`'s derived `Ord`: `None` before `Some`, two `Some`s by their values (definition; proved total by the `Option*` lemmas) |
| SingleOrVec.Cmp | src/single_or_vec.rs:3-5 | the derived `Ord` of the newtype: the lexicographic order of its `Vec` (definition) |
| SpriteIdWithWeight.Cmp | src/sprite_id_with_weight.rs:4-9 | the derived `Ord`: ids lexicographically, then the weight (definition; proved total by `CmpTotal`) |
| SpriteIdWithWeight.CmpList | src/sprite_id_with_weight.rs:4-9 | the derived `Ord` on a layer list: lexicographic over `Cmp` (definition; proved total by `CmpListTotal`) |
| Tileset.CmpTile | src/main.rs:42-57 | the derived order compares fields in declaration order: id first, then fg, bg, rotates, multitile, animated, height_3d |
| Tileset.CmpIdsTotal | src/main.rs:45 | the order on the `id` field is a total order |
| Tileset.CmpTileTotal | src/main.rs:42-57 | the derived order on `SingleTile` is a total order, so sorting is well defined |
| Tileset.TileTransitive | src/main.rs:42-57 | the derived order on `SingleTile` is transitive |
| Tileset.CmpTileById | src/main.rs:42-45 | a strictly smaller id makes a strictly smaller tile, so a sorted list is sorted by id |
| Variations.SpriteWidth | src/main.rs:239 | a block's cell width: its own `sprite_width`, else `tile_info[0].width`; requires a non-empty `tile_info` because the default is evaluated eagerly (definition) |
| Variations.SpriteHeight | src/main.rs:240 | a block's cell height, likewise from `sprite_height` or `tile_info[0].height` (definition) |
| Variations.CellCount | src/main.rs:254-255 | `tiles_x * tiles_y` of a block: image width and height divided by the cell size (definition) |
| Variations.CellsBefore | src/main.rs:231-265 | the running `tiles_start` before block `n`: the sum of the earlier blocks' cell counts (definition; `StepCells`, `AtlasRanges` and `BuildAtlases` relate it to the loop) |
| Variations.CellsBeforeMonotone | src/main.rs:231-265 | the running `tiles_start` never decreases from block to block |
| Variations.AtlasFor | src/main.rs:251-260 | the atlas built for a block has a non-zero cell size, `tiles_x`/`tiles_y` the image divided by the cell size, and a range of exactly its cell count |
| Variations.AtlasesUpTo | src/main.rs:231-268 | the atlases of the first `n` blocks number `n`, are all well built, and the last ends at the running total |
| Variations.Atlases | src/main.rs:231-268 | one well-built atlas per block |
| Variations.BuildAtlases | src/main.rs:231-268 | the first loop succeeds exactly when every block has a non-zero cell size and all ids fit in `u32`, and then yields `Atlases`; it fails with `NoTileInfo` exactly when there is a block and `tile_info` is empty |
| Variations.BuildAtlas | src/main.rs:235-267 | one iteration succeeds exactly when the block's cell size is non-zero and its range end fits in `u32`, and then builds the block's atlas at the running start; `NoTileInfo` exactly when `tile_info` is empty |
| Variations.StepCells | src/main.rs:254-265 | each block adds `tiles_x * tiles_y` to the running start |
| Variations.NotBuildableAfterOverflow | src/main.rs:260 | once the running total reaches 2^32, the tileset cannot be built |
| Variations.AtlasesUpToAt | src/main.rs:267 | the atlas of block `k` is at position `k` of the list |
| Variations.AtlasRanges | src/main.rs:256-265 | the first atlas starts at id 0, each atlas's range has its grid's cell count, and each starts where the previous ends |
| Variations.OwnerUnique | src/main.rs:251-265 | the atlas ranges are pairwise disjoint: at most one atlas owns an id |
| Variations.OwnerExists | src/main.rs:251-265 | an id is owned by one of the first `n` atlases exactly when it lies below their running total |
| Variations.OwnedIsBelow | src/main.rs:251-265 | an id in the range of one of the first `n` atlases lies below their running total |
| Variations.LookupInAtlases | src/main.rs:189-197 | over the built atlases, an id of block `k`'s range is hashed by block `k`'s atlas, and an id beyond every range hashes to 0 |
| Variations.HashLayers | src/main.rs:199-205 | `hash_sprites` as a value: each layer keeps its weight and has every sprite id replaced by its lookup hash (definition; `HashSprites` is proved equal to it) |
| Variations.HashSprites | src/main.rs:199-205 | every sprite id of every layer is replaced by its lookup hash; the layer count, each layer's id count and each weight are unchanged |
| Variations.ParentVariant | src/main.rs:272-282 | the parent clone for one alias has exactly that id, resolved sprites, `rotates` defaulting to `multitile`, and the other fields of the authored tile |
| Variations.CompositeVariant | src/main.rs:284-292 | a composite has id `alias + "_" + part_alias`, the part's resolved sprites, `rotates` forced on, the part's flags and the parent's `height_3d` |
| Variations.PartAliasVariants | src/main.rs:284-294 | one composite per id of the part, in the part's id order |
| Variations.PartVariants | src/main.rs:283-295 | one composite per (part, part id) |
| Variations.AliasOutput | src/main.rs:273-297 | an alias emits its composites and then one parent |
| Variations.AliasVariants | src/main.rs:272-298 | a tile emits `aliases × (1 + Σ part ids)` tiles |
| Variations.TileVariants | src/main.rs:271-299 | the tiles of a block emit the sum of their fan-outs |
| Variations.Emitted | src/main.rs:270-300 | the whole expansion emits `FanOut` tiles |
| Variations.ResolveSprites | src/main.rs:275-278 | the clone's fg and bg are resolved (hashed when `do_hash`), nothing else changes |
| Variations.PushPartAliases | src/main.rs:284-294 | the loop over a part's ids appends exactly that part's composites, in order |
| Variations.CloneForPart | src/main.rs:285-292 | the clone built for one part id is that composite |
| Variations.PushComposites | src/main.rs:283-295 | the loop over `additional_tiles` appends exactly the composites of every part, in order |
| Variations.CloneForAlias | src/main.rs:273-282 | the clone built for one alias is that parent variant |
| Variations.PushTile | src/main.rs:272-298 | the loop over a tile's ids appends exactly that tile's output, alias by alias |
| Variations.AliasVariantsSnoc | src/main.rs:272-298 | one more alias appends exactly that alias's output |
| Variations.PushAlias | src/main.rs:273-297 | one alias appends its composites, then the parent |
| Variations.ExpandBlocks | src/main.rs:270-300 | the second loop produces exactly the specification's emitted list, in push order |
| Variations.SortTiles | src/main.rs:302 | the result is sorted by the derived order and is a permutation of the pushed tiles |
| Variations.GenerateVariations | src/main.rs:224-304 | succeeds exactly when the tileset is buildable; then the atlases are `Atlases`, the tiles are sorted by the derived order and are a permutation of the emitted tiles |
| Variations.PartVariantsHas | src/main.rs:283-295 | every (part, part id) composite is emitted |
| Variations.PartVariantsFrom | src/main.rs:283-295 | every emitted composite is the composite of some part and part id |
| Variations.AliasVariantsHas | src/main.rs:272-298 | the parent and every composite of every alias are emitted |
| Variations.AliasVariantsFrom | src/main.rs:272-298 | every emitted tile is the parent or a composite of some alias |
| Variations.TileVariantsHas | src/main.rs:271-299 | the output of every alias of every tile of a block is emitted |
| Variations.TileVariantsFrom | src/main.rs:271-299 | everything a block emits comes from one of its tiles |
| Variations.EmittedHas | src/main.rs:270-300 | the output of every alias of every tile of every block is emitted |
| Variations.EmittedFrom | src/main.rs:270-300 | everything emitted comes from some alias of some tile of some block |
| Variations.EmittedMembers | src/main.rs:270-300 | a tile is emitted exactly when it is the parent or a composite of some alias: nothing is lost, nothing else appears |
| Variations.EmittedExpanded | src/main.rs:273-297 | every emitted tile has exactly one id and a decided `rotates` |
| Variations.VariationsShape | src/main.rs:270-303 | the sorted result has `FanOut` tiles, each expanded, and holds exactly the generated tiles |
| Variations.PartAliasVariantsHashed | src/main.rs:283-294 | with hashing, a part's composites are the unhashed composites with their sprites hashed |
| Variations.PartVariantsHashed | src/main.rs:283-295 | with hashing, all composites of one alias are the unhashed ones with their sprites hashed |
| Variations.AliasVariantsHashed | src/main.rs:272-298 | with hashing, a tile's output is its unhashed output with every tile hashed, in the same order |
| Variations.AliasOutputHashed | src/main.rs:273-297 | with hashing, one alias's output is its unhashed output hashed |
| Variations.TileVariantsHashed | src/main.rs:271-299 | with hashing, a block's output is its unhashed output hashed |
| Variations.EmittedHashed | src/main.rs:270-300 | `do_hash = true` emits exactly the `do_hash = false` list with every tile's sprite ids hashed, in the same order |
| Variations.UnhashedKeepsSprites | src/main.rs:275-278 | without hashing, parents and composites keep the authored fg and bg |
| Compare.PrimaryIds | src/main.rs:313 | the primary ids, one per tile, in order |
| Compare.PartitionDedup | src/main.rs:315 | kept and duplicates together are the input as a multiset; every input value is kept; on sorted input the kept part has no repeats |
| Compare.DupStep | src/main.rs:315 | an element equal to its predecessor moves to the duplicates and the partition state holds |
| Compare.KeepStep | src/main.rs:315 | a new element is kept and the partition state holds |
| Compare.KeptStaysDistinct | src/main.rs:314-315 | on sorted input, keeping an element different from its predecessor keeps the kept part free of repeats |
| Compare.SortIds | src/main.rs:314 | `sort_unstable` on the ids gives a sorted permutation |
| Compare.FindDuplicates | src/main.rs:312-317 | each id occurs in the result once less than in the tiles' primary ids; the result is empty exactly when no primary id repeats; every reported id occurs at least twice |
| Compare.IdSet | src/main.rs:355-356 | the `HashSet` of primary ids of a variation list (definition) |
| Compare.DiffRecords | src/main.rs:366-378 | the `difference` of the two record sets, filtered to records whose primary id the other side has (definition; `DiffIdsCommon`, `DiffSymmetric`, `NoDiffMeansAgree` state its properties) |
| Compare.DiffIds | src/main.rs:332 | the primary ids `dump_diffs` writes for a set of records (definition) |
| Compare.CompareVariations | src/main.rs:347-381 | exclusives are the ids on one side only (both directions); duplicates as above; the record diff is computed exactly when neither side has duplicates and is the two filtered set differences |
| Compare.CompareTilesets | src/main.rs:338-386 | fails exactly when either side cannot be built; otherwise both lists are the sorted hashed expansions, each duplicate list holds every primary id once less than it occurs, the exclusives are the ids on one side only, and the record diff is present exactly when neither side repeats a primary id (equivalently, both duplicate lists are empty) and is then the two filtered set differences |
| Compare.AllHaveIds | src/main.rs:355-356 | every generated tile has a primary id, so `x.id.0[0]` cannot panic |
| Compare.DupsEmpty | src/main.rs:352 | the duplicate list is empty exactly when the primary ids have no repeats |
| Compare.DiffIdsCommon | src/main.rs:369-378 | every differing id is present on both sides |
| Compare.DiffIdsIncluded | src/main.rs:369-378 | if side 1 has no repeated id, every id it reports as differing is also reported by side 2 |
| Compare.DiffSymmetric | src/main.rs:369-378 | without duplicates on either side, both sides report the same differing ids |
| Compare.NoDiffMeansAgree | src/main.rs:366-373 | if side 2 has no repeated id, side 1 reports no differing record exactly when every pair of tiles with the same id on the two sides is equal |
| Extract.IdIndex | src/main.rs:408-412 | the map has exactly the primary ids as keys and every value is a position in the list |
| Extract.IdIndexLast | src/main.rs:408-412 | each id maps to a position holding that id, and no later position holds it (the `HashMap` keeps the last insert) |
| Extract.IdIndexAt | src/main.rs:408-412 | the same, for one id |
| Extract.LookupAll | src/main.rs:414-425 | one entry per requested id, found exactly when the id is a key, with both records taken at the mapped position |
| Extract.ExtractTiles | src/main.rs:404-425 | fails exactly when the tileset cannot be built; otherwise both lists are the sorted expansions, each found entry's records carry the requested id, and with distinct ids the JSON record is the saved tile with its sprites hashed |
| Extract.FoundHasId | src/main.rs:415-425 | both records of a found entry carry exactly the requested id |
| Extract.FoundIsHashed | src/main.rs:421-425 | when the hashed list is the plain list hashed element-wise, a found entry's JSON record is its tile hashed |
| Extract.SortedIds | src/main.rs:302 | a list sorted by the derived order is sorted by id |
| Extract.HashKeepsIds | src/main.rs:276-277 | hashing sprites does not change any id |
| Extract.IdsPermutation | src/main.rs:405-406 | the two runs have the same ids, as multisets |
| Extract.LineUpIds | src/main.rs:405-421 | the two sorted runs have the same length and the same id at every position, so `vars_hashed[idx]` has the id found in `vars` |
| Extract.SortedIdsUnique | src/main.rs:302 | two sorted permutations of the same ids are equal |
| Extract.MappedStaysSorted | src/main.rs:302 | with distinct ids, hashing every tile keeps the list sorted |
| Extract.LineUpTiles | src/main.rs:405-425 | with distinct ids, the hashed run is the unhashed run with every tile hashed, position by position |
| Extract.SortedTilesUnique | src/main.rs:302 | two sorted permutations of the same tiles are equal |

## Left out

- File I/O is not modelled: `load_tileset`, the JSON parse, `dump_variations`, `dump_duplicates`, `dump_exclusives`, `dump_diffs`, creating and removing the `sprites/` directory, and writing `.json` and `.png` files. The model returns the values that would be written instead.
- `dump_sprites_to_dir` and the `do_dump` flag are not modelled, because they only write files.
- `save_tile_as` is not modelled, because it writes PNG files. As a result, the model does not produce its panic on an id outside every atlas.
- Image decoding and `to_rgba8` are not modelled; the decoded RGBA image is an input.
- `DefaultHasher` and the narrowing `as u32` are not modelled; the hash is the parameter `hasher`.
- The `eprintln!` warnings are not modelled. These are "cannot be properly divided", "outside active atlas range", "outside all atlas ranges" and "duplicate tiles found".
- The command line (`clap`), `load_ids_file` and `main` are not modelled.
- `pixelscale`, `iso`'s use, sprite offsets, `ascii`, `overlay_ordering` and the `//` comments are not modelled. They are parsed but not used by the core.
- Serde's strict-schema rejection of unknown keys is not modelled.
- Variations.GenerateVariations: a `u32` overflow is an error (`IdOverflow`), as in a debug build. In a release build the counter wraps silently, and the model does not capture that.
- Variations.SortTiles: the sort is an insertion sort on values, not the library's in-place merge sort. `Sorting.SortedUnique` shows that every correct sort gives the same list.
- Compare.PartitionDedup: the duplicates' order is unspecified in Rust, so only their multiset is stated.
- Compare.CompareVariations: the `HashSet`s of ids and records are Dafny sets, and the lexicographic sort before writing is not modelled.
- Extract.ExtractTiles: the JSON record is proved to be the saved tile hashed only when no primary id repeats. With repeated ids, the two runs may order the duplicates differently, and the model states only that both records carry the requested id.
