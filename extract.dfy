/**
 * `extract_tiles` (src/main.rs:404-450) without its file writes: both runs
 * of `generate_variations`, the map from primary id to position in the
 * unhashed list, and the lookup of each requested id, which takes the JSON
 * record from the hashed list at the position found in the unhashed one.
 *
 * The two lists line up: position by position they hold the same ids, and
 * when no primary id repeats, the hashed list is the unhashed one with every
 * tile's sprite ids hashed.
 */
module Extract {
  import opened Types
  import opened Order
  import opened Sorting
  import opened Atlas
  import opened Tileset
  import opened Variations
  import opened Compare
  import SingleOrVec

  /**
   * `vars_hm`: each primary id mapped to its position.  Collecting into a
   * `HashMap` keeps the last value inserted for a key, so a repeated id maps
   * to its last position.
   */
  function IdIndex(vars: seq<SingleTile>): (m: map<string, nat>)
    requires HasIds(vars)
    ensures m.Keys == IdSet(vars)
    ensures forall x :: x in m ==> m[x] < |vars|
    decreases |vars|
  {
    if |vars| == 0 then map[]
    else
      var n := |vars| - 1;
      IdSetSnoc(vars);
      IdIndex(vars[..n])[vars[n].id[0] := n]
  }

  /** Each id is mapped to the last position holding it. */
  lemma IdIndexLast(vars: seq<SingleTile>)
    requires HasIds(vars)
    ensures forall x :: x in IdIndex(vars) ==> vars[IdIndex(vars)[x]].id[0] == x
    ensures forall x, j :: x in IdIndex(vars) && IdIndex(vars)[x] < j < |vars| ==> vars[j].id[0] != x
  {
    forall x | x in IdIndex(vars)
      ensures vars[IdIndex(vars)[x]].id[0] == x
      ensures forall j :: IdIndex(vars)[x] < j < |vars| ==> vars[j].id[0] != x
    {
      IdIndexAt(vars, x);
    }
  }

  lemma {:induction false} IdIndexAt(vars: seq<SingleTile>, x: string)
    requires HasIds(vars) && x in IdIndex(vars)
    ensures vars[IdIndex(vars)[x]].id[0] == x
    ensures forall j :: IdIndex(vars)[x] < j < |vars| ==> vars[j].id[0] != x
    decreases |vars|
  {
    var n := |vars| - 1;
    var init := vars[..n];
    assert HasIds(init) by {
      forall i | 0 <= i < n ensures |init[i].id| > 0 {
        assert init[i] == vars[i];
      }
    }
    assert IdIndex(vars) == IdIndex(init)[vars[n].id[0] := n];
    if x != vars[n].id[0] {
      IdIndexAt(init, x);
      var k := IdIndex(init)[x];
      assert IdIndex(vars)[x] == k;
      assert init[k] == vars[k];
      forall j | k < j < |vars| ensures vars[j].id[0] != x {
        if j < n {
          assert init[j] == vars[j];
        }
      }
    }
  }

  /** The primary ids of a list are those of all but its last tile, plus the last one's. */
  lemma IdSetSnoc(vars: seq<SingleTile>)
    requires HasIds(vars) && |vars| > 0
    ensures HasIds(vars[..|vars| - 1])
    ensures IdSet(vars) == IdSet(vars[..|vars| - 1]) + {vars[|vars| - 1].id[0]}
  {
    var n := |vars| - 1;
    assert forall i :: 0 <= i < n ==> vars[..n][i] == vars[i];
    forall x | x in IdSet(vars) ensures x in IdSet(vars[..n]) + {vars[n].id[0]} {
      var i :| 0 <= i < |vars| && vars[i].id[0] == x;
      if i < n {
        assert vars[..n][i].id[0] == x;
      }
    }
  }

  /** What one requested id yields: the record written to `<id>/<id>.json` and the tile whose sprites are saved. */
  datatype Extracted =
    | Found(id: string, json: SingleTile, variation: SingleTile)
    | Missing(id: string)

  /** Both lists `extract_tiles` works from, and the outcome for each requested id. */
  datatype Extraction = Extraction(vars: seq<SingleTile>, varsHashed: seq<SingleTile>, entries: seq<Extracted>)

  /** The outcome for `id`: found exactly when `vars_hm` has it, both records taken at its position. */
  ghost predicate Extracts(vars: seq<SingleTile>, hashed: seq<SingleTile>, id: string, e: Extracted)
    requires HasIds(vars) && |hashed| == |vars|
  {
    && e.id == id
    && (e.Found? <==> id in IdSet(vars))
    && (e.Found? ==> e.json == hashed[IdIndex(vars)[id]] && e.variation == vars[IdIndex(vars)[id]])
  }

  /** The loop over the requested ids (src/main.rs:414-448). */
  method LookupAll(vars: seq<SingleTile>, hashed: seq<SingleTile>, ids: seq<string>) returns (entries: seq<Extracted>)
    requires HasIds(vars) && |hashed| == |vars|
    ensures |entries| == |ids|
    ensures forall i :: 0 <= i < |ids| ==> Extracts(vars, hashed, ids[i], entries[i])
  {
    var index := IdIndex(vars);
    entries := [];
    for i := 0 to |ids|
      invariant |entries| == i
      invariant forall i' :: 0 <= i' < i ==> Extracts(vars, hashed, ids[i'], entries[i'])
    {
      var id := ids[i];
      if id in index {
        var idx := index[id];
        entries := entries + [Found(id, hashed[idx], vars[idx])];
      } else {
        entries := entries + [Missing(id)];
      }
    }
  }

  /**
   * `extract_tiles`: expand without hashing and with hashing, then look up
   * every requested id.  A found entry's JSON record has the requested id;
   * when the primary ids are distinct it is the saved tile with its sprite
   * ids hashed.
   */
  method ExtractTiles(ts: Tileset, hasher: Hasher, ids: seq<string>) returns (r: Result<Extraction, BuildError>)
    ensures r.Ok? <==> Buildable(ts)
    ensures r.Ok? ==> SortedBy(CmpTile, r.value.vars)
    ensures r.Ok? ==> multiset(r.value.vars) == multiset(Emitted(Resolver(false, Atlases(ts), hasher), ts.tilesNew))
    ensures r.Ok? ==> SortedBy(CmpTile, r.value.varsHashed)
    ensures r.Ok? ==> multiset(r.value.varsHashed) == multiset(Emitted(Resolver(true, Atlases(ts), hasher), ts.tilesNew))
    ensures r.Ok? ==> HasIds(r.value.vars) && |r.value.varsHashed| == |r.value.vars| && |r.value.entries| == |ids|
    ensures r.Ok? ==> forall i :: 0 <= i < |ids| ==> Extracts(r.value.vars, r.value.varsHashed, ids[i], r.value.entries[i])
    ensures r.Ok? ==> forall i :: 0 <= i < |ids| && r.value.entries[i].Found? ==>
      r.value.entries[i].json.id == [ids[i]] && r.value.entries[i].variation.id == [ids[i]]
    ensures r.Ok? && Distinct(PrimaryIds(r.value.vars)) ==> forall i :: 0 <= i < |ids| && r.value.entries[i].Found? ==>
      r.value.entries[i].json == HashTile(Atlases(ts), hasher, r.value.entries[i].variation)
  {
    var plain := GenerateVariations(ts, false, hasher);
    if plain.Err? {
      return Err(plain.error);
    }
    var hashed := GenerateVariations(ts, true, hasher);
    assert hashed.Ok?;
    var vars, varsHashed := plain.value.tiles, hashed.value.tiles;
    AllHaveIds(Resolver(false, Atlases(ts), hasher), ts.tilesNew, vars);
    LineUpIds(ts, hasher, vars, varsHashed);
    var entries := LookupAll(vars, varsHashed, ids);
    forall i | 0 <= i < |ids| && entries[i].Found?
      ensures entries[i].json.id == [ids[i]] && entries[i].variation.id == [ids[i]]
    {
      FoundHasId(ts, hasher, vars, varsHashed, ids[i], entries[i]);
    }
    if Distinct(PrimaryIds(vars)) {
      LineUpTiles(ts, hasher, vars, varsHashed);
      forall i | 0 <= i < |ids| && entries[i].Found?
        ensures entries[i].json == HashTile(Atlases(ts), hasher, entries[i].variation)
      {
        FoundIsHashed(Atlases(ts), hasher, vars, varsHashed, ids[i], entries[i]);
      }
    }
    return Ok(Extraction(vars, varsHashed, entries));
  }

  /** The id field of a tile, as a function to map over a list. */
  function IdOf(t: SingleTile): SingleOrVec.SingleOrVec<string> {
    t.id
  }

  /** A found entry's records both carry exactly the requested id. */
  lemma FoundHasId(ts: Tileset, hasher: Hasher, vars: seq<SingleTile>, hashed: seq<SingleTile>, id: string, e: Extracted)
    requires Buildable(ts)
    requires multiset(vars) == multiset(Emitted(Resolver(false, Atlases(ts), hasher), ts.tilesNew))
    requires HasIds(vars) && |hashed| == |vars|
    requires forall k :: 0 <= k < |vars| ==> hashed[k].id == vars[k].id
    requires Extracts(vars, hashed, id, e) && e.Found?
    ensures e.json.id == [id] && e.variation.id == [id]
  {
    var k := IdIndex(vars)[id];
    IdIndexLast(vars);
    VariationsShape(Resolver(false, Atlases(ts), hasher), ts.tilesNew, vars);
    assert vars[k] in vars;
  }

  /** Where the lists line up tile by tile, a found entry's JSON record is its saved tile, hashed. */
  lemma FoundIsHashed(atlases: ValidAtlases, hasher: Hasher, vars: seq<SingleTile>, hashed: seq<SingleTile>, id: string, e: Extracted)
    requires HasIds(vars) && |hashed| == |vars|
    requires hashed == MapSeq(t => HashTile(atlases, hasher, t), vars)
    requires Extracts(vars, hashed, id, e) && e.Found?
    ensures e.json == HashTile(atlases, hasher, e.variation)
  {
  }

  /** Sorting by the derived order sorts the id lists too (`id` is the first field). */
  lemma SortedIds(s: seq<SingleTile>)
    requires SortedBy(CmpTile, s)
    ensures SortedBy(CmpIds, MapSeq(IdOf, s))
  {
    var ids := MapSeq(IdOf, s);
    forall i, j | 0 <= i < j < |ids| ensures CmpIds(ids[i], ids[j]) != Greater {
      CmpTileById(s[i], s[j]);
    }
  }

  /** Hashing changes no id. */
  lemma HashKeepsIds(atlases: ValidAtlases, hasher: Hasher, s: seq<SingleTile>)
    ensures MapSeq(IdOf, MapSeq(t => HashTile(atlases, hasher, t), s)) == MapSeq(IdOf, s)
  {
  }

  /** The id lists of the two expansions are permutations of each other. */
  lemma IdsPermutation(ts: Tileset, hasher: Hasher, plain: seq<SingleTile>, hashed: seq<SingleTile>)
    requires Buildable(ts)
    requires multiset(plain) == multiset(Emitted(Resolver(false, Atlases(ts), hasher), ts.tilesNew))
    requires multiset(hashed) == multiset(Emitted(Resolver(true, Atlases(ts), hasher), ts.tilesNew))
    ensures multiset(MapSeq(IdOf, plain)) == multiset(MapSeq(IdOf, hashed))
  {
    var atlases := Atlases(ts);
    var emitted := Emitted(Resolver(false, atlases, hasher), ts.tilesNew);
    EmittedHashed(atlases, hasher, ts.tilesNew);
    MapPermutation(IdOf, plain, emitted);
    MapPermutation(IdOf, hashed, MapSeq(t => HashTile(atlases, hasher, t), emitted));
    HashKeepsIds(atlases, hasher, emitted);
  }

  /**
   * Position by position, the sorted unhashed and hashed lists have the same
   * id, so the index found in one names a tile with that id in the other.
   */
  lemma LineUpIds(ts: Tileset, hasher: Hasher, plain: seq<SingleTile>, hashed: seq<SingleTile>)
    requires Buildable(ts)
    requires SortedBy(CmpTile, plain)
    requires multiset(plain) == multiset(Emitted(Resolver(false, Atlases(ts), hasher), ts.tilesNew))
    requires SortedBy(CmpTile, hashed)
    requires multiset(hashed) == multiset(Emitted(Resolver(true, Atlases(ts), hasher), ts.tilesNew))
    ensures |hashed| == |plain|
    ensures forall k :: 0 <= k < |plain| ==> hashed[k].id == plain[k].id
  {
    IdsPermutation(ts, hasher, plain, hashed);
    SortedIds(plain);
    SortedIds(hashed);
    SortedIdsUnique(MapSeq(IdOf, plain), MapSeq(IdOf, hashed));
  }

  lemma SortedIdsUnique(a: seq<SingleOrVec.SingleOrVec<string>>, b: seq<SingleOrVec.SingleOrVec<string>>)
    requires SortedBy(CmpIds, a) && SortedBy(CmpIds, b) && multiset(a) == multiset(b)
    ensures a == b
  {
    CmpIdsTotal();
    SortedUnique(CmpIds, a, b);
  }

  /** With distinct primary ids the order is decided by the id alone, which hashing keeps. */
  lemma MappedStaysSorted(atlases: ValidAtlases, hasher: Hasher, s: seq<SingleTile>)
    requires SortedBy(CmpTile, s) && HasIds(s) && Distinct(PrimaryIds(s))
    ensures SortedBy(CmpTile, MapSeq(t => HashTile(atlases, hasher, t), s))
  {
    var mapped := MapSeq(t => HashTile(atlases, hasher, t), s);
    CmpIdsTotal();
    forall i, j | 0 <= i < j < |mapped| ensures CmpTile(mapped[i], mapped[j]) != Greater {
      CmpTileById(s[i], s[j]);
      assert PrimaryIds(s)[i] != PrimaryIds(s)[j];
      assert CmpIds(s[i].id, s[j].id) != Equal;
      CmpTileById(mapped[i], mapped[j]);
    }
  }

  /**
   * When no primary id repeats, the hashed list is the unhashed list with
   * every tile hashed: the record written as JSON is the hashed form of the
   * tile whose sprites are saved.
   */
  lemma LineUpTiles(ts: Tileset, hasher: Hasher, plain: seq<SingleTile>, hashed: seq<SingleTile>)
    requires Buildable(ts)
    requires SortedBy(CmpTile, plain)
    requires multiset(plain) == multiset(Emitted(Resolver(false, Atlases(ts), hasher), ts.tilesNew))
    requires SortedBy(CmpTile, hashed)
    requires multiset(hashed) == multiset(Emitted(Resolver(true, Atlases(ts), hasher), ts.tilesNew))
    requires HasIds(plain) && Distinct(PrimaryIds(plain))
    ensures hashed == MapSeq(t => HashTile(Atlases(ts), hasher, t), plain)
  {
    var atlases := Atlases(ts);
    var f := t => HashTile(atlases, hasher, t);
    var emitted := Emitted(Resolver(false, atlases, hasher), ts.tilesNew);
    EmittedHashed(atlases, hasher, ts.tilesNew);
    MapPermutation(f, plain, emitted);
    MappedStaysSorted(atlases, hasher, plain);
    SortedTilesUnique(hashed, MapSeq(f, plain));
  }

  lemma SortedTilesUnique(a: seq<SingleTile>, b: seq<SingleTile>)
    requires SortedBy(CmpTile, a) && SortedBy(CmpTile, b) && multiset(a) == multiset(b)
    ensures a == b
  {
    CmpTileTotal();
    SortedUnique(CmpTile, a, b);
  }
}
