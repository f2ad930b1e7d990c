/**
 * `find_duplicates` (src/main.rs:312-317) and the set logic of
 * `compare_tilesets` (src/main.rs:347-386): duplicate ids of each side,
 * ids exclusive to each side, and, when neither side has duplicates, the
 * records that differ between sides under an id both sides have.
 */
module Compare {
  import opened Types
  import opened Order
  import opened Sorting
  import opened Atlas
  import opened Tileset
  import opened Variations

  /** Every tile has a primary id, so `x.id.0[0]` does not panic. */
  predicate HasIds(vars: seq<SingleTile>) {
    forall i :: 0 <= i < |vars| ==> |vars[i].id| > 0
  }

  /** `vars.iter().map(|x| x.id.0[0])`. */
  function PrimaryIds(vars: seq<SingleTile>): (ids: seq<string>)
    requires HasIds(vars)
    ensures |ids| == |vars| && forall i :: 0 <= i < |vars| ==> ids[i] == vars[i].id[0]
  {
    seq(|vars|, i requires 0 <= i < |vars| => vars[i].id[0])
  }

  /**
   * `partition_dedup`: an element equal to the last kept one goes to the
   * duplicates, the others are kept in order.  The last kept element is
   * always the element just before, so that is what is compared.  The
   * duplicates' order is unspecified in Rust, so only their multiset is
   * stated.  On a sorted input the kept part holds each value once.
   */
  method PartitionDedup(s: seq<string>) returns (dedup: seq<string>, dups: seq<string>)
    ensures multiset(dedup) + multiset(dups) == multiset(s)
    ensures forall x :: x in s <==> x in dedup
    ensures SortedBy(CmpString, s) ==> Distinct(dedup)
  {
    dedup, dups := [], [];
    for i := 0 to |s|
      invariant Partitioned(s, i, dedup, dups)
    {
      if i > 0 && s[i] == s[i - 1] {
        DupStep(s, i, dedup, dups);
        dups := dups + [s[i]];
      } else {
        KeepStep(s, i, dedup, dups);
        dedup := dedup + [s[i]];
      }
    }
    assert s[..|s|] == s;
    forall x | x in dedup ensures x in s {
      assert x in multiset(s);
    }
  }

  /** What `partition_dedup` has done after the first `i` elements. */
  ghost predicate Partitioned(s: seq<string>, i: nat, dedup: seq<string>, dups: seq<string>) {
    && i <= |s|
    && multiset(dedup) + multiset(dups) == multiset(s[..i])
    && (forall k :: 0 <= k < i ==> s[k] in dedup)
    && (SortedBy(CmpString, s) ==> Distinct(dedup))
  }

  /** An element equal to its predecessor goes to the duplicates. */
  lemma DupStep(s: seq<string>, i: nat, dedup: seq<string>, dups: seq<string>)
    requires Partitioned(s, i, dedup, dups) && 0 < i < |s| && s[i] == s[i - 1]
    ensures Partitioned(s, i + 1, dedup, dups + [s[i]])
  {
    assert s[..i + 1] == s[..i] + [s[i]];
  }

  /** An element unlike its predecessor is kept. */
  lemma KeepStep(s: seq<string>, i: nat, dedup: seq<string>, dups: seq<string>)
    requires Partitioned(s, i, dedup, dups) && i < |s| && (i == 0 || s[i] != s[i - 1])
    ensures Partitioned(s, i + 1, dedup + [s[i]], dups)
  {
    assert s[..i + 1] == s[..i] + [s[i]];
    if SortedBy(CmpString, s) {
      KeptStaysDistinct(s, i, dedup);
    }
  }

  /** After sorting, an id unlike the previous one has not been kept before. */
  lemma KeptStaysDistinct(s: seq<string>, i: nat, dedup: seq<string>)
    requires SortedBy(CmpString, s) && i < |s| && (i == 0 || s[i] != s[i - 1])
    requires Distinct(dedup) && multiset(dedup) <= multiset(s[..i])
    ensures Distinct(dedup + [s[i]])
  {
    if i > 0 {
      CmpStringTotal();
      SortedNewValue(CmpString, s, i);
    }
    forall y | y in dedup ensures y != s[i] {
      assert y in multiset(s[..i]);
    }
    DistinctAppend(dedup, s[i]);
  }

  /** `sort_unstable` on the ids: any sorting permutation is the same one. */
  method SortIds(ids: seq<string>) returns (sorted: seq<string>)
    ensures SortedBy(CmpString, sorted) && multiset(sorted) == multiset(ids)
  {
    CmpStringTotal();
    sorted := SortBy(CmpString, ids);
  }

  /**
   * `find_duplicates`: sort the primary ids and keep what `partition_dedup`
   * moves out.  Each id occurs in the result one time fewer than among the
   * tiles, so the result is empty exactly when the ids are pairwise distinct,
   * and everything in it occurs at least twice.
   */
  method FindDuplicates(vars: seq<SingleTile>) returns (dups: seq<string>)
    requires HasIds(vars)
    ensures forall x :: multiset(dups)[x] == if x in PrimaryIds(vars) then multiset(PrimaryIds(vars))[x] - 1 else 0
    ensures |dups| == 0 <==> Distinct(PrimaryIds(vars))
    ensures forall x :: x in dups ==> multiset(PrimaryIds(vars))[x] >= 2
  {
    var ids := PrimaryIds(vars);
    var sorted := SortIds(ids);
    var dedup;
    dedup, dups := PartitionDedup(sorted);
    DistinctCounts(dedup);
    forall x ensures multiset(dups)[x] == if x in ids then multiset(ids)[x] - 1 else 0 {
      assert x in sorted <==> x in multiset(sorted);
      assert x in ids <==> x in multiset(ids);
      assert x in dedup <==> x in multiset(dedup);
    }
    DupsEmpty(vars, dups);
    forall x | x in dups ensures multiset(ids)[x] >= 2 {
      assert x in multiset(dups);
    }
  }

  /** `HashSet<&str>` of the primary ids. */
  function IdSet(vars: seq<SingleTile>): set<string>
    requires HasIds(vars)
  {
    set i | 0 <= i < |vars| :: vars[i].id[0]
  }

  /** The records of `vars1` missing from `vars2` whose id `vars2` has (`difference` then `filter`). */
  function DiffRecords(vars1: seq<SingleTile>, vars2: seq<SingleTile>): set<SingleTile>
    requires HasIds(vars1) && HasIds(vars2)
  {
    set i | 0 <= i < |vars1| && vars1[i] !in vars2 && vars1[i].id[0] in IdSet(vars2) :: vars1[i]
  }

  /** The ids `dump_diffs` writes for a set of records. */
  function DiffIds(records: set<SingleTile>): set<string>
    requires forall t :: t in records ==> |t.id| > 0
  {
    set t | t in records :: t.id[0]
  }

  datatype Diff = Diff(only1: set<SingleTile>, only2: set<SingleTile>)

  /** What `compare_tilesets` writes for each side, in the order it writes it. */
  datatype Report = Report(
    vars1: seq<SingleTile>, vars2: seq<SingleTile>,   // dump.json
    dups1: seq<string>, dups2: seq<string>,           // duplicates.txt
    exclusive1: set<string>, exclusive2: set<string>, // exclusives.txt
    different: Option<Diff>)                          // different.txt, only without duplicates

  /** The comparison of two variation lists, once both have been built. */
  method CompareVariations(vars1: seq<SingleTile>, vars2: seq<SingleTile>) returns (r: Report)
    requires HasIds(vars1) && HasIds(vars2)
    ensures r.vars1 == vars1 && r.vars2 == vars2
    ensures forall x :: multiset(r.dups1)[x] == if x in PrimaryIds(vars1) then multiset(PrimaryIds(vars1))[x] - 1 else 0
    ensures forall x :: multiset(r.dups2)[x] == if x in PrimaryIds(vars2) then multiset(PrimaryIds(vars2))[x] - 1 else 0
    ensures forall x :: x in r.exclusive1 <==> x in IdSet(vars1) && x !in IdSet(vars2)
    ensures forall x :: x in r.exclusive2 <==> x in IdSet(vars2) && x !in IdSet(vars1)
    ensures r.different.Some? <==> Distinct(PrimaryIds(vars1)) && Distinct(PrimaryIds(vars2))
    ensures r.different.Some? ==> r.different.value == Diff(DiffRecords(vars1, vars2), DiffRecords(vars2, vars1))
  {
    var dups1 := FindDuplicates(vars1);
    var dups2 := FindDuplicates(vars2);
    var doDiff := |dups1| == 0 && |dups2| == 0;
    var ids1, ids2 := IdSet(vars1), IdSet(vars2);
    var in1Only, in2Only := ids1 - ids2, ids2 - ids1;
    var different := None;
    if doDiff {
      different := Some(Diff(DiffRecords(vars1, vars2), DiffRecords(vars2, vars1)));
    }
    r := Report(vars1, vars2, dups1, dups2, in1Only, in2Only, different);
  }

  /**
   * `compare_tilesets`: both tilesets expanded with hashing on, then
   * compared.  Fails exactly when building either side's atlases panics.
   */
  method CompareTilesets(ts1: Tileset, ts2: Tileset, hasher: Hasher) returns (r: Result<Report, BuildError>)
    ensures r.Ok? <==> Buildable(ts1) && Buildable(ts2)
    ensures r.Ok? ==> SortedBy(CmpTile, r.value.vars1) && SortedBy(CmpTile, r.value.vars2)
    ensures r.Ok? ==> multiset(r.value.vars1) == multiset(Emitted(Resolver(true, Atlases(ts1), hasher), ts1.tilesNew))
    ensures r.Ok? ==> multiset(r.value.vars2) == multiset(Emitted(Resolver(true, Atlases(ts2), hasher), ts2.tilesNew))
    ensures r.Ok? ==> HasIds(r.value.vars1) && HasIds(r.value.vars2)
    ensures r.Ok? ==> forall x :: x in r.value.exclusive1 <==> x in IdSet(r.value.vars1) && x !in IdSet(r.value.vars2)
    ensures r.Ok? ==> forall x :: x in r.value.exclusive2 <==> x in IdSet(r.value.vars2) && x !in IdSet(r.value.vars1)
    ensures r.Ok? ==> forall x :: multiset(r.value.dups1)[x] == (if x in PrimaryIds(r.value.vars1) then multiset(PrimaryIds(r.value.vars1))[x] - 1 else 0)
    ensures r.Ok? ==> forall x :: multiset(r.value.dups2)[x] == (if x in PrimaryIds(r.value.vars2) then multiset(PrimaryIds(r.value.vars2))[x] - 1 else 0)
    ensures r.Ok? ==> (r.value.different.Some? <==> |r.value.dups1| == 0 && |r.value.dups2| == 0)
    ensures r.Ok? ==> (r.value.different.Some? <==> Distinct(PrimaryIds(r.value.vars1)) && Distinct(PrimaryIds(r.value.vars2)))
    ensures r.Ok? && r.value.different.Some? ==>
      r.value.different.value == Diff(DiffRecords(r.value.vars1, r.value.vars2), DiffRecords(r.value.vars2, r.value.vars1))
  {
    var g1 := GenerateVariations(ts1, true, hasher);
    if g1.Err? {
      return Err(g1.error);
    }
    var g2 := GenerateVariations(ts2, true, hasher);
    if g2.Err? {
      return Err(g2.error);
    }
    var vars1, vars2 := g1.value.tiles, g2.value.tiles;
    AllHaveIds(Resolver(true, Atlases(ts1), hasher), ts1.tilesNew, vars1);
    AllHaveIds(Resolver(true, Atlases(ts2), hasher), ts2.tilesNew, vars2);
    var report := CompareVariations(vars1, vars2);
    DupsEmpty(vars1, report.dups1);
    DupsEmpty(vars2, report.dups2);
    return Ok(report);
  }

  lemma AllHaveIds(rv: Resolver, blocks: seq<TilesNew>, vars: seq<SingleTile>)
    requires multiset(vars) == multiset(Emitted(rv, blocks))
    ensures HasIds(vars)
  {
    VariationsShape(rv, blocks, vars);
    forall i | 0 <= i < |vars| ensures |vars[i].id| > 0 {
      assert vars[i] in vars;
    }
  }

  lemma DupsEmpty(vars: seq<SingleTile>, dups: seq<string>)
    requires HasIds(vars)
    requires forall x :: multiset(dups)[x] == if x in PrimaryIds(vars) then multiset(PrimaryIds(vars))[x] - 1 else 0
    ensures |dups| == 0 <==> Distinct(PrimaryIds(vars))
  {
    DistinctCounts(PrimaryIds(vars));
    if |dups| > 0 {
      assert dups[0] in multiset(dups);
    }
    if |dups| == 0 {
      forall x ensures multiset(PrimaryIds(vars))[x] <= 1 {
        assert multiset(dups)[x] == 0;
      }
    }
  }

  /** The ids in `different.txt` are ids both sides have, so never exclusive ones. */
  lemma DiffIdsCommon(vars1: seq<SingleTile>, vars2: seq<SingleTile>)
    requires HasIds(vars1) && HasIds(vars2)
    ensures DiffIds(DiffRecords(vars1, vars2)) <= IdSet(vars1) * IdSet(vars2)
  {
    forall x | x in DiffIds(DiffRecords(vars1, vars2)) ensures x in IdSet(vars1) {
      var t :| t in DiffRecords(vars1, vars2) && t.id[0] == x;
      var i :| 0 <= i < |vars1| && vars1[i] == t;
    }
  }

  /** Each id listed for side 1 is listed for side 2 too, when side 1 has no duplicate ids. */
  lemma DiffIdsIncluded(vars1: seq<SingleTile>, vars2: seq<SingleTile>)
    requires HasIds(vars1) && HasIds(vars2) && Distinct(PrimaryIds(vars1))
    ensures DiffIds(DiffRecords(vars1, vars2)) <= DiffIds(DiffRecords(vars2, vars1))
  {
    forall x | x in DiffIds(DiffRecords(vars1, vars2)) ensures x in DiffIds(DiffRecords(vars2, vars1)) {
      var t :| t in DiffRecords(vars1, vars2) && t.id[0] == x;
      var i :| 0 <= i < |vars1| && vars1[i] == t && t !in vars2 && t.id[0] in IdSet(vars2);
      var j :| 0 <= j < |vars2| && vars2[j].id[0] == x;
      var u := vars2[j];
      forall i' | 0 <= i' < |vars1| ensures vars1[i'] != u {
        if i' != i {
          assert PrimaryIds(vars1)[i'] != PrimaryIds(vars1)[i];
        }
      }
      assert x in IdSet(vars1) by {
        assert vars1[i].id[0] == x;
      }
      assert u in DiffRecords(vars2, vars1);
    }
  }

  /**
   * Without duplicates, both sides' `different.txt` list the same ids: a
   * record that differs on one side has a differing partner on the other.
   */
  lemma DiffSymmetric(vars1: seq<SingleTile>, vars2: seq<SingleTile>)
    requires HasIds(vars1) && HasIds(vars2)
    requires Distinct(PrimaryIds(vars1)) && Distinct(PrimaryIds(vars2))
    ensures DiffIds(DiffRecords(vars1, vars2)) == DiffIds(DiffRecords(vars2, vars1))
  {
    DiffIdsIncluded(vars1, vars2);
    DiffIdsIncluded(vars2, vars1);
  }

  /**
   * Without duplicates on side 2, side 1 lists no differing record exactly
   * when every tile of side 1 whose id side 2 has equals side 2's tile with
   * that id.
   */
  lemma NoDiffMeansAgree(vars1: seq<SingleTile>, vars2: seq<SingleTile>)
    requires HasIds(vars1) && HasIds(vars2) && Distinct(PrimaryIds(vars2))
    ensures DiffRecords(vars1, vars2) == {} <==>
      forall i, j :: 0 <= i < |vars1| && 0 <= j < |vars2| && vars1[i].id[0] == vars2[j].id[0] ==> vars1[i] == vars2[j]
  {
    if DiffRecords(vars1, vars2) == {} {
      forall i, j | 0 <= i < |vars1| && 0 <= j < |vars2| && vars1[i].id[0] == vars2[j].id[0]
        ensures vars1[i] == vars2[j]
      {
        assert vars1[i].id[0] in IdSet(vars2);
        assert vars1[i] !in DiffRecords(vars1, vars2);
        assert vars1[i] in vars2;
        var j' :| 0 <= j' < |vars2| && vars2[j'] == vars1[i];
        assert PrimaryIds(vars2)[j'] == PrimaryIds(vars2)[j];
      }
    }
    if forall i, j :: 0 <= i < |vars1| && 0 <= j < |vars2| && vars1[i].id[0] == vars2[j].id[0] ==> vars1[i] == vars2[j] {
      forall i | 0 <= i < |vars1| && vars1[i].id[0] in IdSet(vars2) ensures vars1[i] in vars2 {
        var j :| 0 <= j < |vars2| && vars2[j].id[0] == vars1[i].id[0];
        assert vars1[i] == vars2[j];
      }
      assert DiffRecords(vars1, vars2) == {};
    }
  }
}
