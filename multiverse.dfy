/**
 * The bookkeeping of a multiverse analysis (multiversum/multiverse.py):
 * the plain grid, the persisted run counter, where a run's files go, which
 * notebook runs a universe gets with which settings, and the comparison of
 * the grid with the universes that produced data.
 *
 * Executing the notebooks is not modelled: examining the multiverse yields
 * the list of notebook runs it would hand to papermill.
 */
module Multiverse {
  import opened Values
  import Text
  import Json
  import Grid
  import Identity

  const DefaultSeed := 80539

  /**
   * multiverse.py's own `generate_multiverse_grid`: the full product of the
   * option lists as given, first dimension slowest, without normalisation or
   * checks. No dimensions at all fails when `zip()` has nothing to unpack.
   */
  function PlainGrid(dims: seq<Grid.Dimension>): (r: Result<seq<Universe>>)
    ensures r.Err? <==> dims == []
    ensures r.Err? ==> r.error == NothingToUnpack
    ensures r.Ok? ==> r.value == Grid.Product(dims)
    ensures r.Ok? ==> |r.value| == Grid.Count(dims)
    ensures r.Ok? ==> forall u :: u in r.value <==> Grid.Fits(u, dims)
  {
    if dims == [] then Err(NothingToUnpack)
    else
      Grid.ProductLength(dims);
      forall u ensures u in Grid.Product(dims) <==> Grid.Fits(u, dims) {
        Grid.ProductMembership(dims, u);
      }
      Ok(Grid.Product(dims))
  }

  /**
   * The two grid functions agree where the checked one has nothing to
   * change or reject: no list options, no duplicates, no constraints.
   */
  lemma PlainGridAgrees(dims: seq<Grid.Dimension>)
    requires dims != []
    requires forall k, i :: 0 <= k < |dims| && 0 <= i < |dims[k].options| ==> !dims[k].options[i].VList?
    requires Grid.OptionsError(dims).None?
    ensures Grid.GenerateMultiverseGrid(dims, None) == PlainGrid(dims)
  {
    var norm := Grid.Normalised(dims);
    forall k | 0 <= k < |dims| ensures norm[k] == dims[k] {
      assert norm[k].options == dims[k].options;
    }
    assert norm == dims;
  }

  /** The number `read_counter` returns: the stored counter (0 without a file), plus one for a new run. */
  function NextRun(stored: Option<int>, increment: bool): int
  {
    (if stored.Some? then stored.value else 0) + (if increment then 1 else 0)
  }

  /**
   * The numbers successive `read_counter` calls return on one output
   * directory, each call storing the number it returned.
   */
  function CounterRuns(stored: Option<int>, increments: seq<bool>): (runs: seq<int>)
    ensures |runs| == |increments|
    decreases |increments|
  {
    if increments == [] then []
    else
      var n := NextRun(stored, increments[0]);
      [n] + CounterRuns(Some(n), increments[1..])
  }

  /** New run after new run counts up from the stored counter, one at a time, so no two share a number. */
  lemma {:induction false} NewRunsCountUp(stored: Option<int>, increments: seq<bool>)
    requires forall k :: 0 <= k < |increments| ==> increments[k]
    ensures forall i :: 0 <= i < |increments| ==>
      CounterRuns(stored, increments)[i] == NextRun(stored, false) + i + 1
    decreases |increments|
  {
    if increments != [] {
      var n := NextRun(stored, true);
      NewRunsCountUp(Some(n), increments[1..]);
    }
  }

  /** Without `new_run`, every call returns the stored number (0 without a file). */
  lemma {:induction false} ResumedRunsRepeat(stored: Option<int>, increments: seq<bool>)
    requires forall k :: 0 <= k < |increments| ==> !increments[k]
    ensures forall i :: 0 <= i < |increments| ==> CounterRuns(stored, increments)[i] == NextRun(stored, false)
    decreases |increments|
  {
    if increments != [] {
      ResumedRunsRepeat(Some(NextRun(stored, false)), increments[1..]);
    }
  }

  /** `output_dir / "runs" / str(run_no)`, with `/ sub_directory` appended when one is given. */
  function RunDirPath(outputDir: string, runNo: int, sub: Option<string>): string
  {
    var runDir := outputDir + "/runs/" + Text.IntToString(runNo);
    if sub.Some? then runDir + "/" + sub.value else runDir
  }

  /** Different runs of one output directory get different directories. */
  lemma RunDirInjective(outputDir: string, r1: int, r2: int, sub: Option<string>)
    requires RunDirPath(outputDir, r1, sub) == RunDirPath(outputDir, r2, sub)
    ensures r1 == r2
  {
    var p := outputDir + "/runs/";
    var s1, s2 := Text.IntToString(r1), Text.IntToString(r2);
    var tail := if sub.Some? then "/" + sub.value else "";
    assert RunDirPath(outputDir, r1, sub) == p + s1 + tail;
    assert RunDirPath(outputDir, r2, sub) == p + s2 + tail;
    assert |s1| == |s2|;
    assert s1 == (p + s1 + tail)[|p|..|p| + |s1|];
    assert s2 == (p + s2 + tail)[|p|..|p| + |s2|];
    Text.IntToStringInjective(r1, r2);
  }

  /** The notebook file a universe's run writes: `m_<run_no>-<universe_id>.ipynb`. */
  function ArtifactName(runNo: int, universeId: string): string
  {
    "m_" + Text.IntToString(runNo) + "-" + universeId + ".ipynb"
  }

  /**
   * The name determines both the run and the universe ID: the run number
   * is digits after an optional sign, so the first `-` after it separates.
   */
  lemma ArtifactNameInjective(r1: int, id1: string, r2: int, id2: string)
    requires ArtifactName(r1, id1) == ArtifactName(r2, id2)
    ensures r1 == r2 && id1 == id2
  {
    var s1, s2 := Text.IntToString(r1), Text.IntToString(r2);
    var t := ArtifactName(r1, id1);
    assert t == "m_" + s1 + "-" + id1 + ".ipynb";
    assert t == "m_" + s2 + "-" + id2 + ".ipynb";
    assert t[2 + |s1|] == '-' && t[2 + |s2|] == '-';
    if |s1| < |s2| {
      assert false;
    }
    if |s2| < |s1| {
      assert false;
    }
    assert s1 == t[2..2 + |s1|] == s2;
    Text.IntToStringInjective(r1, r2);
    assert id1 == t[3 + |s1|..|t| - 6] == id2;
  }

  /** How the seed appears in the settings: an integer, or `null` for None. */
  function SeedValue(seed: Option<int>): Value
  {
    if seed.Some? then VInt(seed.value) else VNull
  }

  /** The settings dict `visit_universe` passes to the notebook, in its insertion order. */
  function Settings(universeId: string, u: Universe, runNo: int, outputDir: string, seed: Option<int>): (s: seq<Entry>)
    ensures KeysOf(s) == ["universe_id", "dimensions", "run_no", "output_dir", "seed"]
    ensures DistinctKeys(s)
  {
    var s := [Entry("universe_id", VStr(universeId)),
              Entry("dimensions", VObject(u)),
              Entry("run_no", VInt(runNo)),
              Entry("output_dir", VStr(outputDir)),
              Entry("seed", SeedValue(seed))];
    SettingsKeysDistinct(s);
    s
  }

  /** The settings keys in sorted order: each begins with a later letter than the one before. */
  lemma SettingsKeysAscend(target: seq<Entry>)
    requires |target| == 5
    requires target[0].key == "dimensions" && target[1].key == "output_dir" && target[2].key == "run_no"
    requires target[3].key == "seed" && target[4].key == "universe_id"
    ensures Json.SortedByKey(target)
  {
    var initials := "dorsu";
    assert forall i :: 0 <= i < 5 ==> |target[i].key| > 0 && target[i].key[0] == initials[i];
    forall i, j | 0 <= i < j < 5 ensures Text.Less(target[i].key, target[j].key) {
      assert target[i].key[0] < target[j].key[0];
    }
  }

  /** Sorting the settings entries by key, whatever their values. */
  lemma SettingsKeyOrder(vId: Value, vDims: Value, vRun: Value, vOut: Value, vSeed: Value)
    ensures Json.SortEntries([Entry("universe_id", vId), Entry("dimensions", vDims), Entry("run_no", vRun),
                              Entry("output_dir", vOut), Entry("seed", vSeed)]) ==
      [Entry("dimensions", vDims), Entry("output_dir", vOut), Entry("run_no", vRun), Entry("seed", vSeed), Entry("universe_id", vId)]
  {
    var fields := [Entry("universe_id", vId), Entry("dimensions", vDims), Entry("run_no", vRun),
                   Entry("output_dir", vOut), Entry("seed", vSeed)];
    var target := [Entry("dimensions", vDims), Entry("output_dir", vOut), Entry("run_no", vRun),
                   Entry("seed", vSeed), Entry("universe_id", vId)];
    SettingsKeysAscend(target);
    SettingsKeysDistinct(fields);
    Json.SortEntriesSorted(fields);
    var sorted := Json.SortEntries(fields);
    forall x ensures x in sorted <==> x in target {
      assert x in sorted <==> x in multiset(sorted);
      assert x in fields <==> x in multiset(fields);
    }
    Json.SortedUnique(sorted, target);
  }

  lemma SettingsKeysDistinct(fields: seq<Entry>)
    requires |fields| == 5
    requires fields[0].key == "universe_id" && fields[1].key == "dimensions" && fields[2].key == "run_no"
    requires fields[3].key == "output_dir" && fields[4].key == "seed"
    ensures DistinctKeys(fields)
  {
    var initials := "udros";
    assert forall i :: 0 <= i < 5 ==> |fields[i].key| > 0 && fields[i].key[0] == initials[i];
    forall i, j | 0 <= i < j < 5 ensures fields[i].key != fields[j].key {
      assert fields[i].key[0] != fields[j].key[0];
    }
  }

  /** The settings dict as `sort_keys=True` prints it: keys in sorted order. */
  lemma SettingsSorted(universeId: string, u: Universe, runNo: int, outputDir: string, seed: Option<int>)
    ensures Json.Canonical(VObject(Settings(universeId, u, runNo, outputDir, seed))) ==
      VObject([Entry("dimensions", Json.Canonical(VObject(u))),
               Entry("output_dir", VStr(outputDir)),
               Entry("run_no", VInt(runNo)),
               Entry("seed", SeedValue(seed)),
               Entry("universe_id", VStr(universeId))])
  {
    SettingsCanonical(VStr(universeId), VObject(u), VInt(runNo), VStr(outputDir), SeedValue(seed));
    SettingsKeyOrder(VStr(universeId), Json.Canonical(VObject(u)), VInt(runNo), VStr(outputDir), SeedValue(seed));
  }

  /** Putting the settings in canonical form sorts their keys and canonicalises each value. */
  lemma SettingsCanonical(vId: Value, vDims: Value, vRun: Value, vOut: Value, vSeed: Value)
    ensures Json.Canonical(VObject([Entry("universe_id", vId), Entry("dimensions", vDims), Entry("run_no", vRun),
                                    Entry("output_dir", vOut), Entry("seed", vSeed)])) ==
      VObject(Json.SortEntries([Entry("universe_id", Json.Canonical(vId)), Entry("dimensions", Json.Canonical(vDims)),
                                Entry("run_no", Json.Canonical(vRun)), Entry("output_dir", Json.Canonical(vOut)),
                                Entry("seed", Json.Canonical(vSeed))]))
  {
    SettingsFieldsCanonical(vId, vDims, vRun, vOut, vSeed);
  }

  lemma SettingsFieldsCanonical(vId: Value, vDims: Value, vRun: Value, vOut: Value, vSeed: Value)
    ensures Json.CanonicalFields([Entry("universe_id", vId), Entry("dimensions", vDims), Entry("run_no", vRun),
                                  Entry("output_dir", vOut), Entry("seed", vSeed)]) ==
      [Entry("universe_id", Json.Canonical(vId)), Entry("dimensions", Json.Canonical(vDims)),
       Entry("run_no", Json.Canonical(vRun)), Entry("output_dir", Json.Canonical(vOut)),
       Entry("seed", Json.Canonical(vSeed))]
  {
  }

  /** A dict of several entries prints its first entry, a comma, and the rest. */
  lemma WriteFieldsCons(fs: seq<Entry>)
    requires |fs| >= 2
    ensures Json.WriteFields(fs) == Json.Quote(fs[0].key) + ": " + Json.Write(fs[0].value) + ", " + Json.WriteFields(fs[1..])
  {
  }

  /** A dict of five entries prints them in order, separated by commas. */
  lemma WriteFiveFields(fs: seq<Entry>)
    requires |fs| == 5
    ensures Json.WriteFields(fs) ==
      (Json.Quote(fs[0].key) + ": " + Json.Write(fs[0].value)) + ", " +
      (Json.Quote(fs[1].key) + ": " + Json.Write(fs[1].value)) + ", " +
      (Json.Quote(fs[2].key) + ": " + Json.Write(fs[2].value)) + ", " +
      (Json.Quote(fs[3].key) + ": " + Json.Write(fs[3].value)) + ", " +
      (Json.Quote(fs[4].key) + ": " + Json.Write(fs[4].value))
  {
    var q0 := Json.Quote(fs[0].key) + ": " + Json.Write(fs[0].value);
    var q1 := Json.Quote(fs[1].key) + ": " + Json.Write(fs[1].value);
    var q2 := Json.Quote(fs[2].key) + ": " + Json.Write(fs[2].value);
    var q3 := Json.Quote(fs[3].key) + ": " + Json.Write(fs[3].value);
    var q4 := Json.Quote(fs[4].key) + ": " + Json.Write(fs[4].value);
    assert Json.WriteFields(fs[4..]) == q4;
    WriteFieldsCons(fs[3..]);
    assert fs[3..][1..] == fs[4..];
    WriteFieldsCons(fs[2..]);
    assert fs[2..][1..] == fs[3..];
    WriteFieldsCons(fs[1..]);
    assert fs[1..][1..] == fs[2..];
    WriteFieldsCons(fs);
    assert Json.WriteFields(fs) == q0 + ", " + (q1 + ", " + (q2 + ", " + (q3 + ", " + q4)));
    Flatten(q0, q1, q2, q3, q4);
  }

  lemma Flatten(q0: string, q1: string, q2: string, q3: string, q4: string)
    ensures q0 + ", " + (q1 + ", " + (q2 + ", " + (q3 + ", " + q4))) == q0 + ", " + q1 + ", " + q2 + ", " + q3 + ", " + q4
  {
  }

  /** The fields of the settings text, in sorted key order, whatever the keys and the dimensions value. */
  lemma SettingsFieldsText(kd: string, ko: string, kr: string, ks: string, ku: string,
                           universeId: string, dims: Value, runNo: int, outputDir: string, seed: Option<int>)
    ensures Json.WriteFields([Entry(kd, dims), Entry(ko, VStr(outputDir)),
                              Entry(kr, VInt(runNo)), Entry(ks, SeedValue(seed)),
                              Entry(ku, VStr(universeId))]) ==
      (Json.Quote(kd) + ": " + Json.Write(dims)) + ", " +
      (Json.Quote(ko) + ": " + Json.Quote(outputDir)) + ", " +
      (Json.Quote(kr) + ": " + Text.IntToString(runNo)) + ", " +
      (Json.Quote(ks) + ": " + Json.Write(SeedValue(seed))) + ", " +
      (Json.Quote(ku) + ": " + Json.Quote(universeId))
  {
    var fs := [Entry(kd, dims), Entry(ko, VStr(outputDir)),
               Entry(kr, VInt(runNo)), Entry(ks, SeedValue(seed)), Entry(ku, VStr(universeId))];
    WriteFiveFields(fs);
  }

  /** The settings text is the sorted fields between braces. */
  lemma SettingsBraced(universeId: string, u: Universe, runNo: int, outputDir: string, seed: Option<int>)
    ensures Json.Dumps(VObject(Settings(universeId, u, runNo, outputDir, seed))) ==
      "{" + Json.WriteFields([Entry("dimensions", Json.Canonical(VObject(u))), Entry("output_dir", VStr(outputDir)),
                              Entry("run_no", VInt(runNo)), Entry("seed", SeedValue(seed)),
                              Entry("universe_id", VStr(universeId))]) + "}"
  {
    SettingsSorted(universeId, u, runNo, outputDir, seed);
  }

  /**
   * The settings text lists the five keys in sorted order, and the value
   * under `dimensions` is the very text whose digest is the universe ID.
   */
  lemma SettingsText(universeId: string, u: Universe, runNo: int, outputDir: string, seed: Option<int>)
    ensures Json.Dumps(VObject(Settings(universeId, u, runNo, outputDir, seed))) ==
      "{" + (Json.Quote("dimensions") + ": " + Json.Dumps(VObject(u)))
      + ", " + (Json.Quote("output_dir") + ": " + Json.Quote(outputDir))
      + ", " + (Json.Quote("run_no") + ": " + Text.IntToString(runNo))
      + ", " + (Json.Quote("seed") + ": " + Json.Write(SeedValue(seed)))
      + ", " + (Json.Quote("universe_id") + ": " + Json.Quote(universeId)) + "}"
  {
    SettingsFieldsText("dimensions", "output_dir", "run_no", "seed", "universe_id",
                       universeId, Json.Canonical(VObject(u)), runNo, outputDir, seed);
    SettingsBraced(universeId, u, runNo, outputDir, seed);
    Braced(Json.Dumps(VObject(Settings(universeId, u, runNo, outputDir, seed))),
           Json.WriteFields([Entry("dimensions", Json.Canonical(VObject(u))), Entry("output_dir", VStr(outputDir)),
                             Entry("run_no", VInt(runNo)), Entry("seed", SeedValue(seed)),
                             Entry("universe_id", VStr(universeId))]),
           Json.Quote("dimensions") + ": " + Json.Dumps(VObject(u)), Json.Quote("output_dir") + ": " + Json.Quote(outputDir),
           Json.Quote("run_no") + ": " + Text.IntToString(runNo), Json.Quote("seed") + ": " + Json.Write(SeedValue(seed)),
           Json.Quote("universe_id") + ": " + Json.Quote(universeId));
  }

  /** A dict text is its fields between braces. */
  lemma Braced(d: string, w: string, q0: string, q1: string, q2: string, q3: string, q4: string)
    requires d == "{" + w + "}"
    requires w == q0 + ", " + q1 + ", " + q2 + ", " + q3 + ", " + q4
    ensures d == "{" + q0 + ", " + q1 + ", " + q2 + ", " + q3 + ", " + q4 + "}"
  {
  }

  /** One papermill call: the notebook, where its output goes, and the `settings` parameter. */
  datatype NotebookRun = NotebookRun(input: string, output: string, settings: string)

  /** `visit_universe`: the notebook call for one universe of a run. */
  function NotebookFor(md5: Identity.Md5, notebook: string, outputDir: string, runNo: int, seed: Option<int>, u: Universe): NotebookRun
  {
    NotebookRun(
      notebook,
      RunDirPath(outputDir, runNo, Some("notebooks")) + "/" + ArtifactName(runNo, Identity.UniverseId(md5, u)),
      Json.Dumps(VObject(Settings(Identity.UniverseId(md5, u), u, runNo, outputDir, seed))))
  }

  /**
   * Within one run, universes with different IDs write different notebook
   * files; the same universe always writes the same file.
   */
  lemma NotebookOutputsDistinct(md5: Identity.Md5, notebook: string, outputDir: string, runNo: int, seed: Option<int>,
                                u: Universe, v: Universe)
    ensures NotebookFor(md5, notebook, outputDir, runNo, seed, u).output == NotebookFor(md5, notebook, outputDir, runNo, seed, v).output
      <==> Identity.UniverseId(md5, u) == Identity.UniverseId(md5, v)
  {
    var dir := RunDirPath(outputDir, runNo, Some("notebooks")) + "/";
    var a := ArtifactName(runNo, Identity.UniverseId(md5, u));
    var b := ArtifactName(runNo, Identity.UniverseId(md5, v));
    if dir + a == dir + b {
      assert a == (dir + a)[|dir|..] && b == (dir + b)[|dir|..];
      ArtifactNameInjective(runNo, Identity.UniverseId(md5, u), runNo, Identity.UniverseId(md5, v));
    }
  }

  /** The notebook calls of one run over a grid, one per universe in grid order. */
  function Visits(md5: Identity.Md5, notebook: string, outputDir: string, runNo: int, seed: Option<int>,
                  g: seq<Universe>): (r: seq<NotebookRun>)
    ensures |r| == |g|
  {
    if g == [] then []
    else Visits(md5, notebook, outputDir, runNo, seed, g[..|g| - 1]) + [NotebookFor(md5, notebook, outputDir, runNo, seed, g[|g| - 1])]
  }

  /** The `k`-th call of a run visits the `k`-th universe of the grid. */
  lemma {:induction false} VisitsAt(md5: Identity.Md5, notebook: string, outputDir: string, runNo: int, seed: Option<int>,
                                    g: seq<Universe>, k: nat)
    requires k < |g|
    ensures Visits(md5, notebook, outputDir, runNo, seed, g)[k] == NotebookFor(md5, notebook, outputDir, runNo, seed, g[k])
  {
    if k < |g| - 1 {
      VisitsAt(md5, notebook, outputDir, runNo, seed, g[..|g| - 1], k);
    }
  }

  /** What `check_missing_universes` reports. */
  datatype MissingUniverseInfo = MissingUniverseInfo(
    missingIds: set<string>,
    extraIds: set<string>,
    missingUniverses: set<Universe>,
    warned: bool)

  /**
   * The comparison of the grid's ID map with the IDs found in the data:
   * missing and extra IDs as set differences, the grid entries of the
   * missing IDs, and whether a warning is issued.
   */
  function Reconcile(ids: map<string, Universe>, dataIds: set<string>): MissingUniverseInfo
  {
    var missing := ids.Keys - dataIds;
    var extra := dataIds - ids.Keys;
    MissingUniverseInfo(missing, extra, set id | id in missing :: ids[id], |missing| > 0 || |extra| > 0)
  }

  /**
   * Missing and extra IDs are disjoint; together with the IDs found on both
   * sides they make up the grid's IDs and the data's IDs respectively.
   */
  lemma ReconcilePartition(ids: map<string, Universe>, dataIds: set<string>)
    ensures Reconcile(ids, dataIds).missingIds !! Reconcile(ids, dataIds).extraIds
    ensures Reconcile(ids, dataIds).missingIds + (ids.Keys * dataIds) == ids.Keys
    ensures Reconcile(ids, dataIds).extraIds + (ids.Keys * dataIds) == dataIds
  {
    SetDifferences(ids.Keys, dataIds);
  }

  lemma SetDifferences<T>(a: set<T>, b: set<T>)
    ensures (a - b) !! (b - a)
    ensures (a - b) + (a * b) == a
    ensures (b - a) + (a * b) == b
  {
  }

  /** A warning is issued exactly when the data's IDs differ from the grid's. */
  lemma ReconcileWarns(ids: map<string, Universe>, dataIds: set<string>)
    ensures Reconcile(ids, dataIds).warned <==> dataIds != ids.Keys
  {
    var info := Reconcile(ids, dataIds);
    assert info.missingIds == ids.Keys - dataIds;
    assert info.extraIds == dataIds - ids.Keys;
    if dataIds != ids.Keys {
      if ids.Keys - dataIds == {} {
        assert dataIds - ids.Keys != {};
      }
    }
  }

  /**
   * The universes reported missing are grid entries whose IDs have no
   * data, one per missing ID; when no two grid universes share an ID they
   * are exactly those grid entries.
   */
  lemma MissingUniverses(id: Universe -> string, grid: seq<Universe>, dataIds: set<string>)
    ensures var info := Reconcile(Identity.IdMap(id, grid), dataIds);
      && (forall u :: u in info.missingUniverses ==>
            u in grid && id(u) in info.missingIds && id(u) !in dataIds)
      && (forall k :: k in info.missingIds ==>
            exists u :: u in info.missingUniverses && id(u) == k)
    ensures (forall v, w :: v in grid && w in grid && id(v) == id(w) ==> v == w) ==>
      forall u :: u in Reconcile(Identity.IdMap(id, grid), dataIds).missingUniverses <==>
        u in grid && id(u) !in dataIds
  {
    var m := Identity.IdMap(id, grid);
    var info := Reconcile(m, dataIds);
    forall k | k in info.missingIds
      ensures exists u :: u in info.missingUniverses && id(u) == k
    {
      assert m[k] in info.missingUniverses;
    }
    if forall v, w :: v in grid && w in grid && id(v) == id(w) ==> v == w {
      forall u | u in grid && id(u) !in dataIds
        ensures u in info.missingUniverses
      {
        Identity.IdMapCollisionFree(id, grid, u);
      }
    }
  }

  /** When every grid universe produced data and nothing else did, nothing is reported. */
  lemma CompleteRunReportsNothing(id: Universe -> string, grid: seq<Universe>)
    ensures var info := Reconcile(Identity.IdMap(id, grid), set u | u in grid :: id(u));
      !info.warned && info.missingIds == {} && info.extraIds == {} && info.missingUniverses == {}
  {
    Identity.IdMapKeys(id, grid);
  }

  /**
   * When the data of exactly one universe is lost, exactly that universe is
   * reported missing, nothing is extra, and a warning is issued.
   */
  lemma OneUniverseLost(id: Universe -> string, grid: seq<Universe>, u: Universe)
    requires forall v, w :: v in grid && w in grid && id(v) == id(w) ==> v == w
    requires u in grid
    ensures var info := Reconcile(Identity.IdMap(id, grid), Identity.IdMap(id, grid).Keys - {id(u)});
      && info.missingIds == {id(u)}
      && info.extraIds == {}
      && info.missingUniverses == {u}
      && info.warned
  {
    var m := Identity.IdMap(id, grid);
    var lost := id(u);
    assert lost in m.Keys;
    LoseOne(m.Keys, lost);
    Identity.IdMapCollisionFree(id, grid, u);
    assert (set k | k in {lost} :: m[k]) == {m[lost]};
  }

  lemma LoseOne<T>(a: set<T>, x: T)
    requires x in a
    ensures a - (a - {x}) == {x}
    ensures (a - {x}) - a == {}
  {
  }

  /** The output directory's files that the bookkeeping reads and writes. */
  class OutputDirectory {
    const path: string
    /** The number in `counter.txt`, None while there is no such file. */
    var counter: Option<int>
    /** The grid saved to `multiverse_grid.json`, None while there is no such file. */
    var savedGrid: Option<seq<Universe>>

    constructor (path: string, counter: Option<int>, savedGrid: Option<seq<Universe>>)
      ensures this.path == path && this.counter == counter && this.savedGrid == savedGrid
    {
      this.path := path;
      this.counter := counter;
      this.savedGrid := savedGrid;
    }

    /**
     * `read_counter`: read the stored number (0 without a file), add one
     * for a new run, and always write the result back.
     */
    method ReadCounter(increment: bool) returns (runNo: int)
      modifies this`counter
      ensures runNo == NextRun(old(counter), increment)
      ensures counter == Some(runNo)
    {
      var stored := 0;
      if counter.Some? {
        stored := counter.value;
      }
      runNo := stored;
      if increment {
        runNo := runNo + 1;
      }
      counter := Some(runNo);
    }
  }

  /** `MultiverseAnalysis`: the state one analysis keeps between its steps. */
  class MultiverseAnalysis {
    var dimensions: seq<Grid.Dimension>
    const notebook: string
    const outputDir: OutputDirectory
    const seed: Option<int>
    var runNo: int
    /** The grid of the last `generate_grid` call; the class attribute starts as None. */
    var grid: Option<seq<Universe>>

    constructor (dimensions: seq<Grid.Dimension>, notebook: string, outputDir: OutputDirectory, runNo: int, seed: Option<int>)
      ensures this.dimensions == dimensions && this.notebook == notebook && this.outputDir == outputDir
      ensures this.runNo == runNo && this.seed == seed && grid == None
    {
      this.dimensions := dimensions;
      this.notebook := notebook;
      this.outputDir := outputDir;
      this.runNo := runNo;
      this.seed := seed;
      grid := None;
    }

    /**
     * `__init__`: dimensions come from the argument or from the loaded
     * config, never both. An explicit run number is used as is; otherwise
     * the counter decides, and it is read and written before the check
     * that dimensions were given at all.
     */
    static method Init(dimensions: Option<seq<Grid.Dimension>>, configDimensions: Option<seq<Grid.Dimension>>,
                       notebook: string, outputDir: OutputDirectory, runNo: Option<int>, newRun: bool, seed: Option<int>)
      returns (r: Result<MultiverseAnalysis>)
      modifies outputDir`counter
      ensures dimensions.Some? && configDimensions.Some? ==>
        r == Err(DimensionsTwice) && outputDir.counter == old(outputDir.counter)
      ensures !(dimensions.Some? && configDimensions.Some?) ==>
        outputDir.counter == (if runNo.Some? then old(outputDir.counter) else Some(NextRun(old(outputDir.counter), newRun)))
      ensures dimensions.None? && configDimensions.None? ==> r == Err(DimensionsUnset)
      ensures r.Ok? <==> dimensions.Some? != configDimensions.Some?
      ensures r.Ok? ==>
        && fresh(r.value)
        && r.value.dimensions == (if dimensions.Some? then dimensions.value else configDimensions.value)
        && r.value.runNo == (if runNo.Some? then runNo.value else NextRun(old(outputDir.counter), newRun))
        && r.value.notebook == notebook && r.value.outputDir == outputDir && r.value.seed == seed
        && r.value.grid == None
    {
      if dimensions.Some? && configDimensions.Some? {
        return Err(DimensionsTwice);
      }
      var dims := if dimensions.Some? then dimensions else configDimensions;
      var n: int;
      if runNo.Some? {
        n := runNo.value;
      } else {
        n := outputDir.ReadCounter(newRun);
      }
      if dims.None? {
        return Err(DimensionsUnset);
      }
      var a := new MultiverseAnalysis(dims.value, notebook, outputDir, n, seed);
      return Ok(a);
    }

    /** `generate_grid`: the plain grid, kept in `self.grid` and, when asked, saved to the output directory. */
    method GenerateGrid(save: bool) returns (r: Result<seq<Universe>>)
      modifies this`grid, outputDir`savedGrid
      ensures r == PlainGrid(dimensions)
      ensures grid == (if r.Ok? then Some(r.value) else old(grid))
      ensures outputDir.savedGrid == (if save && r.Ok? then Some(r.value) else old(outputDir.savedGrid))
    {
      r := PlainGrid(dimensions);
      if r.Err? {
        return;
      }
      grid := Some(r.value);
      if save {
        outputDir.savedGrid := grid;
      }
    }

    /**
     * `examine_multiverse`: the notebook calls for the given grid or, when
     * none is given, for `self.grid` unless it is None or empty, in which
     * case the grid is generated (without saving) first.
     */
    method ExamineMultiverse(md5: Identity.Md5, multiverseGrid: Option<seq<Universe>>) returns (r: Result<seq<NotebookRun>>)
      modifies this`grid, outputDir`savedGrid
      ensures var used := if multiverseGrid.Some? then Ok(multiverseGrid.value)
                          else if old(grid).Some? && old(grid).value != [] then Ok(old(grid).value)
                          else PlainGrid(dimensions);
        && (used.Err? ==> r == Err(used.error))
        && (used.Ok? ==> r == Ok(Visits(md5, notebook, outputDir.path, runNo, seed, used.value)))
      ensures multiverseGrid.None? && !(old(grid).Some? && old(grid).value != []) && PlainGrid(dimensions).Ok? ==>
        grid == Some(PlainGrid(dimensions).value)
      ensures multiverseGrid.Some? || (old(grid).Some? && old(grid).value != []) || PlainGrid(dimensions).Err? ==>
        grid == old(grid)
      ensures outputDir.savedGrid == old(outputDir.savedGrid)
    {
      var g: seq<Universe>;
      if multiverseGrid.Some? {
        g := multiverseGrid.value;
      } else if grid.Some? && grid.value != [] {
        g := grid.value;
      } else {
        var generated := GenerateGrid(false);
        if generated.Err? {
          return Err(generated.error);
        }
        g := generated.value;
      }
      var runs := VisitUniverses(md5, g);
      return Ok(runs);
    }

    /** The `visit_universe` calls of one run, one per universe of the grid, in grid order. */
    method VisitUniverses(md5: Identity.Md5, g: seq<Universe>) returns (runs: seq<NotebookRun>)
      ensures runs == Visits(md5, notebook, outputDir.path, runNo, seed, g)
    {
      runs := [];
      for i := 0 to |g|
        invariant runs == Visits(md5, notebook, outputDir.path, runNo, seed, g[..i])
      {
        assert g[..i + 1][..i] == g[..i];
        runs := runs + [NotebookFor(md5, notebook, outputDir.path, runNo, seed, g[i])];
      }
      assert g[..|g|] == g;
    }

    /**
     * `check_missing_universes`: regenerate the grid (without saving), map
     * IDs to universes, and compare with the IDs that produced data.
     */
    method CheckMissingUniverses(md5: Identity.Md5, dataIds: set<string>) returns (r: Result<MissingUniverseInfo>)
      modifies this`grid, outputDir`savedGrid
      ensures PlainGrid(dimensions).Err? ==> r == Err(NothingToUnpack) && grid == old(grid)
      ensures PlainGrid(dimensions).Ok? ==>
        && grid == Some(PlainGrid(dimensions).value)
        && r == Ok(Reconcile(Identity.IdMap(Identity.IdOf(md5), PlainGrid(dimensions).value), dataIds))
      ensures outputDir.savedGrid == old(outputDir.savedGrid)
    {
      var g := GenerateGrid(false);
      if g.Err? {
        return Err(g.error);
      }
      var ids := Identity.IdMap(Identity.IdOf(md5), g.value);
      return Ok(Reconcile(ids, dataIds));
    }
  }
}
