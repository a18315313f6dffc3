/**
 * Universe identity (`generate_universe_id` and `add_ids_to_multiverse_grid`
 * in multiversum/helpers.py): a universe's ID is the MD5 hex digest
 * (RFC 1321) of the UTF-8 bytes of its key-sorted JSON text. The digest
 * itself is a parameter: nothing is assumed about it beyond being a
 * function, in particular not that it is collision free.
 */
module Identity {
  import opened Values
  import Json

  newtype byte = x: int | 0 <= x < 0x100

  /** `hashlib.md5(data).hexdigest()`, taken as given. */
  type Md5 = seq<byte> -> string

  /** `s.encode("utf-8")` for text that is printable ASCII: one byte per character, its code. */
  function AsciiBytes(s: string): (r: seq<byte>)
    requires Json.Printable(s)
    ensures |r| == |s|
    ensures forall k :: 0 <= k < |s| ==> r[k] as int == s[k] as int
  {
    if s == [] then [] else [s[0] as int as byte] + AsciiBytes(s[1..])
  }

  /** Encoding is injective on the texts it accepts, so the digest sees the JSON text itself. */
  lemma AsciiBytesInjective(s: string, t: string)
    requires Json.Printable(s) && Json.Printable(t)
    requires AsciiBytes(s) == AsciiBytes(t)
    ensures s == t
  {
    assert |s| == |t|;
    forall k | 0 <= k < |s| ensures s[k] == t[k] {
      assert AsciiBytes(s)[k] == AsciiBytes(t)[k];
    }
  }

  /** `generate_universe_id(u)`: the digest of `json.dumps(u, sort_keys=True).encode("utf-8")`. */
  function UniverseId(md5: Md5, u: Universe): string
  {
    md5(AsciiBytes(Json.Dumps(VObject(u))))
  }

  /**
   * The ID depends only on the universe's key/value pairs: two dicts with
   * the same pairs, inserted in any order, get the same ID.
   */
  lemma UniverseIdOrderFree(md5: Md5, u1: Universe, u2: Universe)
    requires DistinctKeys(u1) && DistinctKeys(u2)
    requires forall e :: e in u1 <==> e in u2
    ensures UniverseId(md5, u1) == UniverseId(md5, u2)
  {
    Json.CanonicalObjectOrderFree(u1, u2);
  }

  /**
   * Turning list values into tuples, as `generate_multiverse_grid` does with
   * its options, leaves a universe's ID unchanged.
   */
  lemma UniverseIdNormalised(md5: Md5, u: Universe, w: Universe)
    requires |u| == |w|
    requires forall i :: 0 <= i < |u| ==> w[i].key == u[i].key && w[i].value == Normalise(u[i].value)
    ensures UniverseId(md5, u) == UniverseId(md5, w)
  {
    Json.DumpsNormalised(u, w);
  }

  /** `generate_universe_id` as a function value, the key of the ID map. */
  function IdOf(md5: Md5): Universe -> string
  {
    u => UniverseId(md5, u)
  }

  /**
   * `add_ids_to_multiverse_grid`: a dict comprehension from ID to universe,
   * for the ID function `id` (`IdOf(md5)` in the program). When two
   * universes share an ID, the later one is the value kept.
   */
  function IdMap(id: Universe -> string, grid: seq<Universe>): (m: map<string, Universe>)
    ensures forall u :: u in grid ==> id(u) in m
    ensures forall k :: k in m ==> m[k] in grid && id(m[k]) == k
  {
    if grid == [] then map[]
    else
      var init, u := grid[..|grid| - 1], grid[|grid| - 1];
      assert grid == init + [u];
      IdMap(id, init)[id(u) := u]
  }

  /** The keys are exactly the grid's IDs. */
  lemma IdMapKeys(id: Universe -> string, grid: seq<Universe>)
    ensures IdMap(id, grid).Keys == set u | u in grid :: id(u)
  {
    var m := IdMap(id, grid);
    forall k | k in m ensures k in set u | u in grid :: id(u) {
      assert m[k] in grid;
    }
  }

  /** When no two universes of the grid share an ID, each is found under its own ID. */
  lemma IdMapCollisionFree(id: Universe -> string, grid: seq<Universe>, u: Universe)
    requires forall v, w :: v in grid && w in grid && id(v) == id(w) ==> v == w
    requires u in grid
    ensures IdMap(id, grid)[id(u)] == u
  {
  }

  /**
   * The value stored under an ID is the last universe of the grid with that
   * ID: a universe that no later universe shares an ID with is the one found.
   */
  lemma {:induction false} IdMapLastWins(id: Universe -> string, grid: seq<Universe>, j: nat)
    requires j < |grid|
    requires forall k :: j < k < |grid| ==> id(grid[k]) != id(grid[j])
    ensures IdMap(id, grid)[id(grid[j])] == grid[j]
  {
    var n := |grid| - 1;
    var init := grid[..n];
    IdMapSnoc(id, grid);
    if j < n {
      assert id(grid[n]) != id(grid[j]);
      assert IdMap(id, init)[id(grid[j])] == grid[j] by {
        assert init[j] == grid[j];
        forall k | j < k < |init| ensures id(init[k]) != id(init[j]) {
          assert init[k] == grid[k];
        }
        IdMapLastWins(id, init, j);
      }
    }
  }

  /** The map of a grid is the map of all but its last universe, updated with the last one. */
  lemma IdMapSnoc(id: Universe -> string, grid: seq<Universe>)
    requires grid != []
    ensures IdMap(id, grid) == IdMap(id, grid[..|grid| - 1])[id(grid[|grid| - 1]) := grid[|grid| - 1]]
  {
  }
}
