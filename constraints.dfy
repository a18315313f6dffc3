/**
 * Constraint filtering of a multiverse grid (`apply_constraints` and its
 * inner `is_allowed` in multiversum/helpers.py).
 *
 * A constraint belongs to one dimension and one of its values; it applies to
 * a universe that selected that value. `allowed_if` lists pairs that must all
 * hold, `forbidden_if` pairs none of which may hold. A universe is kept when
 * every constraint that applies to it passes. Looking up a constrained
 * dimension that the universe lacks raises KeyError.
 */
module Constraints {
  import opened Values

  /** One constraint object: `value`, and optionally `allowed_if` and `forbidden_if`. */
  datatype Constraint = Constraint(value: Value, allowedIf: Option<seq<Entry>>, forbiddenIf: Option<seq<Entry>>)

  /** The constraints listed under one dimension name. */
  datatype DimensionConstraints = DimensionConstraints(dimension: string, constraints: seq<Constraint>)

  /** The `constraints` dict, in insertion order. */
  type ConstraintSpec = seq<DimensionConstraints>

  /**
   * What `is_allowed` decides: every `allowed_if` pair matches the universe
   * and no `forbidden_if` pair does, where a key the universe lacks reads
   * as None.
   */
  predicate Allowed(u: Universe, c: Constraint)
  {
    && (c.allowedIf.Some? ==>
          forall i :: 0 <= i < |c.allowedIf.value| ==> Get(u, c.allowedIf.value[i].key) == c.allowedIf.value[i].value)
    && (c.forbiddenIf.Some? ==>
          forall i :: 0 <= i < |c.forbiddenIf.value| ==> Get(u, c.forbiddenIf.value[i].key) != c.forbiddenIf.value[i].value)
  }

  /** `is_allowed`: two loops with early returns. */
  method IsAllowed(u: Universe, c: Constraint) returns (ok: bool)
    ensures ok == Allowed(u, c)
  {
    if c.allowedIf.Some? {
      var pairs := c.allowedIf.value;
      var i := 0;
      while i < |pairs|
        invariant 0 <= i <= |pairs|
        invariant forall k :: 0 <= k < i ==> Get(u, pairs[k].key) == pairs[k].value
      {
        if Get(u, pairs[i].key) != pairs[i].value {
          return false;
        }
        i := i + 1;
      }
    }
    if c.forbiddenIf.Some? {
      var pairs := c.forbiddenIf.value;
      var i := 0;
      while i < |pairs|
        invariant 0 <= i <= |pairs|
        invariant forall k :: 0 <= k < i ==> Get(u, pairs[k].key) != pairs[k].value
      {
        if Get(u, pairs[i].key) == pairs[i].value {
          return false;
        }
        i := i + 1;
      }
    }
    return true;
  }

  /**
   * The inner loop of `apply_constraints` for one dimension: scan its
   * constraints in order; `universe[dimension]` is read for each of them.
   */
  function DimensionVerdict(u: Universe, d: string, cs: seq<Constraint>): Result<bool>
  {
    if cs == [] then Ok(true)
    else match Lookup(u, d)
      case None => Err(MissingKey(d))
      case Some(x) =>
        if x == cs[0].value && !Allowed(u, cs[0]) then Ok(false)
        else DimensionVerdict(u, d, cs[1..])
  }

  /** The outer loop for one universe: dimension by dimension, stopping at the first failure. */
  function Verdict(u: Universe, spec: ConstraintSpec): Result<bool>
  {
    if spec == [] then Ok(true)
    else match DimensionVerdict(u, spec[0].dimension, spec[0].constraints)
      case Err(e) => Err(e)
      case Ok(pass) => if pass then Verdict(u, spec[1..]) else Ok(false)
  }

  /** Every constraint listed under a dimension whose selected value is the constraint's value passes. */
  predicate PassesAll(u: Universe, spec: ConstraintSpec)
  {
    forall k, j ::
      (0 <= k < |spec| && 0 <= j < |spec[k].constraints| &&
       Lookup(u, spec[k].dimension) == Some(spec[k].constraints[j].value)) ==> Allowed(u, spec[k].constraints[j])
  }

  /** Every dimension that has constraints is a key of `u`, so no lookup can fail. */
  predicate CoversConstrained(u: Universe, spec: ConstraintSpec)
  {
    forall k :: 0 <= k < |spec| && spec[k].constraints != [] ==> Lookup(u, spec[k].dimension).Some?
  }

  lemma {:induction false} DimensionVerdictMeaning(u: Universe, d: string, cs: seq<Constraint>)
    ensures DimensionVerdict(u, d, cs).Err? <==> cs != [] && Lookup(u, d).None?
    ensures DimensionVerdict(u, d, cs).Err? ==> DimensionVerdict(u, d, cs) == Err(MissingKey(d))
    ensures DimensionVerdict(u, d, cs) == Ok(true) <==>
      (cs == [] || Lookup(u, d).Some?) &&
      forall j :: 0 <= j < |cs| && Lookup(u, d) == Some(cs[j].value) ==> Allowed(u, cs[j])
  {
    if cs != [] && Lookup(u, d).Some? {
      DimensionVerdictMeaning(u, d, cs[1..]);
      assert forall j :: 0 < j < |cs| ==> cs[j] == cs[1..][j - 1];
    }
  }

  /**
   * The verdict on one universe: it fails only on a missing constrained
   * dimension, it always succeeds when all of them are present, and when it
   * succeeds it says whether every applicable constraint passes.
   */
  lemma {:induction false} VerdictMeaning(u: Universe, spec: ConstraintSpec)
    ensures Verdict(u, spec).Err? ==>
      exists k :: 0 <= k < |spec| && spec[k].constraints != [] && Lookup(u, spec[k].dimension).None? &&
        Verdict(u, spec) == Err(MissingKey(spec[k].dimension))
    ensures CoversConstrained(u, spec) ==> Verdict(u, spec).Ok?
    ensures Verdict(u, spec).Ok? ==> (Verdict(u, spec).value <==> PassesAll(u, spec))
  {
    if spec != [] {
      var d, cs := spec[0].dimension, spec[0].constraints;
      DimensionVerdictMeaning(u, d, cs);
      VerdictMeaning(u, spec[1..]);
      assert forall k :: 0 < k < |spec| ==> spec[k] == spec[1..][k - 1];
      if DimensionVerdict(u, d, cs) == Ok(true) {
        if PassesAll(u, spec[1..]) {
          forall k, j | 0 <= k < |spec| && 0 <= j < |spec[k].constraints| &&
            Lookup(u, spec[k].dimension) == Some(spec[k].constraints[j].value)
            ensures Allowed(u, spec[k].constraints[j])
          {
            if k > 0 {
              assert spec[1..][k - 1] == spec[k];
            }
          }
        }
      } else if DimensionVerdict(u, d, cs) == Ok(false) {
        var j :| 0 <= j < |cs| && Lookup(u, d) == Some(cs[j].value) && !Allowed(u, cs[j]);
        assert !PassesAll(u, spec) by {
          assert spec[0].constraints[j] == cs[j];
        }
      }
    }
  }

  /**
   * `apply_constraints` as a function: the universes whose verdict is
   * positive, in grid order, or the KeyError of the first universe whose
   * verdict fails.
   */
  function Constrained(grid: seq<Universe>, spec: ConstraintSpec): Result<seq<Universe>>
  {
    if grid == [] then Ok([])
    else match Constrained(grid[..|grid| - 1], spec)
      case Err(e) => Err(e)
      case Ok(kept) =>
        var u := grid[|grid| - 1];
        match Verdict(u, spec)
        case Err(e) => Err(e)
        case Ok(pass) => Ok(if pass then kept + [u] else kept)
  }

  /** `a` is an order-preserving subsequence of `b`. */
  predicate IsSubsequence(a: seq<Universe>, b: seq<Universe>)
    decreases |b|
  {
    || a == []
    || (&& b != []
        && (|| (a[|a| - 1] == b[|b| - 1] && IsSubsequence(a[..|a| - 1], b[..|b| - 1]))
            || IsSubsequence(a, b[..|b| - 1])))
  }

  lemma SubsequenceExtend(a: seq<Universe>, b: seq<Universe>, u: Universe)
    requires IsSubsequence(a, b)
    ensures IsSubsequence(a, b + [u]) && IsSubsequence(a + [u], b + [u])
  {
    assert (b + [u])[..|b|] == b;
    assert (a + [u])[..|a|] == a;
  }

  /**
   * `apply_constraints` keeps the grid's order and keeps exactly the
   * universes that pass every applicable constraint; it raises only when a
   * universe lacks a constrained dimension.
   */
  lemma {:induction false} ConstrainedMeaning(grid: seq<Universe>, spec: ConstraintSpec)
    ensures Constrained(grid, spec).Err? <==> exists u :: u in grid && Verdict(u, spec).Err?
    ensures Constrained(grid, spec).Err? ==> Constrained(grid, spec).error.MissingKey?
    ensures Constrained(grid, spec).Ok? ==> IsSubsequence(Constrained(grid, spec).value, grid)
    ensures Constrained(grid, spec).Ok? ==>
      forall u :: u in Constrained(grid, spec).value <==> u in grid && PassesAll(u, spec)
  {
    ConstrainedFails(grid, spec);
    if Constrained(grid, spec).Ok? {
      ConstrainedKeeps(grid, spec);
    }
  }

  /** The error half: filtering fails exactly when some universe's verdict fails, and then with a KeyError. */
  lemma {:induction false} ConstrainedFails(grid: seq<Universe>, spec: ConstraintSpec)
    ensures Constrained(grid, spec).Err? <==> exists u :: u in grid && Verdict(u, spec).Err?
    ensures Constrained(grid, spec).Err? ==> Constrained(grid, spec).error.MissingKey?
  {
    if grid != [] {
      var init, u := grid[..|grid| - 1], grid[|grid| - 1];
      assert grid == init + [u];
      ConstrainedFails(init, spec);
      VerdictMeaning(u, spec);
      if Constrained(init, spec).Err? {
        var w :| w in init && Verdict(w, spec).Err?;
        assert w in grid;
      } else if Verdict(u, spec).Ok? {
        forall v | v in grid ensures Verdict(v, spec).Ok? {
          if v != u {
            assert v in init;
          }
        }
      }
    }
  }

  /** The success half: the kept universes are a subsequence of the grid, and exactly those that pass. */
  lemma {:induction false} ConstrainedKeeps(grid: seq<Universe>, spec: ConstraintSpec)
    requires Constrained(grid, spec).Ok?
    ensures IsSubsequence(Constrained(grid, spec).value, grid)
    ensures forall u :: u in Constrained(grid, spec).value <==> u in grid && PassesAll(u, spec)
  {
    if grid != [] {
      var init, u := grid[..|grid| - 1], grid[|grid| - 1];
      assert grid == init + [u];
      assert Constrained(init, spec).Ok? && Verdict(u, spec).Ok?;
      ConstrainedKeeps(init, spec);
      VerdictMeaning(u, spec);
      var kept := Constrained(init, spec).value;
      SubsequenceExtend(kept, init, u);
      forall v ensures v in grid <==> v in init || v == u {
      }
    }
  }

  /** With no constraints at all, or only empty constraint lists, the grid comes back unchanged. */
  lemma {:induction false} ConstrainedNoConstraints(grid: seq<Universe>, spec: ConstraintSpec)
    requires forall k :: 0 <= k < |spec| ==> spec[k].constraints == []
    ensures Constrained(grid, spec) == Ok(grid)
  {
    if grid != [] {
      ConstrainedNoConstraints(grid[..|grid| - 1], spec);
      VerdictMeaning(grid[|grid| - 1], spec);
      assert grid[..|grid| - 1] + [grid[|grid| - 1]] == grid;
    }
  }

  /** A universe that survived filtering passes again, so filtering twice is filtering once. */
  lemma {:induction false} ConstrainedIdempotent(grid: seq<Universe>, spec: ConstraintSpec)
    requires Constrained(grid, spec).Ok?
    ensures Constrained(Constrained(grid, spec).value, spec) == Constrained(grid, spec)
  {
    var kept := Constrained(grid, spec).value;
    forall u | u in kept ensures Verdict(u, spec) == Ok(true) {
      KeptUniversesPass(grid, spec, u);
    }
    AllPassKept(kept, spec);
  }

  lemma {:induction false} AllPassKept(grid: seq<Universe>, spec: ConstraintSpec)
    requires forall u :: u in grid ==> Verdict(u, spec) == Ok(true)
    ensures Constrained(grid, spec) == Ok(grid)
  {
    if grid != [] {
      var init, u := grid[..|grid| - 1], grid[|grid| - 1];
      assert forall v :: v in init ==> v in grid;
      AllPassKept(init, spec);
      assert u in grid && Verdict(u, spec) == Ok(true);
      assert init + [u] == grid;
      assert Constrained(grid, spec) == Ok(init + [u]);
    }
  }

  /**
   * The Verdict of a kept universe is positive: a kept universe passes every
   * applicable constraint and its verdict succeeded.
   */
  lemma KeptUniversesPass(grid: seq<Universe>, spec: ConstraintSpec, u: Universe)
    requires Constrained(grid, spec).Ok?
    requires u in Constrained(grid, spec).value
    ensures Verdict(u, spec) == Ok(true)
  {
    ConstrainedMeaning(grid, spec);
    VerdictMeaning(u, spec);
  }

  /**
   * The innermost loop of `apply_constraints`: the constraints of one
   * dimension, in order, reading `universe[dimension]` for each.
   */
  method ScanDimension(u: Universe, d: string, cs: seq<Constraint>) returns (r: Result<bool>)
    ensures r == DimensionVerdict(u, d, cs)
  {
    var j := 0;
    while j < |cs|
      invariant 0 <= j <= |cs|
      invariant DimensionVerdict(u, d, cs) == DimensionVerdict(u, d, cs[j..])
    {
      assert cs[j..][0] == cs[j] && cs[j..][1..] == cs[j + 1..];
      var selected := Lookup(u, d);
      if selected.None? {
        return Err(MissingKey(d));
      }
      var ok := IsAllowed(u, cs[j]);
      if selected.value == cs[j].value && !ok {
        return Ok(false);
      }
      j := j + 1;
    }
    return Ok(true);
  }

  /** The loop over the constraint dict for one universe, with its `valid` flag and `break`. */
  method ScanUniverse(u: Universe, spec: ConstraintSpec) returns (r: Result<bool>)
    ensures r == Verdict(u, spec)
  {
    var valid := true;
    var k := 0;
    while k < |spec|
      invariant 0 <= k <= |spec|
      invariant valid ==> Verdict(u, spec) == Verdict(u, spec[k..])
      invariant !valid ==> Verdict(u, spec) == Ok(false)
    {
      assert spec[k..][0] == spec[k] && spec[k..][1..] == spec[k + 1..];
      var pass := ScanDimension(u, spec[k].dimension, spec[k].constraints);
      if pass.Err? {
        return Err(pass.error);
      }
      if !pass.value {
        valid := false;
        break;
      }
      k := k + 1;
    }
    return Ok(valid);
  }

  /** `apply_constraints`: the loop over the grid, appending every valid universe to `filtered_grid`. */
  method ApplyConstraints(grid: seq<Universe>, spec: ConstraintSpec) returns (r: Result<seq<Universe>>)
    ensures r == Constrained(grid, spec)
  {
    var filtered: seq<Universe> := [];
    var n := 0;
    while n < |grid|
      invariant 0 <= n <= |grid|
      invariant Constrained(grid[..n], spec) == Ok(filtered)
    {
      var u := grid[n];
      assert grid[..n + 1] == grid[..n] + [u];
      var valid := ScanUniverse(u, spec);
      if valid.Err? {
        ConstrainedErrorSticks(grid, spec, n + 1);
        return Err(valid.error);
      }
      if valid.value {
        filtered := filtered + [u];
      }
      n := n + 1;
    }
    assert grid[..n] == grid;
    return Ok(filtered);
  }

  /** Once a prefix of the grid raises, the whole grid raises the same error. */
  lemma {:induction false} ConstrainedErrorSticks(grid: seq<Universe>, spec: ConstraintSpec, m: nat)
    requires m <= |grid| && Constrained(grid[..m], spec).Err?
    ensures Constrained(grid, spec) == Constrained(grid[..m], spec)
    decreases |grid| - m
  {
    if m < |grid| {
      assert grid[..m + 1][..m] == grid[..m];
      ConstrainedErrorSticks(grid, spec, m + 1);
    } else {
      assert grid[..m] == grid;
    }
  }
}
