/**
 * Grid generation (`generate_multiverse_grid` in multiversum/helpers.py):
 * the cartesian product of the dimensions' option lists, first dimension
 * varying slowest, after list options are turned into tuples and option
 * lists with duplicates are rejected, optionally filtered by constraints.
 */
module Grid {
  import opened Values
  import Constraints

  /** A dimension: its name and its ordered option list. */
  datatype Dimension = Dimension(name: string, options: seq<Value>)

  predicate NoDuplicates<T(==)>(s: seq<T>)
  {
    forall i, j :: 0 <= i < j < |s| ==> s[i] != s[j]
  }

  /** No two dimensions share a name, as in the dict they come from. */
  predicate DistinctNames(dims: seq<Dimension>)
  {
    forall i, j :: 0 <= i < j < |dims| ==> dims[i].name != dims[j].name
  }

  /** `u` selects, dimension by dimension and in declared order, one of that dimension's options. */
  predicate Fits(u: Universe, dims: seq<Dimension>)
  {
    && |u| == |dims|
    && forall k :: 0 <= k < |dims| ==> u[k].key == dims[k].name && u[k].value in dims[k].options
  }

  /** The number of universes in the full grid: the product of the option counts. */
  function Count(dims: seq<Dimension>): nat
  {
    if dims == [] then 1 else |dims[0].options| * Count(dims[1..])
  }

  /** Puts one more selected option in front of every partial universe. */
  function Prefixed(e: Entry, us: seq<Universe>): (r: seq<Universe>)
    ensures |r| == |us|
    ensures forall i :: 0 <= i < |us| ==> r[i] == [e] + us[i]
  {
    if us == [] then [] else [[e] + us[0]] + Prefixed(e, us[1..])
  }

  /** One block of partial universes per option of the leading dimension, in option order. */
  function Expand(name: string, opts: seq<Value>, rest: seq<Universe>): seq<Universe>
  {
    if opts == [] then [] else Prefixed(Entry(name, opts[0]), rest) + Expand(name, opts[1..], rest)
  }

  /** `[dict(zip(keys, v)) for v in itertools.product(*values)]`. */
  function Product(dims: seq<Dimension>): seq<Universe>
  {
    if dims == [] then [[]] else Expand(dims[0].name, dims[0].options, Product(dims[1..]))
  }

  lemma {:induction false} ExpandLength(name: string, opts: seq<Value>, rest: seq<Universe>)
    ensures |Expand(name, opts, rest)| == |opts| * |rest|
  {
    if opts != [] {
      ExpandLength(name, opts[1..], rest);
      assert |opts| * |rest| == |rest| + (|opts| - 1) * |rest|;
    }
  }

  /** The grid has as many universes as the product of the option counts. */
  lemma {:induction false} ProductLength(dims: seq<Dimension>)
    ensures |Product(dims)| == Count(dims)
  {
    if dims != [] {
      ProductLength(dims[1..]);
      ExpandLength(dims[0].name, dims[0].options, Product(dims[1..]));
    }
  }

  lemma {:induction false} ExpandAt(name: string, opts: seq<Value>, rest: seq<Universe>, q: nat, r: nat)
    requires q < |opts| && r < |rest|
    ensures q * |rest| + r < |Expand(name, opts, rest)|
    ensures Expand(name, opts, rest)[q * |rest| + r] == [Entry(name, opts[q])] + rest[r]
  {
    ExpandLength(name, opts, rest);
    var block := Prefixed(Entry(name, opts[0]), rest);
    if q > 0 {
      ExpandAt(name, opts[1..], rest, q - 1, r);
      ExpandLength(name, opts[1..], rest);
      assert q * |rest| + r == |rest| + ((q - 1) * |rest| + r);
      assert opts[1..][q - 1] == opts[q];
    }
  }

  /**
   * The enumeration order: the universe at position `q * M + r` (M being the
   * size of the grid of the remaining dimensions) selects option `q` of the
   * first dimension followed by universe `r` of the remaining grid. So the
   * first dimension varies slowest, the last fastest.
   */
  lemma ProductOrder(dims: seq<Dimension>, q: nat, r: nat)
    requires dims != [] && q < |dims[0].options| && r < |Product(dims[1..])|
    ensures q * |Product(dims[1..])| + r < |Product(dims)|
    ensures Product(dims)[q * |Product(dims[1..])| + r] ==
            [Entry(dims[0].name, dims[0].options[q])] + Product(dims[1..])[r]
  {
    ExpandAt(dims[0].name, dims[0].options, Product(dims[1..]), q, r);
  }

  lemma {:induction false} ExpandMembership(name: string, opts: seq<Value>, rest: seq<Universe>, u: Universe)
    ensures u in Expand(name, opts, rest) <==>
      |u| >= 1 && u[0] == Entry(name, u[0].value) && u[0].value in opts && u[1..] in rest
  {
    if opts != [] {
      ExpandMembership(name, opts[1..], rest, u);
      var block := Prefixed(Entry(name, opts[0]), rest);
      if u in block {
        var i :| 0 <= i < |block| && block[i] == u;
        assert u[1..] == rest[i];
      }
      if |u| >= 1 && u[0] == Entry(name, opts[0]) && u[1..] in rest {
        var i :| 0 <= i < |rest| && rest[i] == u[1..];
        assert block[i] == u;
      }
    }
  }

  /** Exactly the universes that select one option of every dimension, in declared key order, are in the grid. */
  lemma {:induction false} ProductMembership(dims: seq<Dimension>, u: Universe)
    ensures u in Product(dims) <==> Fits(u, dims)
  {
    if dims != [] {
      ExpandMembership(dims[0].name, dims[0].options, Product(dims[1..]), u);
      if |u| >= 1 {
        ProductMembership(dims[1..], u[1..]);
        if Fits(u, dims) {
          assert Fits(u[1..], dims[1..]) by {
            forall k | 0 <= k < |dims| - 1
              ensures u[1..][k].key == dims[1..][k].name && u[1..][k].value in dims[1..][k].options
            {
              assert u[1..][k] == u[k + 1] && dims[1..][k] == dims[k + 1];
            }
          }
        }
        if u in Product(dims) {
          forall k | 0 < k < |dims| ensures u[k].key == dims[k].name && u[k].value in dims[k].options {
            assert u[1..][k - 1] == u[k] && dims[1..][k - 1] == dims[k];
          }
        }
      }
    }
  }

  lemma {:induction false} ExpandDistinct(name: string, opts: seq<Value>, rest: seq<Universe>)
    requires NoDuplicates(opts) && NoDuplicates(rest)
    ensures NoDuplicates(Expand(name, opts, rest))
  {
    if opts != [] {
      var block := Prefixed(Entry(name, opts[0]), rest);
      var tail := Expand(name, opts[1..], rest);
      assert NoDuplicates(opts[1..]) by {
        forall i, j | 0 <= i < j < |opts[1..]| ensures opts[1..][i] != opts[1..][j] {
          assert opts[1..][i] == opts[i + 1] && opts[1..][j] == opts[j + 1];
        }
      }
      ExpandDistinct(name, opts[1..], rest);
      assert NoDuplicates(block) by {
        forall i, j | 0 <= i < j < |block| ensures block[i] != block[j] {
          assert block[i][1..] == rest[i] && block[j][1..] == rest[j];
        }
      }
      forall i, j | 0 <= i < |block| && 0 <= j < |tail| ensures block[i] != tail[j] {
        ExpandMembership(name, opts[1..], rest, tail[j]);
        assert tail[j] in tail;
        var m :| 0 <= m < |opts[1..]| && opts[1..][m] == tail[j][0].value;
        assert opts[m + 1] != opts[0];
      }
    }
  }

  /** Without duplicate options, no universe occurs twice in the grid. */
  lemma {:induction false} ProductDistinct(dims: seq<Dimension>)
    requires forall k :: 0 <= k < |dims| ==> NoDuplicates(dims[k].options)
    ensures NoDuplicates(Product(dims))
  {
    if dims != [] {
      ProductDistinct(dims[1..]);
      ExpandDistinct(dims[0].name, dims[0].options, Product(dims[1..]));
    }
  }

  /** With distinct dimension names, every grid universe is a dict keyed by the dimension names. */
  lemma FitsDistinctKeys(u: Universe, dims: seq<Dimension>)
    requires DistinctNames(dims) && Fits(u, dims)
    ensures DistinctKeys(u)
  {
  }

  /** Whether an option can be put into a Python set: lists and dicts cannot, tuples only when their items can. */
  predicate Hashable(v: Value)
  {
    match v
    case VList(_) => false
    case VObject(_) => false
    case VTuple(xs) => forall i :: 0 <= i < |xs| ==> Hashable(xs[i])
    case _ => true
  }

  /** `values_conv`: each dimension with its list options turned into tuples. */
  function Normalised(dims: seq<Dimension>): (r: seq<Dimension>)
    ensures |r| == |dims|
    ensures forall k :: 0 <= k < |dims| ==>
      r[k].name == dims[k].name && |r[k].options| == |dims[k].options| &&
      forall i :: 0 <= i < |dims[k].options| ==> r[k].options[i] == Normalise(dims[k].options[i])
  {
    seq(|dims|, k requires 0 <= k < |dims| =>
      Dimension(dims[k].name, seq(|dims[k].options|, i requires 0 <= i < |dims[k].options| => Normalise(dims[k].options[i]))))
  }

  /**
   * `any(len(dim) != len(set(dim)) for dim in values_conv)`, dimension by
   * dimension: building the set raises TypeError on an unhashable option,
   * a shorter set means a duplicate.
   */
  function OptionsError(dims: seq<Dimension>): (r: Option<Error>)
    ensures r.None? <==> forall k :: 0 <= k < |dims| ==>
      NoDuplicates(dims[k].options) && forall i :: 0 <= i < |dims[k].options| ==> Hashable(dims[k].options[i])
    ensures r.Some? ==> r.value == DuplicateOptions || r.value == Unhashable
    ensures r.Some? && (forall k, i :: 0 <= k < |dims| && 0 <= i < |dims[k].options| ==> Hashable(dims[k].options[i])) ==>
      r.value == DuplicateOptions
    ensures r == Some(Unhashable) ==>
      exists k, i :: 0 <= k < |dims| && 0 <= i < |dims[k].options| && !Hashable(dims[k].options[i])
  {
    if dims == [] then None
    else if exists i :: 0 <= i < |dims[0].options| && !Hashable(dims[0].options[i]) then Some(Unhashable)
    else if !NoDuplicates(dims[0].options) then Some(DuplicateOptions)
    else
      var r := OptionsError(dims[1..]);
      assert forall k :: 0 < k < |dims| ==> dims[k] == dims[1..][k - 1];
      r
  }

  /** `if constraints:`, a missing or empty constraints dict skips filtering. */
  predicate Truthy(constraints: Option<Constraints.ConstraintSpec>)
  {
    constraints.Some? && constraints.value != []
  }

  /**
   * `generate_multiverse_grid(dimensions, constraints)`: ValueError for no
   * dimensions; TypeError or ValueError when an option list, after
   * normalisation, has an unhashable option or a duplicate; otherwise the
   * full product of the normalised options, filtered when constraints are
   * given.
   */
  function GenerateMultiverseGrid(dims: seq<Dimension>, constraints: Option<Constraints.ConstraintSpec>): (r: Result<seq<Universe>>)
    ensures r == Err(EmptyDimensions) <==> dims == []
    ensures dims != [] && OptionsError(Normalised(dims)).Some? ==> r == Err(OptionsError(Normalised(dims)).value)
    ensures r.Ok? ==> forall k :: 0 <= k < |dims| ==> NoDuplicates(Normalised(dims)[k].options)
    ensures r.Ok? ==> NoDuplicates(r.value)
    ensures r.Ok? ==> forall u :: u in r.value ==> Fits(u, Normalised(dims))
    ensures !Truthy(constraints) && dims != [] && OptionsError(Normalised(dims)).None? ==>
      r == Ok(Product(Normalised(dims)))
    ensures Truthy(constraints) && dims != [] && OptionsError(Normalised(dims)).None? ==>
      r == Constraints.Constrained(Product(Normalised(dims)), constraints.value)
    ensures Truthy(constraints) && r.Ok? ==>
      && Constraints.IsSubsequence(r.value, Product(Normalised(dims)))
      && forall u :: u in r.value <==> u in Product(Normalised(dims)) && Constraints.PassesAll(u, constraints.value)
  {
    if dims == [] then Err(EmptyDimensions)
    else
      var norm := Normalised(dims);
      match OptionsError(norm)
      case Some(e) => Err(e)
      case None =>
        var grid := Product(norm);
        ProductDistinct(norm);
        forall u | u in grid ensures Fits(u, norm) {
          ProductMembership(norm, u);
        }
        if Truthy(constraints) then
          var r := Constraints.Constrained(grid, constraints.value);
          Constraints.ConstrainedMeaning(grid, constraints.value);
          if r.Ok? then
            SubsequenceDistinct(r.value, grid);
            r
          else r
        else Ok(grid)
  }

  /** A subsequence of a sequence without duplicates has none either. */
  lemma {:induction false} SubsequenceDistinct(a: seq<Universe>, b: seq<Universe>)
    requires Constraints.IsSubsequence(a, b) && NoDuplicates(b)
    ensures NoDuplicates(a)
    decreases |b|
  {
    if a != [] {
      var b' := b[..|b| - 1];
      assert NoDuplicates(b');
      if a[|a| - 1] == b[|b| - 1] && Constraints.IsSubsequence(a[..|a| - 1], b') {
        SubsequenceDistinct(a[..|a| - 1], b');
        SubsequenceMembers(a[..|a| - 1], b');
        forall i | 0 <= i < |a| - 1 ensures a[i] != a[|a| - 1] {
          assert a[..|a| - 1][i] == a[i];
          assert a[i] in b';
        }
      } else {
        SubsequenceDistinct(a, b');
      }
    }
  }

  lemma {:induction false} SubsequenceMembers(a: seq<Universe>, b: seq<Universe>)
    requires Constraints.IsSubsequence(a, b)
    ensures forall x :: x in a ==> x in b
    decreases |b|
  {
    if a != [] {
      var b' := b[..|b| - 1];
      if a[|a| - 1] == b[|b| - 1] && Constraints.IsSubsequence(a[..|a| - 1], b') {
        SubsequenceMembers(a[..|a| - 1], b');
        assert forall x :: x in a ==> x in a[..|a| - 1] || x == a[|a| - 1];
      } else {
        SubsequenceMembers(a, b');
      }
    }
  }
}
