/** The 2x2 grid of the package's grid test, computed through the model. */
module GridExamples {
  import opened Values
  import opened Grid
  import opened Constraints

  /** The Cartesian product of x in [1, 2] and y in [3, 4], in itertools order. */
  lemma TwoByTwoProduct()
    ensures Product([Dimension("x", [VInt(1), VInt(2)]), Dimension("y", [VInt(3), VInt(4)])])
      == [[Entry("x", VInt(1)), Entry("y", VInt(3))], [Entry("x", VInt(1)), Entry("y", VInt(4))],
          [Entry("x", VInt(2)), Entry("y", VInt(3))], [Entry("x", VInt(2)), Entry("y", VInt(4))]]
  {
    var x, y := Dimension("x", [VInt(1), VInt(2)]), Dimension("y", [VInt(3), VInt(4)]);
    var dims := [x, y];
    assert dims[1..] == [y] && [y][1..] == [];
    var e3, e4 := Entry("y", VInt(3)), Entry("y", VInt(4));
    var ys := [[e3], [e4]];
    assert Product([y]) == ys by {
      var p := Product([y]);
      assert Product([y][1..]) == [[]];
      assert p == Expand("y", y.options, [[]]);
      assert |p| == 2 by { ExpandLength("y", y.options, [[]]); }
      ExpandAt("y", y.options, [[]], 0, 0);
      ExpandAt("y", y.options, [[]], 1, 0);
      assert p[0] == [e3] + [] && p[1] == [e4] + [];
      assert [e3] + [] == [e3] && [e4] + [] == [e4];
    }
    var p := Product(dims);
    assert p == Expand("x", x.options, ys);
    assert |p| == 4 by { ExpandLength("x", x.options, ys); }
    ExpandAt("x", x.options, ys, 0, 0);
    ExpandAt("x", x.options, ys, 0, 1);
    ExpandAt("x", x.options, ys, 1, 0);
    ExpandAt("x", x.options, ys, 1, 1);
    var e1, e2 := Entry("x", VInt(1)), Entry("x", VInt(2));
    assert [e1] + [e3] == [e1, e3] && [e1] + [e4] == [e1, e4];
    assert [e2] + [e3] == [e2, e3] && [e2] + [e4] == [e2, e4];
  }

  /** The grid of {"x": [1, 2], "y": [3, 4]} without constraints. */
  lemma TwoByTwo()
    ensures GenerateMultiverseGrid([Dimension("x", [VInt(1), VInt(2)]), Dimension("y", [VInt(3), VInt(4)])], None)
      == Ok([[Entry("x", VInt(1)), Entry("y", VInt(3))], [Entry("x", VInt(1)), Entry("y", VInt(4))],
             [Entry("x", VInt(2)), Entry("y", VInt(3))], [Entry("x", VInt(2)), Entry("y", VInt(4))]])
  {
    var x, y := Dimension("x", [VInt(1), VInt(2)]), Dimension("y", [VInt(3), VInt(4)]);
    var dims := [x, y];
    var n := Normalised(dims);
    assert n[0].options == x.options && n[1].options == y.options;
    assert n == dims;
    assert OptionsError(dims).None?;
    TwoByTwoProduct();
  }
}

/** The scaler / feature-selector constraints of the package's constraint test. */
module ConstraintExamples {
  import opened Values
  import opened Grid
  import opened Constraints

  /** The universe with the given scaler and feature selector. */
  function U(s: string, f: string): Universe
  {
    [Entry("scaler", VStr(s)), Entry("feature_selector", VStr(f))]
  }

  /** "no-scaler" only with all features; "MinMaxScaler" never with all features. */
  function Spec(): ConstraintSpec
  {
    [DimensionConstraints("scaler", [
      Constraint(VStr("no-scaler"), Some([Entry("feature_selector", VStr("use-all-features"))]), None),
      Constraint(VStr("MinMaxScaler"), None, Some([Entry("feature_selector", VStr("use-all-features"))]))])]
  }

  /** Which of the nine universes the constraints keep: all but no-scaler with a
      selection and MinMaxScaler with all features, six of nine. */
  lemma VerdictOf(s: string, f: string)
    requires s in {"StandardScaler", "MinMaxScaler", "no-scaler"}
    requires f in {"SelectKBest_5", "SelectKBest_10", "use-all-features"}
    ensures Verdict(U(s, f), Spec()) ==
      Ok(!(s == "no-scaler" && f != "use-all-features") && !(s == "MinMaxScaler" && f == "use-all-features"))
  {
    var u, spec := U(s, f), Spec();
    assert Lookup(u, "scaler") == Some(VStr(s));
    assert Get(u, "feature_selector") == VStr(f);
    assert spec[1..] == [];
    var cs := spec[0].constraints;
    var c0, c1 := cs[0], cs[1];
    assert c0.allowedIf.Some? && |c0.allowedIf.value| == 1 && c0.forbiddenIf.None?;
    assert c0.allowedIf.value[0] == Entry("feature_selector", VStr("use-all-features"));
    assert Allowed(u, c0) <==> Get(u, "feature_selector") == VStr("use-all-features");
    assert Allowed(u, c0) <==> f == "use-all-features";
    assert Allowed(u, c1) <==> f != "use-all-features";
    assert cs[1..][0] == c1 && cs[1..][1..] == [];
    assert DimensionVerdict(u, "scaler", cs[1..][1..]) == Ok(true);
    assert DimensionVerdict(u, "scaler", cs[1..]) == Ok(!(s == "MinMaxScaler" && f == "use-all-features"));
    assert DimensionVerdict(u, "scaler", cs) ==
      Ok(!(s == "no-scaler" && f != "use-all-features") && !(s == "MinMaxScaler" && f == "use-all-features"));
  }
}
