/**
 * The text that Python's `json.dumps(value, sort_keys=True)` produces with
 * its default settings (RFC 8259 JSON, `", "` between items, `": "` after a
 * key, `ensure_ascii=True`), split into two steps: `Canonical` sorts the
 * entries of every object by key, and `Write` prints a value as it stands.
 */
module Json {
  import opened Values
  import Text

  /** Strictly increasing keys, in Python's string order. */
  predicate SortedByKey(s: seq<Entry>)
  {
    forall i, j :: 0 <= i < j < |s| ==> Text.Less(s[i].key, s[j].key)
  }

  /** Inserts one entry in front of the first entry whose key is not smaller. */
  function InsertByKey(e: Entry, s: seq<Entry>): (r: seq<Entry>)
    ensures multiset(r) == multiset(s) + multiset{e}
  {
    if s == [] then [e]
    else if Text.Less(s[0].key, e.key) then
      assert s == [s[0]] + s[1..];
      [s[0]] + InsertByKey(e, s[1..])
    else [e] + s
  }

  lemma {:induction false} InsertByKeySorted(e: Entry, s: seq<Entry>)
    requires SortedByKey(s)
    requires forall x :: x in s ==> x.key != e.key
    ensures SortedByKey(InsertByKey(e, s))
  {
    if s != [] {
      if Text.Less(s[0].key, e.key) {
        var t := InsertByKey(e, s[1..]);
        InsertByKeySorted(e, s[1..]);
        forall x | x in t ensures Text.Less(s[0].key, x.key) {
          assert x in multiset(t);
          if x != e {
            assert x in s[1..];
            var j :| 0 <= j < |s[1..]| && s[1..][j] == x;
            assert s[j + 1] == x;
          }
        }
        assert forall j :: 0 < j < |[s[0]] + t| ==> ([s[0]] + t)[j] == t[j - 1] && t[j - 1] in t;
      } else {
        assert s[0] in s;
        Text.LessTotal(s[0].key, e.key);
        forall j | 0 <= j < |s| ensures Text.Less(e.key, s[j].key) {
          if j > 0 {
            Text.LessTransitive(e.key, s[0].key, s[j].key);
          }
        }
      }
    }
  }

  /** `sorted(d.items())` for a dict: its entries ordered by key. */
  function SortEntries(es: seq<Entry>): (r: seq<Entry>)
    ensures multiset(r) == multiset(es)
    ensures |r| == |es|
  {
    if es == [] then []
    else
      assert es == [es[0]] + es[1..];
      InsertByKey(es[0], SortEntries(es[1..]))
  }

  lemma {:induction false} SortEntriesSorted(es: seq<Entry>)
    requires DistinctKeys(es)
    ensures SortedByKey(SortEntries(es))
  {
    if es != [] {
      var rest := SortEntries(es[1..]);
      assert DistinctKeys(es[1..]) by {
        forall i, j | 0 <= i < j < |es[1..]| ensures es[1..][i].key != es[1..][j].key {
          assert es[1..][i] == es[i + 1] && es[1..][j] == es[j + 1];
        }
      }
      SortEntriesSorted(es[1..]);
      forall x | x in rest ensures x.key != es[0].key {
        assert x in multiset(rest);
        assert x in es[1..];
        var j :| 0 <= j < |es[1..]| && es[1..][j] == x;
        assert es[j + 1] == x;
      }
      InsertByKeySorted(es[0], rest);
    }
  }

  lemma SameElementsEmpty<T>(a: seq<T>, b: seq<T>)
    requires forall x :: x in a <==> x in b
    ensures a == [] <==> b == []
  {
    if a != [] {
      assert a[0] in b;
    }
    if b != [] {
      assert b[0] in a;
    }
  }

  /** Two key-sorted sequences with the same elements are the same sequence. */
  lemma {:induction false} SortedUnique(a: seq<Entry>, b: seq<Entry>)
    requires SortedByKey(a) && SortedByKey(b)
    requires forall x :: x in a <==> x in b
    ensures a == b
  {
    SameElementsEmpty(a, b);
    if a != [] {
      assert a[0] in b;
      assert b[0] in a;
      var k :| 0 <= k < |b| && b[k] == a[0];
      var m :| 0 <= m < |a| && a[m] == b[0];
      if k > 0 {
        assert Text.Less(b[0].key, a[0].key);
        if m > 0 {
          Text.LessAsymmetric(a[0].key, b[0].key);
        } else {
          Text.LessIrreflexive(a[0].key);
        }
        assert false;
      }
      assert a[0] == b[0];
      forall x ensures x in a[1..] <==> x in b[1..] {
        if x in a[1..] {
          var j :| 0 <= j < |a[1..]| && a[1..][j] == x;
          assert a[j + 1] == x && Text.Less(a[0].key, x.key);
          Text.LessIrreflexive(x.key);
          assert x in b && x != b[0];
        }
        if x in b[1..] {
          var j :| 0 <= j < |b[1..]| && b[1..][j] == x;
          assert b[j + 1] == x && Text.Less(b[0].key, x.key);
          Text.LessIrreflexive(x.key);
          assert x in a && x != a[0];
        }
      }
      SortedUnique(a[1..], b[1..]);
      assert a == [a[0]] + a[1..] && b == [b[0]] + b[1..];
    }
  }

  /** The value `json.dumps(..., sort_keys=True)` prints: every object's entries sorted by key. */
  function Canonical(v: Value): Value
  {
    match v
    case VList(xs) => VList(CanonicalItems(xs))
    case VTuple(xs) => VTuple(CanonicalItems(xs))
    case VObject(fs) => VObject(SortEntries(CanonicalFields(fs)))
    case _ => v
  }

  function CanonicalItems(xs: seq<Value>): (r: seq<Value>)
    ensures |r| == |xs|
    ensures forall i :: 0 <= i < |xs| ==> r[i] == Canonical(xs[i])
  {
    if xs == [] then [] else [Canonical(xs[0])] + CanonicalItems(xs[1..])
  }

  function CanonicalFields(fs: seq<Entry>): (r: seq<Entry>)
    ensures |r| == |fs|
    ensures forall i :: 0 <= i < |fs| ==> r[i] == Entry(fs[i].key, Canonical(fs[i].value))
  {
    if fs == [] then [] else [Entry(fs[0].key, Canonical(fs[0].value))] + CanonicalFields(fs[1..])
  }

  /**
   * The canonical form of a dict depends only on its set of key/value pairs,
   * not on the order in which the keys were inserted.
   */
  lemma CanonicalObjectOrderFree(u1: seq<Entry>, u2: seq<Entry>)
    requires DistinctKeys(u1) && DistinctKeys(u2)
    requires forall e :: e in u1 <==> e in u2
    ensures Canonical(VObject(u1)) == Canonical(VObject(u2))
  {
    var c1, c2 := CanonicalFields(u1), CanonicalFields(u2);
    CanonicalFieldsDistinct(u1);
    CanonicalFieldsDistinct(u2);
    CanonicalFieldsIncluded(u1, u2);
    CanonicalFieldsIncluded(u2, u1);
    SortEntriesOrderFree(c1, c2);
  }

  /** Canonicalising the values keeps the keys, so distinct keys stay distinct. */
  lemma CanonicalFieldsDistinct(u: seq<Entry>)
    requires DistinctKeys(u)
    ensures DistinctKeys(CanonicalFields(u))
  {
    var c := CanonicalFields(u);
    assert forall i :: 0 <= i < |c| ==> c[i].key == u[i].key;
  }

  /** Every canonical entry of `u1` is a canonical entry of `u2` when every entry of `u1` is in `u2`. */
  lemma CanonicalFieldsIncluded(u1: seq<Entry>, u2: seq<Entry>)
    requires forall e :: e in u1 ==> e in u2
    ensures forall x :: x in CanonicalFields(u1) ==> x in CanonicalFields(u2)
  {
    var c1, c2 := CanonicalFields(u1), CanonicalFields(u2);
    forall x | x in c1 ensures x in c2 {
      var i :| 0 <= i < |c1| && c1[i] == x;
      assert u1[i] in u2;
      var j :| 0 <= j < |u2| && u2[j] == u1[i];
      assert c2[j] == x;
    }
  }

  /** Sorting two dicts' entries that have the same elements gives the same sequence. */
  lemma SortEntriesOrderFree(c1: seq<Entry>, c2: seq<Entry>)
    requires DistinctKeys(c1) && DistinctKeys(c2)
    requires forall x :: x in c1 <==> x in c2
    ensures SortEntries(c1) == SortEntries(c2)
  {
    var s1, s2 := SortEntries(c1), SortEntries(c2);
    SortEntriesSorted(c1);
    SortEntriesSorted(c2);
    forall x ensures x in s1 <==> x in s2 {
      assert x in s1 <==> x in multiset(s1);
      assert x in s2 <==> x in multiset(s2);
      assert x in c1 <==> x in multiset(c1);
      assert x in c2 <==> x in multiset(c2);
    }
    SortedUnique(s1, s2);
  }

  /** Printable ASCII, the only characters `ensure_ascii=True` output contains. */
  predicate Printable(s: string)
  {
    forall k :: 0 <= k < |s| ==> ' ' <= s[k] <= '~'
  }

  function HexDigit(d: nat): (c: char)
    requires d < 16
    ensures ' ' <= c <= '~'
  {
    if d < 10 then ('0' as int + d) as char else ('a' as int + d - 10) as char
  }

  /** `'{0:04x}'.format(n)`: four lower-case hexadecimal digits. */
  function Hex4(n: nat): (s: string)
    requires n < 0x10000
    ensures |s| == 4 && Printable(s)
  {
    [HexDigit(n / 0x1000), HexDigit(n / 0x100 % 16), HexDigit(n / 0x10 % 16), HexDigit(n % 16)]
  }

  /**
   * How one character of a string is written: quote and backslash and the
   * five named control characters get a two-character escape, the rest of
   * printable ASCII stands for itself, and every other code point becomes
   * `\uXXXX`, above U+FFFF as a UTF-16 surrogate pair.
   */
  function EscapeChar(c: char): (s: string)
    ensures Printable(s) && |s| >= 1
  {
    if c == '"' then "\\\""
    else if c == '\\' then "\\\\"
    else if c == '\n' then "\\n"
    else if c == '\r' then "\\r"
    else if c == '\t' then "\\t"
    else if c as int == 0x08 then "\\b"
    else if c as int == 0x0C then "\\f"
    else if ' ' <= c <= '~' then [c]
    else if c as int < 0x10000 then "\\u" + Hex4(c as int)
    else
      var n := c as int - 0x10000;
      "\\u" + Hex4(0xD800 + n / 0x400) + "\\u" + Hex4(0xDC00 + n % 0x400)
  }

  function Escape(s: string): string
  {
    if s == [] then "" else EscapeChar(s[0]) + Escape(s[1..])
  }

  /** A JSON string literal. */
  function Quote(s: string): (r: string)
    ensures |r| >= 2 && r[0] == '"' && r[|r| - 1] == '"'
  {
    "\"" + Escape(s) + "\""
  }

  /** `json.dumps` of a value whose objects are already in the order to print. */
  function Write(v: Value): string
  {
    match v
    case VNull => "null"
    case VBool(b) => if b then "true" else "false"
    case VInt(i) => Text.IntToString(i)
    case VStr(s) => Quote(s)
    case VList(xs) => "[" + WriteItems(xs) + "]"
    case VTuple(xs) => "[" + WriteItems(xs) + "]"
    case VObject(fs) => "{" + WriteFields(fs) + "}"
  }

  function WriteItems(xs: seq<Value>): string
  {
    if xs == [] then ""
    else if |xs| == 1 then Write(xs[0])
    else Write(xs[0]) + ", " + WriteItems(xs[1..])
  }

  function WriteFields(fs: seq<Entry>): string
  {
    if fs == [] then ""
    else
      var first := Quote(fs[0].key) + ": " + Write(fs[0].value);
      if |fs| == 1 then first else first + ", " + WriteFields(fs[1..])
  }

  /** `json.dumps(v, sort_keys=True)`. */
  function Dumps(v: Value): (r: string)
    ensures Printable(r)
  {
    WritePrintable(Canonical(v));
    Write(Canonical(v))
  }

  lemma PrintableAppend(a: string, b: string)
    requires Printable(a) && Printable(b)
    ensures Printable(a + b)
  {
    forall k | 0 <= k < |a + b| ensures ' ' <= (a + b)[k] <= '~' {
      if k >= |a| {
        assert (a + b)[k] == b[k - |a|];
      }
    }
  }

  /** Escaping leaves only printable ASCII: everything else becomes a `\uXXXX` sequence. */
  lemma {:induction false} EscapePrintable(s: string)
    ensures Printable(Escape(s))
  {
    if s != [] {
      EscapePrintable(s[1..]);
      PrintableAppend(EscapeChar(s[0]), Escape(s[1..]));
    }
  }

  lemma QuotePrintable(s: string)
    ensures Printable(Quote(s))
  {
    EscapePrintable(s);
    PrintableAppend("\"", Escape(s));
    PrintableAppend("\"" + Escape(s), "\"");
  }

  /** The text of every value is printable ASCII, as `ensure_ascii=True` promises. */
  lemma {:induction false} WritePrintable(v: Value)
    ensures Printable(Write(v))
  {
    match v
    case VNull =>
    case VBool(b) =>
    case VInt(i) =>
    case VStr(s) => QuotePrintable(s);
    case VList(xs) =>
      WriteItemsPrintable(xs);
      PrintableAppend("[", WriteItems(xs));
      PrintableAppend("[" + WriteItems(xs), "]");
    case VTuple(xs) =>
      WriteItemsPrintable(xs);
      PrintableAppend("[", WriteItems(xs));
      PrintableAppend("[" + WriteItems(xs), "]");
    case VObject(fs) =>
      WriteFieldsPrintable(fs);
      PrintableAppend("{", WriteFields(fs));
      PrintableAppend("{" + WriteFields(fs), "}");
  }

  lemma {:induction false} WriteItemsPrintable(xs: seq<Value>)
    ensures Printable(WriteItems(xs))
  {
    if xs != [] {
      WritePrintable(xs[0]);
      if |xs| > 1 {
        WriteItemsPrintable(xs[1..]);
        PrintableAppend(Write(xs[0]), ", ");
        PrintableAppend(Write(xs[0]) + ", ", WriteItems(xs[1..]));
      }
    }
  }

  lemma {:induction false} WriteFieldsPrintable(fs: seq<Entry>)
    ensures Printable(WriteFields(fs))
  {
    if fs != [] {
      QuotePrintable(fs[0].key);
      WritePrintable(fs[0].value);
      var first := Quote(fs[0].key) + ": " + Write(fs[0].value);
      PrintableAppend(Quote(fs[0].key), ": ");
      PrintableAppend(Quote(fs[0].key) + ": ", Write(fs[0].value));
      if |fs| > 1 {
        WriteFieldsPrintable(fs[1..]);
        PrintableAppend(first, ", ");
        PrintableAppend(first + ", ", WriteFields(fs[1..]));
      }
    }
  }

  /** A list and a tuple of the same items are written alike. */
  lemma DumpsListTuple(xs: seq<Value>)
    ensures Dumps(VList(xs)) == Dumps(VTuple(xs))
  {
  }

  /** Entry lists with the same keys in the same order, whose values are written alike. */
  predicate WrittenAlike(a: seq<Entry>, b: seq<Entry>)
  {
    |a| == |b| && forall i :: 0 <= i < |a| ==> a[i].key == b[i].key && Write(a[i].value) == Write(b[i].value)
  }

  lemma {:induction false} WriteFieldsAlike(a: seq<Entry>, b: seq<Entry>)
    requires WrittenAlike(a, b)
    ensures WriteFields(a) == WriteFields(b)
    decreases |a|
  {
    if |a| > 1 {
      assert WrittenAlike(a[1..], b[1..]) by {
        forall i | 0 <= i < |a[1..]| ensures a[1..][i].key == b[1..][i].key && Write(a[1..][i].value) == Write(b[1..][i].value) {
          assert a[1..][i] == a[i + 1] && b[1..][i] == b[i + 1];
        }
      }
      WriteFieldsAlike(a[1..], b[1..]);
    }
  }

  /** Putting entries written alike in front keeps two lists written alike. */
  lemma ConsAlike(x: Entry, y: Entry, a: seq<Entry>, b: seq<Entry>)
    requires x.key == y.key && Write(x.value) == Write(y.value)
    requires WrittenAlike(a, b)
    ensures WrittenAlike([x] + a, [y] + b)
  {
    forall i | 0 <= i < |[x] + a|
      ensures ([x] + a)[i].key == ([y] + b)[i].key && Write(([x] + a)[i].value) == Write(([y] + b)[i].value)
    {
      if i > 0 {
        assert ([x] + a)[i] == a[i - 1] && ([y] + b)[i] == b[i - 1];
      }
    }
  }

  /** The key sort looks only at keys, so it moves entries written alike to the same places. */
  lemma {:induction false} InsertByKeyAlike(e: Entry, f: Entry, a: seq<Entry>, b: seq<Entry>)
    requires e.key == f.key && Write(e.value) == Write(f.value)
    requires WrittenAlike(a, b)
    ensures WrittenAlike(InsertByKey(e, a), InsertByKey(f, b))
    decreases |a|
  {
    if a == [] {
      assert InsertByKey(e, a) == [e] && InsertByKey(f, b) == [f];
      ConsAlike(e, f, a, b);
    } else if Text.Less(a[0].key, e.key) {
      assert Text.Less(b[0].key, f.key);
      assert WrittenAlike(a[1..], b[1..]) by {
        forall i | 0 <= i < |a[1..]| ensures a[1..][i].key == b[1..][i].key && Write(a[1..][i].value) == Write(b[1..][i].value) {
          assert a[1..][i] == a[i + 1] && b[1..][i] == b[i + 1];
        }
      }
      InsertByKeyAlike(e, f, a[1..], b[1..]);
      assert InsertByKey(e, a) == [a[0]] + InsertByKey(e, a[1..]);
      assert InsertByKey(f, b) == [b[0]] + InsertByKey(f, b[1..]);
      ConsAlike(a[0], b[0], InsertByKey(e, a[1..]), InsertByKey(f, b[1..]));
    } else {
      assert !Text.Less(b[0].key, f.key);
      assert InsertByKey(e, a) == [e] + a && InsertByKey(f, b) == [f] + b;
      ConsAlike(e, f, a, b);
    }
  }

  lemma {:induction false} SortEntriesAlike(a: seq<Entry>, b: seq<Entry>)
    requires WrittenAlike(a, b)
    ensures WrittenAlike(SortEntries(a), SortEntries(b))
    decreases |a|
  {
    if a != [] {
      assert WrittenAlike(a[1..], b[1..]) by {
        forall i | 0 <= i < |a[1..]| ensures a[1..][i].key == b[1..][i].key && Write(a[1..][i].value) == Write(b[1..][i].value) {
          assert a[1..][i] == a[i + 1] && b[1..][i] == b[i + 1];
        }
      }
      SortEntriesAlike(a[1..], b[1..]);
      InsertByKeyAlike(a[0], b[0], SortEntries(a[1..]), SortEntries(b[1..]));
    }
  }

  /**
   * A dict whose values are normalised (lists turned into tuples) prints
   * the same `json.dumps(..., sort_keys=True)` text as the original.
   */
  lemma DumpsNormalised(u: seq<Entry>, w: seq<Entry>)
    requires |u| == |w|
    requires forall i :: 0 <= i < |u| ==> w[i].key == u[i].key && w[i].value == Normalise(u[i].value)
    ensures Dumps(VObject(u)) == Dumps(VObject(w))
  {
    var cu, cw := CanonicalFields(u), CanonicalFields(w);
    assert WrittenAlike(cu, cw);
    SortEntriesAlike(cu, cw);
    WriteFieldsAlike(SortEntries(cu), SortEntries(cw));
  }
}
