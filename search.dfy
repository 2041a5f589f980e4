/**
 * The result rows of `devenv search` (devenv/src/devenv.rs, `search_packages`
 * and `search_options`): package keys renamed to `pkgs.<attr>`, descriptions
 * cut to 80 characters, and options filtered by the query.
 */
module Search {
  import opened Strings

  /** One entry of the package search output, and the row printed for it. */
  datatype PackageResult = PackageResult(version: string, description: string)
  datatype PackageRow = PackageRow(name: string, version: string, description: string)

  /** One entry of `options.json`, and the row printed for it. */
  datatype OptionResult = OptionResult(typeName: string, default: string, description: string)
  datatype OptionRow = OptionRow(name: string, typeName: string, default: string, description: string)

  const Pkgs: string := "pkgs."
  const DescriptionWidth: nat := 80

  /** The `skip(2)` of an iterator: nothing is left of two pieces or fewer. */
  function Skip2(parts: seq<string>): (r: seq<string>)
    ensures |parts| <= 2 ==> r == []
    ensures |parts| > 2 ==> |r| == |parts| - 2 && forall i :: 0 <= i < |r| ==> r[i] == parts[i + 2]
  {
    if |parts| <= 2 then [] else parts[2..]
  }

  /** The package name: `pkgs.` and the key without its first two dot-separated segments. */
  function PackageName(key: string): string
  {
    Pkgs + Join(Skip2(Split(key, '.')), ".")
  }

  /** The first 80 characters of a description. */
  function Description(d: string): (r: string)
    ensures |r| <= DescriptionWidth
    ensures |d| <= DescriptionWidth ==> r == d
    ensures |d| > DescriptionWidth ==> |r| == DescriptionWidth
    ensures r == d[..|r|]
  {
    if |d| <= DescriptionWidth then d else d[..DescriptionWidth]
  }

  function PackageRowOf(key: string, value: PackageResult): PackageRow
  {
    PackageRow(PackageName(key), value.version, Description(value.description))
  }

  /** `search_packages`: one row per result, in the order of the result map's keys. */
  function PackageRows(results: seq<(string, PackageResult)>): (r: seq<PackageRow>)
    ensures |r| == |results|
    ensures forall i :: 0 <= i < |r| ==> r[i] == PackageRowOf(results[i].0, results[i].1)
  {
    seq(|results|, i requires 0 <= i < |results| => PackageRowOf(results[i].0, results[i].1))
  }

  function OptionRowOf(key: string, value: OptionResult): OptionRow
  {
    OptionRow(key, value.typeName, value.default, value.description)
  }

  /** `search_options`: the options whose name contains the query, in order. */
  function OptionRows(options: seq<(string, OptionResult)>, query: string): (r: seq<OptionRow>)
    ensures |r| <= |options|
    ensures forall i :: 0 <= i < |r| ==> Contains(r[i].name, query)
  {
    if options == [] then []
    else
      var rest := OptionRows(options[..|options| - 1], query);
      var last := options[|options| - 1];
      if Contains(last.0, query) then rest + [OptionRowOf(last.0, last.1)] else rest
  }

  // ---------------------------------------------------------------------
  // properties

  /** Splitting `a c b` at the first `c`, when `a` has none, gives `a` and the pieces of `b`. */
  lemma SplitFirst(a: string, c: char, b: string)
    requires c !in a
    ensures Split(a + [c] + b, c) == [a] + Split(b, c)
  {
    var s := a + [c] + b;
    FirstOccurrence(a, c, b);
    assert s[..|a|] == a;
    assert s[|a| + 1..] == b;
  }

  /** A key `<set>.<system>.<attr>` names the package `pkgs.<attr>`, whatever dots `<attr>` holds. */
  lemma PackageNameOfKey(set_: string, system: string, attr: string)
    requires '.' !in set_ && '.' !in system
    ensures PackageName(set_ + "." + system + "." + attr) == Pkgs + attr
  {
    SplitTwo(set_, '.', system, attr);
    Skip2Of(set_, system, Split(attr, '.'));
    JoinSplit(attr, '.');
  }

  lemma SplitTwo(a: string, c: char, b: string, rest: string)
    requires c !in a && c !in b
    ensures Split(a + [c] + b + [c] + rest, c) == [a, b] + Split(rest, c)
  {
    var tail := b + [c] + rest;
    assert a + [c] + b + [c] + rest == a + [c] + tail;
    SplitFirst(a, c, tail);
    SplitFirst(b, c, rest);
    assert [a] + ([b] + Split(rest, c)) == [a, b] + Split(rest, c);
  }

  lemma Skip2Of(a: string, b: string, rest: seq<string>)
    ensures Skip2([a, b] + rest) == rest
  {
  }

  /** A key with fewer than two dots leaves `pkgs.` and nothing after it. */
  lemma ShortKey(key: string)
    requires |Split(key, '.')| <= 2
    ensures PackageName(key) == Pkgs
  {
    assert Join([], ".") == "";
    assert Pkgs + "" == Pkgs;
  }

  /** Every package name starts with `pkgs.`, and a description is a prefix of the original of at most 80 characters. */
  lemma RowsShape(results: seq<(string, PackageResult)>, i: nat)
    requires i < |results|
    ensures var row := PackageRows(results)[i];
            StartsWith(row.name, Pkgs)
            && |row.description| <= DescriptionWidth
            && StartsWith(results[i].1.description, row.description)
            && row.version == results[i].1.version
  {
    var row := PackageRows(results)[i];
    assert row.name[..|Pkgs|] == Pkgs;
  }

  /** The option rows are exactly the options whose name contains the query: none is lost, none invented. */
  lemma {:induction false} OptionRowsComplete(options: seq<(string, OptionResult)>, query: string, j: nat)
    requires j < |options| && Contains(options[j].0, query)
    ensures OptionRowOf(options[j].0, options[j].1) in OptionRows(options, query)
  {
    var init := options[..|options| - 1];
    if j < |options| - 1 {
      assert init[j] == options[j];
      OptionRowsComplete(init, query, j);
    }
  }

  lemma {:induction false} OptionRowsSound(options: seq<(string, OptionResult)>, query: string, row: OptionRow)
    requires row in OptionRows(options, query)
    ensures exists j :: 0 <= j < |options| && row == OptionRowOf(options[j].0, options[j].1)
  {
    var init := options[..|options| - 1];
    var last := options[|options| - 1];
    if row in OptionRows(init, query) {
      OptionRowsSound(init, query, row);
      var j :| 0 <= j < |init| && row == OptionRowOf(init[j].0, init[j].1);
      assert init[j] == options[j];
    } else {
      assert row == OptionRowOf(last.0, last.1);
    }
  }

  /** The empty query matches every option. */
  lemma {:induction false} EmptyQueryKeepsAll(options: seq<(string, OptionResult)>)
    ensures |OptionRows(options, "")| == |options|
  {
    if options != [] {
      EmptyQueryKeepsAll(options[..|options| - 1]);
      assert StartsWith(options[|options| - 1].0, "");
    }
  }
}
