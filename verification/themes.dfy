/**
 * The checks the themes test runs over the theme table: its length, the
 * property list of every entry, and two uniqueness tests on the theme names,
 * one by Set size and one by counting names in a Map.
 */
module ThemesChecks {
  import opened Uniqueness

  /**
   * A theme entry as the tests see it: `keys` is `Object.keys(theme)` in
   * order, `name` its `name` property. The `activate` function is opaque; only
   * its presence among the keys matters.
   */
  datatype ThemeEntry = ThemeEntry(keys: seq<string>, name: string)

  const ThemeCount := 11

  /** 'should contain 11 theme configuration objects'. */
  predicate HasElevenThemes(themes: seq<ThemeEntry>) {
    |themes| == ThemeCount
  }

  /** 'should not contain any extra properties': every key list is exactly name, activate. */
  predicate NoExtraProperties(themes: seq<ThemeEntry>) {
    forall i :: 0 <= i < |themes| ==> themes[i].keys == ["name", "activate"]
  }

  /** `ThemesConfig.map((theme) => theme.name)`. */
  function ThemeNames(themes: seq<ThemeEntry>): (names: seq<string>)
    ensures |names| == |themes|
    ensures forall i :: 0 <= i < |themes| ==> names[i] == themes[i].name
  {
    Column(themes, (t: ThemeEntry) => t.name)
  }

  /** 'should have no duplicate theme names': the Set of names is as large as the list. */
  predicate NamesUniqueBySet(themes: seq<ThemeEntry>) {
    SetSizeMatches(ThemeNames(themes))
  }

  /**
   * The `forEach` that fills `themeNameCounts`: a name not yet in the map reads
   * as `undefined || 0`, which is 0, and each visit stores the count plus one.
   * Afterwards the map holds exactly the names of the table, each with its
   * number of occurrences.
   */
  method CountThemeNames(themes: seq<ThemeEntry>) returns (counts: map<string, int>)
    ensures counts.Keys == Elements(ThemeNames(themes))
    ensures forall name :: name in counts ==> counts[name] == multiset(ThemeNames(themes))[name]
  {
    ghost var names := ThemeNames(themes);
    counts := map[];
    var i := 0;
    while i < |themes|
      invariant 0 <= i <= |themes|
      invariant counts.Keys == Elements(names[..i])
      invariant forall name :: name in counts ==> counts[name] == multiset(names[..i])[name]
    {
      var theme := themes[i];
      var count := if theme.name in counts then counts[theme.name] else 0;
      counts := counts[theme.name := count + 1];
      assert names[..i + 1] == names[..i] + [theme.name];
      i := i + 1;
    }
    assert names[..i] == names;
  }

  /** Every value in the count map is 1 (the `themeNameCounts.forEach` expectation). */
  predicate AllCountsOne(counts: map<string, int>) {
    forall name :: name in counts ==> counts[name] == 1
  }

  /**
   * 'should contain each theme name only once': build the count map, then
   * require every count to be 1. It passes exactly when the Set-size test does.
   */
  method NamesCountedOnce(themes: seq<ThemeEntry>) returns (ok: bool)
    ensures ok <==> NamesUniqueBySet(themes)
    ensures ok <==> Distinct(ThemeNames(themes))
  {
    var counts := CountThemeNames(themes);
    ok := AllCountsOne(counts);
    assert ok <==> EveryCountIsOne(ThemeNames(themes));
    SetSizeIffCountsOne(ThemeNames(themes));
    SetSizeIffDistinct(ThemeNames(themes));
  }

  /**
   * All tests of the themes file pass. The count-map test is not a conjunct:
   * `NamesCountedOnce` proves it passes exactly when `NamesUniqueBySet` does.
   */
  predicate ThemesSuitePasses(themes: seq<ThemeEntry>) {
    HasElevenThemes(themes) && NoExtraProperties(themes) && NamesUniqueBySet(themes)
  }

  /** A table that passes the suite holds eleven themes with eleven different names. */
  lemma SuiteMeansElevenDistinctNames(themes: seq<ThemeEntry>)
    requires ThemesSuitePasses(themes)
    ensures |Elements(ThemeNames(themes))| == 11
    ensures forall i, j :: 0 <= i < j < |themes| ==> themes[i].name != themes[j].name
  {
    SetSizeIffDistinct(ThemeNames(themes));
    forall i, j | 0 <= i < j < |themes| ensures themes[i].name != themes[j].name {
      assert ThemeNames(themes)[i] != ThemeNames(themes)[j];
    }
  }
}
