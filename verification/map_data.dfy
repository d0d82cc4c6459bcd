/**
 * The checks `validateMapDataArray` runs over a per-country region table
 * (`{ secid, name }` entries), and the Andorra facts. Each `it(...)` block
 * becomes a predicate that holds exactly when that test passes; the two index
 * loops also become methods proved to compute those predicates.
 */
module MapDataChecks {
  import opened Wrappers
  import opened JsNumbers
  import opened Uniqueness

  /** One region entry; an absent property is `None`. */
  datatype RegionEntry = RegionEntry(secid: Option<string>, name: Option<string>)

  /** 'should not be empty'. */
  predicate NotEmpty(table: seq<RegionEntry>) {
    |table| > 0
  }

  /** 'should contain with secid and name properties'. */
  predicate HasSecidAndName(table: seq<RegionEntry>) {
    forall i :: 0 <= i < |table| ==> table[i].secid.Some? && table[i].name.Some?
  }

  /** `dataArray.map((item) => item.secid)`. */
  function Secids(table: seq<RegionEntry>): (ids: seq<Option<string>>)
    ensures |ids| == |table|
    ensures forall i :: 0 <= i < |table| ==> ids[i] == table[i].secid
  {
    Column(table, (e: RegionEntry) => e.secid)
  }

  /** 'should have unique secid values': the Set of secids is as large as the table. */
  predicate UniqueSecids(table: seq<RegionEntry>) {
    SetSizeMatches(Secids(table))
  }

  /** `parseInt(item.secid)`; `parseInt(undefined)` reads the text "undefined" and is NaN. */
  function ParsedSecid(e: RegionEntry): Number {
    match e.secid
    case None => NaN
    case Some(s) => ParseInt(s)
  }

  /** 'should have secid values in correct order': each parsed secid is below the next. */
  predicate InOrder(table: seq<RegionEntry>) {
    forall i :: 0 <= i < |table| - 1 ==> Less(ParsedSecid(table[i]), ParsedSecid(table[i + 1]))
  }

  /**
   * 'should have sequential secid values ...': the entry at index i carries the
   * text of `parseInt(first secid) + i`. On an empty table `dataArray[0]` is
   * undefined and reading `.secid` from it throws, so the test fails.
   */
  predicate Sequential(table: seq<RegionEntry>) {
    |table| > 0
    && forall i :: 0 <= i < |table| ==>
         table[i].secid == Some(ToString(Plus(ParsedSecid(table[0]), i)))
  }

  /** All five tests of `validateMapDataArray` pass. */
  predicate RegionSuitePasses(table: seq<RegionEntry>) {
    NotEmpty(table) && HasSecidAndName(table) && UniqueSecids(table)
    && InOrder(table) && Sequential(table)
  }

  /** The order test's loop: stops at the first pair out of order. */
  method CheckOrder(table: seq<RegionEntry>) returns (ok: bool)
    ensures ok == InOrder(table)
  {
    var i := 0;
    while i < |table| - 1
      invariant 0 <= i && (i <= |table| - 1 || i == 0)
      invariant forall k :: 0 <= k < i ==> Less(ParsedSecid(table[k]), ParsedSecid(table[k + 1]))
    {
      var currentSecid := ParsedSecid(table[i]);
      var nextSecid := ParsedSecid(table[i + 1]);
      if !Less(currentSecid, nextSecid) {
        return false;
      }
      i := i + 1;
    }
    return true;
  }

  /** The sequence test's loop: stops at the first entry whose secid is not the expected text. */
  method CheckSequence(table: seq<RegionEntry>) returns (ok: bool)
    ensures ok == Sequential(table)
  {
    if |table| == 0 {
      // `dataArray[0].secid` throws a TypeError
      return false;
    }
    var firstSecid := ParsedSecid(table[0]);
    var i := 0;
    while i < |table|
      invariant 0 <= i <= |table|
      invariant forall k :: 0 <= k < i ==> table[k].secid == Some(ToString(Plus(firstSecid, k)))
    {
      var expectedSecid := ToString(Plus(firstSecid, i));
      if table[i].secid != Some(expectedSecid) {
        return false;
      }
      i := i + 1;
    }
    return true;
  }

  /**
   * What the sequence test is meant to establish: the secids are the decimal
   * numerals of consecutive integers. Unlike `Sequential`, the first secid
   * must read as a number.
   */
  predicate ConsecutiveSecids(table: seq<RegionEntry>) {
    Sequential(table) && ParsedSecid(table[0]).Int?
  }

  /** A region table as the tests intend it. */
  predicate ValidRegionTable(table: seq<RegionEntry>) {
    NotEmpty(table) && HasSecidAndName(table) && UniqueSecids(table)
    && InOrder(table) && ConsecutiveSecids(table)
  }

  /** In a table of consecutive secids, entry i reads as first + i. */
  lemma ConsecutiveParsed(table: seq<RegionEntry>, i: int)
    requires ConsecutiveSecids(table) && 0 <= i < |table|
    ensures ParsedSecid(table[i]) == Int(ParsedSecid(table[0]).value + i)
  {
    ParseIntOfIntToString(ParsedSecid(table[0]).value + i);
  }

  /** Consecutive secids are in order. */
  lemma ConsecutiveImpliesInOrder(table: seq<RegionEntry>)
    requires ConsecutiveSecids(table)
    ensures InOrder(table)
  {
    var first := ParsedSecid(table[0]).value;
    forall i | 0 <= i < |table| - 1
      ensures Less(ParsedSecid(table[i]), ParsedSecid(table[i + 1]))
    {
      ConsecutiveParsed(table, i);
      ConsecutiveParsed(table, i + 1);
      assert ParsedSecid(table[i]) == Int(first + i);
      assert ParsedSecid(table[i + 1]) == Int(first + i + 1);
    }
  }

  /** In an ordered table the parsed secids increase across any gap, not just between neighbours. */
  lemma {:induction false} InOrderIncreasing(table: seq<RegionEntry>, i: int, j: int)
    requires InOrder(table) && 0 <= i < j < |table|
    ensures Less(ParsedSecid(table[i]), ParsedSecid(table[j]))
    decreases j - i
  {
    if j > i + 1 {
      InOrderIncreasing(table, i + 1, j);
    }
  }

  /** Ordered secids are pairwise distinct, so the uniqueness test passes too. */
  lemma InOrderImpliesUnique(table: seq<RegionEntry>)
    requires InOrder(table)
    ensures Distinct(Secids(table))
    ensures UniqueSecids(table)
  {
    var ids := Secids(table);
    forall i, j | 0 <= i < j < |ids| ensures ids[i] != ids[j] {
      InOrderIncreasing(table, i, j);
    }
    SetSizeIffDistinct(ids);
  }

  /** The chain of checks: consecutive implies in order, which implies unique. */
  lemma ConsecutiveImpliesUnique(table: seq<RegionEntry>)
    requires ConsecutiveSecids(table)
    ensures InOrder(table) && UniqueSecids(table)
  {
    ConsecutiveImpliesInOrder(table);
    InOrderImpliesUnique(table);
  }

  /** With two or more entries the order test rules out a NaN start, so the suite means what it intends. */
  lemma SuiteOnTwoOrMoreIsValid(table: seq<RegionEntry>)
    requires RegionSuitePasses(table) && |table| >= 2
    ensures ValidRegionTable(table)
  {
    assert Less(ParsedSecid(table[0]), ParsedSecid(table[1]));
  }

  /** The last secid of a table of consecutive secids is first + length - 1. */
  lemma ConsecutiveLast(table: seq<RegionEntry>)
    requires ConsecutiveSecids(table)
    ensures ParsedSecid(table[|table| - 1]) == Plus(ParsedSecid(table[0]), |table| - 1)
    ensures table[|table| - 1].secid == Some(IntToString(ParsedSecid(table[0]).value + |table| - 1))
  {
    ConsecutiveParsed(table, |table| - 1);
  }

  /** A secid written with a leading zero makes the sequence test fail. */
  lemma LeadingZeroFailsSequence(table: seq<RegionEntry>, i: int)
    requires 0 <= i < |table| && table[i].secid.Some?
    requires |table[i].secid.value| >= 2 && table[i].secid.value[0] == '0'
    ensures !Sequential(table)
  {
    if Sequential(table) {
      var s := table[i].secid.value;
      LeadingZeroNotCanonical(s);
      ParseIntOfToString(Plus(ParsedSecid(table[0]), i));
      assert false;
    }
  }

  /**
   * The Andorra table: a sequential table that starts at "2" and has 7
   * entries ends at "8", so the last of the three Andorra assertions follows
   * from the first two.
   */
  lemma AndorraEndsAtEight(table: seq<RegionEntry>)
    requires Sequential(table)
    requires table[0].secid == Some("2") && |table| == 7
    ensures table[6].secid == Some("8")
  {
    assert DigitPrefixLength("2", false) == 1;
    assert ParsedSecid(table[0]) == Int(2);
    assert NatToString(8) == "8";
  }

  /** Two entries whose secid is "NaN" pass the sequence test but fail the order and uniqueness tests. */
  lemma NaNSecidsPassSequence()
    ensures var table := [RegionEntry(Some("NaN"), Some("a")), RegionEntry(Some("NaN"), Some("b"))];
            Sequential(table) && !InOrder(table) && !UniqueSecids(table)
  {
    var table := [RegionEntry(Some("NaN"), Some("a")), RegionEntry(Some("NaN"), Some("b"))];
    ParseIntOfToString(NaN);
    var nan := ParsedSecid(table[0]);
    assert nan == NaN;
    assert forall i :: 0 <= i < |table| ==> table[i].secid == Some(ToString(Plus(nan, i)));
    assert !Less(ParsedSecid(table[0]), ParsedSecid(table[1]));
    var ids := Secids(table);
    assert ids[0] == ids[1];
    SetSizeIffDistinct(ids);
  }

  /** A one-entry table whose secid is "NaN" passes the whole suite, though its secid is no number. */
  lemma NaNTablePassesSuite()
    ensures var table := [RegionEntry(Some("NaN"), Some("a"))];
            RegionSuitePasses(table) && !ValidRegionTable(table)
  {
    var table := [RegionEntry(Some("NaN"), Some("a"))];
    ParseIntOfToString(NaN);
    var nan := ParsedSecid(table[0]);
    assert nan == NaN;
    assert table[0].secid == Some(ToString(Plus(nan, 0)));
    var ids := Secids(table);
    SetSizeIffDistinct(ids);
  }
}
