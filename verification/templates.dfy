/**
 * The checks the templates test runs over the template catalog: its length,
 * the uniqueness of `secid`, and the first entry being the default template.
 */
module TemplatesChecks {
  import opened Uniqueness

  /** A catalog entry as the tests read it: its `secid` and `name`. */
  datatype TemplateEntry = TemplateEntry(secid: string, name: string)

  const TemplateCount := 5
  const DefaultSecid := "1"
  const DefaultName := "default"

  /** 'should be contain 5 template objects'. */
  predicate HasFiveTemplates(templates: seq<TemplateEntry>) {
    |templates| == TemplateCount
  }

  /** `templatesData.map((t) => t.secid)`. */
  function TemplateSecids(templates: seq<TemplateEntry>): (ids: seq<string>)
    ensures |ids| == |templates|
    ensures forall i :: 0 <= i < |templates| ==> ids[i] == templates[i].secid
  {
    Column(templates, (t: TemplateEntry) => t.secid)
  }

  /** 'should have unique secid values': the Set of secids is as large as the list. */
  predicate UniqueSecids(templates: seq<TemplateEntry>) {
    SetSizeMatches(TemplateSecids(templates))
  }

  /**
   * 'should have the first template as default'. On an empty catalog
   * `templatesData[0].secid` throws, so the test fails.
   */
  predicate FirstIsDefault(templates: seq<TemplateEntry>) {
    |templates| > 0 && templates[0].secid == DefaultSecid && templates[0].name == DefaultName
  }

  /** All tests of the templates file pass. */
  predicate TemplatesSuitePasses(templates: seq<TemplateEntry>) {
    HasFiveTemplates(templates) && UniqueSecids(templates) && FirstIsDefault(templates)
  }

  /** The Set-size test passes exactly when no two templates share a secid. */
  lemma UniqueSecidsIffDistinct(templates: seq<TemplateEntry>)
    ensures UniqueSecids(templates) <==>
            forall i, j :: 0 <= i < j < |templates| ==> templates[i].secid != templates[j].secid
  {
    var ids := TemplateSecids(templates);
    SetSizeIffDistinct(ids);
    if !Distinct(ids) {
      var i, j :| 0 <= i < j < |ids| && ids[i] == ids[j];
      assert templates[i].secid == templates[j].secid;
    }
  }

  /** In a catalog that passes the suite, the default's secid "1" belongs to no other template. */
  lemma DefaultSecidNotReused(templates: seq<TemplateEntry>)
    requires TemplatesSuitePasses(templates)
    ensures forall i :: 1 <= i < |templates| ==> templates[i].secid != DefaultSecid
  {
    UniqueSecidsIffDistinct(templates);
    forall i | 1 <= i < |templates| ensures templates[i].secid != DefaultSecid {
      assert templates[0].secid != templates[i].secid;
    }
  }
}
