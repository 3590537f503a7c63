/** The A/B pricing tests of lib/db.ts. Prices are in US cents. */
module Pricing {
  import opened Seqs

  datatype PricingTest = PricingTest(id: string, name: string, priceCents: int, credits: int, isActive: bool)

  /** The three tests a fresh or emptied list is seeded with. */
  const DefaultPricingTests: seq<PricingTest> := [
    PricingTest("test_a", "test_a", 799, 100, true),
    PricingTest("test_b", "test_b", 999, 100, true),
    PricingTest("test_c", "test_c", 1299, 100, true)
  ]

  predicate IsActive(t: PricingTest)
  {
    t.isActive
  }

  /** Whether `t` is an active test called `name`. */
  predicate ActiveNamed(t: PricingTest, name: string)
  {
    t.isActive && t.name == name
  }

  /** `pricingTests.filter(t => t.isActive)` */
  function ActiveTests(tests: seq<PricingTest>): (r: seq<PricingTest>)
    ensures forall t :: t in r ==> t.isActive && t in tests
    ensures forall t :: t in tests && t.isActive ==> t in r
  {
    var r := Filter(tests, IsActive);
    assert forall t :: t in tests ==> t in multiset(tests);
    r
  }

  /** The test `getPricingTest` hands out once the list is non-empty. A
      non-empty requested name that matches an active test selects the first
      such test in list order; otherwise `pick` stands for the random index
      the source draws in [0, number of active tests). With no active test
      there is nothing to hand out. */
  function SelectPricingTest(tests: seq<PricingTest>, testName: Option<string>, pick: nat): (r: Option<PricingTest>)
    ensures r.Some? ==> r.value in tests && r.value.isActive
    ensures r.None? <==> forall t :: t in tests ==> !t.isActive
    ensures testName.Some? && testName.value != "" && (exists t :: t in tests && ActiveNamed(t, testName.value)) ==>
      && r.Some?
      && exists i :: 0 <= i < |tests| && tests[i] == r.value && ActiveNamed(tests[i], testName.value)
                     && forall k :: 0 <= k < i ==> !ActiveNamed(tests[k], testName.value)
  {
    var active := ActiveTests(tests);
    var name := if testName.Some? then testName.value else "";
    var hasName := (t: PricingTest) => t.name == name;
    var named := if testName.Some? && name != "" then Find(active, hasName) else None;
    FindAfterFilter(tests, IsActive, hasName, (t: PricingTest) => ActiveNamed(t, name));
    if named.Some? then Some(active[named.value])
    else if pick < |active| then Some(active[pick])
    else if |active| > 0 then Some(active[0])
    else None
  }

  /** Every default test is active, so a reset list always has one to hand out. */
  lemma DefaultsAllSelectable(testName: Option<string>, pick: nat)
    ensures SelectPricingTest(DefaultPricingTests, testName, pick).Some?
  {
    assert DefaultPricingTests[0] in DefaultPricingTests;
  }

  /** Asking for a default test by name gets exactly that test. */
  lemma DefaultsByName(k: nat, pick: nat)
    requires k < |DefaultPricingTests|
    ensures SelectPricingTest(DefaultPricingTests, Some(DefaultPricingTests[k].name), pick) == Some(DefaultPricingTests[k])
  {
    var tests := DefaultPricingTests;
    var t := tests[k];
    assert t in tests && ActiveNamed(t, t.name);
    var r := SelectPricingTest(tests, Some(t.name), pick);
    var i :| 0 <= i < |tests| && tests[i] == r.value && ActiveNamed(tests[i], t.name);
    DefaultNamesDistinct();
    assert i == k;
  }

  lemma DefaultNamesDistinct()
    ensures forall i, j :: 0 <= i < j < |DefaultPricingTests| ==> DefaultPricingTests[i].name != DefaultPricingTests[j].name
  {
    var tests := DefaultPricingTests;
    assert tests[0].name[5] == 'a' && tests[1].name[5] == 'b' && tests[2].name[5] == 'c';
  }
}
