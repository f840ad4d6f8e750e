/**
 * The KPI management page: tabs for value streams, categories, KPIs and
 * tiers over fixed mock lists, a category filter on the KPI list, the KPIs
 * each tier reviews, and the add/edit form state.
 */
module KPIManagement {
  import opened Common

  datatype Kpi = Kpi(id: string, name: string, description: string, categoryId: string, valueType: string, frequency: string)

  datatype Tier = Tier(id: string, level: int, name: string, frequency: string, kpiIds: seq<string>)

  const MockKpis: seq<Kpi> := [
    Kpi("1", "OEE", "Overall Equipment Effectiveness", "1", "percentage", "daily"),
    Kpi("2", "Defectos", "Tasa de defectos por millón", "2", "ratio", "daily")
  ]

  const MockTiers: seq<Tier> := [
    Tier("1", 1, "Tier 1 - Operativo", "daily", ["1", "2"]),
    Tier("2", 2, "Tier 2 - Táctico", "weekly", ["1"])
  ]

  /** The category filter's value that shows every KPI. */
  const AllCategories: string := "all"

  /** Whether the category filter lets a KPI through. */
  predicate InCategory(k: Kpi, category: string) {
    category == AllCategories || k.categoryId == category
  }

  /**
   * The KPI list under the category filter: every KPI for 'all', otherwise
   * every copy of each KPI of that category, in list order.
   */
  function FilterByCategory(kpis: seq<Kpi>, category: string): (r: seq<Kpi>)
    ensures Subsequence(r, kpis)
    ensures category == AllCategories ==> r == kpis
    ensures category != AllCategories ==>
      (forall i :: 0 <= i < |r| ==> r[i].categoryId == category) &&
      (forall k :: multiset(r)[k] == if k.categoryId == category then multiset(kpis)[k] else 0) &&
      (forall k :: k in kpis && k.categoryId == category ==> k in r)
    ensures (forall i :: 0 <= i < |kpis| ==> kpis[i].categoryId == category) ==> r == kpis
  {
    var r := Filter(kpis, (k: Kpi) => InCategory(k, category));
    assert forall k :: k in kpis && InCategory(k, category) ==> multiset(r)[k] == multiset(kpis)[k] > 0;
    r
  }

  /** Filtering twice by the same category is filtering once. */
  lemma FilterIdempotent(kpis: seq<Kpi>, category: string)
    ensures FilterByCategory(FilterByCategory(kpis, category), category) == FilterByCategory(kpis, category)
  {
  }

  /** `kpis.find(k => k.id === kpiId)`: the first KPI with that id. */
  function FindKpi(kpis: seq<Kpi>, id: string): (r: Option<Kpi>)
    ensures r.None? <==> forall i :: 0 <= i < |kpis| ==> kpis[i].id != id
    ensures r.Some? ==> r.value.id == id
    ensures r.Some? ==> exists i :: 0 <= i < |kpis| && kpis[i] == r.value && forall j :: 0 <= j < i ==> kpis[j].id != id
  {
    if kpis == [] then None
    else if kpis[0].id == id then Some(kpis[0])
    else
      var r := FindKpi(kpis[1..], id);
      assert forall i :: 1 <= i < |kpis| ==> kpis[i] == kpis[1..][i - 1];
      if r.Some? then
        var i :| 0 <= i < |kpis[1..]| && kpis[1..][i] == r.value && forall j :: 0 <= j < i ==> kpis[1..][j].id != id;
        assert kpis[i + 1] == r.value;
        r
      else r
  }

  /** The KPIs listed under a tier: one per id that has a KPI, in id order, unknown ids skipped. */
  function TierKpis(kpiIds: seq<string>, kpis: seq<Kpi>): (r: seq<Kpi>)
    ensures |r| <= |kpiIds|
    ensures forall k :: k in r ==> k in kpis && k.id in kpiIds
    ensures (forall i :: 0 <= i < |kpiIds| ==> FindKpi(kpis, kpiIds[i]).Some?) ==>
      |r| == |kpiIds| && forall i :: 0 <= i < |r| ==> r[i] == FindKpi(kpis, kpiIds[i]).value
    ensures (forall i :: 0 <= i < |kpiIds| ==> FindKpi(kpis, kpiIds[i]).None?) ==> r == []
  {
    if kpiIds == [] then []
    else
      var found := FindKpi(kpis, kpiIds[0]);
      var rest := TierKpis(kpiIds[1..], kpis);
      assert forall i :: 1 <= i < |kpiIds| ==> kpiIds[i] == kpiIds[1..][i - 1];
      if found.Some? then [found.value] + rest else rest
  }

  /** A single id lists the first KPI carrying it, or nothing when no KPI does. */
  lemma TierKpisSingle(id: string, kpis: seq<Kpi>)
    ensures TierKpis([id], kpis) == if FindKpi(kpis, id).Some? then [FindKpi(kpis, id).value] else []
  {
  }

  /** The listing of a concatenation of ids is the listing of each part, in order. */
  lemma {:induction false} TierKpisAppend(a: seq<string>, b: seq<string>, kpis: seq<Kpi>)
    ensures TierKpis(a + b, kpis) == TierKpis(a, kpis) + TierKpis(b, kpis)
  {
    if a == [] {
      assert a + b == b;
    } else {
      assert (a + b)[0] == a[0];
      assert (a + b)[1..] == a[1..] + b;
      TierKpisAppend(a[1..], b, kpis);
    }
  }

  /**
   * An id without a KPI is skipped: removing it from any position leaves the
   * listing unchanged.
   */
  lemma TierKpisSkips(a: seq<string>, id: string, b: seq<string>, kpis: seq<Kpi>)
    requires FindKpi(kpis, id).None?
    ensures TierKpis(a + [id] + b, kpis) == TierKpis(a + b, kpis)
  {
    TierKpisAppend(a + [id], b, kpis);
    TierKpisAppend(a, [id], kpis);
    TierKpisAppend(a, b, kpis);
    TierKpisSingle(id, kpis);
  }

  /** The first tier reviews both mock KPIs, the second only OEE. */
  lemma MockTierKpis()
    ensures TierKpis(MockTiers[0].kpiIds, MockKpis) == MockKpis
    ensures TierKpis(MockTiers[1].kpiIds, MockKpis) == [MockKpis[0]]
  {
    assert FindKpi(MockKpis, "1") == Some(MockKpis[0]);
    assert FindKpi(MockKpis, "2") == Some(MockKpis[1]);
  }

  /** The tab the page opens on: the `tab` search parameter when it is set and non-empty, else value streams. */
  function InitialTab(searchParams: map<string, string>): (tab: string)
    ensures "tab" in searchParams && searchParams["tab"] != "" ==> tab == searchParams["tab"]
    ensures !("tab" in searchParams && searchParams["tab"] != "") ==> tab == "valueStreams"
    ensures tab != ""
  {
    if "tab" in searchParams && searchParams["tab"] != "" then searchParams["tab"] else "valueStreams"
  }

  /** An item the add/edit form may be opened on. */
  datatype Item = KpiItem(kpi: Kpi) | TierItem(tier: Tier) | OtherItem(id: string, name: string)

  class KPIManagementView {
    var searchParams: map<string, string>
    var activeTab: string
    var selectedCategory: string
    var showForm: bool
    var editingItem: Option<Item>
    var successMessage: string

    constructor (searchParams: map<string, string>)
      ensures this.searchParams == searchParams && activeTab == InitialTab(searchParams)
      ensures selectedCategory == AllCategories && !showForm && editingItem == None && successMessage == ""
    {
      this.searchParams := searchParams;
      activeTab := InitialTab(searchParams);
      selectedCategory := AllCategories;
      showForm := false;
      editingItem := None;
      successMessage := "";
    }

    /** The KPIs the KPI tab shows. */
    function VisibleKpis(): seq<Kpi>
      reads this
    {
      FilterByCategory(MockKpis, selectedCategory)
    }

    /**
     * `handleTabChange`: the tab and the URL's only search parameter become
     * the same value, so reopening the URL shows the same non-empty tab.
     */
    method HandleTabChange(tab: string)
      modifies this
      ensures activeTab == tab && searchParams == map["tab" := tab]
      ensures tab != "" ==> InitialTab(searchParams) == activeTab
      ensures selectedCategory == old(selectedCategory) && showForm == old(showForm)
      ensures editingItem == old(editingItem) && successMessage == old(successMessage)
    {
      activeTab := tab;
      searchParams := map["tab" := tab];
    }

    method SetSelectedCategory(category: string)
      modifies this
      ensures selectedCategory == category
      ensures activeTab == old(activeTab) && searchParams == old(searchParams) && showForm == old(showForm)
      ensures editingItem == old(editingItem) && successMessage == old(successMessage)
    {
      selectedCategory := category;
    }

    /** `handleAdd`: an empty form. */
    method HandleAdd()
      modifies this
      ensures showForm && editingItem == None
      ensures activeTab == old(activeTab) && searchParams == old(searchParams)
      ensures selectedCategory == old(selectedCategory) && successMessage == old(successMessage)
    {
      editingItem := None;
      showForm := true;
    }

    /** `handleEdit`: the form on the given item. */
    method HandleEdit(item: Item)
      modifies this
      ensures showForm && editingItem == Some(item)
      ensures activeTab == old(activeTab) && searchParams == old(searchParams)
      ensures selectedCategory == old(selectedCategory) && successMessage == old(successMessage)
    {
      editingItem := Some(item);
      showForm := true;
    }

    /** `handleDelete`: only the confirmation message; no list changes. */
    method HandleDelete(id: string)
      modifies this
      ensures successMessage == "Elemento eliminado correctamente"
      ensures activeTab == old(activeTab) && searchParams == old(searchParams) && showForm == old(showForm)
      ensures selectedCategory == old(selectedCategory) && editingItem == old(editingItem)
    {
      successMessage := "Elemento eliminado correctamente";
    }
  }
}
