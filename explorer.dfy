/**
 * The Bundle Explorer page: the state the component keeps (category pill,
 * sort option, search text, selected and pinned bundle ids, view mode, open
 * detail panel, compare mode) and the handlers that change it.
 */
module Explorer {
  import opened Wrappers
  import opened Seqs
  import opened Catalog
  import opened Pipeline

  /** A copy of the set with `id` removed if it was present and added if it was not. */
  function Toggled(s: set<string>, id: string): (t: set<string>)
    ensures id in t <==> id !in s
    ensures forall x :: x != id ==> (x in t <==> x in s)
  {
    if id in s then s - {id} else s + {id}
  }

  /** Toggling an id of a universe keeps a set inside that universe. */
  lemma ToggledWithin(s: set<string>, id: string, universe: set<string>)
    requires s <= universe && id in universe
    ensures Toggled(s, id) <= universe
  {
  }

  /** Clicking the same card twice restores the selection. */
  lemma ToggleTwice(s: set<string>, id: string)
    ensures Toggled(Toggled(s, id), id) == s
  {
  }

  /** Toggling two ids gives the same set in either order. */
  lemma ToggleCommutes(s: set<string>, a: string, b: string)
    ensures Toggled(Toggled(s, a), b) == Toggled(Toggled(s, b), a)
  {
  }

  /** `compareList`: the catalog entries whose id is selected, in catalog order. */
  function CompareList(catalog: seq<Bundle>, selected: set<string>): (r: seq<Bundle>)
    ensures forall b :: b in r <==> b in catalog && b.id in selected
    ensures forall b :: multiset(r)[b] == if b.id in selected then multiset(catalog)[b] else 0
  {
    Filter(catalog, (b: Bundle) => b.id in selected)
  }

  /** The comparison columns come in catalog order, not in the order of selection. */
  lemma CompareListInCatalogOrder(catalog: seq<Bundle>, selected: set<string>)
    ensures SubsequenceOf(CompareList(catalog, selected), catalog)
  {
    FilterIsSubsequence(catalog, (b: Bundle) => b.id in selected);
  }

  /** Over a catalog without repetitions each selected entry has one column. */
  lemma CompareListDistinct(catalog: seq<Bundle>, selected: set<string>)
    requires Distinct(catalog)
    ensures Distinct(CompareList(catalog, selected))
  {
    DistinctCountsAtMostOne(catalog);
    CountsAtMostOneDistinct(CompareList(catalog, selected));
  }

  /** Selecting the id of exactly one catalog entry compares that entry alone. */
  lemma CompareListOfOne(catalog: seq<Bundle>, m: Bundle)
    requires Distinct(catalog) && m in catalog
    requires forall b :: b in catalog && b.id == m.id ==> b == m
    ensures CompareList(catalog, {m.id}) == [m]
  {
    DistinctCountsAtMostOne(catalog);
    OnlyElement(CompareList(catalog, {m.id}), m);
  }

  /** The initial selection compares Premium Health & Life alone. */
  lemma InitialComparison()
    ensures CompareList(Bundles, {"premium_health_life"}) == [PremiumHealthLife]
  {
    PremiumHealthLifeId();
    CatalogDistinct();
    CompareListOfOne(Bundles, PremiumHealthLife);
  }

  /** The side-by-side panel is rendered: compare mode is on and the compare list is not empty. */
  function ComparePanelShown(compareMode: bool, catalog: seq<Bundle>, selected: set<string>): (shown: bool)
    ensures shown <==> compareMode && exists b :: b in catalog && b.id in selected
  {
    var list := CompareList(catalog, selected);
    assert |list| > 0 <==> exists b :: b in list;
    compareMode && |list| > 0
  }

  /**
   * While every selected id names a catalog entry, the panel is shown exactly
   * when compare mode is on and something is selected; a selected id that
   * names no entry does not give the panel a column.
   */
  lemma CompareGating(compareMode: bool, selected: set<string>)
    requires selected <= CatalogIds()
    ensures ComparePanelShown(compareMode, Bundles, selected) <==> compareMode && |selected| > 0
  {
    PanelShownWhenIdsListed(compareMode, Bundles, selected);
  }

  /** When every selected id names an entry of the catalog, something selected gives the panel a column. */
  lemma PanelShownWhenIdsListed(compareMode: bool, catalog: seq<Bundle>, selected: set<string>)
    requires forall id :: id in selected ==> exists b :: b in catalog && b.id == id
    ensures ComparePanelShown(compareMode, catalog, selected) <==> compareMode && |selected| > 0
  {
    if |selected| > 0 {
      var id :| id in selected;
      var b :| b in catalog && b.id == id;
    }
  }

  /** The grid shows cards in a grid, the list shows rows; a click on a row opens the detail panel. */
  datatype ViewMode = Grid | List

  /** The state of the `BundleExplorer` component. */
  class ExplorerState {
    var category: string
    var sort: string
    var search: string
    var selected: set<string>
    var pinned: set<string>
    var viewMode: ViewMode
    var detail: Option<Bundle>
    var compareMode: bool

    /**
     * The pills offer only the listed categories and the drop-down only the
     * four sort options; only catalog ids are ever selected or pinned, since
     * every card carries the id of a catalog entry.
     */
    predicate Valid()
      reads this`category, this`sort, this`selected, this`pinned
    {
      Offered() && Listed()
    }

    /** The category and the sort value are ones the page offers. */
    predicate Offered()
      reads this`category, this`sort
    {
      category in Categories && sort in SortOptions
    }

    /** Only catalog ids are selected or pinned. */
    predicate Listed()
      reads this`selected, this`pinned
    {
      selected <= CatalogIds() && pinned <= CatalogIds()
    }

    /** The initial values of the `useState` hooks. */
    constructor ()
      ensures category == "All" && sort == "Match Score" && search == ""
      ensures selected == {"premium_health_life"} && pinned == {}
      ensures viewMode == Grid && detail == None && !compareMode
      ensures Valid()
    {
      PremiumHealthLifeId();
      category := "All";
      sort := "Match Score";
      search := "";
      selected := {"premium_health_life"};
      pinned := {};
      viewMode := Grid;
      detail := None;
      compareMode := false;
    }

    /** `filtered`: the cards on the page, with what they are and how they are ordered. */
    function Shown(): (r: seq<Bundle>)
      reads this`category, this`search, this`sort
      ensures forall b :: b in r <==> b in Bundles && PassesCategory(b, category) && PassesSearch(b, search)
      ensures Distinct(r)
      ensures SortedBy(r, KeyOf(sort))
      ensures Offered() ==> KeyOf(sort) != Unordered
      ensures |r| <= |Bundles|
    {
      FilteredMembership(Bundles, category, search, sort);
      CatalogDistinct();
      FilteredDistinct(Bundles, category, search, sort);
      FilteredSize(Bundles, category, search, sort);
      Filtered(Bundles, category, search, sort)
    }

    /** A category pill. */
    method SetCategory(c: string)
      requires Valid() && c in Categories
      modifies this`category
      ensures category == c && Valid()
    {
      category := c;
    }

    /** The sort drop-down. */
    method SetSort(s: string)
      requires Valid() && s in SortOptions
      modifies this`sort
      ensures sort == s && Valid()
    {
      sort := s;
    }

    /** The search box. */
    method SetSearch(q: string)
      modifies this`search
      ensures search == q
    {
      search := q;
    }

    /** The grid / list switch. */
    method SetViewMode(m: ViewMode)
      modifies this`viewMode
      ensures viewMode == m
    {
      viewMode := m;
    }

    /** `toggleSelect`, with the id of a card. */
    method ToggleSelect(id: string)
      requires Valid() && id in CatalogIds()
      modifies this`selected
      ensures selected == Toggled(old(selected), id)
      ensures Valid()
    {
      ToggledWithin(selected, id, CatalogIds());
      selected := Toggled(selected, id);
    }

    /** `togglePin`, with the id of a card: pins are independent of the selection. */
    method TogglePin(id: string)
      requires Valid() && id in CatalogIds()
      modifies this`pinned
      ensures pinned == Toggled(old(pinned), id)
      ensures Valid()
    {
      ToggledWithin(pinned, id, CatalogIds());
      pinned := Toggled(pinned, id);
    }

    /** A click on card `b`: the list view opens its detail panel, the grid view toggles its selection. */
    method OnSelect(b: Bundle)
      requires Valid() && b in Bundles
      modifies this`detail, this`selected
      ensures Valid()
      ensures viewMode == List ==> detail == Some(b) && selected == old(selected)
      ensures viewMode == Grid ==> detail == old(detail) && selected == Toggled(old(selected), b.id)
    {
      if viewMode == List {
        OpenDetail(b);
      } else {
        ToggleSelect(b.id);
      }
    }

    /**
     * The "Compare (n)" button, which is only rendered while something is
     * selected: the side-by-side panel opens with a column for it.
     */
    method OpenCompare()
      requires Valid() && |selected| > 0
      modifies this`compareMode
      ensures compareMode
      ensures ComparePanelShown(compareMode, Bundles, selected)
    {
      compareMode := true;
      CompareGating(compareMode, selected);
    }

    /** The panel's Close button. */
    method CloseCompare()
      modifies this`compareMode
      ensures !compareMode
    {
      compareMode := false;
    }

    /** A row of the list view: the detail panel opens on that bundle. */
    method OpenDetail(b: Bundle)
      modifies this`detail
      ensures detail == Some(b)
    {
      detail := Some(b);
    }

    /** The detail panel's close button and backdrop. */
    method CloseDetail()
      modifies this`detail
      ensures detail == None
    {
      detail := None;
    }
  }
}
