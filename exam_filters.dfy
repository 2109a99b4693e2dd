/**
 * The filter panel of the exam history (components/exams/ExamFilters.tsx):
 * the filter object it keeps, the values its selects hand to the change
 * handler, the badge with the number of active filters, and the local search
 * term. Every change of the filter object is also sent to the parent through
 * onFilterChange, recorded here as the sequence of objects sent.
 */
module ExamFilters {
  import opened ExamTypes

  /** handleFilterChange: set the key on a copy, then delete it again when the value is falsy. */
  function HandleFilterChange(filters: Filters, key: FilterKey, value: JsValue): (r: Filters)
    ensures Truthy(value) ==> key in r && r[key] == value
    ensures !Truthy(value) ==> key !in r
    ensures forall k :: k != key ==> (k in r <==> k in filters) && (k in r ==> r[k] == filters[k])
  {
    var copy := filters[key := value];
    if !Truthy(value) then copy - {key} else copy
  }

  /** What the fraud select hands to the handler for the option value chosen. */
  function FraudSelectValue(option: string): JsValue
  {
    if option == "" then Undefined else Bool(option == "true")
  }

  /** The three options of the fraud select. */
  const FraudOptions: seq<string> := ["", "true", "false"]

  /**
   * Choosing "Sans fraude" (option "false") passes false, which is falsy, so
   * the key is deleted: the choice has the same effect as "Tous les examens".
   */
  lemma SansFraudeNeverStored(filters: Filters)
    ensures HasFraudKey !in HandleFilterChange(filters, HasFraudKey, FraudSelectValue("false"))
    ensures HandleFilterChange(filters, HasFraudKey, FraudSelectValue("false"))
         == HandleFilterChange(filters, HasFraudKey, FraudSelectValue(""))
  {
  }

  /** Whatever is chosen in the fraud select, the stored hasFraud is absent or true. */
  lemma FraudSelectStoresOnlyTrue(filters: Filters, option: string)
    requires option in FraudOptions
    ensures var r := HandleFilterChange(filters, HasFraudKey, FraudSelectValue(option));
      HasFraudKey in r ==> r[HasFraudKey] == Bool(true)
  {
  }

  /** The number on the filter button: the count of keys present. */
  function BadgeCount(filters: Filters): (n: nat)
    ensures n == 0 <==> filters == map[]
  {
    assert filters != map[] ==> filters.Keys != {} by {
      if filters != map[] {
        var k :| k in filters;
        assert k in filters.Keys;
      }
    }
    |filters.Keys|
  }

  /** The badge and the clear button are shown only when a filter is active. */
  predicate BadgeShown(filters: Filters)
  {
    BadgeCount(filters) > 0
  }

  /** The panel's own state and what it has sent to the parent. */
  class FilterPanel {
    var searchTerm: string
    var showFilters: bool
    var filters: Filters
    /** The objects passed to onFilterChange, oldest first. */
    var sent: seq<Filters>

    /** The parent always holds what the panel holds: the last object sent is the current one. */
    ghost predicate Synced()
      reads this
    {
      if sent == [] then filters == map[] else sent[|sent| - 1] == filters
    }

    constructor ()
      ensures searchTerm == "" && !showFilters && filters == map[] && sent == []
      ensures Synced()
    {
      searchTerm := "";
      showFilters := false;
      filters := map[];
      sent := [];
    }

    /** The search box only updates the local term; nothing is sent. */
    method OnSearchChange(value: string)
      modifies this
      ensures searchTerm == value
      ensures showFilters == old(showFilters) && filters == old(filters) && sent == old(sent)
      ensures old(Synced()) ==> Synced()
    {
      searchTerm := value;
    }

    /** The new object is both stored and sent, the same value in both places. */
    method OnFilterChange(key: FilterKey, value: JsValue)
      modifies this
      ensures Synced()
      ensures filters == HandleFilterChange(old(filters), key, value)
      ensures sent == old(sent) + [filters]
      ensures searchTerm == old(searchTerm) && showFilters == old(showFilters)
    {
      var newFilters := filters[key := value];
      if !Truthy(value) {
        newFilters := newFilters - {key};
      }
      filters := newFilters;
      sent := sent + [newFilters];
    }

    method OnClearFilters()
      modifies this
      ensures filters == map[] && searchTerm == "" && sent == old(sent) + [map[]]
      ensures !BadgeShown(filters)
      ensures showFilters == old(showFilters)
      ensures Synced()
    {
      filters := map[];
      searchTerm := "";
      sent := sent + [map[]];
    }

    method ToggleFilters()
      modifies this
      ensures showFilters == !old(showFilters)
      ensures searchTerm == old(searchTerm) && filters == old(filters) && sent == old(sent)
      ensures old(Synced()) ==> Synced()
    {
      showFilters := !showFilters;
    }
  }
}
