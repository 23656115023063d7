/**
 * The Education section: the fetched list is sorted by display order, then
 * most recent start first, and one entry at a time can be expanded.
 */
module Education {
  import opened Common
  import opened Timeline

  /** An education entry; `startDate` and `endDate` are already-parsed timestamps. */
  datatype EducationItem = EducationItem(
    id: string,
    institution: string,
    degree: string,
    field: string,
    location: string,
    startDate: int,
    endDate: Option<int>,
    description: string,
    achievements: seq<string>,
    order: int)

  /** The outcome of fetching and decoding `/api/education`. */
  datatype FetchResult = JsonArray(items: seq<EducationItem>) | JsonNotArray | FetchThrew

  datatype EducationState = EducationState(
    educations: seq<EducationItem>,
    isLoading: bool,
    error: Option<string>,
    expandedIndex: Option<int>)

  const NotArrayMessage := "Failed to fetch education data"
  const ThrewMessage := "Error fetching education data"

  /** The state on mount: loading, nothing listed, nothing expanded. */
  const Initial := EducationState([], true, None, None)

  function SortKey(e: EducationItem): Key {
    Key(e.order, e.startDate)
  }

  /**
   * `[...data].sort(...)` with the section's comparator: a rearrangement of
   * the fetched entries with `order` ascending and, within one `order`, the
   * later `startDate` first.
   */
  method SortEducations(data: seq<EducationItem>) returns (sorted: seq<EducationItem>)
    ensures multiset(sorted) == multiset(data)
    ensures forall i, j :: 0 <= i < j < |sorted| ==> sorted[i].order <= sorted[j].order
    ensures forall i, j :: 0 <= i < j < |sorted| && sorted[i].order == sorted[j].order
                        ==> sorted[i].startDate >= sorted[j].startDate
  {
    sorted := SortedCopy(data, SortKey);
    assert forall i, j :: 0 <= i < j < |sorted| ==> Compare(SortKey(sorted[i]), SortKey(sorted[j])) <= 0;
  }

  /**
   * The mount effect once the fetch settles: an array is sorted and listed,
   * anything else sets the matching error; loading ends either way.
   */
  method FetchEducations(st: EducationState, response: FetchResult) returns (r: EducationState)
    ensures !r.isLoading && r.expandedIndex == st.expandedIndex
    ensures response.JsonArray? ==>
      && r.error == st.error
      && multiset(r.educations) == multiset(response.items)
      && (forall i, j :: 0 <= i < j < |r.educations| ==> r.educations[i].order <= r.educations[j].order)
      && (forall i, j :: 0 <= i < j < |r.educations| && r.educations[i].order == r.educations[j].order
                      ==> r.educations[i].startDate >= r.educations[j].startDate)
    ensures response.JsonNotArray? ==> r.educations == st.educations && r.error == Some(NotArrayMessage)
    ensures response.FetchThrew? ==> r.educations == st.educations && r.error == Some(ThrewMessage)
    ensures st == Initial && !response.JsonArray? ==> r.educations == [] && r.error.Some?
  {
    r := st.(isLoading := true);
    match response {
      case JsonArray(items) =>
        var sorted := SortEducations(items);
        r := r.(educations := sorted);
      case JsonNotArray =>
        r := r.(error := Some(NotArrayMessage));
      case FetchThrew =>
        r := r.(error := Some(ThrewMessage));
    }
    r := r.(isLoading := false);
  }

  /** Clicking the header of entry `index`. */
  function ToggleExpand(st: EducationState, index: int): (r: EducationState)
    ensures IsExpanded(r.expandedIndex, index) <==> !IsExpanded(st.expandedIndex, index)
    ensures forall k :: k != index ==> !IsExpanded(r.expandedIndex, k)
    ensures r.(expandedIndex := st.expandedIndex) == st
  {
    st.(expandedIndex := NextExpanded(st.expandedIndex, index))
  }

  /** From the collapsed state, clicking the same entry twice collapses it again. */
  lemma ToggleTwiceFromCollapsed(st: EducationState, index: int)
    requires st.expandedIndex.None?
    ensures ToggleExpand(ToggleExpand(st, index), index) == st
  {
    NextExpandedTwice(st.expandedIndex, index);
  }
}
