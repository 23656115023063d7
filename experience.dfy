/**
 * The Work Experience section: the fetched list is sorted by display order, then
 * most recent start first, and one entry at a time can be expanded.
 */
module Experience {
  import opened Common
  import opened Timeline

  /** An experience entry; `startDate` and `endDate` are already-parsed timestamps. */
  datatype ExperienceItem = ExperienceItem(
    id: string,
    title: string,
    company: string,
    location: string,
    startDate: int,
    endDate: Option<int>,
    description: string,
    skills: seq<string>,
    order: int)

  /** The outcome of fetching and decoding `/api/experience`. */
  datatype FetchResult = JsonArray(items: seq<ExperienceItem>) | JsonNotArray | FetchThrew

  datatype ExperienceState = ExperienceState(
    experiences: seq<ExperienceItem>,
    isLoading: bool,
    error: Option<string>,
    expandedIndex: Option<int>)

  const NotArrayMessage := "Failed to fetch experiences"
  const ThrewMessage := "Error fetching experiences"

  /** The state on mount: loading, nothing listed, nothing expanded. */
  const Initial := ExperienceState([], true, None, None)

  function SortKey(e: ExperienceItem): Key {
    Key(e.order, e.startDate)
  }

  /**
   * `[...data].sort(...)` with the section's comparator: a rearrangement of
   * the fetched entries with `order` ascending and, within one `order`, the
   * later `startDate` first.
   */
  method SortExperiences(data: seq<ExperienceItem>) returns (sorted: seq<ExperienceItem>)
    ensures multiset(sorted) == multiset(data)
    ensures forall i, j :: 0 <= i < j < |sorted| ==> sorted[i].order <= sorted[j].order
    ensures forall i, j :: 0 <= i < j < |sorted| && sorted[i].order == sorted[j].order
                        ==> sorted[i].startDate >= sorted[j].startDate
  {
    sorted := SortedCopy(data, SortKey);
    assert forall i, j :: 0 <= i < j < |sorted| ==> Compare(SortKey(sorted[i]), SortKey(sorted[j])) <= 0;
  }

  /**
   * The mount effect once the fetch settles: an array is sorted and listed,
   * anything else sets the matching error; loading ends either way.
   */
  method FetchExperiences(st: ExperienceState, response: FetchResult) returns (r: ExperienceState)
    ensures !r.isLoading && r.expandedIndex == st.expandedIndex
    ensures response.JsonArray? ==>
      && r.error == st.error
      && multiset(r.experiences) == multiset(response.items)
      && (forall i, j :: 0 <= i < j < |r.experiences| ==> r.experiences[i].order <= r.experiences[j].order)
      && (forall i, j :: 0 <= i < j < |r.experiences| && r.experiences[i].order == r.experiences[j].order
                      ==> r.experiences[i].startDate >= r.experiences[j].startDate)
    ensures response.JsonNotArray? ==> r.experiences == st.experiences && r.error == Some(NotArrayMessage)
    ensures response.FetchThrew? ==> r.experiences == st.experiences && r.error == Some(ThrewMessage)
    ensures st == Initial && !response.JsonArray? ==> r.experiences == [] && r.error.Some?
  {
    r := st.(isLoading := true);
    match response {
      case JsonArray(items) =>
        var sorted := SortExperiences(items);
        r := r.(experiences := sorted);
      case JsonNotArray =>
        r := r.(error := Some(NotArrayMessage));
      case FetchThrew =>
        r := r.(error := Some(ThrewMessage));
    }
    r := r.(isLoading := false);
  }

  /** Clicking the header of entry `index`. */
  function ToggleExpand(st: ExperienceState, index: int): (r: ExperienceState)
    ensures IsExpanded(r.expandedIndex, index) <==> !IsExpanded(st.expandedIndex, index)
    ensures forall k :: k != index ==> !IsExpanded(r.expandedIndex, k)
    ensures r.(expandedIndex := st.expandedIndex) == st
  {
    st.(expandedIndex := NextExpanded(st.expandedIndex, index))
  }

  /** From the collapsed state, clicking the same entry twice collapses it again. */
  lemma ToggleTwiceFromCollapsed(st: ExperienceState, index: int)
    requires st.expandedIndex.None?
    ensures ToggleExpand(ToggleExpand(st, index), index) == st
  {
    NextExpandedTwice(st.expandedIndex, index);
  }
}
