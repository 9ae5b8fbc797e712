/**
 * The passenger's travel history screen (app/travel-history.jsx): a fixed
 * list of trips and the search box that filters it.
 */
module TravelHistory {
  import opened Common

  /** A trip: its id, date text, route text and amount text. */
  datatype Entry = Entry(id: string, date: string, route: string, amount: string)

  /** `travelHistory`: twenty trips from Carmona Estates to Waltermart at 15.00 each. */
  const Trips: seq<Entry> := [
    Entry("1", "January 20, 2025", "Carmona Estates to Waltermart", "- 15.00"),
    Entry("2", "January 19, 2025", "Carmona Estates to Waltermart", "- 15.00"),
    Entry("3", "January 18, 2025", "Carmona Estates to Waltermart", "- 15.00"),
    Entry("4", "January 17, 2025", "Carmona Estates to Waltermart", "- 15.00"),
    Entry("5", "January 16, 2025", "Carmona Estates to Waltermart", "- 15.00"),
    Entry("6", "January 20, 2025", "Carmona Estates to Waltermart", "- 15.00"),
    Entry("7", "January 19, 2025", "Carmona Estates to Waltermart", "- 15.00"),
    Entry("8", "January 18, 2025", "Carmona Estates to Waltermart", "- 15.00"),
    Entry("9", "January 17, 2025", "Carmona Estates to Waltermart", "- 15.00"),
    Entry("10", "January 16, 2025", "Carmona Estates to Waltermart", "- 15.00"),
    Entry("11", "January 20, 2025", "Carmona Estates to Waltermart", "- 15.00"),
    Entry("12", "January 19, 2025", "Carmona Estates to Waltermart", "- 15.00"),
    Entry("13", "January 18, 2025", "Carmona Estates to Waltermart", "- 15.00"),
    Entry("14", "January 17, 2025", "Carmona Estates to Waltermart", "- 15.00"),
    Entry("15", "January 16, 2025", "Carmona Estates to Waltermart", "- 15.00"),
    Entry("16", "January 20, 2025", "Carmona Estates to Waltermart", "- 15.00"),
    Entry("17", "January 19, 2025", "Carmona Estates to Waltermart", "- 15.00"),
    Entry("18", "January 18, 2025", "Carmona Estates to Waltermart", "- 15.00"),
    Entry("19", "January 17, 2025", "Carmona Estates to Waltermart", "- 15.00"),
    Entry("20", "January 16, 2025", "Carmona Estates to Waltermart", "- 15.00")
  ]

  /** The fields the search box looks at. */
  function SearchFields(e: Entry): seq<string>
  {
    [e.date, e.route, e.amount]
  }

  /**
   * `filteredHistory`: exactly the trips whose date, route or amount contains
   * the search text, ignoring case, in the order of the list.
   */
  function FilteredHistory(searchText: string): (r: seq<Entry>)
    ensures forall i :: 0 <= i < |r| ==> r[i] in Trips && AnyFieldContains(SearchFields(r[i]), searchText)
    ensures forall i :: 0 <= i < |Trips| && AnyFieldContains(SearchFields(Trips[i]), searchText) ==> Trips[i] in r
    ensures IsSubsequence(r, Trips)
  {
    SearchTrips(Trips, searchText)
  }

  /** The search box over any list of trips. */
  function SearchTrips(trips: seq<Entry>, searchText: string): (r: seq<Entry>)
    ensures forall i :: 0 <= i < |r| ==> r[i] in trips && AnyFieldContains(SearchFields(r[i]), searchText)
    ensures forall i :: 0 <= i < |trips| && AnyFieldContains(SearchFields(trips[i]), searchText) ==> trips[i] in r
    ensures IsSubsequence(r, trips)
    ensures forall t :: Count(r, t) == if AnyFieldContains(SearchFields(t), searchText) then Count(trips, t) else 0
  {
    SearchBy(trips, SearchFields, searchText)
  }

  /** An empty search shows every trip. */
  lemma EmptySearchShowsAll()
    ensures FilteredHistory("") == Trips
  {
    SearchByEmpty(Trips, SearchFields);
  }

  /** Upper-casing the search text changes nothing: the match ignores case. */
  lemma SearchIgnoresCase(searchText: string)
    ensures FilteredHistory(ToUpper(searchText)) == FilteredHistory(searchText)
  {
    SearchByIgnoresCase(Trips, SearchFields, searchText);
  }

  /** Typing more at the end of the search text never brings a trip back. */
  lemma LongerSearchNarrows(searchText: string, more: string)
    ensures IsSubsequence(FilteredHistory(searchText + more), FilteredHistory(searchText))
  {
    SearchByLongerNarrows(Trips, SearchFields, searchText, more);
  }
}
