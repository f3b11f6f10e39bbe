/** The generic searchable list: a search box over any list of items, each
    item searched by one text value; and the input field that opens it. */
module SearchableModal {
  import opened Wrappers
  import opened JsText
  import opened JsArray

  /** `searchValue?.toLowerCase().includes(query)`: an item with no search
      value never matches. `query` is already lowercased. */
  predicate KeyMatches(searchValue: Option<string>, query: string) {
    searchValue.Some? && Includes(Lower(searchValue.value), query)
  }

  /** What the filtering effect stores in `filteredData`. A blank query
      (empty after `trim`) shows every item; any other query is matched as
      typed, surrounding spaces included. `searchKey` gives an item's search
      value (a property name is a projection, so it is a function too). */
  function FilterData<T(==)>(data: seq<T>, searchKey: T -> Option<string>, searchQuery: string): (r: seq<T>)
    ensures Trim(searchQuery) == "" ==> r == data
    ensures Trim(searchQuery) != "" ==>
      && IsSubsequence(r, data)
      && (forall i :: 0 <= i < |r| ==> r[i] in data && KeyMatches(searchKey(r[i]), Lower(searchQuery)))
      && (forall i :: 0 <= i < |data| && KeyMatches(searchKey(data[i]), Lower(searchQuery)) ==> data[i] in r)
      && (forall i :: 0 <= i < |data| ==>
            multiset(r)[data[i]] == if KeyMatches(searchKey(data[i]), Lower(searchQuery)) then multiset(data)[data[i]] else 0)
  {
    if Trim(searchQuery) == "" then data
    else
      var matches := (item: T) => KeyMatches(searchKey(item), Lower(searchQuery));
      FilterCounts(data, matches);
      Filter(data, matches)
  }

  /** A query of white space only (the empty one included) shows every item. */
  lemma BlankQueryShowsAll<T>(data: seq<T>, searchKey: T -> Option<string>, searchQuery: string)
    requires forall k :: 0 <= k < |searchQuery| ==> IsWhiteSpace(searchQuery[k])
    ensures FilterData(data, searchKey, searchQuery) == data
  {
    TrimEmptyIffBlank(searchQuery);
  }

  /** An item without a search value is never shown for a non-blank query. */
  lemma MissingKeyHidden<T>(data: seq<T>, searchKey: T -> Option<string>, searchQuery: string)
    requires exists k :: 0 <= k < |searchQuery| && !IsWhiteSpace(searchQuery[k])
    ensures forall i :: 0 <= i < |FilterData(data, searchKey, searchQuery)| ==>
      searchKey(FilterData(data, searchKey, searchQuery)[i]).Some?
  {
    TrimEmptyIffBlank(searchQuery);
  }

  /** Filtering the shown items again with the same query shows the same items. */
  lemma FilterDataIdempotent<T>(data: seq<T>, searchKey: T -> Option<string>, searchQuery: string)
    ensures FilterData(FilterData(data, searchKey, searchQuery), searchKey, searchQuery)
         == FilterData(data, searchKey, searchQuery)
  {
    if Trim(searchQuery) != "" {
      FilterIdempotent(data, (item: T) => KeyMatches(searchKey(item), Lower(searchQuery)));
    }
  }

  /** The query is not trimmed before matching: " ab" does not find "ab",
      although it finds "x ab". */
  lemma UntrimmedQueryExample()
    ensures "ab" !in FilterData(["ab", "x ab"], (s: string) => Some(s), " ab")
    ensures "x ab" in FilterData(["ab", "x ab"], (s: string) => Some(s), " ab")
  {
    QueryFacts();
    var data := ["ab", "x ab"];
    assert data[1] == "x ab";
  }

  /** The facts about the example's strings. */
  lemma QueryFacts()
    ensures Trim(" ab") != ""
    ensures !KeyMatches(Some("ab"), Lower(" ab"))
    ensures KeyMatches(Some("x ab"), Lower(" ab"))
  {
    NonBlankSurvivesTrim(" ab", 1);
    PaddedQueryFound();
  }

  lemma PaddedQueryFound()
    ensures Lower(" ab") == " ab"
    ensures Includes(Lower("x ab"), " ab")
  {
    LowerKeepsSmall(" ab");
    LowerKeepsSmall("x ab");
    assert OccursAt("x ab", " ab", 1);
  }

  /** A non-blank query longer than an item's search value hides the item,
      so spaces around the query count against the match. This rests on
      `Lower` keeping the length, which holds for the ASCII case mapping
      modelled here; the full Unicode `toLowerCase` can lengthen a string
      ('İ' becomes two code units), so for such values the bound may fail. */
  lemma LongQueryHidesShortValues<T>(data: seq<T>, searchKey: T -> Option<string>, searchQuery: string)
    requires Trim(searchQuery) != ""
    ensures forall i :: 0 <= i < |FilterData(data, searchKey, searchQuery)| ==>
      |searchQuery| <= |searchKey(FilterData(data, searchKey, searchQuery)[i]).value|
  {
  }

  /** The list dialog's state. `Valid` says the filtering effect has run for
      the current query and data. */
  class SearchableList<T(==)> {
    var data: seq<T>
    var searchKey: T -> Option<string>
    var searchQuery: string
    var filteredData: seq<T>

    ghost predicate Valid()
      reads this
    {
      filteredData == FilterData(data, searchKey, searchQuery)
    }

    constructor (data: seq<T>, searchKey: T -> Option<string>)
      ensures Valid()
      ensures this.data == data && this.searchKey == searchKey && searchQuery == "" && filteredData == data
    {
      this.data := data;
      this.searchKey := searchKey;
      searchQuery := "";
      filteredData := data;
      new;
      assert Valid() by {
        BlankQueryShowsAll(data, searchKey, "");
      }
    }

    /** The filtering effect. */
    method RunFilter()
      modifies this
      ensures Valid()
      ensures data == old(data) && searchKey == old(searchKey) && searchQuery == old(searchQuery)
    {
      filteredData := FilterData(data, searchKey, searchQuery);
    }

    /** Typing in the search box; the text is also passed to `onInputChange`
        (returned in `echoed`). */
    method HandleSearchChange(text: string) returns (echoed: string)
      modifies this
      ensures Valid()
      ensures searchQuery == text && echoed == text
      ensures data == old(data) && searchKey == old(searchKey)
    {
      searchQuery := text;
      RunFilter();
      echoed := text;
    }

    /** Choosing an item: it goes to `onSelect` (returned in `selected`), the
        query is cleared and the whole list shows again. */
    method HandleSelect(item: T) returns (selected: T)
      modifies this
      ensures Valid()
      ensures selected == item && searchQuery == "" && filteredData == data
      ensures data == old(data) && searchKey == old(searchKey)
    {
      selected := item;
      searchQuery := "";
      RunFilter();
    }

    /** The caller passes new items. */
    method SetData(newData: seq<T>)
      modifies this
      ensures Valid()
      ensures data == newData && searchKey == old(searchKey) && searchQuery == old(searchQuery)
    {
      data := newData;
      RunFilter();
    }

    /** The caller passes a new search key: the same effect re-filters the
        items with the current query. */
    method SetSearchKey(newSearchKey: T -> Option<string>)
      modifies this
      ensures Valid()
      ensures searchKey == newSearchKey && data == old(data) && searchQuery == old(searchQuery)
    {
      searchKey := newSearchKey;
      RunFilter();
    }
  }

  /** The field that opens the list. `inputValue` follows the `value` prop
      (`value || ''`) each time the prop changes, and what the user types
      otherwise. */
  class SearchableInput {
    var value: Option<string>
    var inputValue: string
    var modalVisible: bool

    constructor (value: Option<string>)
      ensures this.value == value && inputValue == value.GetOr("") && !modalVisible
    {
      this.value := value;
      inputValue := value.GetOr("");
      modalVisible := false;
    }

    /** The parent re-renders with `newValue`; the effect runs only if the
        prop changed. */
    method SetValue(newValue: Option<string>)
      modifies this
      ensures value == newValue
      ensures newValue != old(value) ==> inputValue == newValue.GetOr("")
      ensures newValue == old(value) ==> inputValue == old(inputValue)
      ensures modalVisible == old(modalVisible)
    {
      if newValue != value {
        value := newValue;
        inputValue := newValue.GetOr("");
      }
    }

    /** Typing in the field (when typing is allowed); the text is also passed
        to `onTextChange` (returned in `echoed`). */
    method HandleTextChange(text: string) returns (echoed: string)
      modifies this
      ensures inputValue == text && echoed == text
      ensures value == old(value) && modalVisible == old(modalVisible)
    {
      inputValue := text;
      echoed := text;
    }

    /** The list button, and the dialog's close button. */
    method SetModalVisible(visible: bool)
      modifies this
      ensures modalVisible == visible
      ensures value == old(value) && inputValue == old(inputValue)
    {
      modalVisible := visible;
    }

    /** Choosing an item in the list: it goes to `onSelect` (returned in
        `selected`) and the list closes; the field changes only once the
        parent passes a new `value`. */
    method SelectItem<T>(item: T) returns (selected: T)
      modifies this
      ensures selected == item && !modalVisible
      ensures value == old(value) && inputValue == old(inputValue)
    {
      selected := item;
      modalVisible := false;
    }
  }
}
