# CRM pickers and filters: a verified model

This project models the selection and filtering components of a React Native
CRM for a clinic's sales team:

- the price conversion to Turkish lira;
- the product picker, with search, category chips, price sort and selection marks;
- the customer picker, with search over every field and an inline "new customer" form;
- the generic searchable list and its input field;
- the filter sheet, with selects, dates, date ranges, multi-selects and price ranges;
- the date picker's six-week month grid and month navigation.

Each component is one Dafny module. Three more modules hold the JavaScript
building blocks the components rely on, each given a precise meaning:
- `JsText`: `toLowerCase`, `includes`, `trim` and truthiness.
- `JsArray`: `filter`, `some`, and `sort` with a comparator.
- `CalendarDate`: `Date` on whole days, including the overflowing `setDate`/`setMonth`.

`Wrappers` holds `Option` (for `null`/`undefined`) and `Result` (for a
data-store call).

Pure parts of the source (the filter predicates, the category list, the
comparator, the price conversion) are functions. Parts that work step by step
are imperative:
- The sort copies the filtered list into an array and sorts it in place.
- The reset of the filter sheet assigns keys in a loop.
- The calendar grid is built by a 42-step loop that advances a date.

Component state that the handlers update (`useState` fields) becomes a class
whose methods update those fields. Callbacks to the parent (`onSelect`,
`onChange`, `onFiltersChange`, `onInputChange`) become out-parameters. Where a
handler also calls `onClose` (creating a customer, applying the filters), a
boolean out-parameter `closes` says whether it did.

Some of the behaviour the model makes explicit:
- The price sort key is `ConvertPrice`.
- With no sort order the list keeps its order.
- The search box of the searchable list matches a non-blank query untrimmed.
- In the date picker, "previous" from 31 March 2023 lands on 3 March. The
  month shown does not change, because `setMonth` keeps day 31 and February
  has 28 days.
- The date picker builds its grid with `new Date(year, month, 1)`, and that
  constructor reads a year from 0 to 99 as 1900 to 1999. A shown date in
  year 50 therefore gets the grid of the same month of 1950. `setDate` and
  `setMonth` do not remap years, so navigation keeps year 50.

## Model

| member | source | states |
|---|---|---|
| `CurrencyIcon.GetCurrencySymbol` | components/CurrencyIcon.tsx:26-28 | the symbol is the lira sign whatever the category |
| `CurrencyIcon.ConvertPrice` | components/CurrencyIcon.tsx:30-35 | the price is unchanged exactly when the category is 'Lazer Hastanesi'; it is multiplied by 40 for every other category, a missing one included |
| `CurrencyIcon.ConvertPriceMonotone` | components/CurrencyIcon.tsx:30-35 | for a fixed category a higher price never converts to a lower one |
| `CurrencyIcon.ConvertPriceNeverShrinks` | components/CurrencyIcon.tsx:30-35 | a non-negative price never decreases when converted |
| `CurrencyIcon.FormatPrice` | components/CurrencyIcon.tsx:37-40 | the shown text is `toFixed(2)` of the price itself in the domestic category, and of 40 times the price in every other category |
| `CurrencyIcon.ConvertedPriceIsDomestic` | components/CurrencyIcon.tsx:30-40 | formatting a price equals formatting its converted price as a domestic one |
| `JsText.Lower` | components/ProductSelectionModal.tsx:66-68 | `toLowerCase` keeps the length and lowercases each character on its own |
| `JsText.Includes` | components/ProductSelectionModal.tsx:67-69 | `includes` holds exactly when the needle occurs at some index of the string |
| `JsText.IncludesEmpty` | components/CustomerSelectionModal.tsx:81-82 | every string includes the empty string |
| `JsText.IncludesTransitive` | components/CustomerSelectionModal.tsx:81-91 | a string that includes `mid` includes whatever `mid` includes |
| `JsText.TrimStart` | components/CustomerSelectionModal.tsx:106 | the result is a suffix that does not start with white space, and only white space was removed |
| `JsText.TrimEnd` | components/CustomerSelectionModal.tsx:106 | the result is a prefix that does not end with white space, and only white space was removed |
| `JsText.Trim` | components/CustomerSelectionModal.tsx:106 | what `trim()` returns neither starts nor ends with white space |
| `JsText.TrimCutsWhiteSpace` | components/CustomerSelectionModal.tsx:106 | what `trim()` returns occurs in its input, and everything cut off before and after it is white space |
| `JsText.TrimEmptyIffBlank` | components/SearchableModal.tsx:45 | `trim() === ''` holds exactly when every character is white space |
| `JsArray.Filter` | components/ProductSelectionModal.tsx:65-74 | `filter` returns an order-preserving subsequence of its input. Every element kept satisfies the predicate, and every value satisfying it is kept; how often is stated by `FilterCounts` |
| `JsArray.FilterCounts` | components/ProductSelectionModal.tsx:65-74 | `filter` keeps every occurrence of a passing value (the result holds it exactly as often as the input) and no occurrence of a failing one; no value outside the input appears |
| `JsArray.Any` | components/ProductSelectionModal.tsx:93-95 | `some` holds exactly when some element satisfies the predicate |
| `JsArray.FilterIdempotent` | components/SearchableModal.tsx:48-53 | filtering twice with one predicate equals filtering once |
| `JsArray.FilterKeepsAll` | components/CustomerSelectionModal.tsx:80-92 | when every element passes, filtering returns the input |
| `JsArray.FilterAppend` | components/FilterModal.tsx:124-127 | filtering a concatenation concatenates the filtered parts |
| `JsArray.FilterNoDuplicates` | components/FilterModal.tsx:124-127 | filtering a list without duplicates leaves none |
| `JsArray.InsertIntoPrefix` | components/ProductSelectionModal.tsx:76-83 | one insertion pass extends the sorted prefix by one element, permutes the array, and leaves an already sorted prefix untouched |
| `JsArray.SortByKey` | components/ProductSelectionModal.tsx:76-83 | the array ends as a permutation of itself in non-decreasing key order. For every key value, the elements with that key keep their relative order, so the sort is stable as `Array.prototype.sort` is. An array already in order is not changed |
| `ProductSelection.MatchesSearch` | components/ProductSelectionModal.tsx:66-70 | the search test: the lowercased query occurs in the lowercased name, in a truthy lowercased category, or in the price's text |
| `ProductSelection.MatchesCategory` | components/ProductSelectionModal.tsx:71 | the chip test: no truthy chip is selected, or the category is exactly the selected one |
| `ProductSelection.FilteredProducts` | components/ProductSelectionModal.tsx:65-74 | the shown products are an order-preserving subsequence. A product is kept exactly when it matches the search (name, truthy category or price text) and the category chip ('All', or that exact category), and then every copy of it is kept |
| `ProductSelection.ComparatorPriceIsConvertPrice` | components/ProductSelectionModal.tsx:79-80 | the comparator's inline price is `convertPrice` |
| `ProductSelection.Compare` | components/ProductSelectionModal.tsx:76-83 | without a sort order the comparator answers 0; for 'asc' it is the lira price of the first minus that of the second, and the reverse for 'desc' |
| `ProductSelection.CompareIsRankDifference` | components/ProductSelectionModal.tsx:76-83 | the comparator is a difference of per-product ranks, so it orders consistently |
| `ProductSelection.SortedProducts` | components/ProductSelectionModal.tsx:76-83 | the result is a permutation of the filtered list that the comparator finds in order. With no sort order it is the filtered list itself; with 'asc' it is non-decreasing in lira price and with 'desc' non-increasing. Products with equal lira prices keep their filtered order |
| `ProductSelection.TruthyCategories` | components/ProductSelectionModal.tsx:86 | `map(p => p.category).filter(Boolean)` holds exactly the non-empty categories present, and no empty one |
| `ProductSelection.DistinctInOrder` | components/ProductSelectionModal.tsx:86 | `[...new Set(s)]` has no duplicates, the same members as `s`, and keeps first-appearance order |
| `ProductSelection.UniqueCategories` | components/ProductSelectionModal.tsx:86 | the chips are distinct and never empty. They are exactly the truthy categories of the products, in first-appearance order |
| `ProductSelection.IsProductSelected` | components/ProductSelectionModal.tsx:93-95 | a product is marked exactly when some selected product has its id |
| `ProductSelection.ToggleSort` | components/ProductSelectionModal.tsx:214-228 | pressing the active order switches sorting off; pressing the other selects it |
| `ProductSelection.ToggleSortTwice` | components/ProductSelectionModal.tsx:214-228 | pressing an inactive sort button twice returns to unsorted |
| `ProductSelection.ProductPicker.constructor` | components/ProductSelectionModal.tsx:36-40 | no products, empty search, no category chip, no sort order |
| `ProductSelection.ProductPicker.SetProducts` | components/ProductSelectionModal.tsx:57 | the fetched rows (or none) replace the products; nothing else changes |
| `ProductSelection.ProductPicker.SetSearchQuery` | components/ProductSelectionModal.tsx:165 | only the search text changes |
| `ProductSelection.ProductPicker.SetCategoryFilter` | components/ProductSelectionModal.tsx:177-193 | only the category chip changes |
| `ProductSelection.ProductPicker.PressSortButton` | components/ProductSelectionModal.tsx:214-228 | the sort order becomes `ToggleSort` of the old one; nothing else changes |
| `ProductSelection.ProductPicker.Displayed` | components/ProductSelectionModal.tsx:65-83 | the grid shows a permutation of the filtered products. It keeps their order when unsorted and is ordered by lira price otherwise, with products of equal lira price in their filtered order |
| `CustomerSelection.MatchesQuery` | components/CustomerSelectionModal.tsx:81-91 | the search test over the eight fields: name, surname, city and town; a truthy industry, email or address; or some phone number |
| `CustomerSelection.FilteredCustomers` | components/CustomerSelectionModal.tsx:80-92 | the list is an order-preserving subsequence. A customer is kept exactly when the lowercased query occurs in the name, surname, city or town; or in a truthy industry, email or address; or in some phone number. A kept customer appears as often as in the fetched list |
| `CustomerSelection.EmptyQueryKeepsAll` | components/CustomerSelectionModal.tsx:80-92 | an empty search lists every customer in order |
| `CustomerSelection.NarrowingQueryListsFewer` | components/CustomerSelectionModal.tsx:80-92 | a query that contains the previous one lists no customer the previous one did not list |
| `CustomerSelection.MatchNarrows` | components/CustomerSelectionModal.tsx:81-91 | a customer matching a query matches every query it contains |
| `CustomerSelection.PhoneMatchNarrows` | components/CustomerSelectionModal.tsx:89-91 | the same for the phone-number part of the match |
| `CustomerSelection.RequiredFieldsPresent` | components/CustomerSelectionModal.tsx:100 | the form passes validation when name, surname, city, town and address are all non-empty |
| `CustomerSelection.BuildInsert` | components/CustomerSelectionModal.tsx:106-118 | name, surname, city, town and address are sent as typed. The email is sent as null exactly when it is empty. The phones sent are the non-blank lines, in order, each as often as typed, and never an empty list |
| `CustomerSelection.PhonesNullIffAllBlank` | components/CustomerSelectionModal.tsx:106-113 | the phone list is sent as null exactly when every line is white space only |
| `CustomerSelection.InitialFormRejected` | components/CustomerSelectionModal.tsx:47-55 | the reset form fails the required-field check and would send neither phones nor email |
| `CustomerSelection.WithField` | components/CustomerSelectionModal.tsx:210-276 | editing one text input changes that field only |
| `CustomerSelection.CustomerPicker.constructor` | components/CustomerSelectionModal.tsx:43-55 | no customers, empty search, form hidden and in its initial state |
| `CustomerSelection.CustomerPicker.SetCustomers` | components/CustomerSelectionModal.tsx:72 | the fetched rows (or none) replace the list; nothing else changes |
| `CustomerSelection.CustomerPicker.SetSearchQuery` | components/CustomerSelectionModal.tsx:309 | only the search text changes |
| `CustomerSelection.CustomerPicker.SetShowNewCustomerForm` | components/CustomerSelectionModal.tsx:314 | only the form's visibility changes; what was typed stays |
| `CustomerSelection.CustomerPicker.EditField` | components/CustomerSelectionModal.tsx:210-276 | the form becomes `WithField` of the old form |
| `CustomerSelection.CustomerPicker.EditPhone` | components/CustomerSelectionModal.tsx:229-233 | the phone list becomes the one typed line |
| `CustomerSelection.CustomerPicker.Listed` | components/CustomerSelectionModal.tsx:320-321 | the list is `FilteredCustomers` of the fetched customers: a subsequence of them, each matching customer as often as it was fetched, and nothing that does not match |
| `CustomerSelection.CustomerPicker.CreateNewCustomer` | components/CustomerSelectionModal.tsx:99-145 | an empty required field sends nothing and changes nothing. Otherwise `BuildInsert` of the form is sent. On success the new row is first and the old list follows unchanged; the row is handed to `onSelect`, `onClose` is called, and the form is reset and hidden. On failure nothing changes and neither callback is called |
| `SearchableModal.KeyMatches` | components/SearchableModal.tsx:52 | an item matches when its search value is present and its lowercase includes the lowercased query |
| `SearchableModal.FilterData` | components/SearchableModal.tsx:44-56 | a blank query shows all items. Otherwise the items shown are an order-preserving subsequence, and an item is shown exactly when its search value is present and its lowercase contains the lowercased query. A shown item appears as often as in the data |
| `SearchableModal.BlankQueryShowsAll` | components/SearchableModal.tsx:45-46 | a query of white space only shows every item |
| `SearchableModal.MissingKeyHidden` | components/SearchableModal.tsx:52 | for a non-blank query, items without a search value are hidden |
| `SearchableModal.FilterDataIdempotent` | components/SearchableModal.tsx:48-53 | filtering the shown items again with the same query shows the same items |
| `SearchableModal.UntrimmedQueryExample` | components/SearchableModal.tsx:45-52 | " ab" does not find "ab" but finds "x ab" |
| `SearchableModal.LongQueryHidesShortValues` | components/SearchableModal.tsx:45-52 | for a non-blank query, shown items have search values at least as long as the query, spaces included |
| `SearchableModal.SearchableList.constructor` | components/SearchableModal.tsx:41-42 | empty query, and every item shown |
| `SearchableModal.SearchableList.RunFilter` | components/SearchableModal.tsx:44-56 | the shown items become `FilterData` of the data and query |
| `SearchableModal.SearchableList.HandleSearchChange` | components/SearchableModal.tsx:58-61 | the query becomes the text, which is passed on, and the shown items follow it |
| `SearchableModal.SearchableList.HandleSelect` | components/SearchableModal.tsx:63-66 | the item is passed on, the query is cleared and every item is shown again |
| `SearchableModal.SearchableList.SetData` | components/SearchableModal.tsx:44-56 | new data is filtered with the current query |
| `SearchableModal.SearchableList.SetSearchKey` | components/SearchableModal.tsx:44-56 | a new search key re-filters the data with the current query |
| `SearchableModal.SearchableInput.constructor` | components/SearchableModal.tsx:136-137 | the field starts as the `value` prop, or empty when there is none, with the list closed |
| `SearchableModal.SearchableInput.SetValue` | components/SearchableModal.tsx:139-141 | a changed `value` prop resets the field to it, or to empty; an unchanged one leaves what was typed |
| `SearchableModal.SearchableInput.HandleTextChange` | components/SearchableModal.tsx:143-146 | the field holds the typed text, which is passed on |
| `SearchableModal.SearchableInput.SetModalVisible` | components/SearchableModal.tsx:159-166 | only the list's visibility changes |
| `SearchableModal.SearchableInput.SelectItem` | components/SearchableModal.tsx:169-172 | the item is passed on and the list closes; the field is unchanged |
| `FilterModal.WithFilter` | components/FilterModal.tsx:42-44 | the key gets the value, the key set grows by that key at most, and every other key keeps its value |
| `FilterModal.ResetValue` | components/FilterModal.tsx:54-62 | a date range resets to both ends null, a price range to both bounds null, a multi-select to `[]`, and every other kind to null |
| `FilterModal.ResetKeys` | components/FilterModal.tsx:51-65 | after reset the keys are exactly the configured keys |
| `FilterModal.ResetFilters` | components/FilterModal.tsx:51-65 | the filters after reset, each configuration entry in turn assigning its key; `ResetKeys` and `ResetValues` state its keys and values |
| `FilterModal.ResetValues` | components/FilterModal.tsx:53-63 | each key holds the reset value of the last configuration entry with that key |
| `FilterModal.BuildResetFilters` | components/FilterModal.tsx:51-65 | the `forEach` loop builds `ResetFilters` of the configuration |
| `FilterModal.CurrentSelection` | components/FilterModal.tsx:124 | a missing or non-list value reads as the empty selection |
| `FilterModal.ToggleSelection` | components/FilterModal.tsx:124-128 | the option is chosen afterwards exactly when it was not before, and other options keep their membership. A chosen option is removed in an order-preserving way, every other value keeping its number of occurrences; an absent one is appended at the end |
| `FilterModal.ToggleKeepsDistinct` | components/FilterModal.tsx:124-127 | toggling never creates a duplicate |
| `FilterModal.ToggleTwiceRestores` | components/FilterModal.tsx:124-127 | toggling an absent option twice gives the original list back |
| `FilterModal.WithRangeStart` | components/FilterModal.tsx:172 | picking the start keeps the end; with no range yet the end is null |
| `FilterModal.WithRangeEnd` | components/FilterModal.tsx:180 | picking the end keeps the start; with no range yet the start is null |
| `FilterModal.PriceInput` | components/FilterModal.tsx:206 | the parsed bound is null exactly for an unparsable text or zero |
| `FilterModal.WithPriceMin` | components/FilterModal.tsx:206 | typing the minimum keeps the maximum |
| `FilterModal.WithPriceMax` | components/FilterModal.tsx:216 | typing the maximum keeps the minimum |
| `FilterModal.FilterPanel.constructor` | components/FilterModal.tsx:40 | the local filters start as the filters passed in |
| `FilterModal.FilterPanel.HandleFilterChange` | components/FilterModal.tsx:42-44 | the local filters become `WithFilter` of the old ones |
| `FilterModal.FilterPanel.HandleReset` | components/FilterModal.tsx:51-65 | the local filters become the reset filters, whatever they were |
| `FilterModal.FilterPanel.ClearFilter` | components/FilterModal.tsx:81 | 'All' (and a date's clear button) stores null |
| `FilterModal.FilterPanel.ChooseOption` | components/FilterModal.tsx:97 | a select option stores that option |
| `FilterModal.FilterPanel.ToggleOption` | components/FilterModal.tsx:123-129 | a multi-select option stores `ToggleSelection` of the current selection |
| `FilterModal.FilterPanel.ChooseDate` | components/FilterModal.tsx:149 | a single-date filter stores the chosen day |
| `FilterModal.FilterPanel.ChooseRangeStart` | components/FilterModal.tsx:172 | stores `WithRangeStart` of the current value |
| `FilterModal.FilterPanel.ChooseRangeEnd` | components/FilterModal.tsx:180 | stores `WithRangeEnd` of the current value |
| `FilterModal.FilterPanel.ClearDateRange` | components/FilterModal.tsx:188 | clearing sets both ends to null |
| `FilterModal.FilterPanel.TypePriceMin` | components/FilterModal.tsx:206 | stores `WithPriceMin` of the current value |
| `FilterModal.FilterPanel.TypePriceMax` | components/FilterModal.tsx:216 | stores `WithPriceMax` of the current value |
| `FilterModal.FilterPanel.ClearPriceRange` | components/FilterModal.tsx:225 | clearing sets both bounds to null |
| `FilterModal.FilterPanel.TypeText` | components/FilterModal.tsx:240 | a text filter stores the typed text |
| `FilterModal.FilterPanel.HandleApply` | components/FilterModal.tsx:46-49 | the local filters are handed on unchanged, and `onClose` is called |
| `FilterModal.FilterPanel.Cancel` | components/FilterModal.tsx:259-277 | the close icon and the "Cancel" button hand no filters on and call `onClose`; the local edits stay in `localFilters` and are shown again when the sheet reopens, since callers keep it mounted and only toggle `visible` |
| `CalendarDate.NextPrevInverse` | components/DatePicker.tsx:46-48 | a day forward and a day back cancel out |
| `CalendarDate.AddDaysNext` | components/DatePicker.tsx:46-48 | one more day of offset is one more step forward |
| `CalendarDate.AddDaysAdd` | components/DatePicker.tsx:40-48 | day offsets add up |
| `CalendarDate.AddDaysWithinMonth` | components/DatePicker.tsx:38-41 | moving inside a month only changes the day of the month |
| `CalendarDate.MakeDate` | components/DatePicker.tsx:41-48 | the day arithmetic of `setDate` and `setMonth` always gives an existing day, whatever the overflow |
| `CalendarDate.MakeDateOfValid` | components/DatePicker.tsx:41-48 | on an existing day the day arithmetic is the identity |
| `CalendarDate.NewDate` | components/DatePicker.tsx:38-39 | `new Date(y, m, d)` always denotes an existing day, whatever the overflow |
| `CalendarDate.NewDateFirstOfMonth` | components/DatePicker.tsx:38 | `new Date(y, m, 1)` is the 1st of month `m` of `y`, or of 1900 + `y` when `y` is 0 to 99 |
| `CalendarDate.NewDateOfValid` | components/DatePicker.tsx:38 | outside years 0 to 99 the constructor is the identity on an existing day |
| `CalendarDate.NewDateTwoDigitYear` | components/DatePicker.tsx:38 | in years 0 to 99 the constructor moves the 1st of a month to 1900 + year, so it is not the identity there |
| `CalendarDate.SetDate` | components/DatePicker.tsx:41-48 | `setDate(n)` always gives an existing day; `SetDateMoves` states which one |
| `CalendarDate.SetMonth` | components/DatePicker.tsx:59 | `setMonth(m)` always gives an existing day; `NavigateKeepsDay` and `NavigateOverflows` state which one |
| `CalendarDate.SetDateMoves` | components/DatePicker.tsx:40-48 | `setDate(getDate() + k)` moves `k` days, across month and year ends |
| `CalendarDate.LastDayOfMonth` | components/DatePicker.tsx:39 | `new Date(y, m + 1, 0)` is the last day of month `m` of the constructor's year |
| `CalendarDate.Weekday` | components/DatePicker.tsx:41 | `getDay()` is between 0 (Sunday) and 6 |
| `CalendarDate.WeekdayAnchors` | components/DatePicker.tsx:41 | `getDay()` gives 4 (Thursday) for 1 January 1970 and 0 (Sunday) for 1 January 2023; with `WeekdayNext` this fixes every weekday |
| `CalendarDate.YearLength` | components/DatePicker.tsx:41 | a year has 366 days when leap and 365 otherwise |
| `CalendarDate.DayNumberNext` | components/DatePicker.tsx:46-48 | the next day's day number is one more |
| `CalendarDate.DayNumberAddDays` | components/DatePicker.tsx:40-48 | moving `n` days moves the day number by `n` |
| `CalendarDate.WeekdayNext` | components/DatePicker.tsx:46-48 | the weekday advances by one each day, Saturday wrapping to Sunday |
| `DatePicker.GenerateCalendarDays` | components/DatePicker.tsx:35-52 | exactly 42 dates, cell `i` holding `GridDay` of the date's month in the constructor's year (1900 + year for years 0 to 99) |
| `DatePicker.TwoDigitYearGrid` | components/DatePicker.tsx:36-38 | a shown date in a year from 0 to 99 puts the 1st of that month of 1900 + year into the grid |
| `DatePicker.GridConsecutive` | components/DatePicker.tsx:46-48 | every cell after the first holds the day after its predecessor |
| `DatePicker.GridDayNumber` | components/DatePicker.tsx:43-49 | cell `i` is `i` days after the first cell |
| `DatePicker.GridStartsOnSunday` | components/DatePicker.tsx:38-41 | the first cell is a Sunday, 0 to 6 days before the 1st |
| `DatePicker.MonthInGrid` | components/DatePicker.tsx:38-49 | day `d` of the month sits in cell weekday-of-the-1st + d - 1, inside the 42 cells |
| `DatePicker.GridDistinct` | components/DatePicker.tsx:46-48 | different cells hold different days |
| `DatePicker.IsSelected` | components/DatePicker.tsx:73-75 | `isSelected` is equality of calendar days (`toDateString` equality) |
| `DatePicker.AtMostOneSelected` | components/DatePicker.tsx:73-75 | at most one cell is marked selected |
| `DatePicker.IsCurrentMonth` | components/DatePicker.tsx:77-79 | `isCurrentMonth` compares the month index only, not the year |
| `DatePicker.CurrentMonthMeansSameMonth` | components/DatePicker.tsx:77-79 | in the grid shown for a month, equal month index means the grid's own year and month |
| `DatePicker.GridMonthIndex` | components/DatePicker.tsx:77-79 | a grid cell with the grid's month index lies in the grid's own year |
| `DatePicker.NavigateMonth` | components/DatePicker.tsx:57-61 | navigation always gives an existing day; the three lemmas below state which |
| `DatePicker.NavigateFromTarget` | components/DatePicker.tsx:57-61 | navigation counts the kept day from the 1st of the month aimed at |
| `DatePicker.NavigateKeepsDay` | components/DatePicker.tsx:57-61 | when the day exists in the month aimed at, navigation lands on it, with the year carried |
| `DatePicker.NavigateOverflows` | components/DatePicker.tsx:57-61 | otherwise it rolls over into the following month by the overshoot |
| `DatePicker.PrevFromMarch31` | components/DatePicker.tsx:57-61 | 'prev' from 31 March 2023 lands on 3 March 2023 |
| `DatePicker.DatePickerState.constructor` | components/DatePicker.tsx:54 | the shown month starts as a copy of the value, with the calendar closed |
| `DatePicker.DatePickerState.SetShowPicker` | components/DatePicker.tsx:85 | only the calendar's visibility changes |
| `DatePicker.DatePickerState.SetValue` | components/DatePicker.tsx:54 | a new value does not move the shown month |
| `DatePicker.DatePickerState.Navigate` | components/DatePicker.tsx:57-61 | the shown month becomes `NavigateMonth` of the old one |
| `DatePicker.DatePickerState.SelectDate` | components/DatePicker.tsx:63-66 | the date is passed on and the calendar closes |
| `DatePicker.DatePickerState.CalendarDays` | components/DatePicker.tsx:55 | the grid of the shown month, in the constructor's year |

## Left out

- Data-store I/O is not modelled: creating the client, fetching the products and customers, and the customer insert. Fetched rows arrive through `SetProducts` and `SetCustomers`. The insert is a function parameter that returns success or failure.
- Rendering is not modelled: JSX, styles, `Modal` and `FlatList` behaviour, `Alert`, `console`, and loading flags. Effect timing is not modelled either: each effect runs right after the state change it depends on.
- Floating point is not modelled. Prices are exact reals, and `toFixed(2)`, `Number.toString` and `parseFloat` are function parameters. NaN and rounding are out of scope.
- `toLowerCase` only lowercases ASCII capitals. Unicode and locale case mapping, such as Turkish dotted and dotless i, are not modelled.
- `Date` is modelled on whole calendar days. Time of day, time zones, daylight-saving shifts and `toLocaleDateString` are not modelled, and `toDateString` equality is equality of days.
- `isToday` reads the clock, so it is not modelled; it is the same comparison as `isSelected`, against today.
- CalendarDate.NewDate: JavaScript's `Date` range (100,000,000 days either side of 1 January 1970, an Invalid Date beyond) is not modelled; years are unbounded. The same holds for `CalendarDate.MakeDate`, `SetDate` and `SetMonth`.
- FilterModal.CurrentSelection: a truthy stored value that is not a list reads as the empty selection. In JavaScript `value || []` keeps such a value: `includes` then throws for an object or a date, and a non-empty string is searched as text and spread into its characters. This error path is not modelled.
- DatePicker.GenerateCalendarDays: does not compute `lastDay`. The source computes it and never uses it; `CalendarDate.LastDayOfMonth` states what it would be.
- `null` and `undefined` are both `None`. A missing key in the filters is also `None`, and a stored `null` is `Null`.
- A search key given as a property name is modelled as a projection function.
- Spreading a filter value of another kind into a date range or price range is modelled as spreading nothing.
- The product picker's `handleProductSelect` only calls the parent's `onSelect` and `onClose`, so it is not modelled. The customer picker's `handleCustomerSelect` is modelled inside `CreateNewCustomer`, its two calls as the `selected` and `closes` out-parameters.
