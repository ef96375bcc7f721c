/**
 * The selection state of the reusable search dropdown
 * (src/shared/components/SearchDropdown.js): the filtered list, the
 * highlighted row, visibility and the selected item. The DOM it renders is
 * not modelled; `onFilter` results are passed in, and the callback
 * `onSelect` is the item a handler returns.
 */
module Dropdown {
  import opened Wrappers
  import CsvLines

  /** The keys `handleKeydown` distinguishes; `Other` is any other key. */
  datatype Key = ArrowDown | ArrowUp | Enter | Escape | Other

  /** `Math.min(index + 1, length - 1)`: one row down, stopping at the last row. */
  function ClampDown(index: int, length: nat): (r: int)
    requires -1 <= index < length
    ensures -1 <= r < length
    ensures index < length - 1 ==> r == index + 1
    ensures index == length - 1 ==> r == index
  {
    if index + 1 < length - 1 then index + 1 else length - 1
  }

  /** `Math.max(index - 1, -1)`: one row up, stopping at "no row". */
  function ClampUp(index: int): (r: int)
    requires index >= -1
    ensures -1 <= r <= index
    ensures index >= 0 ==> r == index - 1
    ensures index == -1 ==> r == -1
  {
    if index - 1 > -1 then index - 1 else -1
  }

  /** The highlight after pressing ArrowDown `n` times. */
  function DownTimes(index: int, length: nat, n: nat): int
    requires -1 <= index < length
    decreases n
  {
    if n == 0 then index else DownTimes(ClampDown(index, length), length, n - 1)
  }

  /** The highlight after pressing ArrowUp `n` times. */
  function UpTimes(index: int, n: nat): int
    requires index >= -1
  {
    if n == 0 then index else UpTimes(ClampUp(index), n - 1)
  }

  /** Repeated ArrowDown walks down one row per press and stays on the last row: there is no wrap-around. */
  lemma {:induction false} DownTimesClamps(index: int, length: nat, n: nat)
    requires -1 <= index < length
    ensures DownTimes(index, length, n) == if index + n < length - 1 then index + n else length - 1
    decreases n
  {
    if n > 0 {
      DownTimesClamps(ClampDown(index, length), length, n - 1);
    }
  }

  /** Repeated ArrowUp walks up one row per press and stays at -1 (no row). */
  lemma {:induction false} UpTimesClamps(index: int, n: nat)
    requires index >= -1
    ensures UpTimes(index, n) == if index - n > -1 then index - n else -1
  {
    if n > 0 {
      UpTimesClamps(ClampUp(index), n - 1);
    }
  }

  /** ArrowUp undoes ArrowDown except on the last row, and ArrowDown undoes ArrowUp except at -1. */
  lemma ArrowKeysUndo(index: int, length: nat)
    requires -1 <= index < length
    ensures index < length - 1 ==> ClampUp(ClampDown(index, length)) == index
    ensures index >= 0 ==> ClampDown(ClampUp(index), length) == index
  {
  }

  /** `items.slice(0, maxResults)`; a negative bound counts from the end. */
  function Truncate<T>(items: seq<T>, maxResults: int): (r: seq<T>)
    ensures |r| == if maxResults >= 0 then (if maxResults < |items| then maxResults else |items|)
                   else (if |items| + maxResults > 0 then |items| + maxResults else 0)
    ensures r == items[..|r|]
  {
    if maxResults >= 0 then
      if maxResults < |items| then items[..maxResults] else items
    else if |items| + maxResults > 0 then items[..|items| + maxResults]
    else []
  }

  /** The default `maxResults`. */
  const DefaultMaxResults := 50

  class SearchDropdown<T> {
    /** `options.maxResults`, 50 when the option is absent. */
    const maxResults: int
    /** `options.getDisplayValue`, or `toString` when absent. */
    const displayValue: T -> string

    var filteredItems: seq<T>
    var highlightedIndex: int
    var selectedItem: Option<T>
    var isVisible: bool
    /** The text in the input box. */
    var inputValue: string
    /** The query of the debounce timer that is running, if any. */
    var pendingQuery: Option<string>

    /** The highlight is a row of the list, or -1 for none. */
    predicate Valid()
      reads this
    {
      -1 <= highlightedIndex < |filteredItems|
    }

    constructor(maxResults: Option<int>, displayValue: T -> string)
      ensures Valid()
      ensures this.maxResults == maxResults.GetOr(DefaultMaxResults) && this.displayValue == displayValue
      ensures filteredItems == [] && highlightedIndex == -1 && selectedItem == None && !isVisible
      ensures inputValue == "" && pendingQuery == None
    {
      this.maxResults := maxResults.GetOr(DefaultMaxResults);
      this.displayValue := displayValue;
      filteredItems := [];
      highlightedIndex := -1;
      selectedItem := None;
      isVisible := false;
      inputValue := "";
      pendingQuery := None;
    }

    /** `show()`. */
    method Show()
      requires Valid()
      modifies this
      ensures Valid()
      ensures isVisible
      ensures filteredItems == old(filteredItems) && highlightedIndex == old(highlightedIndex)
      ensures selectedItem == old(selectedItem) && inputValue == old(inputValue) && pendingQuery == old(pendingQuery)
    {
      isVisible := true;
    }

    /** `hide()`: invisible and nothing highlighted. */
    method Hide()
      requires Valid()
      modifies this
      ensures Valid()
      ensures !isVisible && highlightedIndex == -1
      ensures filteredItems == old(filteredItems)
      ensures selectedItem == old(selectedItem) && inputValue == old(inputValue) && pendingQuery == old(pendingQuery)
    {
      isVisible := false;
      highlightedIndex := -1;
    }

    /** `selectItem(item)`: remember the item, show its display value, hide; the caller gets `onSelect(item)`. */
    method SelectItem(item: T)
      requires Valid()
      modifies this
      ensures Valid()
      ensures selectedItem == Some(item) && inputValue == displayValue(item)
      ensures !isVisible && highlightedIndex == -1
      ensures filteredItems == old(filteredItems) && pendingQuery == old(pendingQuery)
    {
      selectedItem := Some(item);
      inputValue := displayValue(item);
      Hide();
    }

    /** `clear()`: empty input, no selection, hidden. */
    method Clear()
      requires Valid()
      modifies this
      ensures Valid()
      ensures inputValue == "" && selectedItem == None
      ensures !isVisible && highlightedIndex == -1
      ensures filteredItems == old(filteredItems) && pendingQuery == old(pendingQuery)
    {
      inputValue := "";
      selectedItem := None;
      Hide();
    }

    /**
     * `handleKeydown(e)`: nothing happens while hidden or empty; the arrows
     * move the highlight without wrapping, Enter selects the highlighted
     * row if there is one, Escape hides. Returns the item passed to `onSelect`.
     */
    method HandleKeydown(key: Key) returns (selected: Option<T>)
      requires Valid()
      modifies this
      ensures Valid()
      ensures filteredItems == old(filteredItems) && pendingQuery == old(pendingQuery)
      ensures !old(isVisible) || old(|filteredItems|) == 0 ==>
        selected == None && isVisible == old(isVisible) && highlightedIndex == old(highlightedIndex) &&
        selectedItem == old(selectedItem) && inputValue == old(inputValue)
      ensures old(isVisible) && old(|filteredItems|) > 0 ==>
        match key
        case ArrowDown =>
          selected == None && isVisible && highlightedIndex == ClampDown(old(highlightedIndex), |filteredItems|) &&
          selectedItem == old(selectedItem) && inputValue == old(inputValue)
        case ArrowUp =>
          selected == None && isVisible && highlightedIndex == ClampUp(old(highlightedIndex)) &&
          selectedItem == old(selectedItem) && inputValue == old(inputValue)
        case Enter =>
          if old(highlightedIndex) >= 0 then
            var item := filteredItems[old(highlightedIndex)];
            selected == Some(item) && selectedItem == selected && inputValue == displayValue(item) &&
            !isVisible && highlightedIndex == -1
          else
            selected == None && isVisible && highlightedIndex == -1 &&
            selectedItem == old(selectedItem) && inputValue == old(inputValue)
        case Escape =>
          selected == None && !isVisible && highlightedIndex == -1 &&
          selectedItem == old(selectedItem) && inputValue == old(inputValue)
        case Other =>
          selected == None && isVisible && highlightedIndex == old(highlightedIndex) &&
          selectedItem == old(selectedItem) && inputValue == old(inputValue)
    {
      selected := None;
      if !isVisible || |filteredItems| == 0 {
        return;
      }
      match key {
        case ArrowDown =>
          highlightedIndex := ClampDown(highlightedIndex, |filteredItems|);
        case ArrowUp =>
          highlightedIndex := ClampUp(highlightedIndex);
        case Enter =>
          if highlightedIndex >= 0 {
            var item := filteredItems[highlightedIndex];
            SelectItem(item);
            selected := Some(item);
          }
        case Escape =>
          Hide();
        case Other =>
      }
    }

    /** The `mouseenter` listener of row `index`. */
    method MouseEnter(index: nat)
      requires Valid() && index < |filteredItems|
      modifies this
      ensures Valid()
      ensures highlightedIndex == index
      ensures filteredItems == old(filteredItems) && isVisible == old(isVisible)
      ensures selectedItem == old(selectedItem) && inputValue == old(inputValue) && pendingQuery == old(pendingQuery)
    {
      highlightedIndex := index;
    }

    /** The `click` listener of row `index`: selects that row's item. */
    method ClickItem(index: nat) returns (selected: T)
      requires Valid() && index < |filteredItems|
      modifies this
      ensures Valid()
      ensures selected == old(filteredItems[index]) && selectedItem == Some(selected)
      ensures inputValue == displayValue(selected) && !isVisible && highlightedIndex == -1
      ensures filteredItems == old(filteredItems) && pendingQuery == old(pendingQuery)
    {
      selected := filteredItems[index];
      SelectItem(selected);
    }

    /**
     * `performSearch(query)` with `results` the value of `onFilter(query)`,
     * `None` when it throws: an empty query hides; otherwise the list becomes
     * the results cut to `maxResults`, nothing is highlighted, and the
     * dropdown shows exactly when the list is non-empty. When `onFilter`
     * throws, the error message is shown over the old list.
     */
    method PerformSearch(query: string, results: Option<seq<T>>)
      requires Valid()
      modifies this
      ensures Valid()
      ensures selectedItem == old(selectedItem) && inputValue == old(inputValue) && pendingQuery == old(pendingQuery)
      ensures query == "" ==>
        filteredItems == old(filteredItems) && !isVisible && highlightedIndex == -1
      ensures query != "" && results.Some? ==>
        filteredItems == Truncate(results.value, maxResults) && highlightedIndex == -1 && isVisible == (filteredItems != [])
      ensures query != "" && results.None? ==>
        filteredItems == old(filteredItems) && highlightedIndex == old(highlightedIndex) && isVisible
    {
      if query == "" {
        Hide();
        return;
      }
      if results.None? {
        Show();
        return;
      }
      filteredItems := Truncate(results.value, maxResults);
      highlightedIndex := -1;
      if |filteredItems| > 0 {
        Show();
      } else {
        Hide();
      }
    }

    /** `handleInput(e)`: restart the debounce timer with the trimmed input. */
    method HandleInput(value: string)
      requires Valid()
      modifies this
      ensures Valid()
      ensures inputValue == value && pendingQuery == Some(CsvLines.Trim(value))
      ensures filteredItems == old(filteredItems) && highlightedIndex == old(highlightedIndex)
      ensures isVisible == old(isVisible) && selectedItem == old(selectedItem)
    {
      inputValue := value;
      pendingQuery := Some(CsvLines.Trim(value));
    }

    /** The debounce timer fires: search for the pending query; `results` is what `onFilter` gives for it. */
    method DebounceElapsed(results: Option<seq<T>>)
      requires Valid() && pendingQuery.Some?
      modifies this
      ensures Valid()
      ensures pendingQuery == None && selectedItem == old(selectedItem) && inputValue == old(inputValue)
      ensures old(pendingQuery.value) == "" ==>
        filteredItems == old(filteredItems) && !isVisible && highlightedIndex == -1
      ensures old(pendingQuery.value) != "" && results.Some? ==>
        filteredItems == Truncate(results.value, maxResults) && highlightedIndex == -1 && isVisible == (filteredItems != [])
      ensures old(pendingQuery.value) != "" && results.None? ==>
        filteredItems == old(filteredItems) && highlightedIndex == old(highlightedIndex) && isVisible
    {
      var query := pendingQuery.value;
      pendingQuery := None;
      PerformSearch(query, results);
    }

    /** `handleFocus(e)`: show again when the input has text and there are results. */
    method HandleFocus()
      requires Valid()
      modifies this
      ensures Valid()
      ensures isVisible == (old(isVisible) || (!CsvLines.IsBlank(inputValue) && |filteredItems| > 0))
      ensures filteredItems == old(filteredItems) && highlightedIndex == old(highlightedIndex)
      ensures selectedItem == old(selectedItem) && inputValue == old(inputValue) && pendingQuery == old(pendingQuery)
    {
      if CsvLines.Trim(inputValue) != "" && |filteredItems| > 0 {
        Show();
      }
    }

    /** The blur timer fires: hide unless the focus moved into the dropdown. */
    method BlurElapsed(focusInDropdown: bool)
      requires Valid()
      modifies this
      ensures Valid()
      ensures !focusInDropdown ==> !isVisible && highlightedIndex == -1
      ensures focusInDropdown ==> isVisible == old(isVisible) && highlightedIndex == old(highlightedIndex)
      ensures filteredItems == old(filteredItems)
      ensures selectedItem == old(selectedItem) && inputValue == old(inputValue) && pendingQuery == old(pendingQuery)
    {
      if !focusInDropdown {
        Hide();
      }
    }

    /** A click anywhere in the document: hide unless it was on the input or the dropdown. */
    method DocumentClick(onInputOrDropdown: bool)
      requires Valid()
      modifies this
      ensures Valid()
      ensures !onInputOrDropdown ==> !isVisible && highlightedIndex == -1
      ensures onInputOrDropdown ==> isVisible == old(isVisible) && highlightedIndex == old(highlightedIndex)
      ensures filteredItems == old(filteredItems)
      ensures selectedItem == old(selectedItem) && inputValue == old(inputValue) && pendingQuery == old(pendingQuery)
    {
      if !onInputOrDropdown {
        Hide();
      }
    }
  }
}
