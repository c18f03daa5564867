/** The header's search combobox: it keeps the typed text, turns search
    results into menu options (one per game plus "Show more results..."),
    and navigates on Enter or on selecting an option. The 500 ms debounce in
    front of the search is not modelled; only the debounced function's body
    is. */
module SearchBar {
  import opened Json
  import opened Text
  import opened Platform
  import opened Types

  const ShowMoreLabel := "Show more results..."
  const NavigateError := "Error on navigate."
  const DisplayError := "Failed to display results."

  /** A menu option: a search result's fields (absent for the synthetic
      entry) plus the divider flag, the label and the target URL. */
  datatype SelectOption = SelectOption(game: Option<GameSearchResult>, isDivider: bool, labelText: Option<string>, url: Option<string>)

  /** What react-select passes to `onChange`: one option or none, or (in
      multi mode, never used here) a list. */
  datatype Selection = Single(choice: Option<SelectOption>) | Multi(choices: seq<SelectOption>)

  /** The `action` of react-select's `onInputChange`. */
  datatype InputAction = SetValue | InputChange | InputBlur | MenuClose

  /** `/search?q=${encodeURIComponent(text)}`: the query value can never be
      cut short by `&` or `#`. */
  function SearchUrl(text: string): (url: string)
    ensures |url| >= 10 && url[..10] == "/search?q="
    ensures forall i :: 10 <= i < |url| ==> Unreserved(url[i]) || url[i] == '%'
  {
    "/search?q=" + EncodeURIComponent(text)
  }

  function ResultOption(r: GameSearchResult): SelectOption
  {
    SelectOption(Some(r), true, r.name, Some(GameUrl(r.id)))
  }

  function ShowMore(text: string): SelectOption
  {
    SelectOption(None, false, Some(ShowMoreLabel), Some(SearchUrl(text)))
  }

  /** The options built from a search: one divider option per result, in
      order, linking to the game, then exactly one non-divider entry "Show
      more results..." linking to the full search. */
  function BuildOptions(text: string, results: seq<GameSearchResult>): (opts: seq<SelectOption>)
    ensures |opts| == |results| + 1
    ensures forall i :: 0 <= i < |results| ==>
      opts[i].game == Some(results[i]) && opts[i].labelText == results[i].name && opts[i].url == Some(GameUrl(results[i].id))
    ensures forall i :: 0 <= i < |opts| ==> (opts[i].isDivider <==> i < |results|)
    ensures opts[|results|] == ShowMore(text)
  {
    if results == [] then [ShowMore(text)]
    else
      var rest := BuildOptions(text, results[1..]);
      var opts := [ResultOption(results[0])] + rest;
      assert forall i :: 1 <= i < |opts| ==> opts[i] == rest[i - 1];
      opts
  }

  /** What selecting `sel` does: navigate to the option's URL when it has
      one, otherwise show an error toast and stay. */
  function ChangeEffects(sel: Selection): (es: seq<Event>)
    ensures |es| == 1
    ensures es[0].Navigated? <==> sel.Single? && sel.choice.Some? && sel.choice.value.url.Some?
    ensures es[0].Navigated? ==> es[0].to == sel.choice.value.url.value
    ensures !es[0].Navigated? ==> es[0] == ToastError(JString(NavigateError))
  {
    if sel.Single? && sel.choice.Some? && sel.choice.value.url.Some? then
      [Navigated(sel.choice.value.url.value)]
    else
      [ToastError(JString(NavigateError))]
  }

  /** What a key press does: Enter always prevents the default and closes the
      menu, and navigates to the full search exactly when the text is not
      blank; other keys do nothing. */
  function KeyDownEffects(key: string, text: string): (es: seq<Event>)
    ensures key != "Enter" ==> es == []
    ensures key == "Enter" ==> |es| >= 2 && es[..2] == [DefaultPrevented, MenuBlurred]
    ensures key == "Enter" ==> (|es| == 3 <==> !AllWhitespace(text)) && |es| <= 3
    ensures |es| == 3 ==> es[2] == Navigated(SearchUrl(text))
  {
    TrimEmpty(text);
    if key != "Enter" then []
    else if Trim(text) != [] then [DefaultPrevented, MenuBlurred, Navigated(SearchUrl(text))]
    else [DefaultPrevented, MenuBlurred]
  }

  /** What one run of the debounced fetch does: its events, the options it
      stores (`None`: `setOptions` not called) and what it hands to the
      callback (`None`: the callback is never called). */
  datatype FetchOutcome = FetchOutcome(events: seq<Event>, stored: Option<seq<SelectOption>>, delivered: Option<seq<SelectOption>>)

  function FetchOptions(text: string, response: SearchResponse): (o: FetchOutcome)
    // blank text: no request, the menu is emptied at once
    ensures AllWhitespace(text) ==> o == FetchOutcome([], None, Some([]))
    // otherwise one search for the encoded text goes out first
    ensures !AllWhitespace(text) ==> o.events != [] && o.events[0] == SearchIssued(EncodeURIComponent(text), None, None)
    // failure or a falsy answer: empty menu and an error toast
    ensures !AllWhitespace(text) && (response.SearchThrew? || response.data.None?) ==>
      o.events == [SearchIssued(EncodeURIComponent(text), None, None), ToastError(JString(DisplayError))]
      && o.stored.None? && o.delivered == Some([])
    // an answer: the one search and no toast
    ensures !AllWhitespace(text) && response.Resolved? && response.data.Some? ==>
      o.events == [SearchIssued(EncodeURIComponent(text), None, None)]
    // results: the same options are stored and delivered
    ensures o.stored.Some? ==> o.delivered == o.stored && |o.stored.value| >= 1
    ensures o.stored.Some? <==>
      !AllWhitespace(text) && response.Resolved? && response.data.Some? && response.data.value.results.Some?
    ensures o.stored.Some? ==> o.stored.value == BuildOptions(text, response.data.value.results.value)
    // an answer without `results`: neither the options nor the callback are touched
    ensures !AllWhitespace(text) && response.Resolved? && response.data.Some? && response.data.value.results.None? ==>
      o.stored.None? && o.delivered.None?
  {
    TrimEmpty(text);
    var search := SearchIssued(EncodeURIComponent(text), None, None);
    if Trim(text) == [] then FetchOutcome([], None, Some([]))
    else if response.SearchThrew? || response.data.None? then
      FetchOutcome([search, ToastError(JString(DisplayError))], None, Some([]))
    else if response.data.value.results.Some? then
      var opts := BuildOptions(text, response.data.value.results.value);
      FetchOutcome([search], Some(opts), Some(opts))
    else
      FetchOutcome([search], None, None)
  }

  class Combobox {
    var inputValue: string
    var option: Option<SelectOption>
    var options: seq<SelectOption>

    constructor ()
      ensures inputValue == [] && option.None? && options == []
    {
      inputValue := [];
      option := None;
      options := [];
    }

    /** The effect keyed on `window.location`, whose identity never changes,
        so it runs once, at mount: the selected option is cleared, the typed
        text stays. */
    method MountEffect()
      modifies this
      ensures option.None? && inputValue == old(inputValue) && options == old(options)
    {
      option := None;
    }

    /** `handleChange`. */
    method HandleChange(sel: Selection, browser: Browser)
      modifies browser
      ensures browser.trace == old(browser.trace) + ChangeEffects(sel)
      ensures browser.responses == old(browser.responses)
    {
      if sel.Single? && sel.choice.Some? && sel.choice.value.url.Some? {
        browser.Emit(Navigated(sel.choice.value.url.value));
      } else {
        browser.Emit(ToastError(JString(NavigateError)));
      }
    }

    /** `handleInputChange`: the text follows every input action except
        blur and menu-close; the options are emptied when the text held
        before this call (not the incoming one) is blank. */
    method HandleInputChange(input: string, action: InputAction)
      modifies this
      ensures inputValue == if action == InputBlur || action == MenuClose then old(inputValue) else input
      ensures options == if AllWhitespace(old(inputValue)) then [] else old(options)
      ensures option == old(option)
    {
      var previous := inputValue;
      if action != InputBlur && action != MenuClose {
        inputValue := input;
      }
      TrimEmpty(previous);
      if Trim(previous) == [] {
        options := [];
      }
    }

    /** `handleKeyDown`. */
    method HandleKeyDown(key: string, browser: Browser)
      modifies browser
      ensures browser.trace == old(browser.trace) + KeyDownEffects(key, inputValue)
      ensures browser.responses == old(browser.responses)
    {
      ghost var es := KeyDownEffects(key, inputValue);
      if key == "Enter" {
        browser.Emit(DefaultPrevented);
        browser.Emit(MenuBlurred);
        AppendPair(old(browser.trace), DefaultPrevented, MenuBlurred);
        if Trim(inputValue) != [] {
          assert es == [DefaultPrevented, MenuBlurred] + [Navigated(SearchUrl(inputValue))];
          browser.Emit(Navigated(SearchUrl(inputValue)));
          AppendAssoc(old(browser.trace), [DefaultPrevented, MenuBlurred], [Navigated(SearchUrl(inputValue))]);
        } else {
          assert es == [DefaultPrevented, MenuBlurred];
        }
      } else {
        assert es == [];
      }
    }

    /** The body of `debouncedFetchGameData(text, callback)`; the result is
        what the callback receives. */
    method FetchGameData(text: string, response: SearchResponse, browser: Browser)
      returns (delivered: Option<seq<SelectOption>>)
      modifies this, browser
      ensures var o := FetchOptions(text, response);
        && delivered == o.delivered
        && browser.trace == old(browser.trace) + o.events
        && options == (if o.stored.Some? then o.stored.value else old(options))
      ensures browser.responses == old(browser.responses)
      ensures inputValue == old(inputValue) && option == old(option)
    {
      ghost var o := FetchOptions(text, response);
      var search := SearchIssued(EncodeURIComponent(text), None, None);
      TrimEmpty(text);
      if Trim(text) == [] {
        assert o == FetchOutcome([], None, Some([]));
        return Some([]);
      }
      browser.Emit(search);
      if response.SearchThrew? || response.data.None? {
        assert o == FetchOutcome([search, ToastError(JString(DisplayError))], None, Some([]));
        browser.Emit(ToastError(JString(DisplayError)));
        AppendPair(old(browser.trace), search, ToastError(JString(DisplayError)));
        return Some([]);
      }
      var data := response.data.value;
      if data.results.Some? {
        var searchOptions := BuildOptions(text, data.results.value);
        assert o == FetchOutcome([search], Some(searchOptions), Some(searchOptions));
        options := searchOptions;
        return Some(searchOptions);
      }
      assert o == FetchOutcome([search], None, None);
      return None;
    }
  }
}
