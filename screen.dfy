/** The screen of `MainActivity`: the text of the input field, the text
    and visibility of the suggestion view, and the last message shown as a
    toast. The button handlers are the methods SuggestMeal and ResetApp. */
module Screen {
  import opened Wrappers
  import opened Text
  import opened Meal

  const ResetToast: string := "App reset"

  class MainActivity {
    /** Text of the `timeInput` field. */
    var timeInput: string
    /** `suggestionOutput.text`. */
    var suggestionText: string
    /** `suggestionOutput.visibility == View.VISIBLE` (else `View.GONE`). */
    var suggestionVisible: bool
    /** Message of the last toast shown, if any. */
    var toast: Option<string>

    /** The suggestion view only ever holds a table suggestion or nothing,
        and is shown only while it holds a suggestion. */
    ghost predicate Valid()
      reads this
    {
      (suggestionText == "" || IsSuggestion(suggestionText)) &&
      (suggestionVisible ==> IsSuggestion(suggestionText))
    }

    /** The screen as created: empty field, empty and hidden suggestion. */
    constructor ()
      ensures Valid()
      ensures timeInput == "" && suggestionText == "" && !suggestionVisible && toast == None
    {
      timeInput := "";
      suggestionText := "";
      suggestionVisible := false;
      toast := None;
    }

    /** The user edits the input field. */
    method EnterText(text: string)
      modifies this`timeInput
      ensures Valid() == old(Valid())
      ensures timeInput == text
    {
      timeInput := text;
    }

    /** displaySuggestion: show the given text. Private in the app, where
        its one caller passes a string of the table. */
    method DisplaySuggestion(suggestion: string)
      requires IsSuggestion(suggestion)
      modifies this`suggestionText, this`suggestionVisible
      ensures Valid()
      ensures suggestionText == suggestion && suggestionVisible
    {
      suggestionText := suggestion;
      suggestionVisible := true;
    }

    /** showError: toast the message and hide the suggestion view, whose
        text is left as it was. */
    method ShowError(message: string)
      modifies this`suggestionVisible, this`toast
      ensures old(Valid()) ==> Valid()
      ensures !suggestionVisible && toast == Some(message)
    {
      toast := Some(message);
      suggestionVisible := false;
    }

    /** suggestMeal, the handler of the Suggest button. */
    method SuggestMeal()
      modifies this`suggestionText, this`suggestionVisible, this`toast
      ensures old(Valid()) ==> Valid()
      ensures timeInput == old(timeInput)
      ensures Resolve(timeInput).Suggested? ==>
        suggestionText == Resolve(timeInput).suggestion && suggestionVisible && toast == old(toast)
      ensures Resolve(timeInput).Rejected? ==>
        suggestionText == old(suggestionText) && !suggestionVisible &&
        toast == Some(Message(Resolve(timeInput).error))
    {
      var inputText := Normalize(timeInput);
      if inputText == [] {
        ShowError(EmptyInputMessage);
        return;
      }
      var suggestion := Lookup(inputText);
      if suggestion.None? {
        ShowError(InvalidTimeMessage);
        return;
      }
      LookupFindsKeys(inputText);
      DisplaySuggestion(suggestion.value);
    }

    /** resetApp, the handler of the Reset button. */
    method ResetApp()
      modifies this
      ensures Valid()
      ensures timeInput == "" && suggestionText == "" && !suggestionVisible
      ensures toast == Some(ResetToast)
    {
      timeInput := "";
      suggestionText := "";
      suggestionVisible := false;
      toast := Some(ResetToast);
    }
  }

  /** Pressing Reset twice leaves the screen as pressing it once did. */
  method ResetTwice(screen: MainActivity)
    returns (once: (string, string, bool, Option<string>))
    modifies screen
    ensures once == ("", "", false, Some(ResetToast))
    ensures (screen.timeInput, screen.suggestionText, screen.suggestionVisible, screen.toast) == once
  {
    screen.ResetApp();
    once := (screen.timeInput, screen.suggestionText, screen.suggestionVisible, screen.toast);
    screen.ResetApp();
  }

  /** "afternoon", then Suggest, shows lunch. */
  method AfternoonScenario() returns (text: string, visible: bool)
    ensures text == "Lunch: Grilled chicken sandwich with side salad" && visible
  {
    var screen := new MainActivity();
    screen.EnterText("afternoon");
    ResolveAfternoon();
    screen.SuggestMeal();
    text, visible := screen.suggestionText, screen.suggestionVisible;
  }

  /** An empty field, then Suggest, toasts the prompt and
      shows nothing. */
  method EmptyScenario() returns (toast: Option<string>, visible: bool)
    ensures toast == Some("Please enter a time of day") && !visible
  {
    var screen := new MainActivity();
    ResolveBlank();
    screen.SuggestMeal();
    toast, visible := screen.toast, screen.suggestionVisible;
  }

  /** "brunch", then Suggest, toasts the list of accepted
      values and shows nothing. */
  method UnknownScenario() returns (toast: Option<string>, visible: bool)
    ensures toast == Some(InvalidTimeMessage) && !visible
  {
    var screen := new MainActivity();
    screen.EnterText("brunch");
    ResolveBrunch();
    screen.SuggestMeal();
    toast, visible := screen.toast, screen.suggestionVisible;
  }

  /** "dinner", Suggest, then Reset: the field is empty and
      the suggestion hidden and cleared. */
  method DinnerResetScenario() returns (input: string, text: string, visible: bool)
    ensures input == "" && text == "" && !visible
  {
    var screen := new MainActivity();
    screen.EnterText("dinner");
    ResolveDinner();
    screen.SuggestMeal();
    assert screen.suggestionVisible;
    screen.ResetApp();
    input, text, visible := screen.timeInput, screen.suggestionText, screen.suggestionVisible;
  }

  /** A rejected input after a suggestion hides the view but leaves the
      earlier suggestion in it, unlike Reset. */
  method StaleTextScenario() returns (text: string, visible: bool)
    ensures text == "Lunch: Grilled chicken sandwich with side salad" && !visible
  {
    var screen := new MainActivity();
    screen.EnterText("afternoon");
    ResolveAfternoon();
    screen.SuggestMeal();
    screen.EnterText("brunch");
    ResolveBrunch();
    screen.SuggestMeal();
    text, visible := screen.suggestionText, screen.suggestionVisible;
  }
}
