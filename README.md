# Meal helper: a Dafny model of the suggestion screen

The app has a single Android screen, `MainActivity`. The user types a time
of day and presses Suggest. The text is trimmed and lower-cased. Empty text
is rejected with "Please enter a time of day". One of six keys (`morning`,
`mid-morning`, `afternoon`, `mid-afternoon`, `dinner`, `after dinner`)
selects a fixed meal suggestion. Any other text is rejected with
"Invalid time. Try: Morning, Mid-morning, Afternoon, Mid-afternoon, Dinner,
After dinner". A success shows the suggestion. A rejection shows a toast and
hides the suggestion view, but leaves that view's text as it was. Reset
clears the field and the suggestion, hides the view and toasts "App reset".

The model has three modules:

- `Text` (`text.dfy`) holds `trim()` and `lowercase()` as functions on
  `seq<char>`. It also proves what trimming keeps and removes, that trimming
  and lower-casing are idempotent and commute, and that the normal form
  ignores letter case and surrounding whitespace.
- `Meal` (`meal.dfy`) holds the six arms of the `when` as an ordered table,
  the first-match selection `when` performs, and `Resolve`, which is
  `suggestMeal` without its screen effects. It returns `Suggested(text)` or
  `Rejected(EmptyInput | UnrecognizedTime)`, and `Message` gives the exact
  text each rejection shows.
- `Screen` (`screen.dfy`) holds the class `MainActivity`. Its fields are the
  input text, the suggestion text, the suggestion visibility and the last
  toast message. Its methods are the three view updates and the two button
  handlers. Client methods replay typical sessions: a suggestion, blank
  and unknown input, a reset after a suggestion, a rejection after a
  success, and a double reset.

`wrappers.dfy` declares `Option`.

## Model

| member | source | states |
|---|---|---|
| `Text.LeadingWhitespace` | app/src/main/java/com/example/myapplication/MainActivity.kt:67 | the count it returns marks the end of the whitespace prefix: every character before it is whitespace, and the one at it, if any, is not |
| `Text.TrailingWhitespace` | app/src/main/java/com/example/myapplication/MainActivity.kt:67 | the count it returns marks the start of the whitespace suffix: every character after it is whitespace, and the one just before it, if any, is not |
| `Text.Lower` | app/src/main/java/com/example/myapplication/MainActivity.kt:67 | `lowercase()` keeps the length and maps every character through the ASCII lower-case map |
| `Text.Trim` | app/src/main/java/com/example/myapplication/MainActivity.kt:67 | `trim()`; no contract of its own: `TrimSplits` and `TrimUnique` characterise it completely, `TrimIdempotent` and `TrimIgnoresPadding` follow |
| `Text.TrimSplits` | app/src/main/java/com/example/myapplication/MainActivity.kt:67 | `trim()` returns a slice of its input whose two margins are all whitespace and which itself neither starts nor ends with whitespace |
| `Text.TrimUnique` | app/src/main/java/com/example/myapplication/MainActivity.kt:67 | any split of a text into whitespace margins around a part with no outer whitespace is the split `trim()` makes, so the two properties determine `trim()` |
| `Text.TrimIdempotent` | app/src/main/java/com/example/myapplication/MainActivity.kt:67 | trimming twice is trimming once |
| `Text.TrimIgnoresPadding` | app/src/main/java/com/example/myapplication/MainActivity.kt:67 | whitespace added on either side does not change the result of `trim()` |
| `Text.LowerIdempotent` | app/src/main/java/com/example/myapplication/MainActivity.kt:67 | lower-casing twice is lower-casing once |
| `Text.TrimLower` | app/src/main/java/com/example/myapplication/MainActivity.kt:67 | trimming and lower-casing commute |
| `Text.Normalize` | app/src/main/java/com/example/myapplication/MainActivity.kt:67 | the whole expression `timeInput.text.toString().trim().lowercase()`; no contract of its own: `NormalizeIdempotent`, `NormalizeIgnoresCase`, `NormalizeIgnoresPadding` and `NormalizeEmpty` state its properties |
| `Text.NormalizeIdempotent` | app/src/main/java/com/example/myapplication/MainActivity.kt:67 | `trim().lowercase()` applied to its own result changes nothing |
| `Text.NormalizeIgnoresCase` | app/src/main/java/com/example/myapplication/MainActivity.kt:67 | inputs that agree after lower-casing have the same normal form |
| `Text.NormalizeIgnoresPadding` | app/src/main/java/com/example/myapplication/MainActivity.kt:67 | inputs that differ only in surrounding whitespace have the same normal form |
| `Text.NormalizeEmpty` | app/src/main/java/com/example/myapplication/MainActivity.kt:67-70 | the normal form is empty if and only if the input is all whitespace |
| `Meal.Select` | app/src/main/java/com/example/myapplication/MainActivity.kt:76-86 | `when` picks the first arm whose key equals the subject and yields its value; it finds nothing only when no arm has that key |
| `Meal.Lookup` | app/src/main/java/com/example/myapplication/MainActivity.kt:76-86 | the `when (inputText)` over the six arms; no contract of its own: `LookupArm` and `LookupFindsKeys` characterise it, on top of `Select`'s first-match contract |
| `Meal.KeysDistinct` | app/src/main/java/com/example/myapplication/MainActivity.kt:76-82 | the six keys are pairwise distinct, so no arm is shadowed |
| `Meal.SuggestionsDistinct` | app/src/main/java/com/example/myapplication/MainActivity.kt:76-82 | the six suggestions are pairwise distinct, so the table is injective |
| `Meal.LookupArm` | app/src/main/java/com/example/myapplication/MainActivity.kt:76-82 | each key yields exactly its own suggestion |
| `Meal.LookupFindsKeys` | app/src/main/java/com/example/myapplication/MainActivity.kt:76-86 | the lookup succeeds if and only if its argument is one of the six keys, and it then yields one of the six suggestions |
| `Meal.Message` | app/src/main/java/com/example/myapplication/MainActivity.kt:71-84 | the two texts handed to `showError` at lines 71 and 84; no contract of its own: `ResolveEmpty` and `ResolveUnrecognized` state the exact text for each rejection |
| `Meal.Resolve` | app/src/main/java/com/example/myapplication/MainActivity.kt:66-91 | `suggestMeal` without its effects on the screen; no contract of its own: `ResolveEmpty`, `ResolveArm` and `ResolveUnrecognized` give each of its three outcomes as an if-and-only-if, `ResolveKey` shows every arm is reached |
| `Meal.ResolveEmpty` | app/src/main/java/com/example/myapplication/MainActivity.kt:67-73 | the input is rejected as empty, with "Please enter a time of day", if and only if it is all whitespace |
| `Meal.ResolveArm` | app/src/main/java/com/example/myapplication/MainActivity.kt:67-90 | an arm's suggestion is the result if and only if the normalised input is that arm's key |
| `Meal.ResolveUnrecognized` | app/src/main/java/com/example/myapplication/MainActivity.kt:76-86 | the input is rejected as unrecognised, with the "Invalid time. Try: …" text, if and only if its normal form is non-empty and not a key |
| `Meal.KeyNormal` | app/src/main/java/com/example/myapplication/MainActivity.kt:67-82 | each of the six keys is already trimmed and lower-case, so it normalises to itself and its arm is reachable |
| `Meal.ResolveKey` | app/src/main/java/com/example/myapplication/MainActivity.kt:67-90 | each of the six keys, in any letter case and padded with any whitespace, resolves to exactly its own table suggestion |
| `Meal.ResolveSuggestsFromTable` | app/src/main/java/com/example/myapplication/MainActivity.kt:76-90 | every suggestion is a table string, the one paired with the normalised input |
| `Meal.ResolveInjective` | app/src/main/java/com/example/myapplication/MainActivity.kt:76-82 | two inputs that get the same suggestion have the same normal form |
| `Meal.ResolveNormalized` | app/src/main/java/com/example/myapplication/MainActivity.kt:67 | resolving the normal form gives the same result as resolving the raw input |
| `Meal.ResolveIgnoresCaseAndPadding` | app/src/main/java/com/example/myapplication/MainActivity.kt:67 | letter case and surrounding whitespace do not change the result |
| `Meal.ResolveAfternoon` | app/src/main/java/com/example/myapplication/MainActivity.kt:79 | "afternoon" resolves to "Lunch: Grilled chicken sandwich with side salad" |
| `Meal.ResolveDinner` | app/src/main/java/com/example/myapplication/MainActivity.kt:81 | "dinner" resolves to the dinner suggestion |
| `Meal.ResolveMorningSpellings` | app/src/main/java/com/example/myapplication/MainActivity.kt:67-77 | "morning", "Morning", "MORNING" and "  morning  " all resolve to the breakfast suggestion |
| `Meal.ResolveBlank` | app/src/main/java/com/example/myapplication/MainActivity.kt:67-73 | "" and "   " are rejected as empty |
| `Meal.ResolveBrunch` | app/src/main/java/com/example/myapplication/MainActivity.kt:83-86 | "brunch" is rejected as unrecognised |
| `Screen.MainActivity.constructor` | app/src/main/java/com/example/myapplication/MainActivity.kt:17-21 | the screen starts with an empty field and an empty, hidden suggestion view, and no toast |
| `Screen.MainActivity.EnterText` | app/src/main/java/com/example/myapplication/MainActivity.kt:18 | typing sets the field text and changes nothing else |
| `Screen.MainActivity.DisplaySuggestion` | app/src/main/java/com/example/myapplication/MainActivity.kt:97-101 | called only with a string of the table, as its one caller does; the view shows that text and is visible, the invariant holds afterwards, and the field and toast are unchanged |
| `Screen.MainActivity.ShowError` | app/src/main/java/com/example/myapplication/MainActivity.kt:107-111 | the message is toasted and the view hidden; the view's text and the field are unchanged, and the invariant is preserved |
| `Screen.MainActivity.SuggestMeal` | app/src/main/java/com/example/myapplication/MainActivity.kt:66-91 | from any state: on a suggestion the view shows it and is visible; on a rejection the view is hidden, keeps its old text and the rejection's message is toasted; the field is never changed; and it preserves the invariant that the view holds only table suggestions |
| `Screen.MainActivity.ResetApp` | app/src/main/java/com/example/myapplication/MainActivity.kt:116-122 | from any state, the field and view text become empty, the view is hidden and "App reset" is toasted |
| `Screen.ResetTwice` | app/src/main/java/com/example/myapplication/MainActivity.kt:116-122 | a second reset leaves the screen exactly as the first left it |
| `Screen.AfternoonScenario` | app/src/main/java/com/example/myapplication/MainActivity.kt:66-101 | typing "afternoon" and pressing Suggest shows the lunch suggestion |
| `Screen.EmptyScenario` | app/src/main/java/com/example/myapplication/MainActivity.kt:67-73 | pressing Suggest on an empty field toasts "Please enter a time of day" and shows nothing |
| `Screen.UnknownScenario` | app/src/main/java/com/example/myapplication/MainActivity.kt:83-86 | pressing Suggest on "brunch" toasts the list of accepted values and shows nothing |
| `Screen.DinnerResetScenario` | app/src/main/java/com/example/myapplication/MainActivity.kt:116-119 | after "dinner" is shown, Reset leaves an empty field and an empty, hidden view |
| `Screen.StaleTextScenario` | app/src/main/java/com/example/myapplication/MainActivity.kt:107-110 | after a success, a rejected input hides the view but leaves the earlier suggestion text in it |

## Left out

- Android lifecycle and view wiring (`onCreate`, `setContentView`, `initializeViews`, the click listeners) is not modelled. The constructor stands for the screen as created. The layout is not modelled: the start state (empty field, empty and hidden suggestion view) is assumed, although a `TextView` is visible unless its layout says otherwise. The class invariant `Valid()` (the view holds only table suggestions, and is visible only when it holds one) holds after the constructor, is kept by every method, and so rests on that assumption. `SuggestMeal` does not require it: its `Resolve`-based contract holds from any state, and it preserves `Valid()` when it held before.
- `Log.d`/`Log.e` calls are diagnostic output and are left out.
- Toasts are modelled only as the message of the last one shown, in the `toast` field. Their display and duration are not modelled.
- `Text.Trim` and `Text.Lower` cover only ASCII. `trim()` removes the ASCII characters for which `Char.isWhitespace` holds (space, tab, line feed, vertical tab, form feed, carriage return, U+001C–U+001F). Unicode whitespace beyond those is kept. `lowercase()` maps only `A`–`Z`. Unicode case mapping, including mappings that change the length, is not modelled.
- `Screen.MainActivity.EnterText` has no counterpart in the source. It stands for the user editing the `EditText`, which the platform does.
