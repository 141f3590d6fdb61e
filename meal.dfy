/** The suggestion resolver of `MainActivity.suggestMeal`: normalise the
    text of the input field, reject it when empty, otherwise pick the arm
    of the fixed six-arm `when` whose key equals it, and reject anything
    no arm matches. Each rejection carries the exact message shown to the
    user. */
module Meal {
  import opened Wrappers
  import opened Text

  const EmptyInputMessage: string := "Please enter a time of day"
  const InvalidTimeMessage: string :=
    "Invalid time. Try: Morning, Mid-morning, Afternoon, Mid-afternoon, Dinner, After dinner"

  /** The arms of the `when`, in source order: (key, suggestion). */
  const Arms: seq<(string, string)> := [
    ("morning", "Breakfast: Scrambled eggs with avocado toast and fresh orange juice"),
    ("mid-morning", "Mid-morning snack: Greek yogurt with mixed berries and granola"),
    ("afternoon", "Lunch: Grilled chicken sandwich with side salad"),
    ("mid-afternoon", "Afternoon snack: Banana with almond butter"),
    ("dinner", "Dinner: Garlic butter shrimp pasta with roasted vegetables"),
    ("after dinner", "Dessert: Dark chocolate with strawberries")
  ]

  datatype Error = EmptyInput | UnrecognizedTime

  /** The text handed to `showError` for each rejection. */
  function Message(e: Error): string {
    match e
    case EmptyInput => EmptyInputMessage
    case UnrecognizedTime => InvalidTimeMessage
  }

  datatype Resolution = Suggested(suggestion: string) | Rejected(error: Error)

  ghost predicate IsKey(key: string) {
    exists i :: 0 <= i < |Arms| && Arms[i].0 == key
  }

  ghost predicate IsSuggestion(text: string) {
    exists i :: 0 <= i < |Arms| && Arms[i].1 == text
  }

  /** Arm `i` is the first one whose key is `key`. */
  ghost predicate FirstMatch(arms: seq<(string, string)>, key: string, i: int) {
    0 <= i < |arms| && arms[i].0 == key && forall j :: 0 <= j < i ==> arms[j].0 != key
  }

  /** How `when` chooses a branch: arms are tried top to bottom and the
      first whose key equals the subject wins. */
  function Select(arms: seq<(string, string)>, key: string): (r: Option<string>)
    ensures r.None? ==> forall i :: 0 <= i < |arms| ==> arms[i].0 != key
    ensures r.Some? ==> exists i :: FirstMatch(arms, key, i) && arms[i].1 == r.value
  {
    if arms == [] then None
    else if arms[0].0 == key then Some(arms[0].1)
    else
      var r := Select(arms[1..], key);
      assert r.Some? ==> exists i :: FirstMatch(arms, key, i) && arms[i].1 == r.value by {
        if r.Some? {
          var i :| FirstMatch(arms[1..], key, i) && arms[1..][i].1 == r.value;
          assert FirstMatch(arms, key, i + 1);
        }
      }
      r
  }

  /** The `when (inputText)` of suggestMeal. */
  function Lookup(key: string): Option<string> {
    Select(Arms, key)
  }

  /** suggestMeal without its effects on the screen. */
  function Resolve(raw: string): Resolution {
    var key := Normalize(raw);
    if key == [] then Rejected(EmptyInput)
    else match Lookup(key)
      case Some(suggestion) => Suggested(suggestion)
      case None => Rejected(UnrecognizedTime)
  }

  // ---------------------------------------------------------------------
  // The table.

  /** No two arms share a key, so no arm is shadowed by an earlier one. */
  lemma KeysDistinct(i: int, j: int)
    requires 0 <= i < j < |Arms|
    ensures Arms[i].0 != Arms[j].0
  {
  }

  /** No two arms share a suggestion: the table is injective. */
  lemma SuggestionsDistinct(i: int, j: int)
    requires 0 <= i < j < |Arms|
    ensures Arms[i].1 != Arms[j].1
  {
  }

  /** Each key selects its own arm's suggestion. */
  lemma LookupArm(i: int)
    requires 0 <= i < |Arms|
    ensures Lookup(Arms[i].0) == Some(Arms[i].1)
  {
    var r := Lookup(Arms[i].0);
    var j :| FirstMatch(Arms, Arms[i].0, j) && Arms[j].1 == r.value;
    if j < i { KeysDistinct(j, i); } else if i < j { KeysDistinct(i, j); }
  }

  /** Lookup finds exactly the six keys. */
  lemma LookupFindsKeys(key: string)
    ensures Lookup(key).Some? <==> IsKey(key)
    ensures Lookup(key).Some? ==> IsSuggestion(Lookup(key).value)
  {
    if IsKey(key) {
      var i :| 0 <= i < |Arms| && Arms[i].0 == key;
      LookupArm(i);
    }
  }

  // ---------------------------------------------------------------------
  // The resolver.

  /** Input that is empty after trimming is rejected with the prompt for a
      time of day, and only such input. */
  lemma ResolveEmpty(raw: string)
    ensures Resolve(raw) == Rejected(EmptyInput) <==> AllWhitespace(raw)
    ensures Message(EmptyInput) == "Please enter a time of day"
  {
    NormalizeEmpty(raw);
  }

  /** Arm `i` is chosen exactly when the normalised input is its key. */
  lemma ResolveArm(raw: string, i: int)
    requires 0 <= i < |Arms|
    ensures Resolve(raw) == Suggested(Arms[i].1) <==> Normalize(raw) == Arms[i].0
  {
    var key := Normalize(raw);
    if key == Arms[i].0 {
      LookupArm(i);
    }
    if Resolve(raw) == Suggested(Arms[i].1) {
      var j :| FirstMatch(Arms, key, j) && Arms[j].1 == Arms[i].1;
      if j < i { SuggestionsDistinct(j, i); } else if i < j { SuggestionsDistinct(i, j); }
    }
  }

  /** Non-empty input that is not one of the keys is rejected with the list
      of accepted values, and only such input. */
  lemma ResolveUnrecognized(raw: string)
    ensures Resolve(raw) == Rejected(UnrecognizedTime) <==> Normalize(raw) != [] && !IsKey(Normalize(raw))
    ensures Message(UnrecognizedTime) ==
      "Invalid time. Try: Morning, Mid-morning, Afternoon, Mid-afternoon, Dinner, After dinner"
  {
    LookupFindsKeys(Normalize(raw));
  }

  /** Every suggestion is one of the six table strings, the one whose key
      the normalised input is. */
  lemma ResolveSuggestsFromTable(raw: string)
    requires Resolve(raw).Suggested?
    ensures IsSuggestion(Resolve(raw).suggestion)
    ensures exists i :: 0 <= i < |Arms| && Arms[i] == (Normalize(raw), Resolve(raw).suggestion)
  {
    var j :| FirstMatch(Arms, Normalize(raw), j) && Arms[j].1 == Resolve(raw).suggestion;
    assert Arms[j] == (Normalize(raw), Resolve(raw).suggestion);
  }

  /** Distinct inputs that resolve to the same suggestion normalise alike. */
  lemma ResolveInjective(s: string, t: string)
    requires Resolve(s).Suggested? && Resolve(s) == Resolve(t)
    ensures Normalize(s) == Normalize(t)
  {
    ResolveSuggestsFromTable(s);
    var i :| 0 <= i < |Arms| && Arms[i] == (Normalize(s), Resolve(s).suggestion);
    ResolveArm(t, i);
  }

  /** Resolution only sees the normal form. */
  lemma ResolveNormalized(raw: string)
    ensures Resolve(Normalize(raw)) == Resolve(raw)
  {
    NormalizeIdempotent(raw);
  }

  /** Resolution ignores letter case and surrounding whitespace. */
  lemma ResolveIgnoresCaseAndPadding(p: string, s: string, t: string, q: string)
    requires AllWhitespace(p) && AllWhitespace(q) && Lower(s) == Lower(t)
    ensures Resolve(p + s + q) == Resolve(t)
  {
    NormalizeIgnoresPadding(p, s, q);
    NormalizeIgnoresCase(s, t);
  }

  lemma KeyNormal0()
    ensures Normalize(Arms[0].0) == Arms[0].0
  {
    NormalizeAt("morning", 0, 7, "morning");
  }

  lemma KeyNormal1()
    ensures Normalize(Arms[1].0) == Arms[1].0
  {
    NormalizeAt("mid-morning", 0, 11, "mid-morning");
  }

  lemma KeyNormal2()
    ensures Normalize(Arms[2].0) == Arms[2].0
  {
    NormalizeAt("afternoon", 0, 9, "afternoon");
  }

  lemma KeyNormal3()
    ensures Normalize(Arms[3].0) == Arms[3].0
  {
    NormalizeAt("mid-afternoon", 0, 13, "mid-afternoon");
  }

  lemma KeyNormal4()
    ensures Normalize(Arms[4].0) == Arms[4].0
  {
    NormalizeAt("dinner", 0, 6, "dinner");
  }

  lemma KeyNormal5()
    ensures Normalize(Arms[5].0) == Arms[5].0
  {
    NormalizeAt("after dinner", 0, 12, "after dinner");
  }

  /** Every key is already in normal form, so every arm can be reached. */
  lemma KeyNormal(i: int)
    requires 0 <= i < |Arms|
    ensures Normalize(Arms[i].0) == Arms[i].0
  {
    if i == 0 { KeyNormal0(); }
    else if i == 1 { KeyNormal1(); }
    else if i == 2 { KeyNormal2(); }
    else if i == 3 { KeyNormal3(); }
    else if i == 4 { KeyNormal4(); }
    else { KeyNormal5(); }
  }

  /** Each of the six keys, in any letter case and with any surrounding
      whitespace, resolves to its own suggestion. */
  lemma ResolveKey(p: string, s: string, q: string, i: int)
    requires 0 <= i < |Arms|
    requires AllWhitespace(p) && AllWhitespace(q) && Lower(s) == Arms[i].0
    ensures Resolve(p + s + q) == Suggested(Arms[i].1)
  {
    var k := Arms[i].0;
    KeyNormal(i);
    LowerIdempotent(s);
    assert Lower(s) == Lower(k);
    NormalizeIgnoresCase(s, k);
    NormalizeIgnoresPadding(p, s, q);
    assert Normalize(p + s + q) == k;
    ResolveArm(p + s + q, i);
  }

  // ---------------------------------------------------------------------
  // Concrete inputs.

  /** "afternoon" resolves to lunch. */
  lemma ResolveAfternoon()
    ensures Resolve("afternoon") == Suggested("Lunch: Grilled chicken sandwich with side salad")
  {
    NormalizeAt("afternoon", 0, 9, "afternoon");
    ResolveArm("afternoon", 2);
  }

  /** "dinner" resolves to dinner. */
  lemma ResolveDinner()
    ensures Resolve("dinner") == Suggested("Dinner: Garlic butter shrimp pasta with roasted vegetables")
  {
    NormalizeAt("dinner", 0, 6, "dinner");
    ResolveArm("dinner", 4);
  }

  lemma ResolveMorning()
    ensures Resolve("morning") == Suggested(Arms[0].1)
  {
    NormalizeAt("morning", 0, 7, "morning");
    ResolveArm("morning", 0);
  }

  lemma ResolveCapitalised()
    ensures Resolve("Morning") == Suggested(Arms[0].1)
  {
    NormalizeAt("Morning", 0, 7, "morning");
    ResolveArm("Morning", 0);
  }

  lemma ResolveUpperCase()
    ensures Resolve("MORNING") == Suggested(Arms[0].1)
  {
    NormalizeAt("MORNING", 0, 7, "morning");
    ResolveArm("MORNING", 0);
  }

  lemma ResolvePadded()
    ensures Resolve("  morning  ") == Suggested(Arms[0].1)
  {
    NormalizeAt("  morning  ", 2, 9, "morning");
    ResolveArm("  morning  ", 0);
  }

  /** "morning" in lower, capitalised and upper case, and padded with
      spaces, all resolve to breakfast. */
  lemma ResolveMorningSpellings()
    ensures Arms[0].1 == "Breakfast: Scrambled eggs with avocado toast and fresh orange juice"
    ensures Resolve("morning") == Suggested(Arms[0].1)
    ensures Resolve("Morning") == Resolve("MORNING") == Resolve("  morning  ") == Resolve("morning")
  {
    ResolveMorning();
    ResolveCapitalised();
    ResolveUpperCase();
    ResolvePadded();
  }

  /** Empty and blank input ask for a time of day. */
  lemma ResolveBlank()
    ensures Resolve("") == Rejected(EmptyInput)
    ensures Resolve("   ") == Rejected(EmptyInput)
  {
    ResolveEmpty("");
    ResolveEmpty("   ");
  }

  /** A word outside the table is rejected. */
  lemma ResolveBrunch()
    ensures Resolve("brunch") == Rejected(UnrecognizedTime)
  {
    NormalizeAt("brunch", 0, 6, "brunch");
    assert Lookup("brunch") == None;
  }
}
