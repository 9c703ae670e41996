# Quote page state, modelled in Dafny

This project models the state kept by the quote page script
`dom-manipulation/script.js`: the in-memory list `quotes`, the durable
`localStorage` entry `dynamicQuotes` that mirrors it, and the session
`sessionStorage` entry `lastQuoteIndex` that remembers which quote was shown.
The class `QuoteStore.QuotePage` holds these three as fields (`quotes`,
`stored`, `lastIndex`), and each operation of the script that changes them is
a method whose `modifies` clause names exactly the fields it may write:

- `LoadQuotes` adopts the saved list, or seeds the three default quotes and
  saves them.
- `SaveQuotes` and `SaveLastQuoteIndex` write the two storage slots.
- `ShowRandomQuote` picks a position and records it in the session slot.
- `AddQuote` trims and validates the form input, appends and saves.
- `ImportQuotes` is the body of the import callback.
- `OnLoad` is the start-up sequence: load, then restore the last shown quote
  or show a random one.

Decoded JSON is the datatype `Json.Value`; storage and the imported file are
taken as already decoded. `getLastQuoteIndex` is the read of the field
`lastIndex`. The random draw `Math.random()` is a parameter, the exact
fraction `num / den` with `num < den`, so the displayed position is
`(num * len) / den`. JavaScript's `String.prototype.trim` is modelled in
module `Text` and characterised completely. `Trim` says the result is a piece
of the input with only whitespace around it and none at its own ends.
`TrimCharacterized` says any such piece is the result.

Behaviour of the script that the model keeps:

- `loadQuotes` tests the stored *text* for truthiness, so a saved empty list
  (`"[]"`) is adopted as an empty list. Only a missing entry or the empty
  string seeds the defaults.
- Stored text that `JSON.parse` rejects does not fall back to the defaults.
  The parse throws out of `window.onload`, `quotes` stays empty, nothing is
  saved and neither restore nor random pick happens (`LoadQuotes` returns
  `false`, `OnLoad` stops).
- The restore guard `lastIdx && quotes[lastIdx]` needs the element to be
  truthy, not merely present. An imported `null`, `false`, `0` or `""` at that
  position is not restored. Index 0 is restored, because the guard tests the
  stored decimal text `"0"`, which is truthy.
- After an import, `showRandomQuote` runs inside the `try`. If the pick lands
  on an imported `null`, `displayQuote` throws reading `quote.text`. The page
  then shows the "Failed to import quotes" alert, although the elements were
  appended and saved. `ImportQuotes` returns that alert as `ImportFailed`.

## Model

| member | source | states |
|---|---|---|
| `Text.SkipForward` | dom-manipulation/script.js:53-54 | the forward scan of `.trim()` stops at the first character that is not whitespace (or the end), and everything it passed is whitespace |
| `Text.SkipBackward` | dom-manipulation/script.js:53-54 | the backward scan of `.trim()` stops after the last character that is not whitespace (or at its lower bound), and everything it passed is whitespace |
| `Text.Trim` | dom-manipulation/script.js:53-54 | `.trim()` gives a string with no whitespace at either end, empty exactly when the input is all whitespace, found unchanged in the input with only whitespace before and after it |
| `Text.TrimCharacterized` | dom-manipulation/script.js:53-54 | uniqueness: for any whitespace, then a piece with no whitespace at its ends, then whitespace, trimming yields that piece |
| `Text.TrimIdempotent` | dom-manipulation/script.js:53-54 | trimming an already trimmed string changes nothing |
| `QuoteStore.NewQuote` | dom-manipulation/script.js:53-58 | the add form's input is accepted exactly when neither text nor category is all whitespace, and an accepted quote has non-empty fields with no surrounding whitespace |
| `QuoteStore.NewQuoteOfTrimmedQuote` | dom-manipulation/script.js:53-59 | a quote with non-empty, already trimmed fields is accepted and comes back unchanged |
| `QuoteStore.PickIndex` | dom-manipulation/script.js:37 | `Math.floor(Math.random() * quotes.length)` is a position of the list whenever the list is non-empty |
| `QuoteStore.PickIndexReachesEvery` | dom-manipulation/script.js:37 | every position of a non-empty list is chosen by some draw |
| `QuoteStore.ReloadRestoresShownQuote` | dom-manipulation/script.js:105-111 | after a random quote is shown on a page whose list is saved, a reload in the same session redisplays that same position when its element is truthy, and otherwise draws a fresh pick |
| `QuoteStore.QuotePage.constructor` | dom-manipulation/script.js:2 | the page starts with an empty list and the storage slots as earlier visits left them |
| `QuoteStore.QuotePage.SaveQuotes` | dom-manipulation/script.js:21-23 | the durable slot afterwards holds exactly the in-memory list; nothing else changes |
| `QuoteStore.QuotePage.SaveLastQuoteIndex` | dom-manipulation/script.js:26-28 | the session slot afterwards holds the given position; nothing else changes |
| `QuoteStore.QuotePage.LoadQuotes` | dom-manipulation/script.js:6-18 | a saved list is adopted as it is and left in storage; a missing or empty entry makes the list the three defaults in order and saves them; unparseable text changes nothing and reports failure; the session slot is untouched |
| `QuoteStore.QuotePage.ShowRandomQuote` | dom-manipulation/script.js:35-40 | on an empty list nothing changes and nothing is shown; otherwise the position passed to `displayQuote` is the draw's pick, lies in the list, and is the one saved in the session slot; the list and durable slot are untouched |
| `QuoteStore.QuotePage.AddQuote` | dom-manipulation/script.js:52-64 | rejected exactly when the trimmed text or category is empty, and then nothing changes; otherwise the list is the old list plus the trimmed quote, storage equals the list, and the session slot holds the new random pick |
| `QuoteStore.QuotePage.ImportQuotes` | dom-manipulation/script.js:83-97 | malformed text and a non-array document change nothing and give their alerts; an array makes the list the old list followed by every element in order, unchecked, with storage equal to the list and the session slot holding the new pick; the alert is failure exactly when the pick is a `null` element |
| `QuoteStore.QuotePage.OnLoad` | dom-manipulation/script.js:102-111 | after a successful load the list is the loaded list and storage equals it; the session index is reused exactly when the restore guard holds; otherwise a random pick is passed to `displayQuote` and saved, or nothing on an empty list; any position passed to `displayQuote` is in the list and equals the session slot |

## Left out

- Rendering: `displayQuote` setting `innerHTML`, reading and clearing the form fields, and wiring the buttons in `window.onload`. The only effect of `displayQuote` kept is that it throws on a `null` element.
- A throw from `showRandomQuote` during `window.onload` also skips the button wiring. Wiring is not modelled, so neither is this.
- Alert texts. They are kept as the `AddQuote` result and the `ImportAlert` codes.
- `exportToJsonFile`: it builds a file download and changes no state.
- The `FileReader`, the file picker and the asynchronous callback. `ImportQuotes` takes the parsed document.
- The JSON text format and the storage APIs. Slots and documents are taken as already decoded values.
- Stored text that parses to something other than an array. Only `saveQuotes` writes the entry, and it always writes an array.
- AddQuote, ImportQuotes: `localStorage.setItem` in `saveQuotes` can throw `QuotaExceededError` after the `push`. The list in memory is then longer than the stored one, and the import shows the "Failed to import" alert. The model treats storage writes as always succeeding, so `Synced()` after a successful add or import does not hold in that case.
- ShowRandomQuote, OnLoad: the returned position is the one passed to `displayQuote`. When that element is `null`, `displayQuote` throws and nothing is rendered. The session slot is already written by then. The model does not report the throw from these two methods; only `ImportQuotes` turns it into its alert.
- A `RangeError` from spreading a very large imported array into `push`.
- `ShowRandomQuote`: `Math.random()` and the floating-point product are replaced by an exact fraction, so the rounding of a floating-point product is not modelled.
- JavaScript strings are UTF-16 code units; the model's `char` is a Unicode scalar value, so lone surrogates are not represented.
- JSON numbers are exact reals; floating-point rounding of parsed numbers is not modelled.
