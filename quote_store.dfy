/** The quote list of `dom-manipulation/script.js` and the two storage slots
    behind it: the durable `dynamicQuotes` entry and the session
    `lastQuoteIndex` entry. */
module QuoteStore {
  import opened Options
  import opened Json
  import opened Text

  /** A quote as the page itself creates one, the object `{ text, category }`. */
  datatype Quote = Quote(text: string, category: string)

  /** The decoded object a `Quote` becomes in the list and in storage. */
  function ToValue(q: Quote): Value {
    Obj(map["text" := Str(q.text), "category" := Str(q.category)])
  }

  /** The three quotes seeded when durable storage holds no list. */
  const DefaultQuotes: seq<Quote> := [
    Quote("The best way to get started is to quit talking and begin doing.", "Motivation"),
    Quote("Success is not in what you have, but who you are.", "Success"),
    Quote("Dream big and dare to fail.", "Inspiration")
  ]

  function DefaultValues(): seq<Value> {
    [ToValue(DefaultQuotes[0]), ToValue(DefaultQuotes[1]), ToValue(DefaultQuotes[2])]
  }

  /** What `localStorage.getItem('dynamicQuotes')` finds: no entry, the empty
      string, text that `JSON.parse` rejects, or a saved list, decoded. */
  datatype StoredQuotes = Absent | EmptyText | Unparseable | Saved(list: seq<Value>)

  /** The alert the import shows once the document has been read. */
  datatype ImportAlert = ImportedOk | InvalidFormat | ImportFailed

  /** The list `loadQuotes` adopts from a slot it can read: the saved list
      whenever the stored text is truthy, the defaults otherwise. */
  function LoadedQuotes(slot: StoredQuotes): seq<Value>
    requires !slot.Unparseable?
  {
    if slot.Saved? then slot.list else DefaultValues()
  }

  /** `Math.floor(Math.random() * len)` with the random draw written as the
      exact fraction `num / den`, which lies in [0, 1). */
  function PickIndex(num: nat, den: nat, len: nat): (idx: nat)
    requires num < den && 0 < len
    ensures idx < len
  {
    PickBelow(num, den, len);
    (num * len) / den
  }

  lemma PickBelow(num: nat, den: nat, len: nat)
    requires num < den && 0 < len
    ensures (num * len) / den < len
  {
    assert num * len < den * len;
  }

  /** Every position of a non-empty list is picked by some draw. */
  lemma PickIndexReachesEvery(len: nat, i: nat)
    requires i < len
    ensures PickIndex(i, len, len) == i
  {
    var q, m := (i * len) / len, (i * len) % len;
    assert (i - q) * len == m;
    OnlyZeroMultipleBelow(i - q, len);
  }

  /** The only multiple of `n` in [0, n) is zero. */
  lemma OnlyZeroMultipleBelow(k: int, n: nat)
    requires 0 < n && 0 <= k * n < n
    ensures k == 0
  {
    if k >= 1 {
      MulMonotone(1, k, n);
    } else if k <= -1 {
      MulMonotone(k, -1, n);
    }
  }

  lemma MulMonotone(a: int, b: int, c: nat)
    requires a <= b
    ensures a * c <= b * c
  {
    assert b * c - a * c == (b - a) * c;
  }

  /** The restore guard `lastIdx && quotes[lastIdx]`: the session index is set
      (its decimal text is never empty, so index 0 counts), names a position
      of the list, and the element there is truthy. */
  predicate Restorable(quotes: seq<Value>, lastIndex: Option<int>) {
    lastIndex.Some? && 0 <= lastIndex.value < |quotes| && Truthy(quotes[lastIndex.value])
  }

  /** `displayQuote` reads `quote.text`, which throws on a `null` element. */
  predicate Displayable(v: Value) {
    !v.Null?
  }

  /** The text and category the add form accepts, trimmed; `None` when
      either is empty after trimming. */
  function NewQuote(text: string, category: string): (q: Option<Quote>)
    ensures q.Some? <==> !AllWhitespace(text) && !AllWhitespace(category)
    ensures q.Some? ==> q.value == Quote(Trim(text), Trim(category))
    ensures q.Some? ==> q.value.text != [] && Trimmed(q.value.text) &&
                        q.value.category != [] && Trimmed(q.value.category)
  {
    var t, c := Trim(text), Trim(category);
    if t == [] || c == [] then None else Some(Quote(t, c))
  }

  /** Round trip: a quote whose fields are non-empty and already trimmed is
      exactly what the add form makes of its own text and category. */
  lemma NewQuoteOfTrimmedQuote(q: Quote)
    requires q.text != [] && Trimmed(q.text) && q.category != [] && Trimmed(q.category)
    ensures NewQuote(q.text, q.category) == Some(q)
  {
    assert q.text == [] + q.text + [];
    assert q.category == [] + q.category + [];
    TrimCharacterized([], q.text, []);
    TrimCharacterized([], q.category, []);
  }

  /** The page's module state: the in-memory list `quotes`, the durable slot
      `dynamicQuotes` and the session slot `lastQuoteIndex`. */
  class QuotePage {
    var quotes: seq<Value>
    var stored: StoredQuotes
    var lastIndex: Option<int>

    /** The durable slot holds exactly the in-memory list. */
    predicate Synced()
      reads this
    {
      stored == Saved(quotes)
    }

    /** The session index, when set, names a position of the list. */
    predicate SessionIndexInRange()
      reads this
    {
      lastIndex.Some? ==> 0 <= lastIndex.value < |quotes|
    }

    /** A fresh page: `quotes` starts empty, the storage slots hold whatever
        earlier visits left in them. */
    constructor (durable: StoredQuotes, session: Option<int>)
      ensures quotes == [] && stored == durable && lastIndex == session
    {
      quotes := [];
      stored := durable;
      lastIndex := session;
    }

    /** `saveQuotes`: writes the whole list to the durable slot. */
    method SaveQuotes()
      modifies this`stored
      ensures Synced()
    {
      stored := Saved(quotes);
    }

    /** `saveLastQuoteIndex`: records a position in the session slot. */
    method SaveLastQuoteIndex(index: int)
      modifies this`lastIndex
      ensures lastIndex == Some(index)
    {
      lastIndex := Some(index);
    }

    /** `loadQuotes`: adopts the stored list, or seeds and saves the defaults
        when the stored text is missing or empty. Unparseable text makes
        `JSON.parse` throw before anything is assigned; `ok` is false then. */
    method LoadQuotes() returns (ok: bool)
      modifies this`quotes, this`stored
      ensures ok <==> !old(stored).Unparseable?
      ensures ok ==> quotes == LoadedQuotes(old(stored)) && Synced()
      ensures ok && old(stored).Saved? ==> stored == old(stored)
      ensures !ok ==> quotes == old(quotes) && stored == old(stored)
    {
      match stored
      case Unparseable =>
        ok := false;
      case Saved(list) =>
        quotes := list;
        ok := true;
      case _ =>
        quotes := DefaultValues();
        SaveQuotes();
        ok := true;
    }

    /** `showRandomQuote`: nothing on an empty list; otherwise picks a
        position, records it in the session slot and returns it as the
        position passed to `displayQuote` (which throws, rendering nothing,
        when the element there is `null`). */
    method ShowRandomQuote(num: nat, den: nat) returns (shown: Option<nat>)
      requires num < den
      modifies this`lastIndex
      ensures quotes == [] ==> shown == None && lastIndex == old(lastIndex)
      ensures quotes != [] ==> shown == Some(PickIndex(num, den, |quotes|))
      ensures shown.Some? ==> shown.value < |quotes| && lastIndex == Some(shown.value as int)
      ensures old(SessionIndexInRange()) ==> SessionIndexInRange()
    {
      if |quotes| == 0 {
        return None;
      }
      var idx := PickIndex(num, den, |quotes|);
      SaveLastQuoteIndex(idx);
      shown := Some(idx);
    }

    /** `addQuote`: rejects the input when the trimmed text or the trimmed
        category is empty, changing nothing; otherwise appends the trimmed
        quote, saves the list and shows a random quote. */
    method AddQuote(text: string, category: string, num: nat, den: nat) returns (added: bool)
      requires num < den
      modifies this
      ensures added <==> Trim(text) != [] && Trim(category) != []
      ensures !added ==> quotes == old(quotes) && stored == old(stored) && lastIndex == old(lastIndex)
      ensures added ==> quotes == old(quotes) + [ToValue(Quote(Trim(text), Trim(category)))]
      ensures added ==> Synced() && lastIndex == Some(PickIndex(num, den, |quotes|))
      ensures old(SessionIndexInRange()) ==> SessionIndexInRange()
    {
      var q := NewQuote(text, category);
      if q.None? {
        return false;
      }
      quotes := quotes + [ToValue(q.value)];
      SaveQuotes();
      var _ := ShowRandomQuote(num, den);
      added := true;
    }

    /** The body of the `FileReader` callback of `importFromJsonFile`, given
        the parsed document. Malformed text and a document that is not an
        array change nothing. An array is appended element by element,
        unchecked, then saved, and a random quote is shown; when the pick lands
        on a `null` element, displaying it throws inside the `try` and the
        failure alert is shown although the import has been kept. */
    method ImportQuotes(doc: Parsed, num: nat, den: nat) returns (alert: ImportAlert)
      requires num < den
      modifies this
      ensures doc.Malformed? ==> alert == ImportFailed
      ensures doc.Document? && !doc.value.Arr? ==> alert == InvalidFormat
      ensures !(doc.Document? && doc.value.Arr?) ==>
                quotes == old(quotes) && stored == old(stored) && lastIndex == old(lastIndex)
      ensures doc.Document? && doc.value.Arr? ==>
                quotes == old(quotes) + doc.value.items && Synced()
      ensures doc.Document? && doc.value.Arr? && quotes == [] ==>
                lastIndex == old(lastIndex) && alert == ImportedOk
      ensures doc.Document? && doc.value.Arr? && quotes != [] ==>
                var idx := PickIndex(num, den, |quotes|);
                lastIndex == Some(idx) &&
                alert == (if Displayable(quotes[idx]) then ImportedOk else ImportFailed)
      ensures old(SessionIndexInRange()) ==> SessionIndexInRange()
    {
      match doc
      case Malformed =>
        alert := ImportFailed;
      case Document(v) =>
        if !v.Arr? {
          alert := InvalidFormat;
          return;
        }
        quotes := quotes + v.items;
        SaveQuotes();
        var shown := ShowRandomQuote(num, den);
        if shown.Some? && !Displayable(quotes[shown.value]) {
          alert := ImportFailed;
        } else {
          alert := ImportedOk;
        }
    }

    /** The state changes of `window.onload`: load the list, then redisplay
        the session's last quote when the restore guard allows it, otherwise
        show a random one. Returns the position passed to `displayQuote`
        (a random pick may be a `null` element, on which it throws). When
        loading throws, nothing after it runs. */
    method OnLoad(num: nat, den: nat) returns (displayed: Option<int>)
      requires num < den
      modifies this
      ensures old(stored).Unparseable? ==>
                displayed == None && quotes == old(quotes) && stored == old(stored) &&
                lastIndex == old(lastIndex)
      ensures !old(stored).Unparseable? ==> quotes == LoadedQuotes(old(stored)) && Synced()
      ensures !old(stored).Unparseable? && Restorable(quotes, old(lastIndex)) ==>
                displayed == old(lastIndex) && lastIndex == old(lastIndex)
      ensures !old(stored).Unparseable? && !Restorable(quotes, old(lastIndex)) ==>
                if quotes == [] then displayed == None && lastIndex == old(lastIndex)
                else displayed == Some(PickIndex(num, den, |quotes|)) && lastIndex == displayed
      ensures displayed.Some? ==> 0 <= displayed.value < |quotes| && lastIndex == displayed
    {
      var ok := LoadQuotes();
      if !ok {
        return None;
      }
      if Restorable(quotes, lastIndex) {
        displayed := lastIndex;
      } else {
        var shown := ShowRandomQuote(num, den);
        displayed := if shown.Some? then Some(shown.value as int) else None;
      }
    }
  }

  /** Restoring the last viewed quote within a session: after a random quote
      is shown on a page whose list is saved, reloading the page with the same
      storage redisplays that very position when its element is truthy, and
      otherwise falls back to a fresh random pick. */
  method ReloadRestoresShownQuote(p: QuotePage, num: nat, den: nat, num2: nat, den2: nat)
    returns (shown: Option<nat>, redisplayed: Option<int>)
    requires num < den && num2 < den2
    requires p.Synced() && p.quotes != []
    modifies p
    ensures p.quotes == old(p.quotes) && p.stored == old(p.stored)
    ensures shown.Some? && shown.value < |p.quotes| && p.lastIndex == Some(shown.value as int)
    ensures Truthy(p.quotes[shown.value]) ==> redisplayed == Some(shown.value as int)
    ensures !Truthy(p.quotes[shown.value]) ==>
              redisplayed == Some(PickIndex(num2, den2, |p.quotes|))
  {
    shown := p.ShowRandomQuote(num, den);
    var reloaded := new QuotePage(p.stored, p.lastIndex);
    redisplayed := reloaded.OnLoad(num2, den2);
  }
}
