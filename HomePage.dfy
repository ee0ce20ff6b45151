/** The translation page (src/app/page.tsx): submitting a text runs three AI
    calls whose settled outcomes are inputs here, assembles the results,
    records a history entry, and keeps the history, the favourites and the
    last mode in three storage-backed cells. */
module HomePage {
  import opened Types
  import opened LocalStorage
  import opened HistoryRules
  import InputForm

  const HistoryKey: string := "bioLinguaHistory"
  const FavoritesKey: string := "bioLinguaFavorites"
  const LastModeKey: string := "bioLinguaLastMode"

  /** Replies of the three AI calls (only the fields the page reads). */
  datatype SentenceReply = SentenceReply(englishSentence: string)
  datatype TermReply = TermReply(englishTerm: string, definition: string)
  datatype ExplainReply = ExplainReply(englishTerm: string, explanation: string)

  /** The results assembled from the `Promise.allSettled` outcomes: each
      field is present exactly when the call that provides it was fulfilled,
      and then it is that call's value. The explanation call never supplies
      `englishTerm`. */
  function BuildResults(sentence: Settled<SentenceReply>, term: Settled<TermReply>,
                        explain: Settled<ExplainReply>): (r: AIResults)
    ensures r.englishSentence.Some? <==> sentence.Fulfilled?
    ensures r.englishTerm.Some? <==> term.Fulfilled?
    ensures r.definition.Some? <==> term.Fulfilled?
    ensures r.explanation.Some? <==> explain.Fulfilled?
    ensures sentence.Fulfilled? ==> r.englishSentence.value == sentence.value.englishSentence
    ensures term.Fulfilled? ==> (r.englishTerm.value == term.value.englishTerm
                                 && r.definition.value == term.value.definition)
    ensures explain.Fulfilled? ==> r.explanation.value == explain.value.explanation
  {
    AIResults(
      match sentence case Fulfilled(s) => Some(s.englishSentence) case Rejected => None,
      match term case Fulfilled(t) => Some(t.englishTerm) case Rejected => None,
      match term case Fulfilled(t) => Some(t.definition) case Rejected => None,
      match explain case Fulfilled(e) => Some(e.explanation) case Rejected => None)
  }

  class Page {
    var isLoading: bool
    var currentResults: Option<AIResults>
    var currentInput: Option<InputForm.InputFormValues>
    const storage: Storage
    const history: Cell<seq<HistoryEntry>>
    const favorites: Cell<seq<string>>
    const lastMode: Cell<ExplanationMode>

    /** The three cells share the page's storage under their own keys. */
    ghost predicate Valid()
      reads this, history, favorites, lastMode
    {
      && history.storage == storage && favorites.storage == storage && lastMode.storage == storage
      && history.key == HistoryKey && favorites.key == FavoritesKey && lastMode.key == LastModeKey
      && history.initialValue == [] && favorites.initialValue == [] && lastMode.initialValue == Beginner
    }

    /** The first render: every cell holds its fallback. */
    constructor (storage: Storage,
                 serialiseHistory: seq<HistoryEntry> -> string, parseHistory: string -> Option<seq<HistoryEntry>>,
                 serialiseIds: seq<string> -> string, parseIds: string -> Option<seq<string>>,
                 serialiseMode: ExplanationMode -> string, parseMode: string -> Option<ExplanationMode>)
      ensures Valid() && this.storage == storage
      ensures fresh(history) && fresh(favorites) && fresh(lastMode)
      ensures history.storedValue == [] && favorites.storedValue == [] && lastMode.storedValue == Beginner
      ensures !isLoading && currentResults == None && currentInput == None
    {
      this.storage := storage;
      history := new Cell(HistoryKey, [], serialiseHistory, parseHistory, storage);
      favorites := new Cell(FavoritesKey, [], serialiseIds, parseIds, storage);
      lastMode := new Cell(LastModeKey, Beginner, serialiseMode, parseMode, storage);
      isLoading := false;
      currentResults := None;
      currentInput := None;
    }

    /** The load effects of the three cells after the first render. */
    method Mount()
      requires Valid()
      modifies history`storedValue, favorites`storedValue, lastMode`storedValue
      ensures Valid()
      ensures history.storedValue == Loaded(old(history.storedValue), GetItem(storage.items, HistoryKey), storage.failsReads, history.parse)
      ensures favorites.storedValue == Loaded(old(favorites.storedValue), GetItem(storage.items, FavoritesKey), storage.failsReads, favorites.parse)
      ensures lastMode.storedValue == Loaded(old(lastMode.storedValue), GetItem(storage.items, LastModeKey), storage.failsReads, lastMode.parse)
    {
      history.LoadEffect();
      favorites.LoadEffect();
      lastMode.LoadEffect();
    }

    /** `handleFormSubmit`, with the three AI outcomes, the generated id and
        the clock reading as inputs. The new entry records the submitted text
        and mode unchanged and heads the bounded history; a failed call only
        leaves its fields out. */
    method HandleFormSubmit(values: InputForm.InputFormValues, sentence: Settled<SentenceReply>,
                            term: Settled<TermReply>, explain: Settled<ExplainReply>,
                            id: string, now: int)
      requires Valid()
      modifies this, history`storedValue, lastMode`storedValue, storage`items
      ensures Valid()
      ensures !isLoading
      ensures currentInput == Some(values)
      ensures currentResults == Some(BuildResults(sentence, term, explain))
      ensures lastMode.storedValue == values.mode
      ensures history.storedValue
           == Record(old(history.storedValue),
                     HistoryEntry(id, now, values.turkishInput, values.mode, BuildResults(sentence, term, explain)))
      ensures favorites.storedValue == old(favorites.storedValue)
      ensures storage.failsWrites ==> storage.items == old(storage.items)
      ensures !storage.failsWrites ==>
                storage.items == old(storage.items)[LastModeKey := lastMode.serialise(lastMode.storedValue)]
                                                   [HistoryKey := history.serialise(history.storedValue)]
    {
      isLoading := true;
      currentResults := None;
      currentInput := Some(values);
      lastMode.SetValue(Assign(values.mode));
      var results := BuildResults(sentence, term, explain);
      currentResults := Some(results);
      var entry := HistoryEntry(id, now, values.turkishInput, values.mode, results);
      history.SetValue(Update(prev => Record(prev, entry)));
      isLoading := false;
    }

    /** `handleSelectHistoryItem`: shows a recorded entry again. */
    method HandleSelectHistoryItem(item: HistoryEntry)
      modifies this
      ensures currentInput == Some(InputForm.InputFormValues(item.turkishInput, item.mode))
      ensures currentResults == Some(item.results)
      ensures isLoading == old(isLoading)
    {
      currentInput := Some(InputForm.InputFormValues(item.turkishInput, item.mode));
      currentResults := Some(item.results);
    }

    /** `handleToggleFavorite` */
    method HandleToggleFavorite(itemId: string)
      requires Valid()
      modifies favorites`storedValue, storage`items
      ensures Valid()
      ensures favorites.storedValue == Toggle(old(favorites.storedValue), itemId)
      ensures history.storedValue == old(history.storedValue)
      ensures storage.failsWrites ==> storage.items == old(storage.items)
      ensures !storage.failsWrites ==>
                storage.items == old(storage.items)[FavoritesKey := favorites.serialise(favorites.storedValue)]
    {
      favorites.SetValue(Update(prev => Toggle(prev, itemId)));
    }

    /** `handleClearHistory`: the history is emptied, and the favourites lose
        exactly the ids of the entries that were in it. */
    method HandleClearHistory()
      requires Valid()
      modifies history`storedValue, favorites`storedValue, storage`items
      ensures Valid()
      ensures history.storedValue == []
      ensures favorites.storedValue == PruneFavorites(old(favorites.storedValue), old(history.storedValue))
      ensures FavoriteEntries() == []
      ensures storage.failsWrites ==> storage.items == old(storage.items)
      ensures !storage.failsWrites ==>
                storage.items == old(storage.items)[HistoryKey := history.serialise([])]
                                                   [FavoritesKey := favorites.serialise(favorites.storedValue)]
    {
      var cleared := history.storedValue;
      history.SetValue(Assign([]));
      favorites.SetValue(Update(prev => PruneFavorites(prev, cleared)));
    }

    /** `handleClearFavorites`: nothing is favourite any more, and the history
        is untouched. */
    method HandleClearFavorites()
      requires Valid()
      modifies favorites`storedValue, storage`items
      ensures Valid()
      ensures favorites.storedValue == []
      ensures history.storedValue == old(history.storedValue)
      ensures FavoriteEntries() == []
      ensures storage.failsWrites ==> storage.items == old(storage.items)
      ensures !storage.failsWrites ==> storage.items == old(storage.items)[FavoritesKey := favorites.serialise([])]
    {
      favorites.SetValue(Assign([]));
      FilterKeepsNone(history.storedValue, IsFavorite([]));
    }

    /** `favoriteEntries` as rendered. */
    function FavoriteEntries(): seq<HistoryEntry>
      reads this, history, favorites
    {
      FavoriteView(history.storedValue, favorites.storedValue)
    }

    /** The `defaultValues` handed to the form:
        `{ turkishInput: currentInput?.turkishInput || '', mode: currentInput?.mode || lastMode }`. */
    function FormDefaults(): (r: InputForm.PartialInput)
      reads this, lastMode
      ensures r.turkishInput.Some? && r.mode.Some?
      ensures currentInput.None? ==> r.turkishInput.value == "" && r.mode.value == lastMode.storedValue
      ensures currentInput.Some? ==> (r.turkishInput.value == currentInput.value.turkishInput
                                      && r.mode.value == currentInput.value.mode)
    {
      match currentInput
      case Some(v) => InputForm.PartialInput(Some(v.turkishInput), Some(v.mode))
      case None => InputForm.PartialInput(Some(""), Some(lastMode.storedValue))
    }
  }

  /** Clearing the history while a submission awaits its replies, as the
      code runs it: the submission's `setHistory` was created by the render
      in which it started, so its updater extends that render's history and
      the entries just cleared come back behind the new one. */
  method ClearDuringSubmitAsWritten(p: Page, entry: HistoryEntry)
    requires p.Valid() && p.history.storedValue != []
    modifies p.history`storedValue, p.favorites`storedValue, p.storage`items
    ensures p.history.storedValue == Record(old(p.history.storedValue), entry)
    ensures old(p.history.storedValue)[0] in p.history.storedValue
  {
    var rendered := p.history.storedValue;
    p.HandleClearHistory();
    p.history.SetValueFromRender(Update(prev => Record(prev, entry)), rendered);
    assert p.history.storedValue[1] == rendered[0];
  }

  /** The same interleaving with the updater applied to the current state,
      as a functional update is meant to be: the history stays cleared
      except for the new entry. */
  method ClearDuringSubmitIntended(p: Page, values: InputForm.InputFormValues, sentence: Settled<SentenceReply>,
                                   term: Settled<TermReply>, explain: Settled<ExplainReply>, id: string, now: int)
    requires p.Valid()
    modifies p, p.history`storedValue, p.favorites`storedValue, p.lastMode`storedValue, p.storage`items
    ensures p.history.storedValue
         == [HistoryEntry(id, now, values.turkishInput, values.mode, BuildResults(sentence, term, explain))]
  {
    p.HandleClearHistory();
    p.HandleFormSubmit(values, sentence, term, explain, id, now);
  }
}
