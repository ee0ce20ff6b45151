/** The hover translation of one English word
    (src/components/word-hover-translate.tsx): opening the tooltip starts at
    most one translation, words that need none are shown as they are, and a
    failure is remembered. The translation call is split into its start (a
    request returned to the environment) and its settlement (the reply
    given back). */
module WordHoverTranslate {
  import opened Types

  const TranslationError: string := "Çeviri hatası"

  /** The characters `String.prototype.trim` removes: the ECMAScript
      white space and line terminator code points. */
  predicate IsWhitespace(c: char)
  {
    || c == '\t' || c == '\n' || c == '\U{000B}' || c == '\U{000C}' || c == '\r' || c == ' '
    || c == '\U{00A0}' || c == '\U{1680}' || ('\U{2000}' <= c <= '\U{200A}')
    || c == '\U{2028}' || c == '\U{2029}' || c == '\U{202F}' || c == '\U{205F}'
    || c == '\U{3000}' || c == '\U{FEFF}'
  }

  /** Leading white space removed: a suffix of `s` that starts with a
      non-space, everything before it being white space. */
  function TrimStart(s: string): (r: string)
    ensures |r| <= |s| && r == s[|s| - |r|..]
    ensures forall i :: 0 <= i < |s| - |r| ==> IsWhitespace(s[i])
    ensures r != [] ==> !IsWhitespace(r[0])
  {
    if s != [] && IsWhitespace(s[0]) then TrimStart(s[1..]) else s
  }

  /** Trailing white space removed: a prefix of `s` that ends with a
      non-space, everything after it being white space. */
  function TrimEnd(s: string): (r: string)
    ensures |r| <= |s| && r == s[..|r|]
    ensures forall i :: |r| <= i < |s| ==> IsWhitespace(s[i])
    ensures r != [] ==> !IsWhitespace(r[|r| - 1])
  {
    if s != [] && IsWhitespace(s[|s| - 1]) then TrimEnd(s[..|s| - 1]) else s
  }

  /** `s.trim()` */
  function Trim(s: string): (r: string)
    ensures r != [] ==> !IsWhitespace(r[0]) && !IsWhitespace(r[|r| - 1])
  {
    TrimEnd(TrimStart(s))
  }

  /** A string with no white space at either end is its own trim. */
  lemma TrimKeepsTrimmed(s: string)
    requires s != [] ==> !IsWhitespace(s[0]) && !IsWhitespace(s[|s| - 1])
    ensures Trim(s) == s
  {
  }

  /** Trimming twice is trimming once. */
  lemma TrimIsIdempotent(s: string)
    ensures Trim(Trim(s)) == Trim(s)
  {
    TrimKeepsTrimmed(Trim(s));
  }

  /** A string of white space only trims to the empty string, and only it. */
  lemma {:induction false} TrimEmptyExactlyForBlank(s: string)
    ensures Trim(s) == [] <==> forall i :: 0 <= i < |s| ==> IsWhitespace(s[i])
  {
    var t := TrimStart(s);
    if forall i :: 0 <= i < |s| ==> IsWhitespace(s[i]) {
      assert t == [];
    }
  }

  predicate IsAsciiLetter(c: char)
  {
    'a' <= c <= 'z' || 'A' <= c <= 'Z'
  }

  /** `s.match(/[a-zA-Z]/)` finds something. */
  predicate HasAsciiLetter(s: string)
  {
    exists i :: 0 <= i < |s| && IsAsciiLetter(s[i])
  }

  /** `/^\d+$/.test(s)`: one or more ASCII digits and nothing else. */
  predicate AllDigits(s: string)
  {
    |s| >= 1 && forall i :: 0 <= i < |s| ==> '0' <= s[i] <= '9'
  }

  /** What `fetchTranslation` decides before any call. */
  datatype Plan = ShowAsIs(shown: string) | Translate(query: string)

  /** Nothing is translated when the trimmed word is empty (the word itself
      is then shown), is a single character that is not an ASCII letter, or
      is all digits (the trimmed word is then shown). Every other word is
      translated, trimmed. */
  function PlanFor(word: string): (p: Plan)
    ensures p.Translate? <==> (var t := Trim(word);
                                t != [] && !(|t| <= 1 && !HasAsciiLetter(t)) && !AllDigits(t))
    ensures p.Translate? ==> p.query == Trim(word)
    ensures p.ShowAsIs? && Trim(word) == [] ==> p.shown == word
    ensures p.ShowAsIs? && Trim(word) != [] ==> p.shown == Trim(word)
  {
    var trimmed := Trim(word);
    if trimmed == [] then ShowAsIs(word)
    else if |trimmed| <= 1 && !HasAsciiLetter(trimmed) then ShowAsIs(trimmed)
    else if AllDigits(trimmed) then ShowAsIs(trimmed)
    else Translate(trimmed)
  }

  /** A query sent for translation is a trimmed word of two or more
      characters that is not a number, or a single ASCII letter. */
  lemma QueriesAreWords(word: string)
    requires PlanFor(word).Translate?
    ensures var q := PlanFor(word).query;
            && q == Trim(q)
            && (|q| >= 2 || (|q| == 1 && IsAsciiLetter(q[0])))
            && exists i :: 0 <= i < |q| && !('0' <= q[i] <= '9')
  {
    var q := PlanFor(word).query;
    TrimIsIdempotent(word);
    if |q| == 1 {
      assert HasAsciiLetter(q);
      var i :| 0 <= i < |q| && IsAsciiLetter(q[i]);
      assert i == 0;
    }
  }

  /** Words differing only in surrounding white space are treated alike,
      unless they are blank. */
  lemma PlanIgnoresSurroundingSpace(word: string)
    requires Trim(word) != []
    ensures PlanFor(Trim(word)) == PlanFor(word)
  {
    TrimIsIdempotent(word);
  }

  /** What the tooltip shows. */
  datatype Content = Loading | Translation(text: string) | ErrorText(message: string) | Preparing | Empty

  class WordHover {
    const word: string
    var translatedWord: Option<string>
    var isLoading: bool
    var isTooltipOpen: bool
    var error: Option<string>

    /** While a translation runs nothing is shown as translated and there is
        no error; an error and a translation are never held together. */
    ghost predicate Valid()
      reads this
    {
      && (isLoading ==> !Truthy(translatedWord) && error.None?)
      && (error.Some? ==> translatedWord.None? && error == Some(TranslationError))
    }

    constructor (word: string)
      ensures Valid() && this.word == word
      ensures translatedWord == None && !isLoading && !isTooltipOpen && error == None
    {
      this.word := word;
      translatedWord := None;
      isLoading := false;
      isTooltipOpen := false;
      error := None;
    }

    /** The guard of `onOpenChange`. */
    predicate MayFetch(open: bool)
      reads this
    {
      open && !Truthy(translatedWord) && !isLoading && error.None?
    }

    /** `onOpenChange`: records the tooltip's state and, when the guard
        holds, runs `fetchTranslation` up to its call. The query handed to
        the translator, if any, is returned. */
    method OnOpenChange(open: bool) returns (request: Option<string>)
      requires Valid()
      modifies this
      ensures Valid()
      ensures isTooltipOpen == open
      ensures !old(MayFetch(open)) ==> (request == None && translatedWord == old(translatedWord)
                                       && isLoading == old(isLoading) && error == old(error))
      ensures old(MayFetch(open)) && PlanFor(word).ShowAsIs? ==>
                request == None && translatedWord == Some(PlanFor(word).shown) && !isLoading && error == None
      ensures old(MayFetch(open)) && PlanFor(word).Translate? ==>
                request == Some(PlanFor(word).query) && isLoading && error == None
                && translatedWord == old(translatedWord)
      ensures request.Some? ==> isLoading
    {
      var plan := PlanFor(word);
      var guard := MayFetch(open);
      isTooltipOpen := open;
      request := None;
      if guard {
        match plan {
          case ShowAsIs(shown) =>
            translatedWord := Some(shown);
          case Translate(query) =>
            isLoading := true;
            error := None;
            request := Some(query);
        }
      }
    }

    /** The settlement of the translation call: the reply's Turkish word, or
        the error message and no translation. Loading ends either way. */
    method TranslationSettled(reply: Reply<string>)
      requires Valid() && isLoading
      modifies this
      ensures Valid()
      ensures !isLoading && isTooltipOpen == old(isTooltipOpen)
      ensures reply.Returned? ==> translatedWord == Some(reply.value) && error == None
      ensures !reply.Returned? ==> translatedWord == None && error == Some(TranslationError)
    {
      match reply {
        case Returned(t) =>
          translatedWord := Some(t);
        case _ =>
          error := Some(TranslationError);
          translatedWord := None;
      }
      isLoading := false;
    }

    /** The tooltip's content. Under `Valid()` the four conditions of the
        markup are mutually exclusive. */
    function Shown(): Content
      reads this
    {
      if isLoading then Loading
      else if Truthy(translatedWord) then Translation(translatedWord.value)
      else if error.Some? then ErrorText(error.value)
      else if isTooltipOpen then Preparing
      else Empty
    }
  }

  /** The four conditional spans of the tooltip, as the markup writes them
      (a state string is shown when it is truthy). */
  predicate LoadingSpan(w: WordHover) reads w { w.isLoading }
  predicate TranslationSpan(w: WordHover) reads w { !w.isLoading && Truthy(w.translatedWord) }
  predicate ErrorSpan(w: WordHover) reads w { !w.isLoading && Truthy(w.error) }
  predicate PreparingSpan(w: WordHover) reads w
  {
    !w.isLoading && !Truthy(w.translatedWord) && !Truthy(w.error) && w.isTooltipOpen
  }

  /** In every reachable state at most one span of the markup is rendered,
      and `Shown` names the one that is, with its text. */
  lemma ShownMatchesMarkup(w: WordHover)
    requires w.Valid()
    ensures !(LoadingSpan(w) && TranslationSpan(w)) && !(LoadingSpan(w) && ErrorSpan(w))
            && !(TranslationSpan(w) && ErrorSpan(w))
            && !(PreparingSpan(w) && (LoadingSpan(w) || TranslationSpan(w) || ErrorSpan(w)))
    ensures w.Shown() == Loading <==> LoadingSpan(w)
    ensures w.Shown().Translation? <==> TranslationSpan(w)
    ensures w.Shown().ErrorText? <==> ErrorSpan(w)
    ensures w.Shown() == Preparing <==> PreparingSpan(w)
    ensures w.Shown() == Empty <==> !LoadingSpan(w) && !TranslationSpan(w) && !ErrorSpan(w) && !PreparingSpan(w)
    ensures w.Shown().Translation? ==> w.Shown().text == w.translatedWord.value
    ensures w.Shown().ErrorText? ==> w.Shown().message == w.error.value
  {
    assert TranslationError != "";
  }

  /** A failed word is never tried again: once the error is set, no opening
      of the tooltip starts a request, and the error stays. */
  method FailureIsFinal(w: WordHover, open: bool) returns (request: Option<string>)
    requires w.Valid() && w.error.Some?
    modifies w
    ensures request == None && w.error == Some(TranslationError)
    ensures w.Shown() == ErrorText(TranslationError)
  {
    request := w.OnOpenChange(open);
  }

  /** A word that was translated to a non-empty text is never requested again. */
  method TranslatedIsFinal(w: WordHover, open: bool) returns (request: Option<string>)
    requires w.Valid() && Truthy(w.translatedWord)
    modifies w
    ensures request == None && w.translatedWord == old(w.translatedWord)
  {
    request := w.OnOpenChange(open);
  }

  /** The blank word is stored as itself, the empty string, which the guard
      takes for "no translation yet": every opening runs the classification
      again. No request ever results, so nothing reaches the translator. */
  method EmptyWordIsReclassified(w: WordHover) returns (first: Option<string>, second: Option<string>)
    requires w.Valid() && w.word == "" && !w.isLoading && w.error.None? && !Truthy(w.translatedWord)
    modifies w
    ensures first == None && second == None
    ensures w.MayFetch(true) && w.translatedWord == Some("")
  {
    first := w.OnOpenChange(true);
    second := w.OnOpenChange(true);
  }
}
