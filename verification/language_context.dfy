/**
 * The client's language state (client/src/contexts/language-context.tsx): the initial choice
 * from localStorage and the browser, and `setLanguage`. localStorage and the document's `lang`
 * attribute are fields of the state; the saved value and `navigator.language` are inputs.
 */
module LanguageContext {
  import opened Wrappers
  import opened Text
  import I18n

  const DefaultLanguage: string := "en"

  /** The key under which the choice is saved is fixed; the state holds its value. */
  const StorageKey: string := "afrilearn-language"

  /**
   * The provider's state: the language in use, the value saved under `StorageKey` (None when
   * nothing is saved) and the document's `lang` attribute.
   */
  datatype LanguageState = LanguageState(language: string, saved: Option<string>, documentLang: string)

  /** The primary subtag of a browser language tag: the text before its first `-`. */
  function PrimarySubtag(tag: string): (p: string)
    ensures p <= tag && '-' !in p
    ensures |p| == |tag| || tag[|p|] == '-'
  {
    SplitHead(tag, '-');
    Split(tag, '-')[0]
  }

  /**
   * The initial language: the saved one if it is supported, else the browser language's primary
   * subtag if that is supported, else English.
   */
  function InitialLanguage(saved: Option<string>, browserLanguage: string): (l: string)
    ensures I18n.Supported(l)
    ensures saved.Some? && I18n.Supported(saved.value) ==> l == saved.value
    ensures !(saved.Some? && I18n.Supported(saved.value)) && I18n.Supported(PrimarySubtag(browserLanguage))
            ==> l == PrimarySubtag(browserLanguage)
    ensures !(saved.Some? && I18n.Supported(saved.value)) && !I18n.Supported(PrimarySubtag(browserLanguage))
            ==> l == DefaultLanguage
  {
    if saved.Some? && saved.value != "" && I18n.Supported(saved.value) then saved.value
    else if I18n.Supported(PrimarySubtag(browserLanguage)) then PrimarySubtag(browserLanguage)
    else
      assert I18n.AvailableLanguages[0].code == DefaultLanguage;
      DefaultLanguage
  }

  /** The state once the provider has mounted and its effect has set the document language. */
  function Start(saved: Option<string>, browserLanguage: string): (st: LanguageState)
    ensures st.language == InitialLanguage(saved, browserLanguage)
    ensures st.saved == saved
    ensures Consistent(st)
  {
    var l := InitialLanguage(saved, browserLanguage);
    LanguageState(l, saved, l)
  }

  /** What the provider keeps true: a supported language, shown as the document's language. */
  predicate Consistent(st: LanguageState) {
    I18n.Supported(st.language) && st.documentLang == st.language
  }

  /**
   * `setLanguage(code)`: a supported code is saved, becomes the language and the document's
   * language; any other code changes nothing.
   */
  function SetLanguage(st: LanguageState, code: string): (st': LanguageState)
    ensures I18n.Supported(code) ==> st'.language == code && st'.saved == Some(code) && st'.documentLang == code
    ensures !I18n.Supported(code) ==> st' == st
    ensures Consistent(st) ==> Consistent(st')
  {
    if I18n.Supported(code) then LanguageState(code, Some(code), code) else st
  }

  /** The state after a sequence of `setLanguage` calls. */
  function Replay(st: LanguageState, codes: seq<string>): LanguageState
    decreases |codes|
  {
    if |codes| == 0 then st else Replay(SetLanguage(st, codes[0]), codes[1..])
  }

  /** Position `i` holds a supported code and no later position does. */
  predicate LastAt(codes: seq<string>, i: int) {
    0 <= i < |codes| && I18n.Supported(codes[i]) && forall j :: i < j < |codes| ==> !I18n.Supported(codes[j])
  }

  /** The last supported code of a sequence, if any. */
  function LastSupported(codes: seq<string>): (c: Option<string>)
    ensures c.Some? ==> I18n.Supported(c.value) && c.value in codes
    ensures c.Some? ==> exists i :: LastAt(codes, i) && codes[i] == c.value
    ensures c.None? <==> forall i :: 0 <= i < |codes| ==> !I18n.Supported(codes[i])
    decreases |codes|
  {
    if |codes| == 0 then None
    else if I18n.Supported(codes[|codes| - 1]) then
      assert LastAt(codes, |codes| - 1);
      Some(codes[|codes| - 1])
    else
      var init := codes[..|codes| - 1];
      var c := LastSupported(init);
      LastAtExtends(codes);
      c
  }

  /** An unsupported code appended to a sequence keeps its last supported position. */
  lemma LastAtExtends(codes: seq<string>)
    requires |codes| > 0 && !I18n.Supported(codes[|codes| - 1])
    ensures forall i :: LastAt(codes[..|codes| - 1], i) ==> LastAt(codes, i)
  {
    var init := codes[..|codes| - 1];
    forall i | LastAt(init, i)
      ensures LastAt(codes, i)
    {
      assert forall j :: i < j < |init| ==> init[j] == codes[j];
    }
  }

  /** The language stays supported and shown on the document through any sequence of calls. */
  lemma {:induction false} ReplayConsistent(st: LanguageState, codes: seq<string>)
    requires Consistent(st)
    ensures Consistent(Replay(st, codes))
    decreases |codes|
  {
    if |codes| > 0 {
      ReplayConsistent(SetLanguage(st, codes[0]), codes[1..]);
    }
  }

  /**
   * After a sequence of calls the language is the last supported code and that code is saved;
   * with no supported code among them the state is the one they started from.
   */
  lemma {:induction false} ReplayPicksLastSupported(st: LanguageState, codes: seq<string>)
    ensures LastSupported(codes).Some? ==>
      Replay(st, codes) == LanguageState(LastSupported(codes).value, LastSupported(codes), LastSupported(codes).value)
    ensures LastSupported(codes).None? ==> Replay(st, codes) == st
    decreases |codes|
  {
    if |codes| > 0 {
      var rest := codes[1..];
      ReplayPicksLastSupported(SetLanguage(st, codes[0]), rest);
      if |rest| > 0 {
        assert rest[..|rest| - 1] == codes[1..|codes| - 1];
        assert codes[..|codes| - 1][1..] == codes[1..|codes| - 1];
        LastSupportedCons(codes);
      } else {
        assert codes == [codes[0]];
      }
    }
  }

  /** Dropping the first code changes the last supported one only when no later code is supported. */
  lemma {:induction false} LastSupportedCons(codes: seq<string>)
    requires |codes| > 0
    ensures LastSupported(codes[1..]).Some? ==> LastSupported(codes) == LastSupported(codes[1..])
    ensures LastSupported(codes[1..]).None? && I18n.Supported(codes[0]) ==> LastSupported(codes) == Some(codes[0])
    ensures LastSupported(codes[1..]).None? && !I18n.Supported(codes[0]) ==> LastSupported(codes).None?
    decreases |codes|
  {
    var tail := codes[1..];
    if |codes| == 1 {
      assert LastSupported(tail).None?;
    } else {
      var last := codes[|codes| - 1];
      assert tail[|tail| - 1] == last;
      if I18n.Supported(last) {
        assert LastSupported(codes) == Some(last);
        assert LastSupported(tail) == Some(last);
      } else {
        var init := codes[..|codes| - 1];
        assert tail[..|tail| - 1] == init[1..];
        LastSupportedCons(init);
        assert LastSupported(codes) == LastSupported(init);
        assert LastSupported(tail) == LastSupported(init[1..]);
      }
    }
  }

  /** A supported choice survives a reload: the next start reads it back, whatever the browser says. */
  lemma ChoiceSurvivesReload(st: LanguageState, code: string, browserLanguage: string)
    requires I18n.Supported(code)
    ensures Start(SetLanguage(st, code).saved, browserLanguage).language == code
  {
  }
}
