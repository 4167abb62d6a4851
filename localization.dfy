/**
 * `Utils.Localization`: the static translation table, loaded from a JSON
 * language file, and the key lookup with its fall-backs.
 */
module Localization {
  import opened Common
  import opened Dict

  /** `Utils.Language`; the file of each is `Resources/Lang/<lower-case name>.json`. */
  datatype Language = En | Es

  /**
   * What `Resources.Load` and `JsonObject.Create` make of one language file:
   * no file, text that is not a JSON object, or an object's keys and its
   * list of values (each value's `stringValue`), in file order.
   */
  datatype LangFile =
    | Missing
    | NotAnObject
    | JsonObject(keys: seq<string>, values: seq<string>)

  /** The file passes the checks of `LoadLanguage` (:72, :77): present, an object, `count > 0`. */
  predicate Accepted(file: LangFile)
  {
    file.JsonObject? && |file.values| > 0
  }

  /** The table and `_lang` after `LoadLanguage(language)` reads `file`. */
  datatype Loaded = Loaded(translations: map<string, string>, lang: Language)

  /**
   * Reference outcome of `LoadLanguage`. A rejected file changes nothing. An
   * accepted one replaces the table by its pairs, a later duplicate key
   * winning, and sets `_lang`. If the object has more keys than values, the
   * indexer throws at the first missing value: the table then holds the pairs
   * read so far and the `catch` leaves `_lang` as it was.
   */
  function LoadOutcome(old_: Loaded, language: Language, file: LangFile): (r: Loaded)
    ensures !Accepted(file) ==> r == old_
    ensures Accepted(file) && |file.keys| <= |file.values| ==>
      r.lang == language && r.translations.Keys == set k | k in file.keys
  {
    if !Accepted(file) then old_
    else if |file.keys| <= |file.values| then Loaded(LastWins(file.keys, file.values), language)
    else Loaded(LastWins(file.keys[..|file.values|], file.values), old_.lang)
  }

  /** Loading the same file twice is the same as loading it once. */
  lemma LoadTwiceIsLoadOnce(s: Loaded, language: Language, file: LangFile)
    ensures LoadOutcome(LoadOutcome(s, language, file), language, file) == LoadOutcome(s, language, file)
  {
  }

  /** A successful load looks up each key's last value in the file. */
  lemma LoadedValue(s: Loaded, language: Language, file: LangFile, i: nat)
    requires Accepted(file) && |file.keys| <= |file.values| && i < |file.keys|
    requires forall j :: i < j < |file.keys| ==> file.keys[j] != file.keys[i]
    ensures LoadOutcome(s, language, file).translations[file.keys[i]] == file.values[i]
  {
    LastWinsAt(file.keys, file.values, i);
  }

  /**
   * The engine facts `Translate` consults: `Application.isPlaying`,
   * `applicationIsQuitting`, and the current language of the GameManager
   * that `_gm` refers to once lines 103-109 have run (`None` when there is
   * none).
   */
  datatype Context = Context(isPlaying: bool, quitting: bool, manager: Option<Language>)

  /** The result of looking `key` up in a table, falling back to the key itself. */
  function Lookup(table: map<string, string>, key: string): (r: string)
    ensures key in table ==> r == table[key]
    ensures key !in table ==> r == key
  {
    if key in table then table[key] else key
  }

  /** `Translate` reloads exactly when the table is empty or was loaded for another language. */
  predicate NeedsReload(s: Loaded, current: Language)
  {
    |s.translations| == 0 || s.lang != current
  }

  /** The static state of `Localization`: `Translations` and `_lang`. */
  class LocalizationTable {
    var translations: map<string, string>
    var lang: Language

    function State(): Loaded
      reads this
    {
      Loaded(translations, lang)
    }

    /** The static initialisers: an empty table and `_lang = En`. */
    constructor ()
      ensures translations == map[] && lang == En
    {
      translations := map[];
      lang := En;
    }

    /** `LoadLanguage(language)`, with `file` what loading its resource yields. */
    method LoadLanguage(language: Language, file: LangFile)
      modifies this
      ensures State() == LoadOutcome(old(State()), language, file)
    {
      if file.Missing? {
        return;
      }
      if file.NotAnObject? || |file.values| == 0 {
        return;
      }
      translations := map[];
      var i := 0;
      while i < |file.keys|
        invariant 0 <= i <= |file.keys| && i <= |file.values|
        invariant translations == LastWins(file.keys[..i], file.values[..i])
        invariant lang == old(lang)
      {
        if i >= |file.values| {
          // `json.list[i]` is out of range: the exception ends the load here.
          assert file.keys[..|file.values|] == file.keys[..i];
          assert file.values[..i] == file.values;
          return;
        }
        LastWinsSnoc(file.keys, file.values, i);
        translations := translations[file.keys[i] := file.values[i]];
        i := i + 1;
      }
      assert file.keys[..i] == file.keys;
      assert LastWins(file.keys, file.values[..i]) == LastWins(file.keys, file.values);
      lang := language;
    }

    /**
     * `Translate(key)`, with `file` what the language file of the
     * manager's current language loads as.
     */
    method Translate(key: string, ctx: Context, file: LangFile) returns (r: string)
      modifies this
      ensures !ctx.isPlaying || ctx.quitting || ctx.manager.None? ==>
        r == key && State() == old(State())
      ensures ctx.isPlaying && !ctx.quitting && ctx.manager.Some? ==>
        State() == (if NeedsReload(old(State()), ctx.manager.value)
                    then LoadOutcome(old(State()), ctx.manager.value, file)
                    else old(State()))
      ensures ctx.isPlaying && !ctx.quitting && ctx.manager.Some? ==> r == Lookup(translations, key)
    {
      if !ctx.isPlaying || ctx.quitting {
        return key;
      }
      if ctx.manager.None? {
        return key;
      }
      var current := ctx.manager.value;
      if |translations| == 0 || lang != current {
        LoadLanguage(current, file);
      }
      if key in translations {
        return translations[key];
      }
      return key;
    }
  }

  /**
   * `SerializableDictionary.ToDictionary`: `dictionary[keys[i]] = values[i]`
   * for every key index; `None` where `values[i]` is out of range and the
   * indexer throws.
   */
  method ToDictionary(keys: seq<string>, values: seq<string>) returns (r: Option<map<string, string>>)
    ensures r.Some? <==> |keys| <= |values|
    ensures r.Some? ==> r.value == LastWins(keys, values)
    ensures r.Some? ==> r.value.Keys == set k | k in keys
  {
    var dictionary: map<string, string> := map[];
    var i := 0;
    while i < |keys|
      invariant 0 <= i <= |keys| && i <= |values|
      invariant dictionary == LastWins(keys[..i], values[..i])
    {
      if i >= |values| {
        return None;
      }
      LastWinsSnoc(keys, values, i);
      dictionary := dictionary[keys[i] := values[i]];
      i := i + 1;
    }
    assert keys[..i] == keys;
    assert LastWins(keys, values[..i]) == LastWins(keys, values);
    return Some(dictionary);
  }
}
