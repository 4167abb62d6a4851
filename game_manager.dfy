/**
 * `GameManager`: the game-state and language setters that fire their change
 * events only on an actual change, their context-menu wrappers, and the
 * `GetSharedValues` routine.
 */
module Game {
  import opened Common
  import opened Localization

  /** `Utils.GameStates`, in declaration order (the default value is `Paused`). */
  datatype GameStates = Paused | Loading | Playing

  /** The value `GetSharedValues` fixes `MouseSensitivity` to. */
  const SharedSensitivity: real := 5.0

  class GameManager {
    var gameState: GameStates
    var currentLanguage: Language
    /** Has a private setter and no code assigns it, so it keeps its default 0. */
    var targetFrameRate: int
    var mouseSensitivity: real
    var sharedValuesRoutine: Handle
    /** `GetSharedValues` suspended at its `yield return null` (:45), by routine number. */
    var sharedValuesLive: Option<nat>
    /** The arguments of every `OnGameStateChanged` invocation, oldest first. */
    var stateChanges: seq<GameStates>
    /** The arguments of every `LanguageChanged` invocation, oldest first. */
    var languageChanges: seq<Language>
    /** The static `Localization` tables, which `SetLanguage` reloads. */
    const table: LocalizationTable

    ghost predicate Valid()
      reads this
    {
      && (sharedValuesLive.Some? ==> sharedValuesRoutine == Routine(sharedValuesLive.value))
      && targetFrameRate == 0
    }

    /**
     * The property defaults followed by `OnAwake`. `MouseSensitivity` is
     * still 0 when `GetSharedValues` starts, so the routine yields at once and
     * `StartCoroutine`'s handle (routine 0) is stored.
     */
    constructor (gameStateStartsAsPlaying: bool, table: LocalizationTable)
      ensures Valid() && this.table == table
      ensures gameState == (if gameStateStartsAsPlaying then Playing else Paused)
      ensures stateChanges == (if gameStateStartsAsPlaying then [Playing] else [])
      ensures currentLanguage == En && languageChanges == []
      ensures mouseSensitivity == 0.0 && sharedValuesLive == Some(0) && sharedValuesRoutine == Routine(0)
    {
      gameState := Paused;
      currentLanguage := En;
      targetFrameRate := 0;
      mouseSensitivity := 0.0;
      stateChanges := [];
      languageChanges := [];
      this.table := table;
      sharedValuesRoutine := Null;
      sharedValuesLive := None;
      new;
      if gameStateStartsAsPlaying {
        SetGameState(Playing);
      }
      sharedValuesLive := Some(0);
      sharedValuesRoutine := Routine(0);
    }

    /** One frame: a suspended `GetSharedValues` resumes, sets the sensitivity and clears its handle. */
    method Tick()
      requires Valid()
      modifies this
      ensures Valid()
      ensures old(sharedValuesLive).Some? ==>
        mouseSensitivity == SharedSensitivity && sharedValuesRoutine == Null && sharedValuesLive.None?
      ensures old(sharedValuesLive).None? ==>
        mouseSensitivity == old(mouseSensitivity) && sharedValuesRoutine == old(sharedValuesRoutine) && sharedValuesLive.None?
      ensures gameState == old(gameState) && currentLanguage == old(currentLanguage)
      ensures stateChanges == old(stateChanges) && languageChanges == old(languageChanges)
    {
      if sharedValuesLive.Some? {
        mouseSensitivity := SharedSensitivity;
        sharedValuesRoutine := Null;
        sharedValuesLive := None;
      }
    }

    /**
     * `SetLanguage(language)`. `file` is what the language file of `language`
     * loads as; `ctx` holds the engine facts the log line's `Translate` call
     * consults, with `_gm` taken to be this manager.
     */
    method SetLanguage(language: Language, file: LangFile, isPlaying: bool, quitting: bool)
      requires Valid()
      modifies this, table
      ensures Valid()
      ensures old(currentLanguage) == language ==>
        languageChanges == old(languageChanges) && table.State() == old(table.State())
      ensures old(currentLanguage) != language ==>
        && languageChanges == old(languageChanges) + [language]
        && table.State() == LoadOutcome(old(table.State()), language, file)
      ensures currentLanguage == language
      ensures gameState == old(gameState) && stateChanges == old(stateChanges)
      ensures mouseSensitivity == old(mouseSensitivity) && sharedValuesLive == old(sharedValuesLive)
      ensures sharedValuesRoutine == old(sharedValuesRoutine)
    {
      if currentLanguage == language {
        return;
      }
      currentLanguage := language;
      table.LoadLanguage(language, file);
      ghost var loaded := table.State();
      var _ := table.Translate("log.lang", Context(isPlaying, quitting, Some(currentLanguage)), file);
      LoadTwiceIsLoadOnce(old(table.State()), language, file);
      assert table.State() == loaded;
      languageChanges := languageChanges + [currentLanguage];
    }

    method SetLanguageToEnglish(file: LangFile, isPlaying: bool, quitting: bool)
      requires Valid()
      modifies this, table
      ensures Valid() && currentLanguage == En
      ensures old(currentLanguage) == En ==>
        languageChanges == old(languageChanges) && table.State() == old(table.State())
      ensures old(currentLanguage) != En ==>
        && languageChanges == old(languageChanges) + [En]
        && table.State() == LoadOutcome(old(table.State()), En, file)
      ensures gameState == old(gameState) && stateChanges == old(stateChanges)
      ensures mouseSensitivity == old(mouseSensitivity) && sharedValuesLive == old(sharedValuesLive)
      ensures sharedValuesRoutine == old(sharedValuesRoutine)
    {
      SetLanguage(En, file, isPlaying, quitting);
    }

    method SetLanguageToSpanish(file: LangFile, isPlaying: bool, quitting: bool)
      requires Valid()
      modifies this, table
      ensures Valid() && currentLanguage == Es
      ensures old(currentLanguage) == Es ==>
        languageChanges == old(languageChanges) && table.State() == old(table.State())
      ensures old(currentLanguage) != Es ==>
        && languageChanges == old(languageChanges) + [Es]
        && table.State() == LoadOutcome(old(table.State()), Es, file)
      ensures gameState == old(gameState) && stateChanges == old(stateChanges)
      ensures mouseSensitivity == old(mouseSensitivity) && sharedValuesLive == old(sharedValuesLive)
      ensures sharedValuesRoutine == old(sharedValuesRoutine)
    {
      SetLanguage(Es, file, isPlaying, quitting);
    }

    /** `SetGameState(state)`: fires `OnGameStateChanged(state)` once, and only on a change. */
    method SetGameState(state: GameStates)
      modifies this`gameState, this`stateChanges
      ensures gameState == state
      ensures old(gameState) == state ==> stateChanges == old(stateChanges)
      ensures old(gameState) != state ==> stateChanges == old(stateChanges) + [state]
    {
      if gameState == state {
        return;
      }
      gameState := state;
      stateChanges := stateChanges + [gameState];
    }

    /** The menu entry labelled "SetGameStateToLoading", whose method name says GameOver: it sets `Loading`. */
    method SetGameStateToGameOver()
      modifies this`gameState, this`stateChanges
      ensures gameState == Loading
      ensures old(gameState) == Loading ==> stateChanges == old(stateChanges)
      ensures old(gameState) != Loading ==> stateChanges == old(stateChanges) + [Loading]
    {
      SetGameState(Loading);
    }

    method SetGameStateToPlaying()
      modifies this`gameState, this`stateChanges
      ensures gameState == Playing
      ensures old(gameState) == Playing ==> stateChanges == old(stateChanges)
      ensures old(gameState) != Playing ==> stateChanges == old(stateChanges) + [Playing]
    {
      SetGameState(Playing);
    }

    method SetGameStateToPaused()
      modifies this`gameState, this`stateChanges
      ensures gameState == Paused
      ensures old(gameState) == Paused ==> stateChanges == old(stateChanges)
      ensures old(gameState) != Paused ==> stateChanges == old(stateChanges) + [Paused]
    {
      SetGameState(Paused);
    }
  }
}
