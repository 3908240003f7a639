/** The process-wide UI store: the search term and the dark-mode flag, with the two
    side effects of its transitions kept as state: whether the document carries the
    `dark` class, and the snapshot the persistence layer last wrote under
    `ui-storage`, which holds the dark-mode flag only. */
module UiStore {
  import opened Wrappers

  /** What `partialize` keeps of the state. */
  datatype PersistedUi = PersistedUi(isDarkMode: bool)

  /** The store, its document class and its stored snapshot, as one value. */
  datatype UiWorld = UiWorld(
    searchTerm: string,
    isDarkMode: bool,
    documentDark: bool,
    persisted: Option<PersistedUi>)

  /** The four mutations of the store. */
  datatype UiAction =
    | SetSearchTerm(term: string)
    | ClearSearch
    | ToggleTheme
    | SetTheme(isDark: bool)

  /** `partialize: (state) => ({ isDarkMode: state.isDarkMode })`. */
  function Partialize(w: UiWorld): PersistedUi
  {
    PersistedUi(w.isDarkMode)
  }

  /** The store as created: an empty search term and the dark-mode flag from the
      stored snapshot when there is one, else from the colour-scheme preference.
      Rehydration merges the snapshot into the state and writes nothing; the
      document class is left as it was. */
  function Initial(prefersDark: bool, stored: Option<PersistedUi>, documentDark: bool): (w: UiWorld)
    ensures w.searchTerm == ""
    ensures w.isDarkMode == (if stored.Some? then stored.value.isDarkMode else prefersDark)
    ensures w.documentDark == documentDark && w.persisted == stored
  {
    UiWorld("", if stored.Some? then stored.value.isDarkMode else prefersDark, documentDark, stored)
  }

  /** One mutation: the new state, with the document class set for a theme
      change, and the persistence layer writing the partialized new state after
      every `set`. */
  function Step(w: UiWorld, a: UiAction): (r: UiWorld)
    ensures r.persisted == Some(Partialize(r))
    ensures a.SetSearchTerm? || a.ClearSearch? ==>
              r.isDarkMode == w.isDarkMode && r.documentDark == w.documentDark
    ensures a.ToggleTheme? || a.SetTheme? ==> r.searchTerm == w.searchTerm && r.documentDark == r.isDarkMode
  {
    var s := match a
      case SetSearchTerm(term) => w.(searchTerm := term)
      case ClearSearch => w.(searchTerm := "")
      case ToggleTheme => w.(isDarkMode := !w.isDarkMode, documentDark := !w.isDarkMode)
      case SetTheme(isDark) => w.(isDarkMode := isDark, documentDark := isDark);
    s.(persisted := Some(Partialize(s)))
  }

  /** A run of mutations, first to last. */
  function Run(w: UiWorld, actions: seq<UiAction>): UiWorld
    decreases |actions|
  {
    if actions == [] then w else Run(Step(w, actions[0]), actions[1..])
  }

  /** The stored snapshot never disagrees with the live flag: it is absent, or it
      holds the current dark-mode value. */
  predicate Consistent(w: UiWorld)
  {
    w.persisted.None? || w.persisted.value.isDarkMode == w.isDarkMode
  }

  /** What each mutation does to the state. */
  lemma StepEffects(w: UiWorld, a: UiAction)
    ensures a.SetSearchTerm? ==> Step(w, a).searchTerm == a.term
    ensures a.ClearSearch? ==> Step(w, a).searchTerm == ""
    ensures a.ToggleTheme? ==> Step(w, a).isDarkMode == !w.isDarkMode
    ensures a.SetTheme? ==> Step(w, a).isDarkMode == a.isDark
  {
  }

  /** A search mutation leaves the stored snapshot as it was whenever one exists:
      only the dark-mode flag is persisted, and it does not change. */
  lemma SearchKeepsSnapshot(w: UiWorld, a: UiAction)
    requires Consistent(w) && w.persisted.Some?
    requires a.SetSearchTerm? || a.ClearSearch?
    ensures Step(w, a).persisted == w.persisted
  {
  }

  lemma InitialConsistent(prefersDark: bool, stored: Option<PersistedUi>, documentDark: bool)
    ensures Consistent(Initial(prefersDark, stored, documentDark))
  {
  }

  /** Every run of mutations keeps the snapshot in step with the flag. */
  lemma {:induction false} RunConsistent(w: UiWorld, actions: seq<UiAction>)
    requires Consistent(w)
    ensures Consistent(Run(w, actions))
    decreases |actions|
  {
    if actions != [] {
      RunConsistent(Step(w, actions[0]), actions[1..]);
    }
  }

  /** Toggling twice restores the whole state: term, flag and document class, and
      the snapshot is then the one for the original flag. */
  lemma ToggleTwice(w: UiWorld)
    requires w.documentDark == w.isDarkMode
    ensures Run(w, [ToggleTheme, ToggleTheme]) == w.(persisted := Some(Partialize(w)))
  {
    var once := Step(w, ToggleTheme);
    assert [ToggleTheme, ToggleTheme][1..] == [ToggleTheme];
    assert [ToggleTheme][1..] == [];
    assert Run(w, [ToggleTheme, ToggleTheme]) == Run(once, [ToggleTheme]);
    assert Run(once, [ToggleTheme]) == Step(once, ToggleTheme);
  }

  /** From any state, toggling twice restores the term and the flag, leaves the
      document class showing the flag, and stores the snapshot of the flag. */
  lemma ToggleTwiceRestores(w: UiWorld)
    ensures var w2 := Run(w, [ToggleTheme, ToggleTheme]);
      && w2.searchTerm == w.searchTerm && w2.isDarkMode == w.isDarkMode
      && w2.documentDark == w.isDarkMode && w2.persisted == Some(Partialize(w))
  {
    var once := Step(w, ToggleTheme);
    assert [ToggleTheme, ToggleTheme][1..] == [ToggleTheme];
    assert [ToggleTheme][1..] == [];
    assert Run(w, [ToggleTheme, ToggleTheme]) == Run(once, [ToggleTheme]);
    assert Run(once, [ToggleTheme]) == Step(once, ToggleTheme);
  }

  /** Clearing twice is clearing once; so is setting the same theme twice. */
  lemma Idempotent(w: UiWorld, b: bool)
    ensures Step(Step(w, ClearSearch), ClearSearch) == Step(w, ClearSearch)
    ensures Step(Step(w, SetTheme(b)), SetTheme(b)) == Step(w, SetTheme(b))
  {
  }

  /** Search mutations and theme mutations do not interfere: the term depends
      only on the last search mutation and the flag only on theme mutations. */
  lemma SearchAndThemeCommute(w: UiWorld, term: string, a: UiAction)
    requires a.ToggleTheme? || a.SetTheme?
    ensures Step(Step(w, SetSearchTerm(term)), a) == Step(Step(w, a), SetSearchTerm(term))
    ensures Step(Step(w, ClearSearch), a) == Step(Step(w, a), ClearSearch)
  {
  }

  /** After any run that ends in a theme mutation, the document class shows the
      current flag. */
  lemma {:induction false} DocumentFollowsLastTheme(w: UiWorld, actions: seq<UiAction>)
    requires actions != [] && (actions[|actions| - 1].ToggleTheme? || actions[|actions| - 1].SetTheme?)
    ensures Run(w, actions).documentDark == Run(w, actions).isDarkMode
    decreases |actions|
  {
    if |actions| > 1 {
      DocumentFollowsLastTheme(Step(w, actions[0]), actions[1..]);
    }
  }

  /** The store object; each method is one mutation. */
  class Store {
    var searchTerm: string
    var isDarkMode: bool
    /** Whether `document.documentElement` carries the `dark` class. */
    var documentDark: bool
    /** The `ui-storage` entry of local storage, absent until first written. */
    var persisted: Option<PersistedUi>

    function World(): UiWorld
      reads this
    {
      UiWorld(searchTerm, isDarkMode, documentDark, persisted)
    }

    /** `create(persist(...))` with the colour-scheme preference, the snapshot found
        in storage and the document's current class. */
    constructor(prefersDark: bool, stored: Option<PersistedUi>, documentHasDark: bool)
      ensures World() == Initial(prefersDark, stored, documentHasDark)
      ensures Consistent(World())
    {
      searchTerm := "";
      isDarkMode := if stored.Some? then stored.value.isDarkMode else prefersDark;
      documentDark := documentHasDark;
      persisted := stored;
    }

    method SetSearchTerm(term: string)
      modifies this
      ensures World() == Step(old(World()), UiAction.SetSearchTerm(term))
      ensures Consistent(World())
    {
      searchTerm := term;
      persisted := Some(PersistedUi(isDarkMode));
    }

    method ClearSearch()
      modifies this
      ensures World() == Step(old(World()), UiAction.ClearSearch)
      ensures Consistent(World())
    {
      searchTerm := "";
      persisted := Some(PersistedUi(isDarkMode));
    }

    method ToggleTheme()
      modifies this
      ensures World() == Step(old(World()), UiAction.ToggleTheme)
      ensures isDarkMode == !old(isDarkMode) && documentDark == isDarkMode
      ensures Consistent(World())
    {
      var newMode := !isDarkMode;
      documentDark := newMode;
      isDarkMode := newMode;
      persisted := Some(PersistedUi(isDarkMode));
    }

    method SetTheme(isDark: bool)
      modifies this
      ensures World() == Step(old(World()), UiAction.SetTheme(isDark))
      ensures isDarkMode == isDark && documentDark == isDark
      ensures Consistent(World())
    {
      documentDark := isDark;
      isDarkMode := isDark;
      persisted := Some(PersistedUi(isDarkMode));
    }
  }
}
