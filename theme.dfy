/** The light/dark theme provider: one state cell (`theme`), an effect that loads a
    stored preference once on mount, an effect that mirrors every theme onto the
    persisted slot and the document root's class list, and the toggle updater.

    `Theme` is the type of the values of THEME_MODES, which is declared without
    `as const`, so it is `string`: `setTheme` and `defaultTheme` take any string and
    only the load effect checks for the two modes. */
module Theme {
  import opened Js

  const Light: string := "light"
  const Dark: string := "dark"

  /** The localStorage key of the persisted preference. */
  const StorageKey: string := "theme"

  /** The message `useTheme` throws outside a provider. */
  const OutsideProviderError: string := "useTheme must be used within a ThemeProvider"

  /** The two values of THEME_MODES. */
  predicate IsMode(t: string) {
    t == Light || t == Dark
  }

  /** `localStorage.getItem(key)`: `null` when the key is absent. */
  function GetItem(storage: map<string, string>, key: string): (r: Option<string>)
    ensures r.Some? <==> key in storage
    ensures r.Some? ==> r.value == storage[key]
  {
    if key in storage then Some(storage[key]) else None
  }

  /** The theme after the load-on-mount effect, given what `getItem` returned and
      the current theme: the stored value is adopted only when it is truthy and one
      of the two modes. */
  function Loaded(saved: Option<string>, current: string): (r: string)
    ensures saved.Some? && IsMode(saved.value) ==> r == saved.value
    ensures !(saved.Some? && IsMode(saved.value)) ==> r == current
    ensures IsMode(r) || r == current
  {
    if Truthy(saved) && (saved.value == Light || saved.value == Dark) then saved.value else current
  }

  /** The `prev => ...` updater of `toggleTheme`. */
  function Toggled(prev: string): (next: string)
    ensures IsMode(next)
    ensures next == Dark <==> prev == Light
    ensures next != prev
  {
    if prev == Light then Dark else Light
  }

  /** The document root's class list after the sync effect ran with `theme`: the
      single marker class `dark` is added or removed, nothing else changes. */
  function SyncedRoot(classes: set<string>, theme: string): (r: set<string>)
    ensures Dark in r <==> theme == Dark
    ensures forall c :: c != Dark ==> (c in r <==> c in classes)
  {
    if theme == Dark then classes + {Dark} else classes - {Dark}
  }

  /** Toggling twice from either mode returns to it. */
  lemma ToggleTwiceFromMode(t: string)
    requires IsMode(t)
    ensures Toggled(Toggled(t)) == t
  {
  }

  /** From a value that is not a mode (which `setTheme` lets in), one toggle lands on
      `light` and a second on `dark`: the start is never reached again. */
  lemma ToggleTwiceFromOther(t: string)
    requires !IsMode(t)
    ensures Toggled(t) == Light && Toggled(Toggled(t)) == Dark
  {
  }

  /** Syncing the root depends only on the last theme synced: repeating a sync
      changes nothing (adding the marker is idempotent, so it never stacks), and a
      sync overrides any earlier one. */
  lemma SyncedRootLastWins(classes: set<string>, first: string, second: string)
    ensures SyncedRoot(SyncedRoot(classes, first), second) == SyncedRoot(classes, second)
    ensures SyncedRoot(SyncedRoot(classes, second), second) == SyncedRoot(classes, second)
  {
  }

  /** The provider together with the two browser resources its effects write: the
      persisted key-value store and the document root's class list. */
  class ThemeProvider {
    var theme: string
    var storage: map<string, string>
    var rootClasses: set<string>

    /** What the sync effect establishes: the persisted value and the root marker
        both agree with the theme. */
    predicate InSync()
      reads this
      ensures InSync() ==> GetItem(storage, StorageKey) == Some(theme)
      ensures InSync() ==> SyncedRoot(rootClasses, theme) == rootClasses
    {
      StorageKey in storage && storage[StorageKey] == theme && (Dark in rootClasses <==> theme == Dark)
    }

    /** The first render: the state cell starts at `defaultTheme`, itself `light`
        when not given; no effect has run yet. */
    constructor (defaultTheme: Option<string>, storage0: map<string, string>, root0: set<string>)
      ensures theme == defaultTheme.GetOr(Light)
      ensures storage == storage0 && rootClasses == root0
    {
      theme := defaultTheme.GetOr(Light);
      storage := storage0;
      rootClasses := root0;
    }

    /** The sync effect: set or clear the root marker, then persist the theme. */
    method Sync()
      modifies this
      ensures theme == old(theme)
      ensures rootClasses == SyncedRoot(old(rootClasses), theme)
      ensures storage == old(storage)[StorageKey := theme]
      ensures InSync()
    {
      if theme == Dark {
        rootClasses := rootClasses + {Dark};
      } else {
        rootClasses := rootClasses - {Dark};
      }
      storage := storage[StorageKey := theme];
    }

    /** The effects of the first commit, in declaration order. The load effect reads
        the store before anything is written and schedules `setTheme(saved)`; the
        sync effect then runs with the initial theme; if the scheduled value differs,
        the re-render runs the sync effect once more. */
    method Mount()
      modifies this
      ensures theme == Loaded(GetItem(old(storage), StorageKey), old(theme))
      ensures storage == old(storage)[StorageKey := theme]
      ensures rootClasses == SyncedRoot(old(rootClasses), theme)
      ensures InSync()
    {
      var saved := GetItem(storage, StorageKey);
      var pending := Loaded(saved, theme);
      Sync();
      if pending != theme {
        ghost var firstRoot := old(rootClasses);
        ghost var initial := theme;
        theme := pending;
        Sync();
        SyncedRootLastWins(firstRoot, initial, pending);
      }
    }

    /** The raw state setter followed by the sync effect. Any string is accepted.
        React skips the re-render, and therefore the effect, when the value is
        unchanged. */
    method SetTheme(t: string)
      modifies this
      ensures theme == t
      ensures t != old(theme) ==> storage == old(storage)[StorageKey := t]
      ensures t != old(theme) ==> rootClasses == SyncedRoot(old(rootClasses), t)
      ensures t == old(theme) ==> storage == old(storage) && rootClasses == old(rootClasses)
      ensures old(InSync()) || t != old(theme) ==> InSync()
    {
      if t != theme {
        theme := t;
        Sync();
      }
    }

    /** `toggleTheme`: the updater always yields a different value, so the sync
        effect always runs. */
    method ToggleTheme()
      modifies this
      ensures theme == Toggled(old(theme))
      ensures storage == old(storage)[StorageKey := theme]
      ensures rootClasses == SyncedRoot(old(rootClasses), theme)
      ensures InSync()
    {
      SetTheme(Toggled(theme));
    }
  }

  /** `useTheme`: the context value of the nearest enclosing provider (the last of
      `enclosing`, listed outermost first), or the documented error when there is
      none. */
  function UseTheme(enclosing: seq<ThemeProvider>): (r: Result<ThemeProvider>)
    ensures r.Failure? <==> enclosing == []
    ensures r.Failure? ==> r.error == OutsideProviderError
    ensures r.Success? ==> r.value == enclosing[|enclosing| - 1]
  {
    if enclosing == [] then Failure(OutsideProviderError) else Success(enclosing[|enclosing| - 1])
  }

  /** A provider rendered and mounted over the given store and root class list:
      what the consumer reads, what is persisted and what the root carries. */
  method RenderAndMount(defaultTheme: Option<string>, storage0: map<string, string>, root0: set<string>)
    returns (theme: string, storage: map<string, string>, root: set<string>)
    ensures StorageKey in storage0 && IsMode(storage0[StorageKey]) ==> theme == storage0[StorageKey]
    ensures !(StorageKey in storage0 && IsMode(storage0[StorageKey])) ==> theme == defaultTheme.GetOr(Light)
    ensures defaultTheme.None? && StorageKey !in storage0 ==> theme == Light
    ensures storage == storage0[StorageKey := theme]
    ensures Dark in root <==> theme == Dark
    ensures forall c :: c != Dark ==> (c in root <==> c in root0)
  {
    var provider := new ThemeProvider(defaultTheme, storage0, root0);
    provider.Mount();
    theme, storage, root := provider.theme, provider.storage, provider.rootClasses;
  }

  /** A mounted provider toggled twice: the observed themes, the values persisted
      after each toggle and whether the root carries the marker after each. */
  method MountThenToggleTwice(defaultTheme: Option<string>, storage0: map<string, string>, root0: set<string>)
    returns (initial: string, first: string, second: string,
             persisted1: string, persisted2: string, marker1: bool, marker2: bool)
    ensures IsMode(first) && IsMode(second) && first != second
    ensures first == Dark <==> initial == Light
    ensures IsMode(initial) ==> second == initial
    ensures persisted1 == first && persisted2 == second
    ensures marker1 == (first == Dark) && marker2 == (second == Dark)
  {
    var provider := new ThemeProvider(defaultTheme, storage0, root0);
    provider.Mount();
    initial := provider.theme;
    provider.ToggleTheme();
    first, persisted1, marker1 := provider.theme, provider.storage[StorageKey], Dark in provider.rootClasses;
    provider.ToggleTheme();
    second, persisted2, marker2 := provider.theme, provider.storage[StorageKey], Dark in provider.rootClasses;
    if IsMode(initial) {
      ToggleTwiceFromMode(initial);
    }
  }

  /** A consumer outside every provider gets the error and changes nothing; one
      inside calls the nearest provider's `setTheme`, which stores any string
      unchecked and syncs that provider only. */
  method ConsumerSetsTheme(enclosing: seq<ThemeProvider>, t: string)
    returns (error: Option<string>, theme: Option<string>)
    modifies if enclosing == [] then {} else {enclosing[|enclosing| - 1]}
    ensures error.Some? <==> enclosing == []
    ensures error.Some? ==> error.value == OutsideProviderError && theme.None?
    ensures error.None? ==> theme == Some(t)
    ensures enclosing != [] ==>
      var nearest := enclosing[|enclosing| - 1];
      && nearest.theme == t
      && (t != old(nearest.theme) ==> nearest.storage == old(nearest.storage)[StorageKey := t])
      && (t != old(nearest.theme) ==> nearest.rootClasses == SyncedRoot(old(nearest.rootClasses), t))
      && (t == old(nearest.theme) ==> nearest.storage == old(nearest.storage) && nearest.rootClasses == old(nearest.rootClasses))
  {
    match UseTheme(enclosing)
    case Failure(e) =>
      error, theme := Some(e), None;
    case Success(provider) =>
      provider.SetTheme(t);
      error, theme := None, Some(provider.theme);
  }
}
