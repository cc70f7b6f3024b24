/** The web theme (client/src/contexts/ThemeContext.jsx): the `dark` flag,
    its initial value from local storage or the system preference, the toggle,
    and the effect that mirrors the flag on the root element's class list and
    persists it as 'dark' or 'light'. */
module Theme {
  import opened Wrappers
  import opened Schema

  /** The local storage key. */
  const StorageKey: string := "theme"

  /** `dark ? 'dark' : 'light'`. */
  function Encode(dark: bool): (saved: string)
    ensures saved == "dark" <==> dark
    ensures saved != ""
  {
    if dark then "dark" else "light"
  }

  /** `saved ? saved === 'dark' : prefersDark`: a stored value wins when it is
      a non-empty string; any text other than 'dark' means light. */
  function InitialDark(saved: Option<string>, prefersDark: bool): (dark: bool)
    ensures Truthy(saved) ==> (dark <==> saved.value == "dark")
    ensures !Truthy(saved) ==> dark == prefersDark
  {
    if Truthy(saved) then saved.value == "dark" else prefersDark
  }

  /** What the effect persists reads back as the same flag, whatever the
      system preference is. */
  lemma InitialDarkEncode(dark: bool, prefersDark: bool)
    ensures InitialDark(Some(Encode(dark)), prefersDark) == dark
  {
  }

  /** An empty or missing saved value falls back to the system preference. */
  lemma InitialDarkWithoutSaved(prefersDark: bool)
    ensures InitialDark(None, prefersDark) == prefersDark
    ensures InitialDark(Some(""), prefersDark) == prefersDark
  {
  }

  /** The provider: the flag, the document root's class list and local storage. */
  class ThemeProvider {
    var dark: bool
    var rootClasses: set<string>
    var storage: map<string, string>

    /** The effect's outcome: the root carries 'dark' exactly when the flag is
        set and the storage holds the flag's encoding. */
    predicate Synced()
      reads this
    {
      ("dark" in rootClasses <==> dark) && StorageKey in storage && storage[StorageKey] == Encode(dark)
    }

    /** Mounting: the initial flag, then the effect's first run. */
    constructor(storage0: map<string, string>, root0: set<string>, prefersDark: bool)
      ensures dark == InitialDark(Lookup(storage0, StorageKey), prefersDark)
      ensures Synced()
      ensures rootClasses - {"dark"} == root0 - {"dark"}
      ensures storage == storage0[StorageKey := Encode(dark)]
    {
      dark := InitialDark(Lookup(storage0, StorageKey), prefersDark);
      rootClasses := root0;
      storage := storage0;
      new;
      ApplyTheme();
    }

    /** The effect: add or remove 'dark' on the root, persist the flag. No other
        class and no other key changes. */
    method ApplyTheme()
      modifies this
      ensures dark == old(dark)
      ensures Synced()
      ensures rootClasses == if dark then old(rootClasses) + {"dark"} else old(rootClasses) - {"dark"}
      ensures storage == old(storage)[StorageKey := Encode(dark)]
    {
      if dark {
        rootClasses := rootClasses + {"dark"};
      } else {
        rootClasses := rootClasses - {"dark"};
      }
      storage := storage[StorageKey := Encode(dark)];
    }

    /** `toggle`, followed by the effect it triggers. */
    method Toggle()
      modifies this
      ensures dark == !old(dark)
      ensures Synced()
      ensures rootClasses - {"dark"} == old(rootClasses) - {"dark"}
      ensures storage == old(storage)[StorageKey := Encode(dark)]
    {
      dark := !dark;
      ApplyTheme();
    }
  }

  /** A reload after a toggle restores the toggled flag, whatever the system
      preference then is. */
  method ToggleSurvivesReload(p: ThemeProvider, root: set<string>, prefersDark: bool)
    returns (reloaded: ThemeProvider)
    modifies p
    ensures fresh(reloaded)
    ensures p.dark == !old(p.dark)
    ensures reloaded.dark == p.dark
  {
    p.Toggle();
    InitialDarkEncode(p.dark, prefersDark);
    reloaded := new ThemeProvider(p.storage, root, prefersDark);
  }
}
