/** The theme slice of the client: "light" or "dark", kept in local storage
    under "mode". */
module ThemeSlice {
  import opened Util

  const Light: string := "light"
  const Dark: string := "dark"

  /** Loading the mode when the module is first evaluated: the stored value
      if it is "light" or "dark", else "light", which is then written back.
      A missing value reads as "light" and is not written. */
  method LoadMode(stored: Option<string>) returns (mode: string, written: Option<string>)
    ensures mode == Light || mode == Dark
    ensures stored.Some? && (stored.value == Light || stored.value == Dark) ==> mode == stored.value
    ensures stored.None? ==> mode == Light
    ensures written.Some? <==> stored.Some? && stored.value != Light && stored.value != Dark
    ensures written.Some? ==> written.value == Light && mode == Light
  {
    mode := stored.GetOr(Light);
    written := None;
    if mode != Light && mode != Dark {
      mode := Light;
      written := Some(Light);
    }
  }

  /** `toggleMode`'s new mode: "light" becomes "dark", anything else "light". */
  function Toggled(mode: string): (r: string)
    ensures mode == Light ==> r == Dark
    ensures mode != Light ==> r == Light
  {
    if mode == Light then Dark else Light
  }

  /** Toggling twice gives back "light" or "dark". */
  lemma ToggleTwice(mode: string)
    requires mode == Light || mode == Dark
    ensures Toggled(Toggled(mode)) == mode
  {
  }

  class ThemeStore {
    var mode: string
    var storedMode: Option<string>

    /** The slice as created from what storage held: after the load the
        stored value is either absent or the mode itself. */
    constructor (stored: Option<string>)
      ensures mode == Light || mode == Dark
      ensures storedMode == None || storedMode == Some(mode)
      ensures stored.Some? ==> storedMode == Some(mode)
      ensures stored.Some? && (stored.value == Light || stored.value == Dark) ==> mode == stored.value && storedMode == stored
      ensures stored.Some? && stored.value != Light && stored.value != Dark ==> mode == Light && storedMode == Some(Light)
      ensures stored.None? ==> mode == Light && storedMode == None
    {
      var m, w := LoadMode(stored);
      mode := m;
      storedMode := if w.Some? then w else stored;
    }

    /** `toggleMode`: flip the mode and store it. */
    method ToggleMode()
      modifies this
      ensures mode == Toggled(old(mode)) && storedMode == Some(mode)
    {
      mode := if mode == Light then Dark else Light;
      storedMode := Some(mode);
    }
  }
}
