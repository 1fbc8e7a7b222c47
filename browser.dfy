/**
 * The browser objects the page code touches: `localStorage` (a string-to-string map),
 * `window.location`, `history.replaceState`, `location.href` assignment and `alert`.
 */
module Browser {
  import opened Wrappers

  /**
   * The parts of `window.location` the page reads. `fragment` is the text after `#`, empty when
   * the URL has no fragment or an empty one.
   */
  datatype Location = Location(origin: string, pathname: string, search: string, fragment: string)
  {
    /** `location.hash`: empty for an empty fragment, otherwise `#` followed by the fragment. */
    function Hash(): (h: string)
      ensures h == "" <==> fragment == ""
      ensures h != "" ==> h[0] == '#' && h[1..] == fragment
    {
      if fragment == "" then "" else "#" + fragment
    }
  }

  /** What the page does that outlives it or that the user sees, in the order it does it. */
  datatype Effect =
    | StorageSet(key: string, value: string)
    | StorageRemove(key: string)
    | HistoryReplace(path: string)
    | Navigate(url: string)
    | Alert(message: string)

  /** `localStorage.getItem(key)` on a given store. */
  function StoredValue(store: map<string, string>, key: string): (v: Option<string>)
    ensures v.Some? <==> key in store
    ensures v.Some? ==> v.value == store[key]
  {
    if key in store then Some(store[key]) else None
  }

  class Window {
    var localStorage: map<string, string>
    var location: Location
    /** The effects performed so far, oldest first. */
    var effects: seq<Effect>

    constructor (store: map<string, string>, loc: Location)
      ensures localStorage == store && location == loc && effects == []
    {
      localStorage, location, effects := store, loc, [];
    }

    method GetItem(key: string) returns (v: Option<string>)
      ensures v == StoredValue(localStorage, key)
    {
      v := if key in localStorage then Some(localStorage[key]) else None;
    }

    /** `localStorage.setItem`: replaces any earlier value under `key`. */
    method SetItem(key: string, value: string)
      modifies this`localStorage, this`effects
      ensures localStorage == old(localStorage)[key := value]
      ensures StoredValue(localStorage, key) == Some(value)
      ensures effects == old(effects) + [StorageSet(key, value)]
    {
      localStorage := localStorage[key := value];
      effects := effects + [StorageSet(key, value)];
    }

    /** `localStorage.removeItem`: removing an absent key changes nothing. */
    method RemoveItem(key: string)
      modifies this`localStorage, this`effects
      ensures localStorage == old(localStorage) - {key}
      ensures StoredValue(localStorage, key) == None
      ensures effects == old(effects) + [StorageRemove(key)]
    {
      localStorage := localStorage - {key};
      effects := effects + [StorageRemove(key)];
    }

    /**
     * `history.replaceState(null, "", path)`: the URL becomes the origin and that path, with no
     * query and no fragment, and nothing is loaded. The path is taken as given, not resolved as
     * a URL, so a path that would name another host is not rejected here.
     */
    method ReplaceState(path: string)
      modifies this`location, this`effects
      ensures location == Location(old(location).origin, path, "", "")
      ensures effects == old(effects) + [HistoryReplace(path)]
    {
      location := Location(location.origin, path, "", "");
      effects := effects + [HistoryReplace(path)];
    }

    /** `window.location.href = url`: starts a full navigation that replaces the page. */
    method AssignHref(url: string)
      modifies this`effects
      ensures effects == old(effects) + [Navigate(url)]
    {
      effects := effects + [Navigate(url)];
    }

    method ShowAlert(message: string)
      modifies this`effects
      ensures effects == old(effects) + [Alert(message)]
    {
      effects := effects + [Alert(message)];
    }
  }
}
