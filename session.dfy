/**
 * The admin client's global session slice: colour mode, signed-in user,
 * token, admin flag and token expiry, each setter mirrored into the
 * browser's local storage (a string-to-string map here).
 */
module Session {

  /** `localStorage.getItem(key) || ""`: the stored text, or empty when the key is absent. */
  function StoredOr(storage: map<string, string>, key: string): (v: string)
    ensures key !in storage ==> v == ""
    ensures key in storage ==> v == storage[key]
  {
    if key in storage then storage[key] else ""
  }

  /** How the admin flag is written to storage: its JSON text. */
  function BoolText(b: bool): (s: string)
    ensures s == "true" || s == "false"
  {
    if b then "true" else "false"
  }

  /** How the admin flag is read back at start-up: only the exact text `true` counts. */
  predicate StoredIsAdmin(storage: map<string, string>) {
    "isAdmin" in storage && storage["isAdmin"] == "true"
  }

  /** A stored flag reads back as the value that was stored. */
  lemma IsAdminRoundTrip(storage: map<string, string>, b: bool)
    ensures StoredIsAdmin(storage["isAdmin" := BoolText(b)]) == b
  {
  }

  /** The mode after a toggle: light becomes dark, anything else becomes light. */
  function ToggledMode(mode: string): (r: string)
    ensures r == "light" || r == "dark"
    ensures r == "dark" <==> mode == "light"
  {
    if mode == "light" then "dark" else "light"
  }

  /** Toggling twice restores light or dark; from any other text it ends on dark. */
  lemma ToggleTwice(mode: string)
    ensures mode == "light" || mode == "dark" ==> ToggledMode(ToggledMode(mode)) == mode
    ensures mode != "light" && mode != "dark" ==> ToggledMode(ToggledMode(mode)) == "dark"
  {
  }

  class GlobalState {
    var mode: string
    var userId: string
    var token: string
    var isAdmin: bool
    var expirationTime: string
    /** The browser's local storage. */
    var storage: map<string, string>

    /** The initial state, read from what the browser has stored. */
    constructor (stored: map<string, string>)
      ensures mode == "dark"
      ensures userId == StoredOr(stored, "userId") && token == StoredOr(stored, "token")
      ensures isAdmin == StoredIsAdmin(stored)
      ensures expirationTime == StoredOr(stored, "expirationTime")
      ensures storage == stored
    {
      mode := "dark";
      userId := StoredOr(stored, "userId");
      token := StoredOr(stored, "token");
      isAdmin := "isAdmin" in stored && stored["isAdmin"] == "true";
      expirationTime := StoredOr(stored, "expirationTime");
      storage := stored;
    }

    method SetMode()
      modifies this
      ensures mode == ToggledMode(old(mode))
      ensures userId == old(userId) && token == old(token) && isAdmin == old(isAdmin)
      ensures expirationTime == old(expirationTime) && storage == old(storage)
    {
      mode := if mode == "light" then "dark" else "light";
    }

    method SetUserId(v: string)
      modifies this
      ensures userId == v && storage == old(storage)["userId" := v]
      ensures mode == old(mode) && token == old(token) && isAdmin == old(isAdmin)
      ensures expirationTime == old(expirationTime)
    {
      userId := v;
      storage := storage["userId" := v];
    }

    method SetToken(v: string)
      modifies this
      ensures token == v && storage == old(storage)["token" := v]
      ensures mode == old(mode) && userId == old(userId) && isAdmin == old(isAdmin)
      ensures expirationTime == old(expirationTime)
    {
      token := v;
      storage := storage["token" := v];
    }

    method SetIsAdmin(b: bool)
      modifies this
      ensures isAdmin == b && storage == old(storage)["isAdmin" := BoolText(b)]
      ensures mode == old(mode) && userId == old(userId) && token == old(token)
      ensures expirationTime == old(expirationTime)
    {
      isAdmin := b;
      storage := storage["isAdmin" := BoolText(b)];
    }

    method SetExpirationTime(v: string)
      modifies this
      ensures expirationTime == v && storage == old(storage)["expirationTime" := v]
      ensures mode == old(mode) && userId == old(userId) && token == old(token) && isAdmin == old(isAdmin)
    {
      expirationTime := v;
      storage := storage["expirationTime" := v];
    }

    /** `localStorage.removeItem(key)`. */
    method RemoveItem(key: string)
      modifies this
      ensures storage == old(storage) - {key}
      ensures mode == old(mode) && userId == old(userId) && token == old(token)
      ensures isAdmin == old(isAdmin) && expirationTime == old(expirationTime)
    {
      storage := storage - {key};
    }
  }
}
