/**
 * The browser session (frontend/js/auth.js): the token, its expiry time and
 * the user record kept in localStorage, here a map from storage keys to
 * entries. The clock is a parameter: `now` is Date.getTime() in milliseconds.
 */
module SessionStore {
  import opened Common
  import opened JsValues

  /** The three keys the session uses, and any other key some other code may store. */
  datatype StorageKey = TokenKey | ExpiryKey | UserKey | OtherKey(name: string)

  /**
   * A stored item: a string, or the user record saved with JSON.stringify and
   * read back with JSON.parse (the round trip is taken to give the same value).
   */
  datatype Entry = Text(text: string) | Document(doc: Json)

  /** `if (!item)`: a stored item is falsy only when it is the empty string. */
  predicate EntryPresent(e: Entry)
  {
    match e
    case Text(t) => t != ""
    case Document(_) => true
  }

  /** parseInt of a stored item; a serialised document reads as a number only when it is one. */
  function EntryInt(e: Entry): Option<int>
  {
    match e
    case Text(t) => ParseInt(t)
    case Document(d) => if d.JNum? then Some(d.n) else None
  }

  /** isAuthenticated(): a non-empty token and a non-empty expiry that lies after now. */
  predicate Authenticated(storage: map<StorageKey, Entry>, now: int)
  {
    && TokenKey in storage && EntryPresent(storage[TokenKey])
    && ExpiryKey in storage && EntryPresent(storage[ExpiryKey])
    && EntryInt(storage[ExpiryKey]).Some? && now < EntryInt(storage[ExpiryKey]).value
  }

  /** getUser(): the stored user record, or null when there is none. */
  function StoredUser(storage: map<StorageKey, Entry>): (u: Json)
    requires UserKey in storage ==> storage[UserKey].Document?
    ensures UserKey !in storage ==> u == JNull
    ensures UserKey in storage ==> Document(u) == storage[UserKey]
  {
    if UserKey in storage then storage[UserKey].doc else JNull
  }

  /** The storage after setToken(token, expiresIn) at time now. */
  function WithToken(storage: map<StorageKey, Entry>, token: string, expiresIn: int, now: int): map<StorageKey, Entry>
  {
    storage[TokenKey := Text(token)][ExpiryKey := Text(IntToString(now + expiresIn))]
  }

  /** The storage after logout(). */
  function SignedOut(storage: map<StorageKey, Entry>): map<StorageKey, Entry>
  {
    storage - {TokenKey, ExpiryKey, UserKey}
  }

  /** Right after setToken with a non-empty token and a positive lifetime, the session is authenticated. */
  lemma SetTokenAuthenticates(storage: map<StorageKey, Entry>, token: string, expiresIn: int, now: int)
    requires token != "" && expiresIn > 0
    ensures Authenticated(WithToken(storage, token, expiresIn, now), now)
  {
    ParseIntOfIntToString(now + expiresIn);
  }

  /** The session stays authenticated until its expiry and not a millisecond longer. */
  lemma SetTokenExpires(storage: map<StorageKey, Entry>, token: string, expiresIn: int, now: int, later: int)
    requires token != "" && now <= later
    ensures Authenticated(WithToken(storage, token, expiresIn, now), later) <==> later < now + expiresIn
  {
    ParseIntOfIntToString(now + expiresIn);
  }

  /** An empty token never authenticates, whatever the expiry says. */
  lemma EmptyTokenNeverAuthenticates(storage: map<StorageKey, Entry>, expiresIn: int, now: int, later: int)
    ensures !Authenticated(WithToken(storage, "", expiresIn, now), later)
  {
  }

  /** After logout the session is not authenticated and there is no user; other keys are kept. */
  lemma LogoutClearsSession(storage: map<StorageKey, Entry>, now: int)
    ensures !Authenticated(SignedOut(storage), now)
    ensures StoredUser(SignedOut(storage)) == JNull
    ensures forall k :: k in storage && !(k == TokenKey || k == ExpiryKey || k == UserKey) ==>
      k in SignedOut(storage) && SignedOut(storage)[k] == storage[k]
  {
  }

  /** The key-value store behind Auth, with the methods that read and write it. */
  class Session {
    var storage: map<StorageKey, Entry>

    /** The user key holds a serialised record, as setUser leaves it. */
    ghost predicate Valid()
      reads this
    {
      UserKey in storage ==> storage[UserKey].Document?
    }

    constructor (initial: map<StorageKey, Entry>)
      requires UserKey in initial ==> initial[UserKey].Document?
      ensures Valid() && storage == initial
    {
      storage := initial;
    }

    /** setToken: store the token and the expiry time now + expiresIn; no other key is written. */
    method SetToken(token: string, expiresIn: int, now: int)
      requires Valid()
      modifies this
      ensures Valid()
      ensures storage == WithToken(old(storage), token, expiresIn, now)
      ensures forall k :: k != TokenKey && k != ExpiryKey ==>
        (k in storage <==> k in old(storage)) && (k in storage ==> storage[k] == old(storage)[k])
    {
      var expiryTime := now + expiresIn;
      storage := storage[TokenKey := Text(token)];
      storage := storage[ExpiryKey := Text(IntToString(expiryTime))];
    }

    /** getToken: the stored token, or null. */
    method GetToken() returns (token: Option<Entry>)
      ensures token.Some? <==> TokenKey in storage
      ensures token.Some? ==> token.value == storage[TokenKey]
    {
      token := if TokenKey in storage then Some(storage[TokenKey]) else None;
    }

    /** isAuthenticated: no token or no expiry means false; otherwise whether now is before the expiry. */
    method IsAuthenticated(now: int) returns (valid: bool)
      ensures valid == Authenticated(storage, now)
    {
      var token := GetToken();
      if token.None? || !EntryPresent(token.value) {
        return false;
      }
      if ExpiryKey !in storage || !EntryPresent(storage[ExpiryKey]) {
        return false;
      }
      var expiryTime := EntryInt(storage[ExpiryKey]);
      valid := expiryTime.Some? && now < expiryTime.value;
    }

    /** setUser: store the user record under the user key. */
    method SetUser(user: Json)
      requires Valid()
      modifies this
      ensures Valid()
      ensures storage == old(storage)[UserKey := Document(user)]
    {
      storage := storage[UserKey := Document(user)];
    }

    /** getUser: the value last given to setUser, or null when none is stored. */
    method GetUser() returns (user: Json)
      requires Valid()
      ensures user == StoredUser(storage)
    {
      user := if UserKey in storage then storage[UserKey].doc else JNull;
    }

    /** logout: remove exactly the token, expiry and user keys. */
    method Logout()
      requires Valid()
      modifies this
      ensures Valid()
      ensures storage == SignedOut(old(storage))
    {
      storage := storage - {TokenKey};
      storage := storage - {ExpiryKey};
      storage := storage - {UserKey};
    }
  }

  /** A client of the session: logging in and reading back the user. */
  method SetUserThenGetUser(session: Session, user: Json) returns (read: Json)
    requires session.Valid()
    modifies session
    ensures read == user
  {
    session.SetUser(user);
    read := session.GetUser();
  }
}
