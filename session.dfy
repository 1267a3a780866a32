/** The session part of the store: the browser's persistent key/value storage
    and the authentication token mirrored in it. */
module Session {

  /** Persistent client storage, as key/value string pairs. */
  type Storage = map<string, string>

  /** The key under which the token is persisted. */
  const TokenKey: string := "token"

  /** A stored value, or None where the storage has no such key. */
  datatype Option<T> = None | Some(value: T)

  /** Reads a key; an absent key yields None, not an empty string. */
  function GetItem(storage: Storage, key: string): Option<string>
  {
    if key in storage then Some(storage[key]) else None
  }

  /** The token the store starts with: the stored one, with an empty string
      where none is stored. An empty stored token also falls back to the
      empty string, so the fallback reads the same as the stored value. */
  function InitialToken(storage: Storage): (t: string)
    ensures TokenKey in storage ==> t == storage[TokenKey]
    ensures TokenKey !in storage ==> t == ""
  {
    match GetItem(storage, TokenKey)
    case None => ""
    case Some(v) => if v == "" then "" else v
  }

  /** The storage laws the session relies on: a written key reads back what
      was written, writing one key leaves every other key as it was, and a
      cleared storage holds no key. */
  lemma StorageLaws(storage: Storage, key: string, other: string, v: string)
    ensures GetItem(storage[key := v], key) == Some(v)
    ensures other != key ==> GetItem(storage[key := v], other) == GetItem(storage, other)
    ensures GetItem(map[], key) == None
  {
  }

  /** Reloading after the token was written reads that token back; reloading
      after storage was cleared starts signed out. */
  lemma ReloadReadsBack(storage: Storage, t: string)
    ensures InitialToken(storage[TokenKey := t]) == t
    ensures InitialToken(map[]) == ""
  {
  }
}
