/**
 * The browser's `localStorage`: one string-to-string dictionary shared by every
 * page. The client keeps its bearer token under the key `'token'`.
 */
module Storage {
  import opened Wrappers

  const TokenKey := "token"

  class LocalStorage {
    var items: map<string, string>

    constructor (initial: map<string, string>)
      ensures items == initial
    {
      items := initial;
    }

    /** `getItem(key)`: `None` is `null`. */
    function GetItem(key: string): Option<string>
      reads this
    {
      if key in items then Some(items[key]) else None
    }

    /** `setItem(key, value)`. */
    method SetItem(key: string, value: string)
      modifies this
      ensures items == old(items)[key := value]
    {
      items := items[key := value];
    }

    /** `removeItem(key)`; removing a missing key changes nothing. */
    method RemoveItem(key: string)
      modifies this
      ensures items == old(items) - {key}
    {
      items := items - {key};
    }
  }

  /** The stored token as the pages test it: `null` and `''` are both falsy. */
  function TruthyToken(stored: Option<string>): Option<string> {
    if stored.Some? && stored.value != "" then stored else None
  }
}
