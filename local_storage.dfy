/** The browser's `localStorage`: a string-to-string map holding the session
    `token` and the `fcm` push token. */
module BrowserStorage {
  import opened JsValues

  const TokenItem: string := "token"
  const FcmItem: string := "fcm"

  /** What `getItem(key)` returns: the stored string, or `null` as `None`. */
  function Lookup(items: map<string, string>, key: string): (v: Option<string>)
    ensures key in items <==> v.Some?
    ensures v.Some? ==> v.value == items[key]
  {
    if key in items then Some(items[key]) else None
  }

  /** A `getItem` result used as a condition: `null` and `""` are falsy. */
  predicate Present(v: Option<string>) {
    v.Some? && v.value != ""
  }

  class LocalStorage {
    var items: map<string, string>

    constructor (initial: map<string, string>)
      ensures items == initial
    {
      items := initial;
    }

    method GetItem(key: string) returns (v: Option<string>)
      ensures v == Lookup(items, key)
    {
      if key in items {
        v := Some(items[key]);
      } else {
        v := None;
      }
    }

    /** `removeItem(key)`: a no-op when the key is absent. */
    method RemoveItem(key: string)
      modifies this
      ensures items == old(items) - {key}
      ensures key !in old(items) ==> items == old(items)
    {
      assert key !in items ==> items - {key} == items;
      items := items - {key};
    }
  }
}
