/** The two pieces of browser state the client touches: the persistent
    key-value store, of which only the authentication token key is used, and
    `window.location`. */
module Browser {

  import opened Wrappers

  /** `localStorage.getItem('token')` is truthy: present and not the empty string. */
  predicate TokenPresent(token: Option<string>) {
    token.Some? && token.value != ""
  }

  /** The value stored under the key `token`, or None when the key is absent. */
  class TokenStore {
    var token: Option<string>

    constructor (initial: Option<string>)
      ensures token == initial
    {
      token := initial;
    }

    /** `localStorage.getItem('token')`. */
    method GetItem() returns (t: Option<string>)
      ensures t == token
    {
      t := token;
    }

    /** `localStorage.removeItem('token')`. */
    method RemoveItem()
      modifies this
      ensures token == None
    {
      token := None;
    }
  }

  /** `window.location`: the current path and every assignment made to `href`. */
  class Location {
    var pathname: string
    var navigations: seq<string>

    constructor (path: string)
      ensures pathname == path && navigations == []
    {
      pathname := path;
      navigations := [];
    }

    /** `window.location.href = target`: asks the browser to load `target`. */
    method AssignHref(target: string)
      modifies this
      ensures navigations == old(navigations) + [target]
      ensures pathname == old(pathname)
    {
      navigations := navigations + [target];
    }
  }
}
