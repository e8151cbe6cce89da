/**
 * The frontend's auth slice: the token, whether the user is logged in,
 * whether a login or registration request is in flight, and its error. Each
 * reducer assigns some of the four fields in place; the login and register
 * request cases share one reducer each. Every reducer keeps two facts: a
 * logged-in state has a token, and a request in flight has no error.
 */
module AuthSlice {
  import opened Common

  class AuthStore {
    var token: Option<string>
    var isAuthenticated: bool
    var loading: bool
    var error: Option<string>

    ghost predicate Valid()
      reads this
    {
      && (isAuthenticated ==> token.Some?)
      && (loading ==> error.None?)
    }

    /**
     * initialState, given what localStorage holds under 'token': logged in
     * exactly when that is a non-empty string.
     */
    constructor (stored: Option<string>)
      ensures Valid()
      ensures token == stored && isAuthenticated == Truthy(stored)
      ensures !loading && error.None?
    {
      token := stored;
      isAuthenticated := Truthy(stored);
      loading := false;
      error := None;
    }

    /** logout: forget the token and any error; a request in flight stays in flight. */
    method Logout()
      requires Valid()
      modifies this`token, this`isAuthenticated, this`error
      ensures Valid()
      ensures token.None? && !isAuthenticated && error.None?
      ensures loading == old(loading)
    {
      token := None;
      isAuthenticated := false;
      error := None;
    }

    /** clearError: only the error changes. */
    method ClearError()
      requires Valid()
      modifies this`error
      ensures Valid()
      ensures error.None?
    {
      error := None;
    }

    /** login.pending and register.pending: a request starts; token and login status stay. */
    method Pending()
      requires Valid()
      modifies this`loading, this`error
      ensures Valid()
      ensures loading && error.None?
    {
      loading := true;
      error := None;
    }

    /** login.fulfilled and register.fulfilled: logged in with the returned token. */
    method Fulfilled(payloadToken: string)
      requires Valid()
      modifies this
      ensures Valid()
      ensures !loading && isAuthenticated && token == Some(payloadToken) && error.None?
    {
      loading := false;
      isAuthenticated := true;
      token := Some(payloadToken);
      error := None;
    }

    /** login.rejected and register.rejected: logged out, with the rejection message as the error. */
    method Rejected(payload: string)
      requires Valid()
      modifies this
      ensures Valid()
      ensures !loading && !isAuthenticated && token.None? && error == Some(payload)
    {
      loading := false;
      isAuthenticated := false;
      token := None;
      error := Some(payload);
    }
  }
}
