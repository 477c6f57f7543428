/** The `auth` slice of the client store and the storage side of its thunks.
    The browser's stored token (`localStorage` key 'token') is the field
    `stored`; None means no item. */
module AuthSlice {
  import opened Js

  datatype AuthState = AuthState(
    user: JsVal, token: JsVal, isAuthenticated: bool, isLoading: bool, error: JsVal, message: JsVal)

  /** A thunk's payload: its top-level members and its `data` member when
      that is an object. */
  datatype Payload = Payload(fields: Object, data: Option<Object>)

  /** `a || b` */
  function Or(a: JsVal, b: JsVal): (r: JsVal)
    ensures Truthy(a) ==> r == a
    ensures !Truthy(a) ==> r == b
  {
    if Truthy(a) then a else b
  }

  /** `payload[key] || payload.data?.[key]` */
  function TopOrData(p: Payload, key: string): JsVal {
    Or(Get(p.fields, key), if p.data.Some? then Get(p.data.value, key) else Undefined)
  }

  /** `localStorage.getItem('token')`, null when there is none. */
  function Item(stored: Option<JsVal>): JsVal {
    if stored.Some? then stored.value else Null
  }

  class AuthStore {
    var user: JsVal
    var token: JsVal
    var isAuthenticated: bool
    var isLoading: bool
    var error: JsVal
    var message: JsVal
    var stored: Option<JsVal>

    function State(): AuthState
      reads this
    {
      AuthState(user, token, isAuthenticated, isLoading, error, message)
    }

    /** `initialState`, read from the stored token. */
    constructor(storedToken: Option<JsVal>)
      ensures stored == storedToken
      ensures isAuthenticated <==> Truthy(Item(storedToken))
      ensures isAuthenticated ==> token == Item(storedToken)
      ensures !isAuthenticated ==> token == Null
      ensures user == Null && !isLoading && error == Null && message == Null
    {
      user := Null;
      token := Or(Item(storedToken), Null);
      isAuthenticated := Truthy(Item(storedToken));
      isLoading := false;
      error := Null;
      message := Null;
      stored := storedToken;
    }

    method ClearError()
      modifies this
      ensures State() == old(State()).(error := Null) && stored == old(stored)
    {
      error := Null;
    }

    method ClearMessage()
      modifies this
      ensures State() == old(State()).(message := Null) && stored == old(stored)
    {
      message := Null;
    }

    method Logout()
      modifies this
      ensures State() == old(State()).(user := Null, token := Null, isAuthenticated := false)
      ensures stored == None
    {
      user := Null;
      token := Null;
      isAuthenticated := false;
      stored := None;
    }

    /** Stores the token only when it is truthy. */
    method SetCredentials(payload: Object)
      modifies this
      ensures State() == old(State()).(user := Get(payload, "user"), token := Get(payload, "token"), isAuthenticated := true)
      ensures Truthy(Get(payload, "token")) ==> stored == Some(Get(payload, "token"))
      ensures !Truthy(Get(payload, "token")) ==> stored == old(stored)
    {
      user := Get(payload, "user");
      token := Get(payload, "token");
      isAuthenticated := true;
      if Truthy(Get(payload, "token")) {
        stored := Some(Get(payload, "token"));
      }
    }

    method LoginPending()
      modifies this
      ensures State() == old(State()).(isLoading := true, error := Null, message := Null)
      ensures stored == old(stored)
    {
      isLoading := true;
      error := Null;
      message := Null;
    }

    method LoginFulfilled(payload: Payload)
      modifies this
      ensures State() == AuthState(TopOrData(payload, "user"), TopOrData(payload, "token"), true, false, Null,
                                   Or(Get(payload.fields, "message"), Str("Login berhasil")))
      ensures stored == old(stored)
    {
      isLoading := false;
      user := TopOrData(payload, "user");
      token := TopOrData(payload, "token");
      isAuthenticated := true;
      message := Or(Get(payload.fields, "message"), Str("Login berhasil"));
      error := Null;
    }

    method LoginRejected(reason: JsVal)
      modifies this
      ensures State() == AuthState(Null, Null, false, false, reason, Null)
      ensures stored == None
    {
      isLoading := false;
      user := Null;
      token := Null;
      isAuthenticated := false;
      error := reason;
      message := Null;
      stored := None;
    }

    method RegisterPending()
      modifies this
      ensures State() == old(State()).(isLoading := true, error := Null, message := Null)
      ensures stored == old(stored)
    {
      isLoading := true;
      error := Null;
      message := Null;
    }

    method RegisterFulfilled(payload: Payload)
      modifies this
      ensures State() == old(State()).(isLoading := false, error := Null,
                                       message := Or(Get(payload.fields, "message"), Str("Registrasi berhasil")))
      ensures stored == old(stored)
    {
      isLoading := false;
      message := Or(Get(payload.fields, "message"), Str("Registrasi berhasil"));
      error := Null;
    }

    method RegisterRejected(reason: JsVal)
      modifies this
      ensures State() == old(State()).(isLoading := false, error := reason, message := Null)
      ensures stored == old(stored)
    {
      isLoading := false;
      error := reason;
      message := Null;
    }

    method RestorePending()
      modifies this
      ensures State() == old(State()).(isLoading := true) && stored == old(stored)
    {
      isLoading := true;
    }

    method RestoreFulfilled(payload: Payload)
      modifies this
      ensures State() == old(State()).(isLoading := false, user := TopOrData(payload, "user"), isAuthenticated := true)
      ensures stored == old(stored)
    {
      isLoading := false;
      user := TopOrData(payload, "user");
      isAuthenticated := true;
    }

    method RestoreRejected()
      modifies this
      ensures State() == old(State()).(isLoading := false, user := Null, token := Null, isAuthenticated := false)
      ensures stored == None
    {
      isLoading := false;
      user := Null;
      token := Null;
      isAuthenticated := false;
      stored := None;
    }

    method LogoutFulfilled(payload: Payload)
      modifies this
      ensures State() == old(State()).(user := Null, token := Null, isAuthenticated := false, error := Null,
                                       message := Or(Get(payload.fields, "message"), Str("Logout berhasil")))
      ensures stored == old(stored)
    {
      user := Null;
      token := Null;
      isAuthenticated := false;
      message := Or(Get(payload.fields, "message"), Str("Logout berhasil"));
      error := Null;
    }

    /** `loginUser` dispatched: pending; then on a response the thunk stores a
      truthy top-level token and the fulfilled case runs; on a failure with
      message `failure` the rejected case runs with it (or 'Login gagal.'). */
    method LoginUser(response: Result<Payload, string>)
      modifies this
      ensures response.Ok? ==>
        State() == AuthState(TopOrData(response.value, "user"), TopOrData(response.value, "token"), true, false, Null,
                             Or(Get(response.value.fields, "message"), Str("Login berhasil")))
        && (Truthy(Get(response.value.fields, "token")) ==> stored == Some(Get(response.value.fields, "token")))
        && (!Truthy(Get(response.value.fields, "token")) ==> stored == old(stored))
      ensures response.Err? ==>
        State() == AuthState(Null, Null, false, false, Or(Str(response.error), Str("Login gagal.")), Null)
        && stored == None
    {
      LoginPending();
      match response
      case Ok(payload) =>
        if Truthy(Get(payload.fields, "token")) {
          stored := Some(Get(payload.fields, "token"));
        }
        LoginFulfilled(payload);
      case Err(failure) =>
        LoginRejected(Or(Str(failure), Str("Login gagal.")));
    }

    /** `restoreAuth` dispatched: without a stored token, or when the profile
      request fails, the token is removed and the session cleared. */
    method RestoreAuth(profile: Result<Payload, string>)
      modifies this
      ensures Truthy(Item(old(stored))) && profile.Ok? ==>
        State() == old(State()).(isLoading := false, user := TopOrData(profile.value, "user"), isAuthenticated := true)
        && stored == old(stored)
      ensures !(Truthy(Item(old(stored))) && profile.Ok?) ==>
        State() == old(State()).(isLoading := false, user := Null, token := Null, isAuthenticated := false)
        && stored == None
    {
      RestorePending();
      if !Truthy(Item(stored)) || profile.Err? {
        stored := None;
        RestoreRejected();
      } else {
        RestoreFulfilled(profile.value);
      }
    }

    /** `logoutUser` dispatched: the stored token is removed before the
      logout request, so whatever that request does (its outcome is
      ignored) the session ends. Returns the token the request carries,
      None when no request is made. */
    method LogoutUser() returns (sent: Option<JsVal>)
      modifies this
      ensures stored == None
      ensures Truthy(Item(old(stored))) <==> sent.Some?
      ensures sent.Some? ==> sent.value == Item(old(stored))
      ensures State() == old(State()).(user := Null, token := Null, isAuthenticated := false, error := Null,
                                       message := Str("Logout berhasil"))
    {
      var tokenItem := Item(stored);
      stored := None;
      sent := if Truthy(tokenItem) then Some(tokenItem) else None;
      LogoutFulfilled(Payload(map["message" := Str("Logout berhasil")], None));
    }
  }
}
