/** The client's authentication state (`features/auth/authSlice.js`): the
    signed-in user and token, the login request's progress and error, and
    the two browser-storage entries the reducers keep in step with them. */
module AuthSlice {
  import opened Common

  /** The text a login rejects with when the server sent no message. */
  const LoginFailedText: string := "Login failed"

  /** The user record the login answers with, its token included. */
  datatype User = User(id: Id, name: string, email: string, isAdmin: bool, token: Option<string>)

  /** `error.response?.data?.message || 'Login failed'`. */
  function LoginError(serverMessage: Option<string>): (r: string)
    ensures serverMessage.Some? && serverMessage.value != "" ==> r == serverMessage.value
    ensures serverMessage.None? || serverMessage.value == "" ==> r == LoginFailedText
    ensures r != ""
  {
    if serverMessage.Some? && serverMessage.value != "" then serverMessage.value else LoginFailedText
  }

  /** The auth state, with the `user` and `token` storage entries beside it. */
  class AuthState {
    var user: Option<User>
    var token: Option<string>
    var isLoading: bool
    var error: Option<string>
    var storedUser: Option<User>
    var storedToken: Option<string>

    /** The storage entries hold exactly the signed-in user and token. */
    ghost predicate Mirrors()
      reads this
    {
      storedUser == user && storedToken == token
    }

    /** The initial state, read from the storage entries. */
    constructor (savedUser: Option<User>, savedToken: Option<string>)
      ensures user == savedUser && token == savedToken
      ensures storedUser == savedUser && storedToken == savedToken
      ensures !isLoading && error.None?
      ensures Mirrors()
    {
      user := savedUser;
      token := savedToken;
      storedUser := savedUser;
      storedToken := savedToken;
      isLoading := false;
      error := None;
    }

    /** `setCredentials`: signs `payload` in and stores it. */
    method SetCredentials(payload: User)
      modifies this
      ensures user == Some(payload) && token == payload.token
      ensures Mirrors()
      ensures isLoading == old(isLoading) && error == old(error)
    {
      user := Some(payload);
      token := payload.token;
      storedToken := payload.token;
      storedUser := Some(payload);
    }

    /** `logout`: forgets the user and token and removes both entries. */
    method Logout()
      modifies this
      ensures user.None? && token.None? && storedUser.None? && storedToken.None?
      ensures Mirrors()
      ensures isLoading == old(isLoading) && error == old(error)
    {
      user := None;
      token := None;
      storedToken := None;
      storedUser := None;
    }

    /** `clearError`: only `error` changes. */
    method ClearError()
      modifies this
      ensures old(Mirrors()) ==> Mirrors()
      ensures error.None?
      ensures user == old(user) && token == old(token) && isLoading == old(isLoading)
      ensures storedUser == old(storedUser) && storedToken == old(storedToken)
    {
      error := None;
    }

    /** `loginUser.pending`. */
    method LoginPending()
      modifies this
      ensures old(Mirrors()) ==> Mirrors()
      ensures isLoading && error.None?
      ensures user == old(user) && token == old(token)
      ensures storedUser == old(storedUser) && storedToken == old(storedToken)
    {
      isLoading := true;
      error := None;
    }

    /** A successful login: the request stores the answer, then
        `loginUser.fulfilled` signs it in. */
    method LoginFulfilled(payload: User)
      modifies this
      ensures !isLoading && user == Some(payload) && token == payload.token
      ensures Mirrors()
      ensures error == old(error)
    {
      storedToken := payload.token;
      storedUser := Some(payload);
      isLoading := false;
      user := Some(payload);
      token := payload.token;
    }

    /** `loginUser.rejected`: `message` is the value the login rejected with;
        user, token and storage stay as they were. */
    method LoginRejected(message: string)
      modifies this
      ensures old(Mirrors()) ==> Mirrors()
      ensures !isLoading && error == Some(message)
      ensures user == old(user) && token == old(token)
      ensures storedUser == old(storedUser) && storedToken == old(storedToken)
    {
      isLoading := false;
      error := Some(message);
    }
  }
}
