/** useBaizeAuth: the Baize login state. The user and token start from
    localStorage, a login stores both, a logout removes both. The login
    call itself is an input: the reply the service would give. */
module BaizeAuth {
  import opened Common
  import opened BrowserStorage

  const USER_KEY: string := "audioEditor_user"
  const TOKEN_KEY: string := "audioEditor_token"

  /** The stored user object { account }. */
  datatype User = User(account: string)

  /** What login resolves to; `token` is None when the reply has none. */
  datatype LoginReply = LoginReply(account: string, token: Option<string>)

  /** Why a login attempt failed: the service rejected it, or storing the
      result threw. */
  datatype LoginFailure = ServiceError(message: string) | StorageFailure

  /** The message shown to the user: '请输入用户名和密码',
      '登录成功: <account>', '登录失败: <reason>' or '已退出登录'. */
  datatype Message =
    | MissingCredentials
    | LoggedIn(account: string)
    | LoginFailed(cause: LoginFailure)
    | LoggedOut

  // ---------------------------------------------------------------------------
  // The stored user: JSON.stringify of { account } and JSON.parse back
  // ---------------------------------------------------------------------------

  /** The body of a JSON string literal: quote and backslash escaped. */
  function Escape(s: string): string {
    if s == [] then []
    else (if s[0] == '"' || s[0] == '\\' then ['\\', s[0]] else [s[0]]) + Escape(s[1..])
  }

  /** Reads the rest of a JSON string literal whose opening quote has been
      consumed: its text and what follows the closing quote. */
  function ParseString(t: string): Option<(string, string)>
    decreases |t|
  {
    if t == [] then None
    else if t[0] == '"' then Some(([], t[1..]))
    else if t[0] == '\\' then
      if |t| >= 2 && (t[1] == '"' || t[1] == '\\') then
        match ParseString(t[2..])
        case None => None
        case Some(p) => Some(([t[1]] + p.0, p.1))
      else None
    else
      match ParseString(t[1..])
      case None => None
      case Some(p) => Some(([t[0]] + p.0, p.1))
  }

  lemma {:induction false} ParseEscaped(s: string, rest: string)
    ensures ParseString(Escape(s) + ['"'] + rest) == Some((s, rest))
  {
    if s == [] {
      assert Escape(s) + ['"'] + rest == ['"'] + rest;
    } else {
      ParseEscaped(s[1..], rest);
      var head := if s[0] == '"' || s[0] == '\\' then ['\\', s[0]] else [s[0]];
      var t := Escape(s) + ['"'] + rest;
      assert t == head + (Escape(s[1..]) + ['"'] + rest);
      if s[0] == '"' || s[0] == '\\' {
        assert t[2..] == Escape(s[1..]) + ['"'] + rest;
      } else {
        assert t[1..] == Escape(s[1..]) + ['"'] + rest;
      }
      assert [s[0]] + s[1..] == s;
    }
  }

  const USER_PREFIX: string := "{\"account\":\""

  /** JSON.stringify({ account }). */
  function EncodeUser(u: User): string {
    USER_PREFIX + Escape(u.account) + "\"}"
  }

  /** JSON.parse of a stored user record; None for text of another shape. */
  function DecodeUser(s: string): Option<User> {
    if |s| >= |USER_PREFIX| && s[..|USER_PREFIX|] == USER_PREFIX then
      match ParseString(s[|USER_PREFIX|..])
      case Some((account, tail)) => if tail == "}" then Some(User(account)) else None
      case None => None
    else None
  }

  /** A stored user reads back as the same user. */
  lemma UserRoundTrip(u: User)
    ensures DecodeUser(EncodeUser(u)) == Some(u)
  {
    var s := EncodeUser(u);
    assert s[..|USER_PREFIX|] == USER_PREFIX;
    assert s[|USER_PREFIX|..] == Escape(u.account) + ['"'] + "}";
    ParseEscaped(u.account, "}");
  }

  /** What setItem stores for a token: the string itself, or "undefined"
      when the reply carried none. */
  function TokenText(token: Option<string>): string {
    if token.Some? then token.value else "undefined"
  }

  /** The initial user: the parsed stored record, or null when nothing (or
      the empty string) is stored. */
  function InitialUser(stored: Option<string>): Option<User> {
    if stored.Some? && stored.value != "" then DecodeUser(stored.value) else None
  }

  /** Nothing stored gives no user; a stored login record gives its user. */
  lemma InitialUserReadsBack(stored: Option<string>)
    ensures stored.None? || stored == Some("") ==> InitialUser(stored).None?
    ensures forall v: User :: stored == Some(EncodeUser(v)) ==> InitialUser(stored) == Some(v)
  {
    forall v: User | stored == Some(EncodeUser(v))
      ensures InitialUser(stored) == Some(v)
    {
      UserRoundTrip(v);
    }
  }

  class Auth {
    var user: Option<User>
    var token: Option<string>
    var loginOpen: bool
    var username: string
    var password: string
    var message: Option<Message>

    /** The lazy initial state: user and token from storage, dialog
        closed, empty form. */
    constructor (storage: LocalStorage)
      requires storage.accessible
      ensures user == InitialUser(if USER_KEY in storage.items then Some(storage.items[USER_KEY]) else None)
      ensures token == (if TOKEN_KEY in storage.items then Some(storage.items[TOKEN_KEY]) else None)
      ensures !loginOpen && username == "" && password == "" && message.None?
    {
      var savedUser := storage.GetItem(USER_KEY);
      user := InitialUser(savedUser.value);
      var savedToken := storage.GetItem(TOKEN_KEY);
      token := savedToken.value;
      loginOpen := false;
      username := "";
      password := "";
      message := None;
    }

    method HandleLoginOpen()
      modifies this
      ensures loginOpen
      ensures user == old(user) && token == old(token) && message == old(message)
      ensures username == old(username) && password == old(password)
    {
      loginOpen := true;
    }

    method HandleLoginClose()
      modifies this
      ensures !loginOpen
      ensures user == old(user) && token == old(token) && message == old(message)
      ensures username == old(username) && password == old(password)
    {
      loginOpen := false;
    }

    /** handleLoginSubmit. With an empty username or password only the
        error message is set and the service is not called. A failed call
        changes nothing but the message. A successful one sets the user
        (the reply's account, else the typed username) and the token, then
        stores both and closes the dialog; when storing throws, the state
        is already set but the dialog stays open with a failure message. */
    method HandleLoginSubmit(storage: LocalStorage, reply: Result<LoginReply, string>)
      returns (called: bool)
      modifies this, storage
      ensures called <==> old(username) != "" && old(password) != ""
      ensures username == old(username) && password == old(password)
      ensures storage.accessible == old(storage.accessible)
      ensures !called ==> (message == Some(MissingCredentials)
        && user == old(user) && token == old(token) && loginOpen == old(loginOpen)
        && storage.items == old(storage.items))
      ensures called && reply.Err? ==> (message == Some(LoginFailed(ServiceError(reply.error)))
        && user == old(user) && token == old(token) && loginOpen == old(loginOpen)
        && storage.items == old(storage.items))
      ensures called && reply.Ok? ==>
        var newUser := User(if reply.value.account != "" then reply.value.account else username);
        user == Some(newUser) && token == reply.value.token
        && (old(storage.accessible) ==>
              storage.items == old(storage.items)[USER_KEY := EncodeUser(newUser)][TOKEN_KEY := TokenText(reply.value.token)]
              && !loginOpen && message == Some(LoggedIn(newUser.account)))
        && (!old(storage.accessible) ==>
              storage.items == old(storage.items) && loginOpen == old(loginOpen)
              && message == Some(LoginFailed(StorageFailure)))
    {
      if username == "" || password == "" {
        message := Some(MissingCredentials);
        return false;
      }
      called := true;
      if reply.Err? {
        message := Some(LoginFailed(ServiceError(reply.error)));
        return;
      }
      var newUser := User(if reply.value.account != "" then reply.value.account else username);
      user := Some(newUser);
      token := reply.value.token;
      var stored := storage.SetItem(USER_KEY, EncodeUser(newUser));
      if stored.Err? {
        message := Some(LoginFailed(StorageFailure));
        return;
      }
      stored := storage.SetItem(TOKEN_KEY, TokenText(reply.value.token));
      message := Some(LoggedIn(newUser.account));
      loginOpen := false;
    }

    /** handleLogout: user and token become null and both keys are
        removed. When the storage throws, the exception escapes before the
        message is set. */
    method HandleLogout(storage: LocalStorage)
      modifies this, storage
      ensures user.None? && token.None?
      ensures loginOpen == old(loginOpen) && username == old(username) && password == old(password)
      ensures storage.accessible == old(storage.accessible)
      ensures old(storage.accessible) ==>
        storage.items == old(storage.items) - {USER_KEY, TOKEN_KEY} && message == Some(LoggedOut)
      ensures !old(storage.accessible) ==> storage.items == old(storage.items) && message == old(message)
    {
      user := None;
      token := None;
      var removed := storage.RemoveItem(USER_KEY);
      if removed.Err? {
        return;
      }
      removed := storage.RemoveItem(TOKEN_KEY);
      message := Some(LoggedOut);
    }
  }

  /** A successful login on a working storage is what the next start
      reads back: the same user and the same token text. */
  method LoginThenRestart(storage: LocalStorage, reply: LoginReply, typedName: string, typedPassword: string)
    returns (restarted: Auth)
    requires storage.accessible && typedName != "" && typedPassword != ""
    modifies storage
    ensures restarted.user == Some(User(if reply.account != "" then reply.account else typedName))
    ensures restarted.token == Some(TokenText(reply.token))
  {
    var auth := new Auth(storage);
    auth.username := typedName;
    auth.password := typedPassword;
    var _ := auth.HandleLoginSubmit(storage, Ok(reply));
    UserRoundTrip(User(if reply.account != "" then reply.account else typedName));
    restarted := new Auth(storage);
  }
}
