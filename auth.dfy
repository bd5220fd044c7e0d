/**
 * The Basic-auth guard (`verifyBasicAuth`). The configured pair is passed in,
 * and the base64 decoder is a parameter: the model treats it as an arbitrary
 * function from the token text to the decoded text.
 */
module Auth {
  import opened Wrappers
  import opened Strings

  /** The configured credentials (read from the environment by the source). */
  datatype Config = Config(username: string, password: string)

  /** Request headers, by name exactly as the event carries them. */
  type Headers = map<string, string>

  const BasicScheme: string := "Basic "

  /**
   * `headers.authorization || headers.Authorization`: the lowercase header wins
   * unless it is absent or empty (both are falsy in JavaScript).
   */
  function AuthorizationHeader(headers: Headers): (v: Option<string>)
    ensures "authorization" in headers && headers["authorization"] != "" ==>
              v == Some(headers["authorization"])
    ensures ("authorization" !in headers || headers["authorization"] == "") && "Authorization" in headers ==>
              v == Some(headers["Authorization"])
    ensures v.None? <==> ("authorization" !in headers || headers["authorization"] == "") &&
                         "Authorization" !in headers
  {
    if "authorization" in headers && headers["authorization"] != "" then Some(headers["authorization"])
    else if "Authorization" in headers then Some(headers["Authorization"])
    else None
  }

  /** `[username, password] = credentials.split(':')`, compared with the configured pair. */
  predicate CredentialsMatch(config: Config, credentials: string) {
    var parts := Split(credentials, ':');
    Piece(parts, 0) == Some(config.username) && Piece(parts, 1) == Some(config.password)
  }

  /** `verifyBasicAuth`: true exactly when the request may proceed. */
  predicate VerifyBasicAuth(config: Config, decode: string -> string, headers: Headers) {
    match AuthorizationHeader(headers)
    case None => false
    case Some(header) =>
      header != "" && BasicScheme <= header &&
      match Piece(Split(header, ' '), 1)
      case None => false
      case Some(token) => CredentialsMatch(config, decode(token))
  }

  /** A missing header, or one not in the `Basic ` scheme, is refused. */
  lemma RejectsWithoutBasicScheme(config: Config, decode: string -> string, headers: Headers)
    requires AuthorizationHeader(headers).None? || !(BasicScheme <= AuthorizationHeader(headers).value)
    ensures !VerifyBasicAuth(config, decode, headers)
  {
  }

  /** `header.split(' ')[1]` on a `Basic ` header is the text up to the next space. */
  lemma {:induction false} TokenOfBasicHeader(header: string)
    requires BasicScheme <= header
    ensures Piece(Split(header, ' '), 1) == Some(TakeUntil(header[|BasicScheme|..], ' '))
  {
    var rest := header[|BasicScheme|..];
    assert header == "Basic" + [' '] + rest;
    SplitAtSeparator("Basic", ' ', rest);
    FirstPiece(rest, ' ');
  }

  /**
   * The decoded credentials match exactly when the username is the text before
   * the first `:` and the password the text between the first and second `:`.
   */
  lemma {:induction false} CredentialsMatchIff(config: Config, credentials: string)
    ensures CredentialsMatch(config, credentials) <==>
              ':' !in config.username && ':' !in config.password &&
              (credentials == config.username + ":" + config.password ||
               config.username + ":" + config.password + ":" <= credentials)
  {
    var u, p := config.username, config.password;
    var parts := Split(credentials, ':');
    if CredentialsMatch(config, credentials) {
      JoinSplit(credentials, ':');
      assert parts[0] == u && parts[1] == p;
      var tail := Join(parts[1..], ':');
      assert credentials == u + ":" + tail;
      if |parts| == 2 {
        assert tail == p;
      } else {
        assert tail == p + ":" + Join(parts[2..], ':');
        assert credentials == u + ":" + p + ":" + Join(parts[2..], ':');
      }
    }
    if ':' !in u && ':' !in p {
      if credentials == u + ":" + p {
        SplitAtSeparator(u, ':', p);
        SplitWithoutSeparator(p, ':');
      } else if u + ":" + p + ":" <= credentials {
        var x := credentials[|u + ":" + p + ":"|..];
        assert credentials == u + ":" + (p + ":" + x);
        SplitAtSeparator(u, ':', p + ":" + x);
        SplitAtSeparator(p, ':', x);
      }
    }
  }

  /**
   * The guard accepts exactly a `Basic ` header whose first word after the
   * scheme decodes to `username:password`, possibly followed by `:` and more.
   */
  lemma AcceptsIff(config: Config, decode: string -> string, headers: Headers)
    ensures VerifyBasicAuth(config, decode, headers) <==>
              AuthorizationHeader(headers).Some? &&
              BasicScheme <= AuthorizationHeader(headers).value &&
              var credentials := decode(TakeUntil(AuthorizationHeader(headers).value[|BasicScheme|..], ' '));
              ':' !in config.username && ':' !in config.password &&
              (credentials == config.username + ":" + config.password ||
               config.username + ":" + config.password + ":" <= credentials)
  {
    if AuthorizationHeader(headers).Some? && BasicScheme <= AuthorizationHeader(headers).value {
      var header := AuthorizationHeader(headers).value;
      TokenOfBasicHeader(header);
      CredentialsMatchIff(config, decode(TakeUntil(header[|BasicScheme|..], ' ')));
    }
  }

  /** A configured password that contains `:` can never be matched. */
  lemma PasswordWithColonNeverAccepted(config: Config, decode: string -> string, headers: Headers)
    requires ':' in config.password
    ensures !VerifyBasicAuth(config, decode, headers)
  {
    AcceptsIff(config, decode, headers);
  }
}
