/**
 * The user service: account records and per-user secret keys, kept in two
 * collections keyed by email, and the login decision that checks a password
 * against the stored, reversibly encrypted one and issues bearer tokens.
 */
module UserService {
  import opened Common
  import Base64
  import opened Jwt

  const ROLE_USER := "USER"
  const STATUS_ACTIVE := "ACTIVE"
  const STATUS_DELETED := "DELETED"

  const EMAIL_EXISTS := "Email already exists"
  const USER_CREATED := "User successfully created"
  const USER_UPDATED := "User is successfully updated"
  const BLANK_CREDENTIALS := "Username or Password should not be blank"
  const UNKNOWN_EMAIL := "Email doesn't exist"
  const INVALID_CREDENTIALS := "Invalid credentials"

  /** An account record of the users collection; `None` is a null field. */
  datatype User = User(
    email: string,
    firstName: Option<string>,
    lastName: Option<string>,
    phone: Option<string>,
    address: Option<string>,
    password: string,           // encrypted under the user's key record
    role: string,
    uniqueId: string,
    status: string,
    referralId: string,
    token: Option<string>,      // the current bearer token
    tokenExpiry: Option<int>)   // its cached expiration

  datatype CreateUserRequest = CreateUserRequest(
    email: string,
    firstName: Option<string>,
    lastName: Option<string>,
    phone: Option<string>,
    address: Option<string>,
    password: string)

  datatype UpdateUserRequest = UpdateUserRequest(
    email: string,
    firstName: Option<string>,
    lastName: Option<string>,
    phone: Option<string>,
    address: Option<string>,
    password: Option<string>)

  datatype HttpStatus = OK | BAD_REQUEST | NOT_FOUND

  datatype Body =
    | Message(text: string)
    | UserRecord(user: User)
    | BlankUser                 // a `new User()` with every field null
    | UserList(users: set<User>)

  datatype Response = Response(status: HttpStatus, body: Body)

  /** An exception that escapes an operation instead of a response. */
  datatype Fault =
    | NullPointer        // dereferencing a key record that is not there
    | IllegalArgument    // a key record that is not Base64, or decodes to no bytes
    | DecryptionFailure  // the cipher rejects the stored password

  datatype Outcome = Returned(response: Response) | Threw(fault: Fault)

  /** One write issued against the store. */
  datatype Write =
    | SaveKey(email: string, secretKey: string)
    | SaveUser(user: User)
    | RemoveKey(email: string)

  /**
   * The symmetric cipher of EncryptionUtils, whose implementation is not part
   * of this model; `decrypt` gives None where it throws.
   */
  datatype EncryptionUtils = EncryptionUtils(
    encrypt: (string, seq<byte>) -> string,
    decrypt: (string, seq<byte>) -> Option<string>)

  /** The cipher property the login flow relies on: decryption undoes encryption under the same key. */
  ghost predicate RoundTrips(cipher: EncryptionUtils) {
    forall p, k :: cipher.decrypt(cipher.encrypt(p, k), k) == Some(p)
  }

  /** `new SecretKeySpec(bytes, "AES")`, which rejects an empty key. */
  function SecretKeySpec(bytes: seq<byte>): Option<seq<byte>> {
    if |bytes| == 0 then None else Some(bytes)
  }

  /** The key a stored key record stands for: Base64-decode it, then wrap it as a key. */
  function KeyFromRecord(encoded: string): Option<seq<byte>> {
    match Base64.Decode(encoded)
    case None => None
    case Some(bytes) => SecretKeySpec(bytes)
  }

  /** A key record written from key bytes gives back exactly those bytes. */
  lemma StoredKeyRoundTrip(secretKey: seq<byte>)
    requires |secretKey| > 0
    ensures KeyFromRecord(Base64.Encode(secretKey)) == Some(secretKey)
  {
    Base64.DecodeEncode(secretKey);
  }

  /** `StringUtils.isEmpty`: null is represented by the empty string here. */
  predicate Blank(s: string) {
    |s| == 0
  }

  /** `StringUtils.equalsIgnoreCase`, with ASCII case folding. */
  predicate EqualsIgnoreCase(a: string, b: string) {
    |a| == |b| && forall i | 0 <= i < |a| :: ToLower(a[i]) == ToLower(b[i])
  }

  /** A non-null field of an update request replaces the current value; a null one keeps it. */
  function Overwrite(requested: Option<string>, current: Option<string>): (r: Option<string>)
    ensures requested.Some? ==> r == requested
    ensures requested.None? ==> r == current
  {
    if requested.Some? then requested else current
  }

  class UserServiceImpl {
    const encryptionUtils: EncryptionUtils
    const jwtUtils: JwtUtils

    /** The users collection, by email. */
    var users: map<string, User>
    /** The key storage collection: email to the Base64 text of the user's key bytes. */
    var keys: map<string, string>
    /** Every save and remove issued against the two collections, in order. */
    ghost var writes: seq<Write>

    /** A token and its cached expiration never disagree. */
    ghost predicate TokenCached(u: User) {
      u.token.Some? ==> u.tokenExpiry == Some(jwtUtils.extractExpiration(u.token.value))
    }

    ghost predicate Valid()
      reads this
    {
      && (forall e | e in users :: users[e].email == e && TokenCached(users[e]))
      && keys.Keys <= users.Keys
    }

    /** The key login would use for `email`, if its key record exists and decodes. */
    function StoredKey(email: string): Option<seq<byte>>
      reads this
    {
      if email in keys then KeyFromRecord(keys[email]) else None
    }

    /** `email` has a record and `password` matches its decrypted stored password. */
    ghost predicate Authenticates(email: string, password: string)
      reads this
    {
      && email in users
      && StoredKey(email).Some?
      && var plain := encryptionUtils.decrypt(users[email].password, StoredKey(email).value);
         plain.Some? && EqualsIgnoreCase(plain.value, password)
    }

    /** The stored token is null, empty or expired at `now`, so login must issue a new one. */
    predicate NeedsNewToken(u: User, now: int) {
      u.token.None? || Blank(u.token.value) || jwtUtils.isTokenExpired(u.token.value, now)
    }

    constructor (encryptionUtils: EncryptionUtils, jwtUtils: JwtUtils)
      ensures Valid()
      ensures this.encryptionUtils == encryptionUtils && this.jwtUtils == jwtUtils
      ensures users == map[] && keys == map[] && writes == []
    {
      this.encryptionUtils := encryptionUtils;
      this.jwtUtils := jwtUtils;
      users, keys, writes := map[], map[], [];
    }

    /**
     * Registers a new account. `secretKey` is the freshly generated key,
     * `uniqueId` and `referralId` the generated identifiers.
     */
    method CreateUser(request: CreateUserRequest, secretKey: seq<byte>, uniqueId: string, referralId: string)
      returns (response: Response)
      requires Valid()
      modifies this
      ensures Valid()
      ensures request.email in old(users) ==>
        && response == Response(BAD_REQUEST, Message(EMAIL_EXISTS))
        && users == old(users) && keys == old(keys) && writes == old(writes)
      ensures request.email !in old(users) ==>
        && response == Response(OK, Message(USER_CREATED))
        && request.email !in old(keys)
        && request.email in users && request.email in keys
        && var u := users[request.email];
           && users == old(users)[request.email := u]
           && keys == old(keys)[request.email := keys[request.email]]
           && u.email == request.email && u.firstName == request.firstName && u.lastName == request.lastName
           && u.phone == request.phone && u.address == request.address
           && u.role == ROLE_USER && u.status == STATUS_ACTIVE
           && u.uniqueId == uniqueId && u.referralId == referralId
           && u.token.None? && u.tokenExpiry.None?
           && u.password == encryptionUtils.encrypt(request.password, secretKey)
           && keys[request.email] == Base64.Encode(secretKey)
           && Base64.Decode(keys[request.email]) == Some(secretKey)
           && writes == old(writes) + [SaveKey(request.email, keys[request.email]), SaveUser(u)]
      ensures request.email !in old(users) && RoundTrips(encryptionUtils) && |secretKey| > 0 ==>
        Authenticates(request.email, request.password)
    {
      if request.email in users {
        return Response(BAD_REQUEST, Message(EMAIL_EXISTS));
      }
      var user := User(request.email, request.firstName, request.lastName, request.phone, request.address,
                       encryptionUtils.encrypt(request.password, secretKey), ROLE_USER, uniqueId,
                       STATUS_ACTIVE, referralId, None, None);
      var encodedSecretKey := Base64.Encode(secretKey);
      Base64.DecodeEncode(secretKey);
      keys := keys[request.email := encodedSecretKey];
      writes := writes + [SaveKey(request.email, encodedSecretKey)];
      users := users[request.email := user];
      writes := writes + [SaveUser(user)];
      if RoundTrips(encryptionUtils) && |secretKey| > 0 {
        StoredKeyRoundTrip(secretKey);
        assert EqualsIgnoreCase(request.password, request.password);
      }
      return Response(OK, Message(USER_CREATED));
    }

    /** The ACTIVE accounts (the optional search filter is not modelled). */
    function GetUsers(): (response: Response)
      reads this
      ensures response.status == OK && response.body.UserList?
      ensures forall u | u in response.body.users :: u.status == STATUS_ACTIVE && u in users.Values
      ensures forall e | e in users && users[e].status == STATUS_ACTIVE :: users[e] in response.body.users
    {
      Response(OK, UserList(set e | e in users && users[e].status == STATUS_ACTIVE :: users[e]))
    }

    /** The account with this email, or a blank user; the status is OK either way. */
    function GetUser(email: string): (response: Response)
      reads this
      ensures response.status == OK
      ensures response.body.UserRecord? <==> email in users
      ensures response.body.UserRecord? ==> response.body.user == users[email]
      ensures email !in users ==> response.body == BlankUser
    {
      if email in users then Response(OK, UserRecord(users[email])) else Response(OK, BlankUser)
    }

    /**
     * The key a password update encrypts under: the stored key record, decoded
     * (None when it is malformed), or else `freshKey`, whose record is saved first.
     */
    method PasswordKey(email: string, freshKey: seq<byte>) returns (secretKey: Option<seq<byte>>)
      requires Valid() && email in users
      modifies this
      ensures Valid() && users == old(users)
      ensures email in old(keys) ==>
        secretKey == KeyFromRecord(old(keys)[email]) && keys == old(keys) && writes == old(writes)
      ensures email !in old(keys) ==>
        && secretKey == Some(freshKey)
        && keys == old(keys)[email := Base64.Encode(freshKey)]
        && writes == old(writes) + [SaveKey(email, Base64.Encode(freshKey))]
      ensures secretKey.Some? && |secretKey.value| > 0 ==> StoredKey(email) == secretKey
    {
      if email in keys {
        secretKey := KeyFromRecord(keys[email]);
      } else {
        var encodedSecretKey := Base64.Encode(freshKey);
        keys := keys[email := encodedSecretKey];
        writes := writes + [SaveKey(email, encodedSecretKey)];
        if |freshKey| > 0 {
          StoredKeyRoundTrip(freshKey);
        }
        secretKey := Some(freshKey);
      }
    }

    /**
     * Updates the non-null fields of an account; a new password is encrypted
     * under the existing key record, or under `freshKey`, saved first, when
     * there is none.
     */
    method UpdateUser(request: UpdateUserRequest, freshKey: seq<byte>) returns (outcome: Outcome)
      requires Valid()
      modifies this
      ensures Valid()
      ensures request.email !in old(users) ==>
        && outcome == Returned(Response(NOT_FOUND, Message("No User found with Id- " + request.email)))
        && users == old(users) && keys == old(keys) && writes == old(writes)
      ensures request.email in old(users) && request.password.Some? && request.email in old(keys)
              && KeyFromRecord(old(keys)[request.email]).None? ==>
        && outcome == Threw(IllegalArgument)
        && users == old(users) && keys == old(keys) && writes == old(writes)
      ensures outcome.Threw? <==>
        && request.email in old(users) && request.password.Some? && request.email in old(keys)
        && KeyFromRecord(old(keys)[request.email]).None?
      ensures outcome.Returned? && request.email in old(users) ==>
        && outcome.response == Response(OK, Message(USER_UPDATED))
        && request.email in users
        && var u, u0 := users[request.email], old(users)[request.email];
           && users == old(users)[request.email := u]
           && u.firstName == Overwrite(request.firstName, u0.firstName)
           && u.lastName == Overwrite(request.lastName, u0.lastName)
           && u.phone == Overwrite(request.phone, u0.phone)
           && u.address == Overwrite(request.address, u0.address)
           && u.email == u0.email && u.role == u0.role && u.uniqueId == u0.uniqueId
           && u.status == u0.status && u.referralId == u0.referralId
           && u.token == u0.token && u.tokenExpiry == u0.tokenExpiry
           && (request.password.None? ==>
                u.password == u0.password && keys == old(keys) && writes == old(writes) + [SaveUser(u)])
           && (request.password.Some? && request.email in old(keys) ==>
                && KeyFromRecord(old(keys)[request.email]).Some?
                && u.password == encryptionUtils.encrypt(request.password.value, KeyFromRecord(old(keys)[request.email]).value)
                && keys == old(keys) && writes == old(writes) + [SaveUser(u)])
           && (request.password.Some? && request.email !in old(keys) ==>
                && keys == old(keys)[request.email := Base64.Encode(freshKey)]
                && u.password == encryptionUtils.encrypt(request.password.value, freshKey)
                && writes == old(writes) + [SaveKey(request.email, Base64.Encode(freshKey)), SaveUser(u)])
      ensures outcome.Returned? && request.password.Some? && RoundTrips(encryptionUtils)
              && (request.email !in old(keys) ==> |freshKey| > 0) && request.email in old(users) ==>
        Authenticates(request.email, request.password.value)
    {
      if request.email !in users {
        return Returned(Response(NOT_FOUND, Message("No User found with Id- " + request.email)));
      }
      var current := users[request.email];
      var user := current.(firstName := Overwrite(request.firstName, current.firstName),
                           lastName := Overwrite(request.lastName, current.lastName),
                           email := request.email,
                           phone := Overwrite(request.phone, current.phone),
                           address := Overwrite(request.address, current.address));
      if request.password.Some? {
        var secretKey := PasswordKey(request.email, freshKey);
        if secretKey.None? {
          return Threw(IllegalArgument);
        }
        user := user.(password := encryptionUtils.encrypt(request.password.value, secretKey.value));
        if RoundTrips(encryptionUtils) && |secretKey.value| > 0 {
          assert EqualsIgnoreCase(request.password.value, request.password.value);
        }
      }
      assert user.email == request.email && TokenCached(user);
      users := users[request.email := user];
      writes := writes + [SaveUser(user)];
      return Returned(Response(OK, Message(USER_UPDATED)));
    }

    /** Soft-deletes an account: its status becomes DELETED and its key record is removed. */
    method DeleteUser(email: string) returns (response: Response)
      requires Valid()
      modifies this
      ensures Valid()
      ensures email !in old(users) ==>
        && response == Response(NOT_FOUND, Message("No Customer found with Id-" + email))
        && users == old(users) && keys == old(keys) && writes == old(writes)
      ensures email in old(users) ==>
        && response == Response(OK, Message("User " + email + " is successfully deleted"))
        && var u := old(users)[email].(status := STATUS_DELETED);
           && users == old(users)[email := u]
           && keys == old(keys) - {email}
           && writes == old(writes) + [SaveUser(u), RemoveKey(email)]
      ensures forall p :: !Authenticates(email, p)
    {
      if email !in users {
        return Response(NOT_FOUND, Message("No Customer found with Id-" + email));
      }
      var user := users[email].(status := STATUS_DELETED);
      users := users[email := user];
      writes := writes + [SaveUser(user)];
      keys := keys - {email};
      writes := writes + [RemoveKey(email)];
      return Response(OK, Message("User " + email + " is successfully deleted"));
    }

    /**
     * The login decision. Rejections and faults write nothing; a success
     * reissues the token, and saves the account, only when the stored token
     * is null, empty or expired at `now`.
     */
    method LoginAuthentication(username: string, password: string, now: int) returns (outcome: Outcome)
      requires Valid()
      modifies this
      ensures Valid()
      ensures keys == old(keys)
      ensures Blank(username) || Blank(password) ==>
        outcome == Returned(Response(BAD_REQUEST, Message(BLANK_CREDENTIALS)))
      ensures !Blank(username) && !Blank(password) && username !in old(users) ==>
        outcome == Returned(Response(BAD_REQUEST, Message(UNKNOWN_EMAIL)))
      ensures !Blank(username) && !Blank(password) && username in old(users) && username !in keys ==>
        outcome == Threw(NullPointer)
      ensures !Blank(username) && !Blank(password) && username in old(users) && username in keys
              && StoredKey(username).None? ==>
        outcome == Threw(IllegalArgument)
      ensures !Blank(username) && !Blank(password) && username in old(users) && StoredKey(username).Some?
              && encryptionUtils.decrypt(old(users)[username].password, StoredKey(username).value).None? ==>
        outcome == Threw(DecryptionFailure)
      ensures (&& !Blank(username) && !Blank(password) && username in old(users) && StoredKey(username).Some?
               && var plain := encryptionUtils.decrypt(old(users)[username].password, StoredKey(username).value);
                  plain.Some? && !EqualsIgnoreCase(plain.value, password)) ==>
        outcome == Returned(Response(BAD_REQUEST, Message(INVALID_CREDENTIALS)))
      ensures (outcome.Returned? && outcome.response.status == OK) <==>
        !Blank(username) && !Blank(password) && old(Authenticates(username, password))
      ensures !(outcome.Returned? && outcome.response.status == OK) ==>
        users == old(users) && writes == old(writes)
      ensures outcome.Returned? && outcome.response.status == OK && NeedsNewToken(old(users)[username], now) ==>
        && var t := jwtUtils.generateToken(username, now);
           var u := old(users)[username].(token := Some(t), tokenExpiry := Some(jwtUtils.extractExpiration(t)));
           && users == old(users)[username := u]
           && writes == old(writes) + [SaveUser(u)]
           && outcome.response.body == UserRecord(u)
      ensures outcome.Returned? && outcome.response.status == OK && !NeedsNewToken(old(users)[username], now) ==>
        && outcome.response.body == UserRecord(old(users)[username])
        && users == old(users) && writes == old(writes)
    {
      if Blank(username) || Blank(password) {
        return Returned(Response(BAD_REQUEST, Message(BLANK_CREDENTIALS)));
      }
      if username !in users {
        return Returned(Response(BAD_REQUEST, Message(UNKNOWN_EMAIL)));
      }
      var user := users[username];
      if username !in keys {
        return Threw(NullPointer);
      }
      var secretKey := KeyFromRecord(keys[username]);
      if secretKey.None? {
        return Threw(IllegalArgument);
      }
      var decryptedPassword := encryptionUtils.decrypt(user.password, secretKey.value);
      if decryptedPassword.None? {
        return Threw(DecryptionFailure);
      }
      if !EqualsIgnoreCase(decryptedPassword.value, password) {
        return Returned(Response(BAD_REQUEST, Message(INVALID_CREDENTIALS)));
      }
      if NeedsNewToken(user, now) {
        var jwtToken := jwtUtils.generateToken(user.email, now);
        user := user.(token := Some(jwtToken), tokenExpiry := Some(jwtUtils.extractExpiration(jwtToken)));
        users := users[username := user];
        writes := writes + [SaveUser(user)];
      }
      return Returned(Response(OK, UserRecord(user)));
    }
  }

  /**
   * Register, log in, and log in again while the token is still valid: the
   * first login issues and saves a token, the second returns the same record
   * and writes nothing.
   */
  method RegisterThenLogInTwice(service: UserServiceImpl, request: CreateUserRequest, secretKey: seq<byte>,
                                uniqueId: string, referralId: string, firstLogin: int, secondLogin: int)
    returns (first: Outcome, second: Outcome)
    requires service.Valid() && request.email !in service.users
    requires RoundTrips(service.encryptionUtils) && |secretKey| > 0
    requires !Blank(request.email) && !Blank(request.password)
    requires !service.jwtUtils.isTokenExpired(service.jwtUtils.generateToken(request.email, firstLogin), secondLogin)
    requires !Blank(service.jwtUtils.generateToken(request.email, firstLogin))
    modifies service
    ensures first.Returned? && first.response.status == OK && first.response.body.UserRecord?
    ensures first.response.body.user.token == Some(service.jwtUtils.generateToken(request.email, firstLogin))
    ensures second == first
    ensures |service.writes| == |old(service.writes)| + 3
  {
    var created := service.CreateUser(request, secretKey, uniqueId, referralId);
    assert service.Authenticates(request.email, request.password);
    first := service.LoginAuthentication(request.email, request.password, firstLogin);
    assert service.Authenticates(request.email, request.password);
    ghost var afterFirst := service.writes;
    second := service.LoginAuthentication(request.email, request.password, secondLogin);
    assert service.writes == afterFirst;
  }
}
