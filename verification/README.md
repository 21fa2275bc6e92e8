# Credential and payment-signing model of the training service

A Dafny model of the training service's credential and trust logic. It covers three parts:

- **User service** (`user_service.dfy`, module `UserService`). Accounts live in a users collection and a separate key-storage collection, both keyed by email. They are modelled as two maps held by the class `UserServiceImpl`, plus a ghost log of every save and remove, in order. Passwords are stored encrypted under a per-user key. The key is kept as standard Base64 text. The login decision decrypts the stored password, compares it ignoring case, and reuses the stored bearer token or issues a new one.
- **Payment signing** (`payment_service.dfy`, module `PaymentService`). The payment payload is a fixed-shape map, serialised and then Base64-encoded. The X-VERIFY checksum is the lower-case hex SHA-256 of payload, endpoint path, salt key, `###` and salt index, followed by `###1`. The payment call returns the gateway's redirect URL, or null when any step fails.
- **Bearer-token filter** (`jwt_config.dfy`, module `JwtConfig`). Once per request, the filter looks at a request that carries a valid `Authorization: Bearer <token>` header and has no authentication yet. It stores an authentication whose principal is the token's subject, then passes the request on. That authentication is built with the two-argument token constructor, so it is not marked as authenticated (`authenticated` is false).

Supporting modules:

- `base64.dfy` (`Base64`): padded Base64 as defined in section 4 of RFC 4648. It comes with the round trip, the length 4·⌈n/3⌉ and the alphabet.
- `jwt.dfy` (`Jwt`): the token primitives.
- `common.dfy` (`Common`): bytes, Java bytes and `Option`.

The cipher (`EncryptionUtils`), the token primitives (`JwtUtils`), SHA-256, the JSON serialiser, the HTTP exchange and the response parser are not part of this model. Each is passed in as a function value. The clock is the parameter `now`. Generated keys, UUIDs and referral ids are parameters too.

"Decryption undoes encryption" is never assumed. It is the predicate `RoundTrips`, and it appears as a hypothesis only where a conclusion depends on it.

Where the code's behaviour may be unexpected, the model follows it:

- A login whose key record is missing fails with a null dereference (`Threw(NullPointer)`), not with a typed rejection.
- A malformed Base64 key record (including one that decodes to no bytes, which `SecretKeySpec` rejects) ends in an exception in both login and password update. A missing key record ends in an exception only in login. A password update instead generates and saves a new key.
- In the filter, extracting the subject of an unparseable token throws out of the filter. The exception propagates and the chain is not continued. The request does not quietly pass through unauthenticated. Whether `JwtUtils.extractUsername` throws is up to code that is not part of this model, so this path is modelled as a possible outcome.
- Login does not look at the account status. A deleted account loses its key record, so its login fails at the dereference. But a later password update creates a new key record, and that account can then log in again while its status is still DELETED.

The class invariant `Valid` holds for every state reachable through the modelled operations. It says:

- every user record is stored under its own email;
- a stored token's cached expiry equals the expiry extracted from that token;
- every key record belongs to an existing user.

## Model

| member | source | states |
|---|---|---|
| `Base64.DecodeEncode` | src/main/java/com/training/service/impl/PaymentServiceImpl.java:63 | Decoding the Base64 text of any byte sequence gives back exactly those bytes |
| `Base64.EncodeLength` | src/main/java/com/training/service/impl/PaymentServiceImpl.java:63 | Base64 text of n bytes has 4·⌈n/3⌉ characters |
| `Base64.EncodeAlphabet` | src/main/java/com/training/service/impl/PaymentServiceImpl.java:63 | Every character of Base64 text is in the alphabet of RFC 4648. The exception is the pad `=`, which only stands in the last two positions |
| `UserService.StoredKeyRoundTrip` | src/main/java/com/training/service/impl/UserServiceImpl.java:150-152 | A key record written as the Base64 of non-empty key bytes (lines 78-79) is read back, decoded and wrapped as exactly those key bytes |
| `UserService.UserServiceImpl.constructor` | src/main/java/com/training/service/impl/UserServiceImpl.java:40-47 | The service holds the injected cipher and token utilities over empty collections, and its invariant holds |
| `UserService.UserServiceImpl.CreateUser` | src/main/java/com/training/service/impl/UserServiceImpl.java:54-88 | An existing email gives BAD_REQUEST "Email already exists" and writes nothing. Otherwise it gives OK and adds exactly one user and one fresh key record, the key written first. The new user has role USER, status ACTIVE, the request's profile, the generated ids, no token, and password = encrypt(request password, generated key). The key record decodes to the generated key. With a round-tripping cipher and a non-empty key, the new password authenticates |
| `UserService.UserServiceImpl.GetUsers` | src/main/java/com/training/service/impl/UserServiceImpl.java:90-105 | Status is OK. The returned users are exactly the stored users whose status is ACTIVE |
| `UserService.UserServiceImpl.GetUser` | src/main/java/com/training/service/impl/UserServiceImpl.java:107-119 | Status is OK whether or not the email is known. The body is the stored record iff one exists, otherwise a blank user |
| `UserService.UserServiceImpl.PasswordKey` | src/main/java/com/training/service/impl/UserServiceImpl.java:146-161 | A password update uses the decoded stored key record when one exists (none if it is malformed) and writes nothing. Otherwise it uses the freshly generated key, saving its Base64 record first. A non-empty key obtained this way is the key login will read back. Users are untouched |
| `UserService.UserServiceImpl.UpdateUser` | src/main/java/com/training/service/impl/UserServiceImpl.java:121-172 | An unknown email gives NOT_FOUND and writes nothing. The update throws exactly when the user exists, a new password is given, and the existing key record is malformed; it then writes nothing. Otherwise only the non-null request fields change, and role, status, ids and token stay. A new password is encrypted under the existing key record. If there is none, it is encrypted under the fresh key, which is saved before the user. With a round-tripping cipher, the new password then authenticates |
| `UserService.UserServiceImpl.DeleteUser` | src/main/java/com/training/service/impl/UserServiceImpl.java:174-189 | An unknown email gives NOT_FOUND and changes nothing. Otherwise the record is kept with status DELETED (saved first), its key record is removed, and no password authenticates that email afterwards |
| `UserService.UserServiceImpl.LoginAuthentication` | src/main/java/com/training/service/impl/UserServiceImpl.java:223-270 | Each rejection path has its own outcome: blank input, an unknown email, a missing key record (null dereference), a malformed key record, a decryption failure, and "Invalid credentials". None of them writes anything. Login succeeds iff both inputs are non-blank and the decrypted stored password equals the given one ignoring case. On success, a token is issued iff the stored one is null, empty or expired. The new token and its extracted expiry are then saved together. Otherwise the record is returned unchanged and nothing is written. Key records never change |
| `UserService.RegisterThenLogInTwice` | src/main/java/com/training/service/impl/UserServiceImpl.java:223-270 | After registration, a first login issues and saves a token. A second login while that token is unexpired returns the same record without reissuing |
| `Common.Unsigned` | src/main/java/com/training/service/impl/PaymentServiceImpl.java:97 | `0xff & b` is the unsigned byte congruent to b modulo 256, and equals b for non-negative b |
| `PaymentService.ToHexString` | src/main/java/com/training/service/impl/PaymentServiceImpl.java:97-99 | `Integer.toHexString` of a byte value has one digit exactly when the value is below 16, and two otherwise |
| `PaymentService.HexEncode` | src/main/java/com/training/service/impl/PaymentServiceImpl.java:94-103 | Hex text is exactly twice as long as the input, and every character is in 0-9a-f |
| `PaymentService.BytesToHex` | src/main/java/com/training/service/impl/PaymentServiceImpl.java:94-103 | The loop, which pads a single digit with '0', yields exactly two digits per byte: the high then the low nibble of `0xff & b` |
| `PaymentService.HexDecodeEncode` | src/main/java/com/training/service/impl/PaymentServiceImpl.java:96-100 | Each 2-character group of the hex text reads back as `0xff & b` for its byte |
| `PaymentService.HexEncodeInjective` | src/main/java/com/training/service/impl/PaymentServiceImpl.java:96-100 | Different byte sequences have different hex text |
| `PaymentService.LowerCaseHex` | src/main/java/com/training/service/impl/PaymentServiceImpl.java:70 | `toLowerCase` applied to the hex text is a no-op |
| `PaymentService.Utf8Char` | src/main/java/com/training/service/impl/PaymentServiceImpl.java:69 | UTF-8 gives 1 to 4 bytes per character, and a single byte, the character's code, for ASCII |
| `PaymentService.Checksum` | src/main/java/com/training/service/impl/PaymentServiceImpl.java:66-71 | The checksum is 68 characters: 64 lower-case hex digits, then "###1" |
| `PaymentService.CalculateChecksum` | src/main/java/com/training/service/impl/PaymentServiceImpl.java:66-71 | The checksum is hex(SHA-256(UTF-8 of payload ++ "/pg/v1/pay" ++ salt key ++ "###1")) ++ "###1". It is determined by the payload |
| `PaymentService.ChecksumDeterminesDigest` | src/main/java/com/training/service/impl/PaymentServiceImpl.java:67-70 | Two payloads with equal checksums hashed to equal digests, so the hex part loses nothing |
| `PaymentService.WrapInt32` | src/main/java/com/training/service/impl/PaymentServiceImpl.java:53 | Java int arithmetic agrees with the exact product in range, and with it modulo 2^32 always |
| `PaymentService.AmountScaled` | src/main/java/com/training/service/impl/PaymentServiceImpl.java:53 | An amount whose hundredfold fits an int is sent as exactly amount × 100 |
| `PaymentService.PaymentPayload` | src/main/java/com/training/service/impl/PaymentServiceImpl.java:47-60 | The payload map has exactly the keys merchantId (the merchant constant), merchantTransactionId, merchantUserId, name, amount (× 100 as an int), redirectMode "POST", mobileNumber and paymentInstrument {type: "PAY_PAGE"} |
| `PaymentService.CreateBase64EncodedPayload` | src/main/java/com/training/service/impl/PaymentServiceImpl.java:47-64 | The map filled entry by entry is that payload map. The result is its serialised bytes as padded Base64, which decodes back to those bytes. It has length 4·⌈n/3⌉ and uses only alphabet and pad characters |
| `PaymentService.PayloadDeterminesRequest` | src/main/java/com/training/service/impl/PaymentServiceImpl.java:47-63 | With an injective serialiser, equal payloads come from requests that agree on every field the map carries |
| `PaymentService.PaymentApiRequestDeterminesSignature` | src/main/java/com/training/service/impl/PaymentServiceImpl.java:74-79 | The signed POST, with body {"request":"<payload>"} and the checksum in X-VERIFY beside the accept and Content-Type headers, determines both the payload and the checksum: two requests that are equal carry the same payload and the same signature |
| `PaymentService.MakePaymentApiRequest` | src/main/java/com/training/service/impl/PaymentServiceImpl.java:73-92 | A response body is produced iff the exchange completes with a 2xx status. Every other case is the exception path |
| `PaymentService.InitiatePayment` | src/main/java/com/training/service/impl/PaymentServiceImpl.java:33-45 | The result is the parsed redirect URL of a 2xx reply to the signed request for this payload. It is null whenever the exchange fails, the status is not 2xx, or parsing fails |
| `JwtConfig.BearerToken` | src/main/java/com/training/config/JwtConfig.java:36-37 | A token is extracted iff the header is present and starts with "Bearer ". The header is then exactly "Bearer " followed by the token |
| `JwtConfig.BearerTokenOfPrefixed` | src/main/java/com/training/config/JwtConfig.java:36-37 | Prefixing a token with "Bearer " and extracting it gives the token back |
| `JwtConfig.FilterChain.DoFilter` | src/main/java/com/training/config/JwtConfig.java:51 | Passing the request on counts one continuation of the chain |
| `JwtConfig.DoFilterInternal` | src/main/java/com/training/config/JwtConfig.java:28-52 | The filter throws iff a bearer token is present and its subject cannot be extracted. Otherwise the chain is continued exactly once. An existing authentication is never replaced, and without a bearer token nothing changes. The authentication changes iff there was none, a username was extracted, and `validateToken(token, username)` holds. Its principal is then that username, and it is not marked authenticated |

## Left out

- Persistence mechanics of the document store. Queries, ids and collection names are not modelled: each collection is a map keyed by email. A key record for an email that has no user record cannot arise through the modelled operations (the invariant `Valid` excludes it). So the store's possible duplicate key documents for one email are not modelled.
- `UserService.UserServiceImpl.GetUsers`: returns the ACTIVE users as a set. The search filter on a non-empty search input (a case-insensitive regular expression over nine fields) is not modelled, and neither is the order of the returned list.
- `UserService.UserServiceImpl.LoginAuthentication`: the FORBIDDEN "Email Id doesn't exist" branch is not modelled. It is reached only if a record disappears between the count and the lookup, which cannot happen in a map.
- The cipher, key generation, the token primitives, SHA-256, the JSON serialiser and the response parser are function parameters. Their internals are not modelled, and neither are the exceptions they may throw (other than decryption failure and subject extraction).
- `UserService.UserServiceImpl.CreateUser` and `UserService.UserServiceImpl.UpdateUser` take the request email and the new password as non-null strings. A null email or null create password is not modelled.
- Null and empty usernames and passwords are both the empty string. The source treats them alike.
- `UserService.EqualsIgnoreCase` and `PaymentService.ToLowerCase` fold ASCII letters only. Java's full Unicode case mapping is not modelled.
- `Base64.Decode` accepts only padded text whose length is a multiple of four. The JDK decoder also accepts text without its final padding. Stored keys are always padded, so the modelled operations are unaffected.
- User, CreateUserRequest, UpdateUserRequest, KeyStorage, PaymentRequest, ApiResponse, TrainingConstants and CollectionConstants are not part of this model. Record fields are inferred from the setters and getters the service uses. The role and status constants are the strings "USER", "ACTIVE" and "DELETED". The payment amount is taken to be a Java int, like the amount of CreatePaymentRequest.
- Request details attached to the authentication (`WebAuthenticationDetailsSource`), logging, `System.out` and `printStackTrace`. What the security configuration later does with the unauthenticated token (its re-authentication under `anyRequest().authenticated()`) is not part of this model.
- Concurrency: every operation is one atomic step. The key-then-user write order is recorded in the write log, but a crash between the two writes is not modelled.
- Controllers, security configuration and the other services are not part of this model.
