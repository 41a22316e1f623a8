# Stuart broker: authentication services and WebSocket listener counter

A Dafny model of three pieces of the Stuart MQTT broker (dinstone/stuart):

- **MySQL authentication service** (`mysql_auth.dfy`, module `MySQLAuth`).
  - The password check: blank credentials are refused, and otherwise only the first row returned for the username is compared with the encrypted password.
  - ACL resolution: each `MqttAuthority` request takes its access and authority from the first ACL row, in ascending `seq` order, whose topic filter matches its topic.
  - Requests already carrying the SUBACK failure code 0x80 (section 3.9.3 of MQTT Version 3.1.1) are skipped.
- **Redis authentication service** (`redis_auth.dfy`, module `RedisAuth`).
  - The password check against one field of the user's hash.
  - The derivation of ACL hash keys (`transform2Key`).
  - The ACL scan over the user, ipAddr, clientId and "all" hashes in that order. Inside each hash the first matching field wins. The scan stops after the first hash at whose end access and authority are both non-null.
- **WebSocket listener verticle** (`wsp_verticle.dfy`, module `WspVerticle`).
  - The class-wide connection counter (`limited`, increment, decrement, get) with Java `int` wrap-around.
  - The protocol label, port, listener string and connection limit that `initOptions` sets.

Shared pieces live in `auth_common.dfy` (module `AuthCommon`).
- The `MqttAuthority` class, whose `access` and `authority` fields are written in place.
- The first-match rule (`FirstMatch`, `Resolve`).
- `StringUtils.isBlank` (`IsBlank`).
- Java's rendering of a null string in a concatenation (`JavaString`).

`wrappers.dfy` holds `Option`, which stands for a nullable reference, and `Outcome`, the completion of an asynchronous call.

Collaborators whose code is not part of this model are parameters and stay uninterpreted.
- `AuthUtil.isMatch` and `AuthUtil.transform2Authority` form the `AuthUtil` record of functions. No wildcard semantics are assumed.
- `Config.getAes().encryptBase64` is the function `enc`.
- The `Config` getters and the `SysConst`/`AclConst` constants are fields of `RedisConfig`, `WsConfig` and `Labels`.

Database and Redis round trips are inputs.
- A MySQL query is an `Outcome` over the rows it returned.
- The Redis server is `Down`, or `Up` with a map from keys to hashes. A hash is the sequence of fields in the order the client enumerates them.
- What a handler would be called with is the method's or function's result.

`limited()` tests `>=` (src/main/java/io/stuart/verticles/mqtt/ClsWspMqttVerticle.java:58), so a count at or above the limit is refused; a negative limit refuses every connection.

The Redis rule "the earliest hash with a match wins" holds only when that match transforms to an authority that sets both access and authority. If it sets only one of them, the scan goes on to later hashes, and a later match overwrites both fields (`PartialGrantOverwritten`).

## Model

| member | source | states |
|---|---|---|
| `AuthCommon.FirstMatch` | src/main/java/io/stuart/services/auth/impl/MySQLAuthServiceImpl.java:202-215 | The index found matches the topic and no earlier entry matches. No index is found exactly when no entry matches. |
| `AuthCommon.FirstMatchPrefix` | src/main/java/io/stuart/services/auth/impl/MySQLAuthServiceImpl.java:202-215 | Once an entry matches, appending more entries does not change which entry is the first match. |
| `AuthCommon.LaterEntriesIgnored` | src/main/java/io/stuart/services/auth/impl/RedisAuthServiceImpl.java:186-199 | After the first matching entry (row or hash field), later entries never affect the resolved access and authority. |
| `AuthCommon.ResolveCases` | src/main/java/io/stuart/services/auth/impl/MySQLAuthServiceImpl.java:196-217 | With no matching entry the authority is unchanged. With a match, the result does not depend on what the authority held before. |
| `AuthCommon.MqttAuthority.SetGrant` | src/main/java/io/stuart/services/auth/impl/MySQLAuthServiceImpl.java:208-211 | The two setters write access and authority only; topic and qos keep their values. |
| `MySQLAuth.PasswdEquals` | src/main/java/io/stuart/services/auth/impl/MySQLAuthServiceImpl.java:161-177 | An empty result set gives false. Otherwise the loop returns on the first row: true exactly when that row's password is non-null and equals the encrypted password. |
| `MySQLAuth.LaterRowsIgnored` | src/main/java/io/stuart/services/auth/impl/MySQLAuthServiceImpl.java:166-176 | The verdict depends on the first row alone: any later rows give the same answer. |
| `MySQLAuth.Auth` | src/main/java/io/stuart/services/auth/impl/MySQLAuthServiceImpl.java:114-127 | A blank username or password is refused whatever the database holds. Otherwise auth succeeds exactly when the query succeeded and its first row holds the encrypted password. |
| `MySQLAuth.SetAuthority` | src/main/java/io/stuart/services/auth/impl/MySQLAuthServiceImpl.java:196-217 | The new access and authority come from the transformed text of the first matching row; without a match they are unchanged. Topic and qos are preserved. |
| `MySQLAuth.SetAuthorities` | src/main/java/io/stuart/services/auth/impl/MySQLAuthServiceImpl.java:179-194 | Requests with qos 0x80 are untouched and every other request is resolved by the first-match rule. An empty row set changes nothing. A request listed twice is resolved correctly. |
| `MySQLAuth.AccessSingle` | src/main/java/io/stuart/services/auth/impl/MySQLAuthServiceImpl.java:145-159 | The handler gets the same object. A failed query changes nothing, and a successful one resolves it against the rows. |
| `MySQLAuth.AccessList` | src/main/java/io/stuart/services/auth/impl/MySQLAuthServiceImpl.java:129-143 | The handler gets the same list. A failed query changes no entry, and a successful one resolves the list as `SetAuthorities` does. |
| `RedisAuth.KeyInjective` | src/main/java/io/stuart/services/auth/impl/RedisAuthServiceImpl.java:142-156 | Within one target kind, two non-null targets with the same ACL key are the same target. |
| `RedisAuth.NullTargetSharesKey` | src/main/java/io/stuart/services/auth/impl/RedisAuthServiceImpl.java:155 | A null target (an anonymous username, for one) reads the same ACL hash as a target spelled "null". |
| `RedisAuth.UserTableWins` | src/main/java/io/stuart/services/auth/impl/RedisAuthServiceImpl.java:101-111 | The four ACL hashes are checked in the order user, ipAddr, clientId, all, and a missing key reads as an empty hash. For a request whose fields are not both set, a match in the user hash that transforms to an authority with both fields decides the request, whatever the other three hashes hold. |
| `RedisAuth.AuthAsWritten` | src/main/java/io/stuart/services/auth/impl/RedisAuthServiceImpl.java:81-96 | Blank credentials get false. The handler is never called exactly when the credentials are not blank, the lookup succeeded, and the password field is nil. |
| `RedisAuth.UnknownUserNoReply` | src/main/java/io/stuart/services/auth/impl/RedisAuthServiceImpl.java:88-89 | For a non-blank user with no user hash, the code as written never answers. |
| `RedisAuth.Auth` | src/main/java/io/stuart/services/auth/impl/RedisAuthServiceImpl.java:81-96 | Succeeds exactly when both credentials are non-blank, the server is reachable, and the user's hash (the user key prefix followed by the username) holds the encrypted password at its first field named by the password field. |
| `RedisAuth.AuthAgreesWhenAnswered` | src/main/java/io/stuart/services/auth/impl/RedisAuthServiceImpl.java:85-93 | Wherever the code as written answers, its answer is the corrected `Auth` verdict. |
| `RedisAuth.FirstTable` | src/main/java/io/stuart/services/auth/impl/RedisAuthServiceImpl.java:184-200 | The index found is the first hash that holds a matching field. No index is found exactly when no hash has one. |
| `RedisAuth.NoMatchUnchanged` | src/main/java/io/stuart/services/auth/impl/RedisAuthServiceImpl.java:174-206 | If no field of any hash matches the topic, the scan leaves access and authority as they were. |
| `RedisAuth.EarliestTableWins` | src/main/java/io/stuart/services/auth/impl/RedisAuthServiceImpl.java:184-205 | Take an authority whose fields are not both set. If the first matching field of the earliest hash holding a match transforms to an authority with both fields, that hash decides the result, in the order user, ipAddr, clientId, all. |
| `RedisAuth.PartialGrantOverwritten` | src/main/java/io/stuart/services/auth/impl/RedisAuthServiceImpl.java:193-204 | When a transformed authority sets access only, the scan goes on: a user hash granting access only is overwritten by a later match in the all hash. |
| `RedisAuth.LaterTablesIgnored` | src/main/java/io/stuart/services/auth/impl/RedisAuthServiceImpl.java:202-204 | Once access and authority are both non-null after some hashes, hashes after them do not change the result. |
| `RedisAuth.ScanIdempotent` | src/main/java/io/stuart/services/auth/impl/RedisAuthServiceImpl.java:174-206 | Scanning again from the result of a scan gives that same result. |
| `RedisAuth.SetAuthority` | src/main/java/io/stuart/services/auth/impl/RedisAuthServiceImpl.java:174-206 | The nested loops leave exactly the grant the scan rule defines. Topic and qos are preserved. |
| `RedisAuth.SetAuthorities` | src/main/java/io/stuart/services/auth/impl/RedisAuthServiceImpl.java:158-172 | Requests with qos 0x80 are untouched and every other request gets its scan result. No hashes means no change. A request listed twice is still right. |
| `RedisAuth.AccessSingle` | src/main/java/io/stuart/services/auth/impl/RedisAuthServiceImpl.java:120-140 | The handler gets the same object. An unreachable server changes nothing. Otherwise the request is scanned against the four ACL hashes. |
| `RedisAuth.AccessList` | src/main/java/io/stuart/services/auth/impl/RedisAuthServiceImpl.java:98-118 | The handler gets the same list. An unreachable server changes no entry. Otherwise each non-failed request is scanned against the four ACL hashes. |
| `WspVerticle.Inc` | src/main/java/io/stuart/verticles/mqtt/ClsWspMqttVerticle.java:66-68 | The result is one more than the argument modulo 2^32, and exactly one more below INT_MAX. |
| `WspVerticle.Dec` | src/main/java/io/stuart/verticles/mqtt/ClsWspMqttVerticle.java:71-73 | The result is one less modulo 2^32, with no floor at zero: a count of 0 becomes -1. |
| `WspVerticle.DecUndoesInc` | src/main/java/io/stuart/verticles/mqtt/ClsWspMqttVerticle.java:66-73 | A decrement undoes an increment, and an increment undoes a decrement. |
| `WspVerticle.IncrementsFromZero` | src/main/java/io/stuart/verticles/mqtt/ClsWspMqttVerticle.java:16 | Starting from the initial 0, n increments give n, up to INT_MAX. |
| `WspVerticle.AdmissionThreshold` | src/main/java/io/stuart/verticles/mqtt/ClsWspMqttVerticle.java:57-68 | Starting from 0 with only increments, `limited` is false before `connMaxLimit` increments and true from then on. |
| `WspVerticle.Digits` | src/main/java/io/stuart/verticles/mqtt/ClsWspMqttVerticle.java:31 | The port renders as a non-empty string of decimal digits with no leading zero. |
| `WspVerticle.IntToStringRoundTrip` | src/main/java/io/stuart/verticles/mqtt/ClsWspMqttVerticle.java:31 | The decimal rendering of an int parses back to the same int. |
| `WspVerticle.ListenerRoundTrip` | src/main/java/io/stuart/verticles/mqtt/ClsWspMqttVerticle.java:31 | The listener string starts with the listen address, and the text after the separator reads back as the WebSocket port. |
| `WspVerticle.ClsWspMqttVerticle.constructor` | src/main/java/io/stuart/verticles/mqtt/ClsWspMqttVerticle.java:16-20 | A new verticle shares the class-wide counter and does not reset it. |
| `WspVerticle.SharedAcrossInstances` | src/main/java/io/stuart/verticles/mqtt/ClsWspMqttVerticle.java:16 | Two verticles built on the one counter share it: an increment through one is the count the other reads and the count its `limited` tests. |
| `WspVerticle.ClsWspMqttVerticle.InitOptions` | src/main/java/io/stuart/verticles/mqtt/ClsWspMqttVerticle.java:23-54 | Sets protocol, port, listener and connection limit from the configuration and returns matching server options. The connection count is untouched. |
| `WspVerticle.ClsWspMqttVerticle.Limited` | src/main/java/io/stuart/verticles/mqtt/ClsWspMqttVerticle.java:56-63 | True exactly when the shared count is at least `connMaxLimit`; the count is unchanged. |
| `WspVerticle.ClsWspMqttVerticle.IncrementAndGetConnCount` | src/main/java/io/stuart/verticles/mqtt/ClsWspMqttVerticle.java:65-68 | The shared count becomes `Inc` of its old value, and the new value is returned. |
| `WspVerticle.ClsWspMqttVerticle.DecrementAndGetConnCount` | src/main/java/io/stuart/verticles/mqtt/ClsWspMqttVerticle.java:70-73 | The shared count becomes `Dec` of its old value, and the new value is returned. |
| `WspVerticle.ClsWspMqttVerticle.GetConnCount` | src/main/java/io/stuart/verticles/mqtt/ClsWspMqttVerticle.java:75-78 | Returns the shared count and changes nothing. |

## Findings

| source | as written | input that shows it | evidently intended | confidence | as-written member | corrected member |
|---|---|---|---|---|---|---|
| src/main/java/io/stuart/services/auth/impl/RedisAuthServiceImpl.java:88-94 | `enPasswd.equals(ar.result().toString())` dereferences the HGET result without a null check | a non-blank username with no user hash or no password field; HGET answers nil, so the callback throws NullPointerException and the handler is never applied | the handler is applied with false, as for a wrong password | medium; not executed; depends on the Redis client delivering a nil reply as a null result | `RedisAuth.AuthAsWritten` | `RedisAuth.Auth` |

## Left out

- Service lifecycle (`start`/`stop`), connection pools, logging and the client calls themselves: query results and server reachability are inputs.
- The SQL text built by `queryAcl` and the parameter tuple bound to it. The model takes the rows the query returns, already in ascending `seq` order.
- Null result sets: a succeeded query always delivers a (possibly empty) set, so the `rs == null` tests reduce to the empty case.
- Null topics and null ACL columns: they are passed straight to `AuthUtil.isMatch` and `AuthUtil.transform2Authority`, whose handling of a null argument is not shown; these cases are not modelled.
- A null from `transform2Authority`: the code dereferences it (`transformed.getAccess()`) and would throw; this case is not modelled.
- The constants of the `Access` and `Authority` enums, and the code of `AuthUtil.isMatch`, `AuthUtil.transform2Authority` and the AES encryption: these are uninterpreted parameters.
- Duplicate field names inside one Redis hash: a hash has unique fields, so each matching field's value is the one paired with it.
- `IsWhitespace` follows the Unicode data of current Java releases. It does not count U+180E, which Java 8 treats as whitespace.
- Atomicity of the `AtomicInteger` and the caller that combines `limited()` with an increment: the counter is modelled sequentially.
- TLS key and certificate paths in the server options.
