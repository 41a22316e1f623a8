/**
 * RedisAuthServiceImpl: password check against a user hash, the derivation
 * of the four ACL hash keys, and the ACL scan that consults the user, ipAddr,
 * clientId and "all" hashes in that order.
 */
module RedisAuth {
  import opened Wrappers
  import opened AuthCommon

  /** The ACL target kinds of the Target enum. */
  datatype Target = Username | IpAddr | ClientId | All

  /** The configuration values and constants the service reads. */
  datatype RedisConfig = RedisConfig(
    userKeyPrefix: string,       // Config.getAuthRedisUserKeyPrefix
    passwdField: string,         // Config.getAuthRedisPasswdField
    aclUserKeyPrefix: string,    // Config.getAuthRedisAclUserKeyPrefix
    aclIpAddrKeyPrefix: string,  // Config.getAuthRedisAclIpAddrKeyPrefix
    aclClientKeyPrefix: string,  // Config.getAuthRedisAclClientKeyPrefix
    aclAllKeyPrefix: string,     // Config.getAuthRedisAclAllKeyPrefix
    aclAll: string)              // AclConst.ALL

  /** A Redis hash as the client enumerates it: field names with their values. */
  type Hash = seq<Field>

  /** The Redis server as the service sees it: unreachable, or a key space of hashes. */
  datatype Redis = Down | Up(store: map<string, Hash>)

  /** HGETALL: a missing key reads as an empty hash. */
  function HGetAll(store: map<string, Hash>, key: string): Hash
  {
    if key in store then store[key] else []
  }

  /** The hash holds `field` with `value`, at its first occurrence of that field name. */
  ghost predicate HoldsFirst(h: Hash, field: string, value: string)
  {
    exists i :: 0 <= i < |h| && h[i] == Field(field, value) && forall j :: 0 <= j < i ==> h[j].key != field
  }

  /** HGET on an enumerated hash: the value of the named field, or nil. */
  function HGet(h: Hash, field: string): (v: Option<string>)
    ensures v.Some? <==> exists i :: 0 <= i < |h| && h[i].key == field
    ensures v.Some? ==> HoldsFirst(h, field, v.value)
    ensures forall x :: HoldsFirst(h, field, x) ==> v == Some(x)
  {
    if h == [] then None
    else if h[0].key == field then
      assert h[0] == Field(field, h[0].value);
      Some(h[0].value)
    else
      var v := HGet(h[1..], field);
      assert v.Some? ==> HoldsFirst(h, field, v.value) by {
        if v.Some? {
          var i :| 0 <= i < |h[1..]| && h[1..][i] == Field(field, v.value) && forall j :: 0 <= j < i ==> h[1..][j].key != field;
          assert h[i + 1] == Field(field, v.value);
          assert forall j :: 0 <= j < i + 1 ==> h[j].key != field by {
            forall j | 0 <= j < i + 1 ensures h[j].key != field {
              if j > 0 { assert h[j] == h[1..][j - 1]; }
            }
          }
        }
      }
      assert forall x :: HoldsFirst(h, field, x) ==> HoldsFirst(h[1..], field, x) by {
        forall x | HoldsFirst(h, field, x) ensures HoldsFirst(h[1..], field, x) {
          var i :| 0 <= i < |h| && h[i] == Field(field, x) && forall j :: 0 <= j < i ==> h[j].key != field;
          assert i > 0;
          assert h[1..][i - 1] == Field(field, x);
          assert forall j :: 0 <= j < i - 1 ==> h[1..][j].key != field by {
            forall j | 0 <= j < i - 1 ensures h[1..][j].key != field {
              assert h[1..][j] == h[j + 1];
            }
          }
        }
      }
      v
  }

  /** The key prefix transform2Key selects for each target kind. */
  function KeyPrefix(cfg: RedisConfig, kind: Target): string
  {
    if kind == Username then cfg.aclUserKeyPrefix
    else if kind == IpAddr then cfg.aclIpAddrKeyPrefix
    else if kind == ClientId then cfg.aclClientKeyPrefix
    else cfg.aclAllKeyPrefix
  }

  /**
   * transform2Key: the kind's prefix followed by the target's Java text (a
   * null target reads as "null"). The key splits back into exactly that
   * prefix and that text.
   */
  function Transform2Key(cfg: RedisConfig, target: Option<string>, kind: Target): string
  {
    KeyPrefix(cfg, kind) + JavaString(target)
  }

  /** Within one kind, distinct targets never share an ACL key. */
  lemma KeyInjective(cfg: RedisConfig, t1: Option<string>, t2: Option<string>, kind: Target)
    requires Transform2Key(cfg, t1, kind) == Transform2Key(cfg, t2, kind)
    ensures JavaString(t1) == JavaString(t2)
    ensures t1.Some? && t2.Some? ==> t1 == t2
  {
    var n := |KeyPrefix(cfg, kind)|;
    assert JavaString(t1) == Transform2Key(cfg, t1, kind)[n..];
  }

  /** A null target and a target spelled "null" read the same ACL hash. */
  lemma NullTargetSharesKey(cfg: RedisConfig, kind: Target)
    ensures Transform2Key(cfg, None, kind) == Transform2Key(cfg, Some("null"), kind)
  {
  }

  /** The four ACL hashes an access call reads, in the order they are consulted. */
  function AclResponses(cfg: RedisConfig, username: Option<string>, ipAddr: Option<string>,
                        clientId: Option<string>, store: map<string, Hash>): seq<Hash>
  {
    [HGetAll(store, Transform2Key(cfg, username, Username)),
     HGetAll(store, Transform2Key(cfg, ipAddr, IpAddr)),
     HGetAll(store, Transform2Key(cfg, clientId, ClientId)),
     HGetAll(store, Transform2Key(cfg, Some(cfg.aclAll), All))]
  }

  /** What the auth handler is given: a verdict, or no call at all. */
  datatype AuthReply = Replied(verdict: bool) | NoReply

  /**
   * auth as written: a blank credential is refused without a lookup; a failed
   * HGET refuses; a nil HGET (no such user or field) makes the callback
   * dereference a null result, so the handler is never called.
   */
  function AuthAsWritten(cfg: RedisConfig, enc: string -> string, username: Option<string>,
                         password: Option<string>, redis: Redis): (r: AuthReply)
    ensures IsBlank(username) || IsBlank(password) ==> r == Replied(false)
    ensures r.NoReply? <==> (!IsBlank(username) && !IsBlank(password) && redis.Up?
                             && HGet(HGetAll(redis.store, cfg.userKeyPrefix + username.value), cfg.passwdField).None?)
  {
    if IsBlank(username) || IsBlank(password) then Replied(false)
    else
      var queryKey := cfg.userKeyPrefix + username.value;
      var enPasswd := enc(password.value);
      match redis
      case Down => Replied(false)
      case Up(store) =>
        match HGet(HGetAll(store, queryKey), cfg.passwdField)
        case None => NoReply
        case Some(stored) => Replied(enPasswd == stored)
  }

  /** A user without a password entry gets no answer at all from the code as written. */
  lemma UnknownUserNoReply(cfg: RedisConfig, enc: string -> string, username: string, password: string,
                           store: map<string, Hash>)
    requires !IsBlank(Some(username)) && !IsBlank(Some(password))
    requires cfg.userKeyPrefix + username !in store
    ensures AuthAsWritten(cfg, enc, Some(username), Some(password), Up(store)) == NoReply
  {
  }

  /**
   * auth with the nil result refused: authentication succeeds exactly when the
   * credentials are not blank, the lookup succeeded and the stored password
   * field equals the encrypted password.
   */
  function Auth(cfg: RedisConfig, enc: string -> string, username: Option<string>,
                password: Option<string>, redis: Redis): (r: bool)
    ensures r <==> (!IsBlank(username) && !IsBlank(password) && redis.Up?
                    && HoldsFirst(HGetAll(redis.store, cfg.userKeyPrefix + username.value), cfg.passwdField, enc(password.value)))
  {
    if IsBlank(username) || IsBlank(password) then false
    else
      var queryKey := cfg.userKeyPrefix + username.value;
      var enPasswd := enc(password.value);
      match redis
      case Down => false
      case Up(store) =>
        match HGet(HGetAll(store, queryKey), cfg.passwdField)
        case None => false
        case Some(stored) => enPasswd == stored
  }

  /** Wherever the code as written answers, the corrected auth gives the same answer. */
  lemma AuthAgreesWhenAnswered(cfg: RedisConfig, enc: string -> string, username: Option<string>,
                               password: Option<string>, redis: Redis)
    ensures AuthAsWritten(cfg, enc, username, password, redis).Replied? ==>
      AuthAsWritten(cfg, enc, username, password, redis).verdict == Auth(cfg, enc, username, password, redis)
  {
  }

  /**
   * The grant after the ACL scan of setAuthority: each hash in turn is
   * resolved by first match; the scan stops after the first hash at whose end
   * access and authority are both non-null.
   */
  function Scan(topic: string, g: Grant, rs: seq<Hash>, util: AuthUtil): Grant
    decreases |rs|
  {
    if rs == [] then g
    else
      var next := Resolve(topic, g, rs[0], util);
      if next.Complete() then next else Scan(topic, next, rs[1..], util)
  }

  /** The index of the first hash holding a field that matches `topic`, if any. */
  function FirstTable(topic: string, rs: seq<Hash>, isMatch: (string, string) -> bool): (r: Option<nat>)
    ensures r.Some? ==> r.value < |rs| && FirstMatch(topic, rs[r.value], isMatch).Some?
    ensures r.Some? ==> forall k :: 0 <= k < r.value ==> FirstMatch(topic, rs[k], isMatch).None?
    ensures r.None? <==> forall k :: 0 <= k < |rs| ==> FirstMatch(topic, rs[k], isMatch).None?
  {
    if rs == [] then None
    else if FirstMatch(topic, rs[0], isMatch).Some? then Some(0)
    else
      match FirstTable(topic, rs[1..], isMatch)
      case None => None
      case Some(k) => Some(k + 1)
  }

  /** When no field of any hash matches, the authority is left as it was. */
  lemma {:induction false} NoMatchUnchanged(topic: string, g: Grant, rs: seq<Hash>, util: AuthUtil)
    requires FirstTable(topic, rs, util.isMatch).None?
    ensures Scan(topic, g, rs, util) == g
  {
    if rs != [] {
      assert FirstMatch(topic, rs[0], util.isMatch).None?;
      assert Resolve(topic, g, rs[0], util) == g;
      if !g.Complete() {
        NoMatchUnchanged(topic, g, rs[1..], util);
      }
    }
  }

  /**
   * For a request whose fields are not both set, the first hash (user, then
   * ipAddr, clientId, all) holding a match decides the result, provided the
   * authority its first matching field transforms to has both fields.
   */
  lemma {:induction false} EarliestTableWins(topic: string, g: Grant, rs: seq<Hash>, util: AuthUtil)
    requires !g.Complete()
    requires FirstTable(topic, rs, util.isMatch).Some?
    requires var k := FirstTable(topic, rs, util.isMatch).value;
             util.transform2Authority(rs[k][FirstMatch(topic, rs[k], util.isMatch).value].value).Complete()
    ensures Scan(topic, g, rs, util) == Resolve(topic, g, rs[FirstTable(topic, rs, util.isMatch).value], util)
    ensures Scan(topic, g, rs, util).Complete()
  {
    if FirstMatch(topic, rs[0], util.isMatch).None? {
      assert Resolve(topic, g, rs[0], util) == g;
      assert rs[1..][FirstTable(topic, rs[1..], util.isMatch).value] == rs[FirstTable(topic, rs, util.isMatch).value];
      EarliestTableWins(topic, g, rs[1..], util);
    }
  }

  /** A scan of a single hash is the first-match resolution of that hash. */
  lemma ScanOfOne(topic: string, g: Grant, rs: seq<Hash>, util: AuthUtil)
    ensures |rs| == 1 ==> Scan(topic, g, rs, util) == Resolve(topic, g, rs[0], util)
  {
    if |rs| == 1 {
      assert rs[1..] == [];
    }
  }

  /**
   * For a request whose fields are not both set, a match in the user's ACL
   * hash whose transformed authority has both fields decides the request
   * whatever the ipAddr, clientId and all hashes hold.
   */
  lemma UserTableWins(cfg: RedisConfig, username: Option<string>, ipAddr: Option<string>, clientId: Option<string>,
                      store: map<string, Hash>, topic: string, g: Grant, util: AuthUtil)
    requires !g.Complete()
    requires FirstMatch(topic, HGetAll(store, Transform2Key(cfg, username, Username)), util.isMatch).Some?
    requires var user := HGetAll(store, Transform2Key(cfg, username, Username));
             util.transform2Authority(user[FirstMatch(topic, user, util.isMatch).value].value).Complete()
    ensures Scan(topic, g, AclResponses(cfg, username, ipAddr, clientId, store), util)
         == Resolve(topic, g, HGetAll(store, Transform2Key(cfg, username, Username)), util)
  {
    var rs := AclResponses(cfg, username, ipAddr, clientId, store);
    assert FirstTable(topic, rs, util.isMatch) == Some(0);
    EarliestTableWins(topic, g, rs, util);
  }

  /**
   * Without complete transformed authorities the earliest match need not win:
   * a user hash that grants access only leaves the scan running, and a later
   * match in the all hash overwrites both fields.
   */
  lemma PartialGrantOverwritten()
    ensures var util := AuthUtil((t: string, f: string) => true,
                                 (text: string) => if text == "pub" then Grant(Some(Access("pub")), None)
                                                   else Grant(Some(Access("sub")), Some(Authority("deny"))));
            var rs := [[Field("#", "pub")], [], [], [Field("#", "deny")]];
            Scan("a/b", Grant(None, None), rs, util) == Grant(Some(Access("sub")), Some(Authority("deny")))
  {
    var util := AuthUtil((t: string, f: string) => true,
                         (text: string) => if text == "pub" then Grant(Some(Access("pub")), None)
                                           else Grant(Some(Access("sub")), Some(Authority("deny"))));
    var rs := [[Field("#", "pub")], [], [], [Field("#", "deny")]];
    var partial := Grant(Some(Access("pub")), None);
    assert Resolve("a/b", Grant(None, None), rs[0], util) == partial;
    assert Resolve("a/b", partial, rs[1], util) == partial;
    assert Resolve("a/b", partial, rs[2], util) == partial;
    assert rs[1..][1..][1..] == [rs[3]];
    ScanOfOne("a/b", partial, rs[1..][1..][1..], util);
  }

  /** Once the scan of some leading hashes ends with both fields set, later hashes are not consulted. */
  lemma {:induction false} LaterTablesIgnored(topic: string, g: Grant, rs: seq<Hash>, later: seq<Hash>, util: AuthUtil)
    requires rs != []
    requires Scan(topic, g, rs, util).Complete()
    ensures Scan(topic, g, rs + later, util) == Scan(topic, g, rs, util)
    decreases |rs|
  {
    assert (rs + later)[0] == rs[0];
    var next := Resolve(topic, g, rs[0], util);
    if !next.Complete() {
      ScanOfOne(topic, g, rs, util);
      assert |rs| > 1;
      assert (rs + later)[1..] == rs[1..] + later;
      LaterTablesIgnored(topic, next, rs[1..], later, util);
    }
  }

  /** Scanning a second time from the result of a scan changes nothing. */
  lemma {:induction false} ScanIdempotent(topic: string, g: Grant, rs: seq<Hash>, util: AuthUtil)
    ensures Scan(topic, Scan(topic, g, rs, util), rs, util) == Scan(topic, g, rs, util)
  {
    if rs != [] {
      var h := Scan(topic, g, rs, util);
      var next := Resolve(topic, g, rs[0], util);
      if !next.Complete() && FirstMatch(topic, rs[0], util.isMatch).None? {
        assert Resolve(topic, h, rs[0], util) == h;
        ScanIdempotent(topic, next, rs[1..], util);
      }
    }
  }

  /**
   * setAuthority for one request: fields are written only by the first
   * matching field of a hash, the rest of that hash is skipped, and the scan
   * stops once access and authority are both non-null.
   */
  method SetAuthority(auth: MqttAuthority, rs: seq<Hash>, util: AuthUtil)
    modifies auth
    ensures auth.topic == old(auth.topic) && auth.qos == old(auth.qos)
    ensures auth.CurrentGrant() == Scan(auth.topic, old(auth.CurrentGrant()), rs, util)
  {
    if |rs| == 0 {
      return;
    }
    var topic := auth.topic;
    var i := 0;
    assert rs[i..] == rs;
    while i < |rs|
      invariant 0 <= i <= |rs|
      invariant auth.topic == topic && auth.qos == old(auth.qos)
      invariant Scan(topic, auth.CurrentGrant(), rs[i..], util) == Scan(topic, old(auth.CurrentGrant()), rs, util)
    {
      var res := rs[i];
      ghost var before := auth.CurrentGrant();
      var j := 0;
      while j < |res|
        invariant 0 <= j <= |res|
        invariant forall k :: 0 <= k < j ==> !util.isMatch(topic, res[k].key)
        invariant auth.topic == topic && auth.qos == old(auth.qos)
        invariant auth.CurrentGrant() == before
      {
        if util.isMatch(topic, res[j].key) {
          var transformed := util.transform2Authority(res[j].value);
          auth.SetGrant(transformed);
          break;
        }
        j := j + 1;
      }
      assert auth.CurrentGrant() == Resolve(topic, before, res, util);
      if auth.access.Some? && auth.authority.Some? {
        break;
      }
      assert rs[i..][1..] == rs[i + 1..];
      i := i + 1;
    }
  }

  /**
   * setAuthority for a request list: with no hashes nothing changes; requests
   * whose qos is the SUBACK failure code are skipped; every other request is
   * resolved as by SetAuthority. A request object listed twice is scanned
   * twice, which gives the same result.
   */
  method SetAuthorities(auths: seq<MqttAuthority>, rs: seq<Hash>, util: AuthUtil)
    modifies set a | a in auths
    ensures forall a :: a in auths ==> a.topic == old(a.topic) && a.qos == old(a.qos)
    ensures forall a :: a in auths ==>
      a.CurrentGrant() == if a.qos == FAILURE then old(a.CurrentGrant())
                          else Scan(a.topic, old(a.CurrentGrant()), rs, util)
  {
    if |rs| == 0 {
      return;
    }
    var i := 0;
    while i < |auths|
      invariant 0 <= i <= |auths|
      invariant forall a :: a in auths ==> a.topic == old(a.topic) && a.qos == old(a.qos)
      invariant forall a :: a in auths ==>
        a.CurrentGrant() == if a in auths[..i] && a.qos != FAILURE
                            then Scan(a.topic, old(a.CurrentGrant()), rs, util)
                            else old(a.CurrentGrant())
    {
      var auth := auths[i];
      if auth.qos != FAILURE {
        SetAuthority(auth, rs, util);
        if auth in auths[..i] {
          ScanIdempotent(auth.topic, old(auth.CurrentGrant()), rs, util);
        }
      }
      assert auths[..i + 1] == auths[..i] + [auth];
      i := i + 1;
    }
    assert auths[..i] == auths;
  }

  /**
   * access for one request: on a successful lookup of the four ACL hashes the
   * request is scanned against them, on a failed one it is left alone; the
   * handler always receives the very object it was given.
   */
  method AccessSingle(cfg: RedisConfig, username: Option<string>, ipAddr: Option<string>, clientId: Option<string>,
                      auth: MqttAuthority, redis: Redis, util: AuthUtil) returns (handled: MqttAuthority)
    modifies auth
    ensures handled == auth
    ensures auth.topic == old(auth.topic) && auth.qos == old(auth.qos)
    ensures redis.Down? ==> auth.CurrentGrant() == old(auth.CurrentGrant())
    ensures redis.Up? ==>
      auth.CurrentGrant() == Scan(auth.topic, old(auth.CurrentGrant()), AclResponses(cfg, username, ipAddr, clientId, redis.store), util)
  {
    if redis.Up? {
      var rs := AclResponses(cfg, username, ipAddr, clientId, redis.store);
      SetAuthority(auth, rs, util);
    }
    handled := auth;
  }

  /**
   * access for a request list: on a successful lookup the list is resolved as
   * by SetAuthorities, on a failed one nothing changes; the handler always
   * receives the very list it was given.
   */
  method AccessList(cfg: RedisConfig, username: Option<string>, ipAddr: Option<string>, clientId: Option<string>,
                    auths: seq<MqttAuthority>, redis: Redis, util: AuthUtil) returns (handled: seq<MqttAuthority>)
    modifies set a | a in auths
    ensures handled == auths
    ensures forall a :: a in auths ==> a.topic == old(a.topic) && a.qos == old(a.qos)
    ensures redis.Down? ==> forall a :: a in auths ==> a.CurrentGrant() == old(a.CurrentGrant())
    ensures redis.Up? ==> forall a :: a in auths ==>
      a.CurrentGrant() == if a.qos == FAILURE then old(a.CurrentGrant())
                          else Scan(a.topic, old(a.CurrentGrant()), AclResponses(cfg, username, ipAddr, clientId, redis.store), util)
  {
    if redis.Up? {
      var rs := AclResponses(cfg, username, ipAddr, clientId, redis.store);
      SetAuthorities(auths, rs, util);
    }
    handled := auths;
  }
}
