/**
 * MySQLAuthServiceImpl: password check against the stuart_user table and
 * first-match ACL resolution over the rows of the stuart_acl query, which the
 * database returns ordered by ascending seq.
 */
module MySQLAuth {
  import opened Wrappers
  import opened AuthCommon

  /**
   * The password verdict on a result set: there is a first row, its password
   * column is non-null, and it equals the encrypted password. No later row
   * takes part.
   */
  function FirstRowMatches(enc: string -> string, password: string, rs: seq<Option<string>>): bool
  {
    |rs| > 0 && rs[0] == Some(enc(password))
  }

  /** Rows after the first never change the verdict. */
  lemma LaterRowsIgnored(enc: string -> string, password: string, first: Option<string>, rest: seq<Option<string>>, other: seq<Option<string>>)
    ensures FirstRowMatches(enc, password, [first] + rest) == FirstRowMatches(enc, password, [first] + other)
    ensures FirstRowMatches(enc, password, [first] + rest) <==> first == Some(enc(password))
  {
  }

  /**
   * passwdEquals: an empty result set is refused before anything is
   * encrypted; otherwise the row loop decides on its first row and returns.
   */
  method PasswdEquals(enc: string -> string, password: string, rs: seq<Option<string>>) returns (r: bool)
    ensures |rs| == 0 ==> !r
    ensures r == FirstRowMatches(enc, password, rs)
  {
    if |rs| == 0 {
      return false;
    }
    var enPasswd := enc(password);
    for i := 0 to |rs|
      invariant i == 0
    {
      var qyPasswd := rs[i];
      if qyPasswd.Some? && enPasswd == qyPasswd.value {
        return true;
      } else {
        return false;
      }
    }
    return false;
  }

  /**
   * auth: the value handed to the handler. A blank username or password is
   * refused before any query, whatever the database holds; a failed query
   * refuses; otherwise the verdict of passwdEquals on the rows of
   * `select password from stuart_user where username = ?`.
   */
  method Auth(enc: string -> string, username: Option<string>, password: Option<string>,
              query: Outcome<seq<Option<string>>>) returns (r: bool)
    ensures IsBlank(username) || IsBlank(password) ==> !r
    ensures r <==> (!IsBlank(username) && !IsBlank(password) && query.Succeeded?
                    && FirstRowMatches(enc, password.value, query.result))
  {
    if IsBlank(username) || IsBlank(password) {
      r := false;
    } else {
      match query
      case Failed =>
        r := false;
      case Succeeded(rs) =>
        r := PasswdEquals(enc, password.value, rs);
    }
  }

  /**
   * setAuthority for one request: the first row, in the order the query
   * returned them, whose topic filter matches the request's topic supplies
   * access and authority; later rows are not read; with no matching row the
   * request is left as it was.
   */
  method SetAuthority(auth: MqttAuthority, rows: seq<Field>, util: AuthUtil)
    modifies auth
    ensures auth.topic == old(auth.topic) && auth.qos == old(auth.qos)
    ensures auth.CurrentGrant() == Resolve(auth.topic, old(auth.CurrentGrant()), rows, util)
  {
    var topic := auth.topic;
    var i := 0;
    while i < |rows|
      invariant 0 <= i <= |rows|
      invariant forall j :: 0 <= j < i ==> !util.isMatch(topic, rows[j].key)
      invariant unchanged(auth)
    {
      if util.isMatch(topic, rows[i].key) {
        var transformed := util.transform2Authority(rows[i].value);
        auth.SetGrant(transformed);
        break;
      }
      i := i + 1;
    }
  }

  /**
   * setAuthority for a request list: with no rows nothing changes; requests
   * whose qos is the SUBACK failure code are skipped; every other request is
   * resolved as by SetAuthority. Only access and authority are written. A
   * request object listed twice is resolved twice, which gives the same result.
   */
  method SetAuthorities(auths: seq<MqttAuthority>, rows: seq<Field>, util: AuthUtil)
    modifies set a | a in auths
    ensures forall a :: a in auths ==> a.topic == old(a.topic) && a.qos == old(a.qos)
    ensures forall a :: a in auths ==>
      a.CurrentGrant() == if a.qos == FAILURE then old(a.CurrentGrant())
                          else Resolve(a.topic, old(a.CurrentGrant()), rows, util)
  {
    if |rows| == 0 {
      return;
    }
    var i := 0;
    while i < |auths|
      invariant 0 <= i <= |auths|
      invariant forall a :: a in auths ==> a.topic == old(a.topic) && a.qos == old(a.qos)
      invariant forall a :: a in auths ==>
        a.CurrentGrant() == if a in auths[..i] && a.qos != FAILURE
                            then Resolve(a.topic, old(a.CurrentGrant()), rows, util)
                            else old(a.CurrentGrant())
    {
      var auth := auths[i];
      if auth.qos != FAILURE {
        SetAuthority(auth, rows, util);
      }
      assert auths[..i + 1] == auths[..i] + [auth];
      i := i + 1;
    }
    assert auths[..i] == auths;
  }

  /**
   * access for one request: on a successful ACL query the request is resolved
   * against its rows, on a failed one it is left alone; the handler always
   * receives the very object it was given.
   */
  method AccessSingle(auth: MqttAuthority, query: Outcome<seq<Field>>, util: AuthUtil) returns (handled: MqttAuthority)
    modifies auth
    ensures handled == auth
    ensures auth.topic == old(auth.topic) && auth.qos == old(auth.qos)
    ensures query.Failed? ==> auth.CurrentGrant() == old(auth.CurrentGrant())
    ensures query.Succeeded? ==> auth.CurrentGrant() == Resolve(auth.topic, old(auth.CurrentGrant()), query.result, util)
  {
    if query.Succeeded? {
      SetAuthority(auth, query.result, util);
    }
    handled := auth;
  }

  /**
   * access for a request list: on a successful ACL query the list is resolved
   * as by SetAuthorities, on a failed one nothing changes; the handler always
   * receives the very list it was given.
   */
  method AccessList(auths: seq<MqttAuthority>, query: Outcome<seq<Field>>, util: AuthUtil) returns (handled: seq<MqttAuthority>)
    modifies set a | a in auths
    ensures handled == auths
    ensures forall a :: a in auths ==> a.topic == old(a.topic) && a.qos == old(a.qos)
    ensures query.Failed? ==> forall a :: a in auths ==> a.CurrentGrant() == old(a.CurrentGrant())
    ensures query.Succeeded? ==> forall a :: a in auths ==>
      a.CurrentGrant() == if a.qos == FAILURE then old(a.CurrentGrant())
                          else Resolve(a.topic, old(a.CurrentGrant()), query.result, util)
  {
    if query.Succeeded? {
      SetAuthorities(auths, query.result, util);
    }
    handled := auths;
  }
}
