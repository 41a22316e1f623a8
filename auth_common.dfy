/**
 * What the MySQL and Redis authentication services share: the authority object
 * they fill in, the ACL entries they scan, the first-match rule, and the
 * collaborators whose code is not part of this model.
 */
module AuthCommon {
  import opened Wrappers

  /** SUBACK failure return code 0x80 (section 3.9.3 of MQTT Version 3.1.1). */
  const FAILURE: int := 0x80

  /** A constant of the Access enum (its constants are not part of this model). */
  datatype Access = Access(name: string)

  /** A constant of the Authority enum (its constants are not part of this model). */
  datatype Authority = Authority(name: string)

  /** The pair of fields an ACL lookup writes; `None` stands for a null field. */
  datatype Grant = Grant(access: Option<Access>, authority: Option<Authority>)
  {
    /** Both fields are non-null: the Redis scan stops at this point. */
    predicate Complete() {
      access.Some? && authority.Some?
    }
  }

  /**
   * One ACL entry: a MySQL row (columns topic and authority) or one field of
   * a Redis hash (field name and value). `key` is a topic filter and `value`
   * the textual authority it grants.
   */
  datatype Field = Field(key: string, value: string)

  /**
   * AuthUtil.isMatch(topic, filter) and AuthUtil.transform2Authority(text),
   * left uninterpreted: no wildcard semantics are assumed for isMatch.
   */
  datatype AuthUtil = AuthUtil(isMatch: (string, string) -> bool, transform2Authority: string -> Grant)

  /** The Java text of a possibly-null string in a concatenation: null reads as "null". */
  function JavaString(s: Option<string>): string
  {
    match s
    case None => "null"
    case Some(v) => v
  }

  /** Character.isWhitespace: the Unicode space, line and paragraph separators other
      than the non-breaking ones, and the controls U+0009-U+000D and U+001C-U+001F. */
  predicate IsWhitespace(c: char) {
    ('\U{0009}' <= c <= '\U{000D}') || ('\U{001C}' <= c <= '\U{0020}') ||
    c == '\U{1680}' || ('\U{2000}' <= c <= '\U{2006}') || ('\U{2008}' <= c <= '\U{200A}') ||
    c == '\U{2028}' || c == '\U{2029}' || c == '\U{205F}' || c == '\U{3000}'
  }

  /** StringUtils.isBlank: null, empty, or whitespace only. */
  predicate IsBlank(s: Option<string>) {
    s.None? || forall i :: 0 <= i < |s.value| ==> IsWhitespace(s.value[i])
  }

  /** The index of the first entry whose filter matches `topic`, if any. */
  function FirstMatch(topic: string, entries: seq<Field>, isMatch: (string, string) -> bool): (r: Option<nat>)
    ensures r.Some? ==> r.value < |entries| && isMatch(topic, entries[r.value].key)
    ensures r.Some? ==> forall j :: 0 <= j < r.value ==> !isMatch(topic, entries[j].key)
    ensures r.None? <==> forall j :: 0 <= j < |entries| ==> !isMatch(topic, entries[j].key)
  {
    if entries == [] then None
    else if isMatch(topic, entries[0].key) then Some(0)
    else
      match FirstMatch(topic, entries[1..], isMatch)
      case None => None
      case Some(k) => Some(k + 1)
  }

  /**
   * The grant an authority holding `g` ends with after one first-match scan of
   * `entries`: the transformed text of the first matching entry, or `g` itself
   * when nothing matches.
   */
  function Resolve(topic: string, g: Grant, entries: seq<Field>, util: AuthUtil): Grant
  {
    match FirstMatch(topic, entries, util.isMatch)
    case Some(i) => util.transform2Authority(entries[i].value)
    case None => g
  }

  /** The first match of a sequence is still the first match once more entries follow. */
  lemma {:induction false} FirstMatchPrefix(topic: string, entries: seq<Field>, later: seq<Field>, isMatch: (string, string) -> bool)
    requires FirstMatch(topic, entries, isMatch).Some?
    ensures FirstMatch(topic, entries + later, isMatch) == FirstMatch(topic, entries, isMatch)
  {
    if !isMatch(topic, entries[0].key) {
      assert (entries + later)[1..] == entries[1..] + later;
      FirstMatchPrefix(topic, entries[1..], later, isMatch);
    }
  }

  /** Resolution ignores every entry after the first match. */
  lemma LaterEntriesIgnored(topic: string, g: Grant, entries: seq<Field>, later: seq<Field>, util: AuthUtil)
    requires FirstMatch(topic, entries, util.isMatch).Some?
    ensures Resolve(topic, g, entries + later, util) == Resolve(topic, g, entries, util)
  {
    var i := FirstMatch(topic, entries, util.isMatch).value;
    FirstMatchPrefix(topic, entries, later, util.isMatch);
    assert (entries + later)[i] == entries[i];
  }

  /** With no matching entry the grant is unchanged; otherwise the result does not depend on it. */
  lemma ResolveCases(topic: string, g: Grant, h: Grant, entries: seq<Field>, util: AuthUtil)
    ensures (forall j :: 0 <= j < |entries| ==> !util.isMatch(topic, entries[j].key)) ==> Resolve(topic, g, entries, util) == g
    ensures (exists j :: 0 <= j < |entries| && util.isMatch(topic, entries[j].key)) ==>
      Resolve(topic, g, entries, util) == Resolve(topic, h, entries, util)
  {
  }

  /**
   * An MqttAuthority request: a topic (or topic filter) with its qos, and the
   * access and authority an ACL lookup fills in.
   */
  class MqttAuthority {
    var topic: string
    var qos: int
    var access: Option<Access>
    var authority: Option<Authority>

    /** The fields the ACL lookups may write. */
    function CurrentGrant(): Grant
      reads this
    {
      Grant(access, authority)
    }

    /** A request as the protocol engine builds it: access and authority still null. */
    constructor (topic: string, qos: int)
      ensures this.topic == topic && this.qos == qos
      ensures access.None? && authority.None?
    {
      this.topic := topic;
      this.qos := qos;
      access := None;
      authority := None;
    }

    /** Writes both ACL fields from a transformed authority, touching nothing else. */
    method SetGrant(g: Grant)
      modifies this
      ensures CurrentGrant() == g
      ensures topic == old(topic) && qos == old(qos)
    {
      access := g.access;
      authority := g.authority;
    }
  }
}
