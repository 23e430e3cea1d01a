/**
  How the two endpoints answer the same request. They read the same header
  but classify it differently: `protected-data` folds every decoding failure
  and every falsy payload into 401, while `user-info` lets a decoding failure
  or a `null` payload reach its catch block (500) and reports any other
  payload as authenticated.
 */
module Endpoints {
  import opened Js
  import opened Http
  import opened ClientPrincipal
  import ProtectedData
  import UserInfo

  /** Without the header: 401 from one endpoint, an anonymous 200 from the other. */
  lemma AnonymousCaller(header: Header, decode: Decoder, now: JsString)
    requires !HeaderPresent(header)
    ensures ProtectedData.ProtectedDataHandler(header, decode, now).status == 401
    ensures UserInfo.UserInfoHandler(header, decode) == Response(200, Payload(UserInfo.Anonymous))
  {
  }

  /** A payload that cannot be decoded or parsed: 401 from `protected-data`, 500 from `user-info`. */
  lemma ParseFailureDiverges(header: Header, decode: Decoder, now: JsString)
    requires HeaderPresent(header) && (decode(header.raw) == Throws || decode(header.raw) == Parsed(JNull))
    ensures ProtectedData.ProtectedDataHandler(header, decode, now).status == 401
    ensures UserInfo.UserInfoHandler(header, decode).status == 500
  {
  }

  /**
    A falsy payload other than `null` (`false`, `0`, `""`) is refused by
    `protected-data` but reported as authenticated by `user-info`, with no
    identity fields at all.
   */
  lemma FalsyPayloadDiverges(header: Header, decode: Decoder, now: JsString)
    requires HeaderPresent(header) && decode(header.raw).Parsed?
    requires decode(header.raw).value != JNull && !Truthy(decode(header.raw).value)
    ensures ProtectedData.ProtectedDataHandler(header, decode, now).status == 401
    ensures UserInfo.UserInfoHandler(header, decode) ==
      Response(200, Payload(UserInfo.UserInfo(Undefined, Undefined, Undefined, Undefined, JArray([]), true)))
  {
  }

  /**
    Whenever `protected-data` serves a record, `user-info` reports the same
    caller as authenticated under the record's user id.
   */
  lemma ServedCallerIsAuthenticated(header: Header, decode: Decoder, now: JsString)
    requires ProtectedData.ProtectedDataHandler(header, decode, now).status == 200
    ensures UserInfo.UserInfoHandler(header, decode).status == 200
    ensures UserInfo.UserInfoHandler(header, decode).body.value.isAuthenticated
    ensures UserInfo.UserInfoHandler(header, decode).body.value.userId ==
      Defined(JString(ProtectedData.ProtectedDataHandler(header, decode, now).body.value.userId))
  {
  }

  /**
    The worked example: a GitHub principal "u1" with details "Jane" and the
    role "admin" is reported field by field and served the record for "u1".
   */
  lemma GithubExample(header: Header, decode: Decoder, now: JsString)
    requires HeaderPresent(header)
    requires decode(header.raw) == Parsed(ToJson(Principal(
      [103, 105, 116, 104, 117, 98], [117, 49], [74, 97, 110, 101], Some([[97, 100, 109, 105, 110]]))))
    ensures UserInfo.UserInfoHandler(header, decode) == Response(200, Payload(UserInfo.UserInfo(
      Defined(JString([117, 49])),
      Defined(JString([74, 97, 110, 101])),
      Defined(JString([74, 97, 110, 101])),
      Defined(JString([103, 105, 116, 104, 117, 98])),
      JArray([JString([97, 100, 109, 105, 110])]),
      true)))
    ensures ProtectedData.ProtectedDataHandler(header, decode, now).body.value.userId == [117, 49]
    ensures ProtectedData.ProtectedDataHandler(header, decode, now).body.value.userNumber == (117 + 49) % 1000
  {
    var p := Principal([103, 105, 116, 104, 117, 98], [117, 49], [74, 97, 110, 101], Some([[97, 100, 109, 105, 110]]));
    UserInfo.PrincipalIsReported(header, decode, p);
    ProtectedData.PrincipalGetsUserData(header, decode, now, p);
    assert Strings([[97, 100, 109, 105, 110]]) == [JString([97, 100, 109, 105, 110])];
    assert ProtectedData.CodeUnitSum([49]) == 49;
  }
}
