/**
  The `user-info` endpoint (api/src/functions/user-info.ts): a who-am-I
  report built from the client-principal header. It never gates access:
  anonymous callers get 200 with a negative answer, and only a failure while
  decoding or reading the principal gives 500.
 */
module UserInfo {
  import opened Js
  import opened Http
  import opened ClientPrincipal

  /**
    The `UserInfo` body. The fields copied from the principal are property
    reads, so each may be `undefined` (left out of the JSON body) when the
    decoded document lacks that field.
   */
  datatype UserInfo = UserInfo(
    userId: Prop,
    name: Prop,
    email: Prop,
    provider: Prop,
    roles: Json,
    isAuthenticated: bool)

  /** The body for a request without the header: every identity field `null`, no roles. */
  const Anonymous: UserInfo :=
    UserInfo(Defined(JNull), Defined(JNull), Defined(JNull), Defined(JNull), JArray([]), false)

  /**
    The object literal built from a parsed principal. `name` and `email` both
    come from `userDetails`, and `roles` is `userRoles || []`.
   */
  function Shape(principal: Json): (info: UserInfo)
    ensures info.isAuthenticated
    ensures info.userId == GetProperty(principal, UserIdKey)
    ensures info.name == info.email == GetProperty(principal, UserDetailsKey)
    ensures info.provider == GetProperty(principal, IdentityProviderKey)
    ensures Truthy(info.roles)
    ensures GetProperty(principal, UserRolesKey).Defined? && Truthy(GetProperty(principal, UserRolesKey).value)
            ==> info.roles == GetProperty(principal, UserRolesKey).value
    ensures !(GetProperty(principal, UserRolesKey).Defined? && Truthy(GetProperty(principal, UserRolesKey).value))
            ==> info.roles == JArray([])
  {
    var details := GetProperty(principal, UserDetailsKey);
    UserInfo(
      GetProperty(principal, UserIdKey),
      details,
      details,
      GetProperty(principal, IdentityProviderKey),
      OrElse(GetProperty(principal, UserRolesKey), JArray([])),
      true)
  }

  /**
    The `userInfo` handler. With the header present, a decoder that throws
    and a payload that parses to `null` (whose `.userId` throws a TypeError)
    both reach the catch block; every other parsed value is shaped.
   */
  function UserInfoHandler(header: Header, decode: Decoder): (r: Response<UserInfo>)
    ensures r.status == 200 || r.status == 500
    ensures !HeaderPresent(header) ==> r == Response(200, Payload(Anonymous))
    ensures HeaderPresent(header) ==>
      (r.status == 500 <==> decode(header.raw) == Throws || decode(header.raw) == Parsed(JNull))
    ensures r.status == 500 ==> r.body == Error(InternalServerError, ApplicationCrash)
    ensures r.status == 200 ==> r.body.Payload? && (r.body.value.isAuthenticated <==> HeaderPresent(header))
    ensures HeaderPresent(header) && r.status == 200 ==> r.body == Payload(Shape(decode(header.raw).value))
  {
    if !HeaderPresent(header) then
      Response(200, Payload(Anonymous))
    else match decode(header.raw)
      case Throws => Crash()
      case Parsed(JNull) => Crash()
      case Parsed(principal) => Response(200, Payload(Shape(principal)))
  }

  /** The roles a principal reports: its `userRoles`, or none when the field is left out. */
  function RolesOf(p: Principal): seq<JsString>
  {
    match p.userRoles
    case Some(roles) => roles
    case None => []
  }

  /**
    A principal from the gateway is reported as authenticated, with its user
    id and provider copied, `userDetails` as both name and email, and its roles
    (an empty list, never `null`, when `userRoles` is left out).
   */
  lemma PrincipalIsReported(header: Header, decode: Decoder, p: Principal)
    requires HeaderPresent(header) && decode(header.raw) == Parsed(ToJson(p))
    ensures UserInfoHandler(header, decode) == Response(200, Payload(UserInfo(
      Defined(JString(p.userId)),
      Defined(JString(p.userDetails)),
      Defined(JString(p.userDetails)),
      Defined(JString(p.identityProvider)),
      JArray(Strings(RolesOf(p))),
      true)))
  {
    ToJsonFields(p);
  }

  /** A payload whose decoding throws gives 500, not an anonymous 200. */
  lemma ParseFailureCrashes(header: Header, decode: Decoder)
    requires HeaderPresent(header) && decode(header.raw) == Throws
    ensures UserInfoHandler(header, decode) == Crash()
  {
  }

  /** A payload that parses to `null` gives 500 as well: reading `.userId` of `null` throws. */
  lemma NullPayloadCrashes(header: Header, decode: Decoder)
    requires HeaderPresent(header) && decode(header.raw) == Parsed(JNull)
    ensures UserInfoHandler(header, decode) == Crash()
  {
  }
}
