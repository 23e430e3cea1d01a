/**
  The `ClientPrincipal` record that the platform's authentication gateway
  encodes into the `x-ms-client-principal` header, and the JSON object it
  arrives as. Both handlers declare the same interface.
 */
module ClientPrincipal {
  import opened Js

  /** "identityProvider" */
  const IdentityProviderKey: JsString := [105, 100, 101, 110, 116, 105, 116, 121, 80, 114, 111, 118, 105, 100, 101, 114]
  /** "userId" */
  const UserIdKey: JsString := [117, 115, 101, 114, 73, 100]
  /** "userDetails" */
  const UserDetailsKey: JsString := [117, 115, 101, 114, 68, 101, 116, 97, 105, 108, 115]
  /** "userRoles" */
  const UserRolesKey: JsString := [117, 115, 101, 114, 82, 111, 108, 101, 115]

  /**
    A well-formed principal. `userRoles` is `None` when the field is left out
    of the JSON document.
   */
  datatype Principal = Principal(
    identityProvider: JsString,
    userId: JsString,
    userDetails: JsString,
    userRoles: Option<seq<JsString>>)

  datatype Option<T> = None | Some(value: T)

  function Strings(ss: seq<JsString>): (r: seq<Json>)
    ensures |r| == |ss|
    ensures forall i :: 0 <= i < |ss| ==> r[i] == JString(ss[i])
  {
    if ss == [] then [] else [JString(ss[0])] + Strings(ss[1..])
  }

  /** The JSON object that carries a principal. */
  function ToJson(p: Principal): Json
  {
    var required := map[
      IdentityProviderKey := JString(p.identityProvider),
      UserIdKey := JString(p.userId),
      UserDetailsKey := JString(p.userDetails)];
    match p.userRoles
    case None => JObject(required)
    case Some(roles) => JObject(required[UserRolesKey := JArray(Strings(roles))])
  }

  /** Reading each field back from the JSON object gives the principal's own field. */
  lemma ToJsonFields(p: Principal)
    ensures GetProperty(ToJson(p), IdentityProviderKey) == Defined(JString(p.identityProvider))
    ensures GetProperty(ToJson(p), UserIdKey) == Defined(JString(p.userId))
    ensures GetProperty(ToJson(p), UserDetailsKey) == Defined(JString(p.userDetails))
    ensures GetProperty(ToJson(p), UserRolesKey) ==
      if p.userRoles.Some? then Defined(JArray(Strings(p.userRoles.value))) else Undefined
  {
  }
}
