/**
  The `protected-data` endpoint (api/src/functions/protected-data.ts): it
  classifies the client-principal header, answers 401 to callers it does not
  recognise, and otherwise derives a small record from the caller's user id.
 */
module ProtectedData {
  import opened Js
  import opened Http
  import opened ClientPrincipal

  /** `ProtectedData`: the record returned to an authenticated caller. */
  datatype Record = Record(userId: JsString, message: JsString, timestamp: JsString, userNumber: int)

  /** The greeting's text before the embedded user id ("Hello, user " in Japanese). */
  const GreetingPrefix: JsString := [0x3053, 0x3093, 0x306B, 0x3061, 0x306F, 0x3001, 0x30E6, 0x30FC, 0x30B6, 0x30FC]
  /** The greeting's text after the embedded user id (an honorific and "!"). */
  const GreetingSuffix: JsString := [0x3055, 0x3093, 0xFF01]

  /** The 401 body's `error`: "Unauthorized". */
  const Unauthorized: JsString := [85, 110, 97, 117, 116, 104, 111, 114, 105, 122, 101, 100]
  /** The 401 body's `message`, in Japanese: authentication is required to access protected data. */
  const AuthenticationRequired: JsString := [0x4FDD, 0x8B77, 0x3055, 0x308C, 0x305F, 0x30C7, 0x30FC, 0x30BF, 0x306B, 0x30A2, 0x30AF, 0x30BB, 0x30B9, 0x3059, 0x308B, 0x306B, 0x306F, 0x8A8D, 0x8A3C, 0x304C, 0x5FC5, 0x8981, 0x3067, 0x3059]

  // ---------------------------------------------------------------------------
  // checkAuthentication

  /**
    The value `checkAuthentication` returns, with JavaScript `null` as `JNull`.
    It never throws: an absent or empty header and a decoder that throws both
    give `null`, and otherwise the parsed value is returned as it is, whatever
    its shape.
   */
  function CheckAuthentication(header: Header, decode: Decoder): (principal: Json)
    ensures !HeaderPresent(header) ==> principal == JNull
    ensures HeaderPresent(header) && decode(header.raw).Throws? ==> principal == JNull
    ensures HeaderPresent(header) && decode(header.raw).Parsed? ==> principal == decode(header.raw).value
  {
    if !HeaderPresent(header) then JNull
    else match decode(header.raw)
      case Throws => JNull
      case Parsed(v) => v
  }

  // ---------------------------------------------------------------------------
  // generateUserData

  /**
    The seed: the id is split into single code units and folded from the left,
    starting at 0 and adding each unit's `charCodeAt` value.
   */
  function Seed(userId: JsString): (seed: nat)
    ensures seed <= 0xFFFF * |userId|
  {
    if userId == [] then 0 else Seed(userId[..|userId| - 1]) + userId[|userId| - 1] as nat
  }

  /** Reference definition: the sum of all code units of the string. */
  function CodeUnitSum(s: JsString): nat
  {
    if s == [] then 0 else s[0] as nat + CodeUnitSum(s[1..])
  }

  lemma {:induction false} CodeUnitSumAppend(a: JsString, b: JsString)
    ensures CodeUnitSum(a + b) == CodeUnitSum(a) + CodeUnitSum(b)
  {
    if a != [] {
      assert (a + b)[1..] == a[1..] + b;
      CodeUnitSumAppend(a[1..], b);
    } else {
      assert a + b == b;
    }
  }

  /** The fold computes the sum of the code units. */
  lemma {:induction false} SeedIsCodeUnitSum(userId: JsString)
    ensures Seed(userId) == CodeUnitSum(userId)
  {
    if userId != [] {
      var init, last := userId[..|userId| - 1], userId[|userId| - 1];
      SeedIsCodeUnitSum(init);
      CodeUnitSumAppend(init, [last]);
      assert init + [last] == userId;
    }
  }

  /** The seed of a concatenation is the sum of the seeds: the order of the characters is irrelevant to it. */
  lemma SeedAppend(a: JsString, b: JsString)
    ensures Seed(a + b) == Seed(a) + Seed(b)
    ensures Seed(a + b) == Seed(b + a)
  {
    SeedIsCodeUnitSum(a + b);
    SeedIsCodeUnitSum(b + a);
    SeedIsCodeUnitSum(a);
    SeedIsCodeUnitSum(b);
    CodeUnitSumAppend(a, b);
    CodeUnitSumAppend(b, a);
  }

  /**
    The seed is a JavaScript number. For a string of at most 2^37 code units
    the seed, and the seed of every prefix (each partial sum of the fold),
    stays below 2^53, so the floating-point additions are exact and the
    unbounded sum of this model is the value the handler computes.
   */
  lemma SeedIsExactDouble(userId: JsString)
    requires |userId| <= 0x20_0000_0000
    ensures Seed(userId) < 0x20_0000_0000_0000
    ensures forall k :: 0 <= k <= |userId| ==> Seed(userId[..k]) < 0x20_0000_0000_0000
  {
    forall k | 0 <= k <= |userId|
      ensures Seed(userId[..k]) < 0x20_0000_0000_0000
    {
      assert userId[..k] + userId[k..] == userId;
      SeedAppend(userId[..k], userId[k..]);
    }
  }

  /** `userNumber: seed % 1000`; the seed is never negative, so JavaScript's `%` agrees with Dafny's. */
  function UserNumber(userId: JsString): (n: int)
    ensures 0 <= n < 1000
    ensures n == CodeUnitSum(userId) % 1000
  {
    SeedIsCodeUnitSum(userId);
    Seed(userId) % 1000
  }

  /** The greeting template literal with `userId` embedded. */
  function Greeting(userId: JsString): (message: JsString)
    ensures |message| == |GreetingPrefix| + |userId| + |GreetingSuffix|
    ensures message[..|GreetingPrefix|] == GreetingPrefix
    ensures message[|GreetingPrefix|..|GreetingPrefix| + |userId|] == userId
    ensures message[|GreetingPrefix| + |userId|..] == GreetingSuffix
  {
    GreetingPrefix + userId + GreetingSuffix
  }

  /** Recovers the user id from a greeting, or `None` for a text that is not one. */
  function GreetedUserId(message: JsString): (r: Option<JsString>)
    ensures r.Some? ==> Greeting(r.value) == message
  {
    var p, s := |GreetingPrefix|, |GreetingSuffix|;
    if p + s <= |message| && message[..p] == GreetingPrefix && message[|message| - s..] == GreetingSuffix then
      var userId := message[p..|message| - s];
      assert message == message[..p] + userId + message[|message| - s..];
      Some(userId)
    else
      None
  }

  /** The greeting embeds the user id verbatim: it can be read back out of it. */
  lemma GreetingRoundTrip(userId: JsString)
    ensures GreetedUserId(Greeting(userId)) == Some(userId)
  {
  }

  /** Different user ids get different greetings. */
  lemma GreetingInjective(u: JsString, v: JsString)
    ensures Greeting(u) == Greeting(v) ==> u == v
  {
    GreetingRoundTrip(u);
    GreetingRoundTrip(v);
  }

  /** `generateUserData`, with the wall clock's ISO-8601 reading passed in as `now`. */
  function GenerateUserData(userId: JsString, now: JsString): (r: Record)
    ensures r.userId == userId && r.timestamp == now
    ensures GreetedUserId(r.message) == Some(userId)
    ensures 0 <= r.userNumber < 1000
    ensures r.userNumber == CodeUnitSum(userId) % 1000
  {
    GreetingRoundTrip(userId);
    Record(userId, Greeting(userId), now, UserNumber(userId))
  }

  /** Two calls with the same user id differ in the timestamp only. */
  lemma OnlyTimestampDependsOnClock(userId: JsString, t1: JsString, t2: JsString)
    ensures GenerateUserData(userId, t1).(timestamp := t2) == GenerateUserData(userId, t2)
  {
  }

  /** The worked example: "abc" has code units 97 + 98 + 99 = 294. */
  lemma UserNumberOfAbc()
    ensures GenerateUserData([97, 98, 99], []).userNumber == 294
  {
  }

  // ---------------------------------------------------------------------------
  // protectedData

  /**
    The user id the handler would feed to `generateUserData`: the `userId`
    property of the principal, provided it is a string. Any other value has no
    `split` method, so the call throws a TypeError.
   */
  function StringUserId(principal: Json): (userId: Option<JsString>)
    ensures userId.Some? <==> GetProperty(principal, UserIdKey).Defined? && GetProperty(principal, UserIdKey).value.JString?
    ensures userId.Some? ==> GetProperty(principal, UserIdKey) == Defined(JString(userId.value))
  {
    match GetProperty(principal, UserIdKey)
    case Defined(JString(u)) => Some(u)
    case _ => None
  }

  /** The `protectedData` handler. */
  function ProtectedDataHandler(header: Header, decode: Decoder, now: JsString): (r: Response<Record>)
    ensures r.status == 200 || r.status == 401 || r.status == 500
    ensures r.status == 401 <==> !Truthy(CheckAuthentication(header, decode))
    ensures r.status == 401 ==> r.body == Error(Unauthorized, AuthenticationRequired)
    ensures r.status == 200 <==>
      Truthy(CheckAuthentication(header, decode)) && StringUserId(CheckAuthentication(header, decode)).Some?
    ensures r.status == 200 ==>
      r.body == Payload(GenerateUserData(StringUserId(CheckAuthentication(header, decode)).value, now))
    ensures r.status == 500 ==> r.body == Error(InternalServerError, ApplicationCrash)
  {
    var principal := CheckAuthentication(header, decode);
    if !Truthy(principal) then
      Response(401, Error(Unauthorized, AuthenticationRequired))
    else match StringUserId(principal)
      case Some(userId) => Response(200, Payload(GenerateUserData(userId, now)))
      case None => Crash()
  }

  /** No header, or an empty one: 401. */
  lemma MissingHeaderIsUnauthorized(header: Header, decode: Decoder, now: JsString)
    requires !HeaderPresent(header)
    ensures ProtectedDataHandler(header, decode, now).status == 401
  {
  }

  /** A payload that fails to decode or parse is swallowed and becomes a 401, not a 500. */
  lemma ParseFailureIsUnauthorized(header: Header, decode: Decoder, now: JsString)
    requires HeaderPresent(header) && decode(header.raw) == Throws
    ensures ProtectedDataHandler(header, decode, now).status == 401
  {
  }

  /** A payload that parses to a falsy value (`null`, `false`, `0`, `""`) is a 401 too. */
  lemma FalsyPayloadIsUnauthorized(header: Header, decode: Decoder, now: JsString)
    requires HeaderPresent(header) && decode(header.raw).Parsed? && !Truthy(decode(header.raw).value)
    ensures ProtectedDataHandler(header, decode, now).status == 401
  {
  }

  /** A principal from the gateway gets 200 and the record derived from its own user id. */
  lemma PrincipalGetsUserData(header: Header, decode: Decoder, now: JsString, p: Principal)
    requires HeaderPresent(header) && decode(header.raw) == Parsed(ToJson(p))
    ensures ProtectedDataHandler(header, decode, now) == Response(200, Payload(GenerateUserData(p.userId, now)))
  {
    ToJsonFields(p);
  }

  /** A truthy payload whose `userId` is missing or not a string makes `split` throw: 500. */
  lemma NonStringUserIdCrashes(header: Header, decode: Decoder, now: JsString)
    requires HeaderPresent(header) && decode(header.raw).Parsed? && Truthy(decode(header.raw).value)
    requires !GetProperty(decode(header.raw).value, UserIdKey).Defined?
          || !GetProperty(decode(header.raw).value, UserIdKey).value.JString?
    ensures ProtectedDataHandler(header, decode, now) == Crash()
  {
  }
}
