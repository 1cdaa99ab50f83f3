/** The entities the session code works on: the fixed key names, the configuration flags,
    the request with its item cache, the response's cookie jar, the user session and the
    cache client. */
module SessionTypes {
  import opened Wrappers

  /** Cookie, item and header names, as ServiceStack's `Keywords`, `SessionFeature` and
      `HttpHeaders` classes define them. */
  const SessionId: string := "ss-id"
  const PermanentSessionId: string := "ss-pid"
  const SessionOptionsKey: string := "ss-opt"
  const SessionItemKey: string := "__session"
  const XUserAuthId: string := "X-UAId"
  const TokenCookie: string := "ss-tok"
  const RefreshTokenCookie: string := "ss-reftok"

  /** Cache keys of sessions are this prefix followed by the session id. */
  const SessionKeyPrefix: string := "urn:iauthsession:"

  /** `SessionOptions.Temporary` and `SessionOptions.Permanent`. */
  const Temporary: string := "temp"
  const Permanent: string := "perm"

  /** The two host configuration flags the session code reads. */
  datatype Config = Config(allowSessionIdsInHttpParams: bool, useSecureCookies: bool)

  /** One instruction sent to the response's cookie jar. `secureOnly` is None when the
      caller leaves the secure flag to the jar's default. */
  datatype CookieWrite =
    | AddSessionCookie(name: string, value: string, secureOnly: Option<bool>)
    | AddPermanentCookie(name: string, value: string, secureOnly: Option<bool>)
    | DeleteCookie(name: string)

  /** An HTTP response, seen through its cookie jar: the Set-Cookie instructions issued so far. */
  class HttpResponse {
    var cookies: seq<CookieWrite>

    constructor ()
      ensures cookies == []
    {
      cookies := [];
    }
  }

  /** The part of `IAuthSession` the session code reads and writes. */
  class AuthSession {
    var id: Option<string>
    var roles: Option<seq<string>>
    var permissions: Option<seq<string>>
    var userAuthId: Option<string>
    var userAuthName: Option<string>
    var userName: Option<string>
    var email: Option<string>

    /** A new unauthenticated session. */
    constructor ()
      ensures IsUnauthenticated(this)
    {
      id, roles, permissions := None, None, None;
      userAuthId, userAuthName, userName, email := None, None, None, None;
    }
  }

  /** A session object nothing has been stored in. */
  predicate IsUnauthenticated(session: AuthSession)
    reads session
  {
    && session.id.None? && session.roles.None? && session.permissions.None?
    && session.userAuthId.None? && session.userAuthName.None? && session.userName.None? && session.email.None?
  }

  /** The roles and permissions of a stored user account (`IUserAuth`). */
  datatype UserAuth = UserAuth(roles: Option<seq<string>>, permissions: Option<seq<string>>)

  /** A value in the request-scoped item cache: a string, a session object, or anything else. */
  datatype Item = Text(value: string) | SessionObject(session: AuthSession) | Other

  /** An incoming request. Only the item cache changes while the request is handled;
      `response` is null when the response is not an HTTP response. */
  class Request {
    var items: map<string, Item>
    const headers: map<string, string>
    const queryString: map<string, string>
    const formData: map<string, string>
    const cookies: map<string, string>
    const isSecureConnection: bool
    const response: HttpResponse?

    constructor (headers: map<string, string>, queryString: map<string, string>,
                 formData: map<string, string>, cookies: map<string, string>,
                 isSecureConnection: bool, response: HttpResponse?)
      ensures items == map[]
      ensures this.headers == headers && this.queryString == queryString && this.formData == formData
      ensures this.cookies == cookies && this.isSecureConnection == isSecureConnection
      ensures this.response == response
    {
      items := map[];
      this.headers, this.queryString, this.formData := headers, queryString, formData;
      this.cookies, this.isSecureConnection, this.response := cookies, isSecureConnection, response;
    }
  }

  /** The cache backend, as a map from cache key to stored session. */
  class CacheClient {
    var entries: map<string, AuthSession>

    constructor ()
      ensures entries == map[]
    {
      entries := map[];
    }
  }
}
