/** The session-identity logic of ServiceStack's `SessionExtensions`: where a request's
    session id is found, the per-request set of session options, creating and assigning
    session ids and their cookies, merging roles and permissions into a session, and the
    cache-backed lookup, removal and rotation of sessions.

    The host's ambient state is passed in: `cfg` holds the two configuration flags, `e`
    is the secure random generator, `cache` the cache client. Async variants are modelled
    by their sequential counterparts. */
module SessionExtensions {
  import opened Wrappers
  import opened SessionTypes
  import Text
  import Base64
  import SessionIds

  // ---------------------------------------------------------------------------
  // Session parameter resolution

  /** C#'s `a ?? b`. */
  function Coalesce(a: Option<string>, b: Option<string>): Option<string>
  {
    if a.Some? then a else b
  }

  /** A header, query-string, form or cookie value; null when the name is absent. */
  function Lookup(m: map<string, string>, name: string): Option<string>
  {
    if name in m then Some(m[name]) else None
  }

  /** `req.GetItem(key) as string`: an item that is not a string reads as null. */
  function ItemString(req: Request, key: string): Option<string>
    reads req
  {
    if key in req.items && req.items[key].Text? then Some(req.items[key].value) else None
  }

  /** The first value that is not null. */
  function FirstPresent(xs: seq<Option<string>>): (r: Option<string>)
    ensures r.None? <==> forall i :: 0 <= i < |xs| ==> xs[i].None?
    ensures r.Some? ==> exists i :: 0 <= i < |xs| && xs[i] == r && forall j :: 0 <= j < i ==> xs[j].None?
    decreases |xs|
  {
    if |xs| == 0 then None
    else if xs[0].Some? then xs[0]
    else
      var r := FirstPresent(xs[1..]);
      assert r.Some? ==> exists i :: 1 <= i < |xs| && xs[i] == r && forall j :: 0 <= j < i ==> xs[j].None? by {
        if r.Some? {
          var i :| 0 <= i < |xs[1..]| && xs[1..][i] == r && forall j :: 0 <= j < i ==> xs[1..][j].None?;
          assert xs[i + 1] == r;
          assert forall j :: 0 <= j < i + 1 ==> xs[j].None? by {
            forall j | 0 <= j < i + 1 ensures xs[j].None? {
              if j > 0 { assert xs[j] == xs[1..][j - 1]; }
            }
          }
        }
      }
      r
  }

  /** The places a session parameter is looked for, in the order they are tried: the
      request's item cache, the `X-<key>` header, the query string and the form data
      (only when the host allows session ids in HTTP parameters), and the cookie. */
  function SessionParamSources(req: Request, key: string, cfg: Config): seq<Option<string>>
    reads req
  {
    [ItemString(req, key), Lookup(req.headers, "X-" + key)]
    + (if cfg.allowSessionIdsInHttpParams
       then [Lookup(req.queryString, key), Lookup(req.formData, key)]
       else [])
    + [Lookup(req.cookies, key)]
  }

  lemma FirstPresentStep(xs: seq<Option<string>>)
    requires |xs| > 0
    ensures FirstPresent(xs) == if xs[0].Some? then xs[0] else FirstPresent(xs[1..])
  {
  }

  function GetSessionParam(req: Request, sessionKey: string, cfg: Config): Option<string>
    reads req
  {
    Coalesce(ItemString(req, sessionKey),
      Coalesce(Lookup(req.headers, "X-" + sessionKey),
        Coalesce(if cfg.allowSessionIdsInHttpParams
                 then Coalesce(Lookup(req.queryString, sessionKey), Lookup(req.formData, sessionKey))
                 else None,
          Lookup(req.cookies, sessionKey))))
  }

  /** A session parameter is the first of its sources, in priority order, that is set. */
  lemma SessionParamPriority(req: Request, sessionKey: string, cfg: Config)
    ensures GetSessionParam(req, sessionKey, cfg) == FirstPresent(SessionParamSources(req, sessionKey, cfg))
  {
    var xs := SessionParamSources(req, sessionKey, cfg);
    FirstPresentStep(xs);
    FirstPresentStep(xs[1..]);
    FirstPresentStep(xs[2..]);
    if cfg.allowSessionIdsInHttpParams {
      FirstPresentStep(xs[3..]);
      FirstPresentStep(xs[4..]);
      assert xs[5..] == [];
    } else {
      assert xs[3..] == [];
    }
  }

  /** With session ids in HTTP parameters disallowed, the query string and the form data
      never influence which value is found. */
  lemma SessionParamIgnoresHttpParams(a: Request, b: Request, sessionKey: string, cfg: Config)
    requires !cfg.allowSessionIdsInHttpParams
    requires a.items == b.items && a.headers == b.headers && a.cookies == b.cookies
    ensures GetSessionParam(a, sessionKey, cfg) == GetSessionParam(b, sessionKey, cfg)
  {
  }

  function GetPermanentSessionId(req: Request, cfg: Config): Option<string>
    reads req
  {
    GetSessionParam(req, PermanentSessionId, cfg)
  }

  function GetTemporarySessionId(req: Request, cfg: Config): Option<string>
    reads req
  {
    GetSessionParam(req, SessionId, cfg)
  }

  /** The session id of the lifetime the request's options select. */
  function GetSessionId(req: Request, cfg: Config): Option<string>
    reads req
  {
    if IsPermanentSession(req, cfg) then GetPermanentSessionId(req, cfg)
    else GetTemporarySessionId(req, cfg)
  }

  /** The key under which the active session id is looked for and stored. */
  function ActiveSessionKey(req: Request, cfg: Config): string
    reads req
  {
    if IsPermanentSession(req, cfg) then PermanentSessionId else SessionId
  }

  /** A session id already in the item cache under the active key decides the session,
      whatever headers, parameters and cookies say; the other key's value plays no part. */
  lemma SessionIdFromItems(req: Request, cfg: Config, id: string)
    requires ActiveSessionKey(req, cfg) in req.items
    requires req.items[ActiveSessionKey(req, cfg)] == Text(id)
    ensures GetSessionId(req, cfg) == Some(id)
  {
  }

  // ---------------------------------------------------------------------------
  // The session-option set

  /** A null or empty options string is the empty set; otherwise the set of its
      comma-separated pieces. */
  function ParseSessionOptions(sessionOptions: Option<string>): (r: set<string>)
    ensures r == {} <==> sessionOptions.None? || sessionOptions.value == ""
    ensures forall o :: o in r ==> ',' !in o
  {
    if sessionOptions.None? || sessionOptions.value == "" then {}
    else
      var pieces := Text.Split(sessionOptions.value, ',');
      var r := set o | o in pieces;
      assert pieces[0] in r;
      r
  }

  function GetSessionOptions(req: Request, cfg: Config): (r: set<string>)
    reads req
    ensures forall o :: o in r ==> ',' !in o
  {
    ParseSessionOptions(GetSessionParam(req, SessionOptionsKey, cfg))
  }

  function IsPermanentSession(req: Request?, cfg: Config): bool
    reads req
  {
    req != null && Permanent in GetSessionOptions(req, cfg)
  }

  /** A null request is never permanent; any other request is permanent exactly when "perm"
      is one of the comma-separated pieces of its options string. */
  lemma PermanentWhenListed(req: Request?, cfg: Config)
    ensures req == null ==> !IsPermanentSession(req, cfg)
    ensures req != null ==>
      (IsPermanentSession(req, cfg) <==>
         var s := GetSessionParam(req, SessionOptionsKey, cfg);
         s.Some? && Permanent in Text.Split(s.value, ','))
  {
    if req != null {
      var s := GetSessionParam(req, SessionOptionsKey, cfg);
      if s.Some? && s.value == "" {
        Text.SplitWithoutSeparator(s.value, ',');
      }
    }
  }

  /** One step of the `foreach` in `AddSessionOptions`. */
  function ApplySessionOption(options: set<string>, option: Option<string>): set<string>
  {
    if option.None? || option.value == "" then options
    else if option.value == Permanent then options - {Temporary} + {Permanent}
    else if option.value == Temporary then options - {Permanent} + {Temporary}
    else options + {option.value}
  }

  /** The whole `foreach`, applying `options` from first to last. */
  function ApplySessionOptions(existing: set<string>, options: seq<Option<string>>): set<string>
    decreases |options|
  {
    if |options| == 0 then existing
    else ApplySessionOption(ApplySessionOptions(existing, options[..|options| - 1]), options[|options| - 1])
  }

  /** Of "perm" and "temp", the one given last is present and the other is not. */
  lemma {:induction false} LastLifetimeOptionWins(existing: set<string>, options: seq<Option<string>>, i: nat)
    requires i < |options| && (options[i] == Some(Permanent) || options[i] == Some(Temporary))
    requires forall j :: i < j < |options| ==> options[j] != Some(Permanent) && options[j] != Some(Temporary)
    ensures var r := ApplySessionOptions(existing, options);
      if options[i] == Some(Permanent) then Permanent in r && Temporary !in r
      else Temporary in r && Permanent !in r
    decreases |options|
  {
    var n := |options|;
    if i < n - 1 {
      var prefix := options[..n - 1];
      assert prefix[i] == options[i];
      LastLifetimeOptionWins(existing, prefix, i);
    }
  }

  /** Without a "perm" or "temp" among the options, the lifetime flags stay as they were. */
  lemma {:induction false} LifetimeUntouched(existing: set<string>, options: seq<Option<string>>)
    requires forall j :: 0 <= j < |options| ==> options[j] != Some(Permanent) && options[j] != Some(Temporary)
    ensures Permanent in ApplySessionOptions(existing, options) <==> Permanent in existing
    ensures Temporary in ApplySessionOptions(existing, options) <==> Temporary in existing
    decreases |options|
  {
    if |options| > 0 {
      LifetimeUntouched(existing, options[..|options| - 1]);
    }
  }

  /** Any option other than the two lifetime flags is in the result exactly when it was
      there before or is one of the non-empty options given. */
  lemma {:induction false} OtherOptionsKeptAndAdded(existing: set<string>, options: seq<Option<string>>, x: string)
    requires x != Permanent && x != Temporary
    ensures x in ApplySessionOptions(existing, options) <==> x in existing || (x != "" && Some(x) in options)
    decreases |options|
  {
    if |options| > 0 {
      var prefix := options[..|options| - 1];
      OtherOptionsKeptAndAdded(existing, prefix, x);
      assert options == prefix + [options[|options| - 1]];
    }
  }

  /** Every option in the result was there before or was given. */
  lemma {:induction false} AppliedOptionsFrom(existing: set<string>, options: seq<Option<string>>, x: string)
    requires x in ApplySessionOptions(existing, options)
    ensures x in existing || Some(x) in options
    decreases |options|
  {
    if |options| > 0 {
      var prefix := options[..|options| - 1];
      var last := options[|options| - 1];
      if x in ApplySessionOptions(existing, prefix) {
        AppliedOptionsFrom(existing, prefix, x);
        if Some(x) in prefix {
          var k :| 0 <= k < |prefix| && prefix[k] == Some(x);
          assert options[k] == Some(x);
        }
      } else {
        assert last == Some(x);
      }
    }
  }

  /** Adding an option that is already present, while its opposite is absent, changes
      nothing. */
  lemma AddingPresentOption(options: set<string>, option: string)
    requires option != "" && option in options
    requires option == Permanent ==> Temporary !in options
    requires option == Temporary ==> Permanent !in options
    ensures ApplySessionOption(options, Some(option)) == options
  {
  }

  /** Applying the same option a second time changes nothing, whatever the set was. */
  lemma ApplySessionOptionIdempotent(options: set<string>, option: Option<string>)
    ensures ApplySessionOption(ApplySessionOption(options, option), option) == ApplySessionOption(options, option)
  {
  }

  predicate NoCommas(options: seq<Option<string>>)
  {
    forall i :: 0 <= i < |options| && options[i].Some? ==> ',' !in options[i].value
  }

  /** `xs` lists every element of `s` once: the order in which a hash set is enumerated. */
  ghost predicate Enumerates(xs: seq<string>, s: set<string>)
  {
    && (forall x :: x in xs <==> x in s)
    && (forall i, j :: 0 <= i < j < |xs| ==> xs[i] != xs[j])
  }

  /** `HashSet<string>.ToArray()`, in whichever order the set enumerates its elements. */
  method ToArray(s: set<string>) returns (xs: seq<string>)
    ensures Enumerates(xs, s)
  {
    xs := [];
    var rest := s;
    while rest != {}
      invariant forall x :: x in xs <==> x in s && x !in rest
      invariant rest <= s
      invariant forall i, j :: 0 <= i < j < |xs| ==> xs[i] != xs[j]
      decreases |rest|
    {
      var x :| x in rest;
      xs := xs + [x];
      rest := rest - {x};
    }
  }

  /** The comma-joined option set parses back to the same set, unless an option holds
      a comma or the set is the one holding only the empty string. */
  lemma OptionsRoundTrip(order: seq<string>, s: set<string>)
    requires Enumerates(order, s)
    requires forall x :: x in s ==> ',' !in x
    requires s != {""}
    ensures ParseSessionOptions(Some(Text.Join(",", order))) == s
  {
    Text.JoinEmpty(",", order);
    if order != [] {
      assert forall i :: 0 <= i < |order| ==> ',' !in order[i] by {
        forall i | 0 <= i < |order| ensures ',' !in order[i] {
          assert order[i] in s;
        }
      }
      Text.SplitJoin(order, ',');
      assert Text.Split(Text.Join(",", order), ',') == order;
    }
  }

  /** Applies `options` in order to the request's current options, then stores the new set
      comma-joined in the request's items and, on an HTTP response, in a permanent cookie.
      `order` is the order the set's elements are joined in. Without a request or without
      options nothing is stored and the returned set is empty. */
  method AddSessionOptions(req: Request?, options: seq<Option<string>>, cfg: Config)
      returns (result: set<string>, ghost order: seq<string>)
    modifies req, if req != null then req.response else null
    ensures req == null || |options| == 0 ==> result == {}
    ensures req != null && |options| == 0 ==>
      req.items == old(req.items) && (req.response != null ==> req.response.cookies == old(req.response.cookies))
    ensures req != null && |options| > 0 ==>
      && result == ApplySessionOptions(old(GetSessionOptions(req, cfg)), options)
      && Enumerates(order, result)
      && req.items == old(req.items)[SessionOptionsKey := Text(Text.Join(",", order))]
      && (req.response != null ==>
            req.response.cookies == old(req.response.cookies) + [AddPermanentCookie(SessionOptionsKey, Text.Join(",", order), None)])
    ensures req != null && |options| > 0 && NoCommas(options) && result != {""} ==>
      GetSessionOptions(req, cfg) == result
  {
    if req == null || |options| == 0 {
      return {}, [];
    }
    var existingOptions := GetSessionOptions(req, cfg);
    ghost var initial := existingOptions;
    for i := 0 to |options|
      invariant existingOptions == ApplySessionOptions(initial, options[..i])
    {
      assert options[..i + 1][..i] == options[..i];
      var option := options[i];
      if option.None? || option.value == "" {
        continue;
      }
      if option.value == Permanent {
        existingOptions := existingOptions - {Temporary};
      } else if option.value == Temporary {
        existingOptions := existingOptions - {Permanent};
      }
      existingOptions := existingOptions + {option.value};
    }
    assert options[..|options|] == options;
    var arr := ToArray(existingOptions);
    var strOptions := Text.Join(",", arr);
    if req.response != null {
      req.response.cookies := req.response.cookies + [AddPermanentCookie(SessionOptionsKey, strOptions, None)];
    }
    req.items := req.items[SessionOptionsKey := Text(strOptions)];
    result, order := existingOptions, arr;
    if NoCommas(options) && result != {""} {
      assert forall x :: x in result ==> ',' !in x by {
        forall x | x in result ensures ',' !in x {
          AppliedOptionsFrom(initial, options, x);
          if Some(x) in options {
            var k :| 0 <= k < |options| && options[k] == Some(x);
          }
        }
      }
      OptionsRoundTrip(order, result);
    }
  }

  // ---------------------------------------------------------------------------
  // Session ids and their cookies

  /** The cookie that carries a session id: a session cookie for the temporary id, a
      permanent cookie for any other key. */
  function IdCookie(req: Request, sessionKey: string, sessionId: string, cfg: Config): (c: CookieWrite)
    ensures c.AddSessionCookie? <==> sessionKey == SessionId
    ensures !c.DeleteCookie? && c.name == sessionKey && c.value == sessionId
    ensures c.secureOnly == Some(cfg.useSecureCookies && req.isSecureConnection)
  {
    var secure := Some(cfg.useSecureCookies && req.isSecureConnection);
    if sessionKey == SessionId then AddSessionCookie(sessionKey, sessionId, secure)
    else AddPermanentCookie(sessionKey, sessionId, secure)
  }

  /** Sends `sessionId` as the cookie named `sessionKey` (when `res` is an HTTP response)
      and records it in the request's items. */
  method CreateSessionId(req: Request, res: HttpResponse?, sessionKey: string, sessionId: string, cfg: Config)
      returns (id: string)
    modifies req, res
    ensures id == sessionId
    ensures req.items == old(req.items)[sessionKey := Text(sessionId)]
    ensures res != null ==> res.cookies == old(res.cookies) + [IdCookie(req, sessionKey, sessionId, cfg)]
  {
    if res != null {
      res.cookies := res.cookies + [IdCookie(req, sessionKey, sessionId, cfg)];
    }
    req.items := req.items[sessionKey := Text(sessionId)];
    id := sessionId;
  }

  /** A fair generator can always produce a session id, wherever it stands. */
  lemma FairDraw(e: SessionIds.Entropy)
    requires SessionIds.Fair(e.stream)
    ensures SessionIds.EventuallyAcceptable(e, SessionIds.SessionIdBytes)
  {
    assert SessionIds.EventuallyAcceptable(SessionIds.Entropy(e.stream, e.pos), SessionIds.SessionIdBytes);
  }

  method CreatePermanentSessionId(res: HttpResponse?, req: Request, cfg: Config, e: SessionIds.Entropy)
      returns (id: string, next: SessionIds.Entropy, ghost rejected: nat)
    requires SessionIds.Fair(e.stream)
    modifies req, res
    ensures SessionIds.WellFormedSessionId(id)
    ensures SessionIds.DrawnSessionId(id, e, rejected)
    ensures next.stream == e.stream && next.pos == e.pos + (rejected + 1) * SessionIds.SessionIdBytes
    ensures req.items == old(req.items)[PermanentSessionId := Text(id)]
    ensures res != null ==> res.cookies == old(res.cookies) + [IdCookie(req, PermanentSessionId, id, cfg)]
    ensures GetSessionOptions(req, cfg) == old(GetSessionOptions(req, cfg))
  {
    FairDraw(e);
    var sessionId;
    sessionId, next, rejected := SessionIds.CreateRandomSessionId(e);
    id := CreateSessionId(req, res, PermanentSessionId, sessionId, cfg);
  }

  method CreateTemporarySessionId(res: HttpResponse?, req: Request, cfg: Config, e: SessionIds.Entropy)
      returns (id: string, next: SessionIds.Entropy, ghost rejected: nat)
    requires SessionIds.Fair(e.stream)
    modifies req, res
    ensures SessionIds.WellFormedSessionId(id)
    ensures SessionIds.DrawnSessionId(id, e, rejected)
    ensures next.stream == e.stream && next.pos == e.pos + (rejected + 1) * SessionIds.SessionIdBytes
    ensures req.items == old(req.items)[SessionId := Text(id)]
    ensures res != null ==> res.cookies == old(res.cookies) + [IdCookie(req, SessionId, id, cfg)]
    ensures GetSessionOptions(req, cfg) == old(GetSessionOptions(req, cfg))
  {
    FairDraw(e);
    var sessionId;
    sessionId, next, rejected := SessionIds.CreateRandomSessionId(e);
    id := CreateSessionId(req, res, SessionId, sessionId, cfg);
  }

  method CreateTemporarySessionIdWithValue(req: Request, sessionId: string, cfg: Config) returns (id: string)
    modifies req, req.response
    ensures id == sessionId
    ensures req.items == old(req.items)[SessionId := Text(sessionId)]
    ensures req.response != null ==>
      req.response.cookies == old(req.response.cookies) + [IdCookie(req, SessionId, sessionId, cfg)]
  {
    id := CreateSessionId(req, req.response, SessionId, sessionId, cfg);
  }

  method CreatePermanentSessionIdWithValue(req: Request, sessionId: string, cfg: Config) returns (id: string)
    modifies req, req.response
    ensures id == sessionId
    ensures req.items == old(req.items)[PermanentSessionId := Text(sessionId)]
    ensures req.response != null ==>
      req.response.cookies == old(req.response.cookies) + [IdCookie(req, PermanentSessionId, sessionId, cfg)]
  {
    id := CreateSessionId(req, req.response, PermanentSessionId, sessionId, cfg);
  }

  /** Creates the id of the active lifetime: a permanent one for a permanent session, a
      temporary one otherwise. */
  method CreateActiveSessionId(res: HttpResponse?, req: Request, cfg: Config, e: SessionIds.Entropy)
      returns (id: string, next: SessionIds.Entropy, ghost draw: nat)
    requires SessionIds.Fair(e.stream)
    modifies req, res
    ensures SessionIds.WellFormedSessionId(id) && SessionIds.DrawnSessionId(id, e, draw)
    ensures next.stream == e.stream && next.pos == e.pos + (draw + 1) * SessionIds.SessionIdBytes
    ensures IsPermanentSession(req, cfg) == old(IsPermanentSession(req, cfg))
    ensures req.items == old(req.items)[ActiveSessionKey(req, cfg) := Text(id)]
    ensures res != null ==> res.cookies == old(res.cookies) + [IdCookie(req, ActiveSessionKey(req, cfg), id, cfg)]
    ensures GetSessionId(req, cfg) == Some(id)
  {
    ghost var before := GetSessionOptions(req, cfg);
    if IsPermanentSession(req, cfg) {
      id, next, draw := CreatePermanentSessionId(res, req, cfg, e);
    } else {
      id, next, draw := CreateTemporarySessionId(res, req, cfg, e);
    }
    assert GetSessionOptions(req, cfg) == before;
  }

  /** Creates both a permanent and a temporary id (permanent first) and returns the one
      of the active lifetime. */
  method CreateSessionIds(res: HttpResponse?, req: Request, cfg: Config, e: SessionIds.Entropy)
      returns (active: string, next: SessionIds.Entropy, ghost permId: string, ghost tempId: string,
               ghost permDraw: nat, ghost tempDraw: nat)
    requires SessionIds.Fair(e.stream)
    modifies req, res
    ensures SessionIds.WellFormedSessionId(permId) && SessionIds.WellFormedSessionId(tempId)
    ensures SessionIds.DrawnSessionId(permId, e, permDraw) && SessionIds.DrawnSessionId(tempId, e, tempDraw) && permDraw < tempDraw
    ensures next.stream == e.stream && next.pos == e.pos + (tempDraw + 1) * SessionIds.SessionIdBytes
    ensures req.items == old(req.items)[PermanentSessionId := Text(permId)][SessionId := Text(tempId)]
    ensures res != null ==>
      res.cookies == old(res.cookies) + [IdCookie(req, PermanentSessionId, permId, cfg)] + [IdCookie(req, SessionId, tempId, cfg)]
    ensures IsPermanentSession(req, cfg) == old(IsPermanentSession(req, cfg))
    ensures active == if IsPermanentSession(req, cfg) then permId else tempId
    ensures GetSessionId(req, cfg) == Some(active)
  {
    ghost var before := GetSessionOptions(req, cfg);
    var e1, p, t;
    ghost var r1, r2;
    p, e1, r1 := CreatePermanentSessionId(res, req, cfg, e);
    t, next, r2 := CreateTemporarySessionId(res, req, cfg, e1);
    SessionIds.LaterDraw(e, e1, r1 + 1, r2);
    assert GetSessionOptions(req, cfg) == before;
    active := if IsPermanentSession(req, cfg) then p else t;
    SessionIdFromItems(req, cfg, active);
    permId, tempId, permDraw, tempDraw := p, t, r1, r1 + 1 + r2;
  }

  /** `SessionFeature.CreateSessionIds(req)`: both ids, sent on the request's own response. */
  method CreateSessionIdsForRequest(req: Request, cfg: Config, e: SessionIds.Entropy)
      returns (active: string, next: SessionIds.Entropy, ghost permId: string, ghost tempId: string,
               ghost permDraw: nat, ghost tempDraw: nat)
    requires SessionIds.Fair(e.stream)
    modifies req, req.response
    ensures SessionIds.WellFormedSessionId(permId) && SessionIds.WellFormedSessionId(tempId)
    ensures SessionIds.DrawnSessionId(permId, e, permDraw) && SessionIds.DrawnSessionId(tempId, e, tempDraw) && permDraw < tempDraw
    ensures next.stream == e.stream && next.pos == e.pos + (tempDraw + 1) * SessionIds.SessionIdBytes
    ensures req.items == old(req.items)[PermanentSessionId := Text(permId)][SessionId := Text(tempId)]
    ensures req.response != null ==>
      req.response.cookies == old(req.response.cookies)
        + [IdCookie(req, PermanentSessionId, permId, cfg)] + [IdCookie(req, SessionId, tempId, cfg)]
    ensures IsPermanentSession(req, cfg) == old(IsPermanentSession(req, cfg))
    ensures active == if IsPermanentSession(req, cfg) then permId else tempId
    ensures GetSessionId(req, cfg) == Some(active)
  {
    active, next, permId, tempId, permDraw, tempDraw := CreateSessionIds(req.response, req, cfg, e);
  }

  /** Records a non-empty `sessionId` as the id of the active lifetime; a null or empty one
      is ignored. */
  method SetSessionId(req: Request, sessionId: Option<string>, cfg: Config)
    modifies req
    ensures sessionId.None? || sessionId.value == "" ==> req.items == old(req.items)
    ensures sessionId.Some? && sessionId.value != "" ==>
      && req.items == old(req.items)[old(ActiveSessionKey(req, cfg)) := Text(sessionId.value)]
      && IsPermanentSession(req, cfg) == old(IsPermanentSession(req, cfg))
      && GetSessionId(req, cfg) == sessionId
  {
    if sessionId.None? || sessionId.value == "" {
      return;
    }
    ghost var before := GetSessionOptions(req, cfg);
    var sessionKey := if IsPermanentSession(req, cfg) then PermanentSessionId else SessionId;
    req.items := req.items[sessionKey := Text(sessionId.value)];
    assert GetSessionOptions(req, cfg) == before;
  }

  /** The request's session id, or a newly created pair of ids when it has none. */
  method GetOrCreateSessionId(req: Request, cfg: Config, e: SessionIds.Entropy)
      returns (id: string, next: SessionIds.Entropy, ghost permId: string, ghost tempId: string,
               ghost permDraw: nat, ghost tempDraw: nat)
    requires SessionIds.Fair(e.stream)
    modifies req, req.response
    ensures old(GetSessionId(req, cfg)).Some? ==>
      && id == old(GetSessionId(req, cfg)).value && req.items == old(req.items) && next == e
      && (req.response != null ==> req.response.cookies == old(req.response.cookies))
    ensures old(GetSessionId(req, cfg)).None? ==>
      && SessionIds.WellFormedSessionId(permId) && SessionIds.WellFormedSessionId(tempId)
      && SessionIds.DrawnSessionId(permId, e, permDraw) && SessionIds.DrawnSessionId(tempId, e, tempDraw) && permDraw < tempDraw
      && next.pos == e.pos + (tempDraw + 1) * SessionIds.SessionIdBytes
      && req.items == old(req.items)[PermanentSessionId := Text(permId)][SessionId := Text(tempId)]
      && (req.response != null ==>
            req.response.cookies == old(req.response.cookies)
              + [IdCookie(req, PermanentSessionId, permId, cfg)] + [IdCookie(req, SessionId, tempId, cfg)])
      && id == (if IsPermanentSession(req, cfg) then permId else tempId)
    ensures IsPermanentSession(req, cfg) == old(IsPermanentSession(req, cfg))
    ensures next.stream == e.stream
    ensures GetSessionId(req, cfg) == Some(id)
  {
    var sessionId := GetSessionId(req, cfg);
    if sessionId.Some? {
      id, next, permId, tempId, permDraw, tempDraw := sessionId.value, e, "", "", 0, 0;
    } else {
      id, next, permId, tempId, permDraw, tempDraw := CreateSessionIdsForRequest(req, cfg, e);
    }
  }

  // ---------------------------------------------------------------------------
  // User names, roles and permissions

  function GetUserAuthName(session: AuthSession?): (r: Option<string>)
    reads session
  {
    if session == null then None
    else Coalesce(session.userAuthName, Coalesce(session.userName, session.email))
  }

  function GetUserAuthIdOrName(session: AuthSession?): (r: Option<string>)
    reads session
  {
    if session == null then None
    else Coalesce(session.userAuthId, GetUserAuthName(session))
  }

  /** The user's name is the first of UserAuthName, UserName, Email that is set; the id or
      name puts UserAuthId first. Both are null for a null session. */
  lemma UserNamePriority(session: AuthSession?)
    ensures session == null ==> GetUserAuthName(session).None? && GetUserAuthIdOrName(session).None?
    ensures session != null ==>
      GetUserAuthName(session) == FirstPresent([session.userAuthName, session.userName, session.email])
    ensures session != null ==>
      GetUserAuthIdOrName(session) == FirstPresent([session.userAuthId, session.userAuthName, session.userName, session.email])
  {
    if session != null {
      var names := [session.userAuthName, session.userName, session.email];
      FirstPresentStep(names);
      FirstPresentStep(names[1..]);
      FirstPresentStep(names[2..]);
      assert names[3..] == [];
      var all := [session.userAuthId] + names;
      FirstPresentStep(all);
      assert all[1..] == names;
    }
  }

  /** `list.AddIfNotExists(x)`. */
  function AddIfNotExists(xs: seq<string>, x: string): seq<string>
  {
    if x in xs then xs else xs + [x]
  }

  /** `ys.ForEach(x => xs.AddIfNotExists(x))`, from the first element of `ys` to the last. */
  function AddAllIfNotExists(xs: seq<string>, ys: seq<string>): seq<string>
    decreases |ys|
  {
    if |ys| == 0 then xs
    else AddIfNotExists(AddAllIfNotExists(xs, ys[..|ys| - 1]), ys[|ys| - 1])
  }

  predicate Distinct(xs: seq<string>)
  {
    forall i, j :: 0 <= i < j < |xs| ==> xs[i] != xs[j]
  }

  /** Merging keeps the existing entries, in their order, in front. */
  lemma {:induction false} MergeKeepsExisting(xs: seq<string>, ys: seq<string>)
    ensures xs <= AddAllIfNotExists(xs, ys)
    decreases |ys|
  {
    if |ys| > 0 {
      MergeKeepsExisting(xs, ys[..|ys| - 1]);
    }
  }

  /** The merged list holds exactly the entries of both lists. */
  lemma {:induction false} MergeContents(xs: seq<string>, ys: seq<string>, x: string)
    ensures x in AddAllIfNotExists(xs, ys) <==> x in xs || x in ys
    decreases |ys|
  {
    if |ys| > 0 {
      var prefix := ys[..|ys| - 1];
      MergeContents(xs, prefix, x);
      assert ys == prefix + [ys[|ys| - 1]];
    }
  }

  /** Whatever the list held before, merging appends only entries it did not hold, and
      each of them once. */
  lemma {:induction false} MergeAppendsNew(xs: seq<string>, ys: seq<string>)
    ensures |xs| <= |AddAllIfNotExists(xs, ys)|
    ensures Distinct(AddAllIfNotExists(xs, ys)[|xs|..])
    ensures forall x :: x in AddAllIfNotExists(xs, ys)[|xs|..] ==> x !in xs
    decreases |ys|
  {
    if |ys| > 0 {
      var prefix := ys[..|ys| - 1];
      var y := ys[|ys| - 1];
      MergeAppendsNew(xs, prefix);
      MergeKeepsExisting(xs, prefix);
      var m := AddAllIfNotExists(xs, prefix);
      if y !in m {
        assert (m + [y])[|xs|..] == m[|xs|..] + [y];
      }
    }
  }

  /** Merging into a list without duplicates gives a list without duplicates. */
  lemma MergeDistinct(xs: seq<string>, ys: seq<string>)
    requires Distinct(xs)
    ensures Distinct(AddAllIfNotExists(xs, ys))
  {
    var m := AddAllIfNotExists(xs, ys);
    MergeKeepsExisting(xs, ys);
    MergeAppendsNew(xs, ys);
    forall i, j | 0 <= i < j < |m| ensures m[i] != m[j] {
      if j >= |xs| {
        assert m[j] == m[|xs|..][j - |xs|];
        if i >= |xs| {
          assert m[i] == m[|xs|..][i - |xs|];
        } else {
          assert m[i] == xs[i];
        }
      }
    }
  }

  /** Entries that are all present already change nothing. */
  lemma {:induction false} MergePresent(xs: seq<string>, ys: seq<string>)
    requires forall i :: 0 <= i < |ys| ==> ys[i] in xs
    ensures AddAllIfNotExists(xs, ys) == xs
    decreases |ys|
  {
    if |ys| > 0 {
      MergePresent(xs, ys[..|ys| - 1]);
    }
  }

  /** Merging the same entries a second time changes nothing. */
  lemma MergeIdempotent(xs: seq<string>, ys: seq<string>)
    ensures AddAllIfNotExists(AddAllIfNotExists(xs, ys), ys) == AddAllIfNotExists(xs, ys)
  {
    forall i | 0 <= i < |ys| ensures ys[i] in AddAllIfNotExists(xs, ys) {
      MergeContents(xs, ys, ys[i]);
    }
    MergePresent(AddAllIfNotExists(xs, ys), ys);
  }

  function OrEmpty(xs: Option<seq<string>>): seq<string>
  {
    if xs.Some? then xs.value else []
  }

  /** Appends `items` to `list` one at a time, skipping entries it already holds. */
  method AddEachIfNotExists(list: seq<string>, items: seq<string>) returns (merged: seq<string>)
    ensures merged == AddAllIfNotExists(list, items)
  {
    merged := list;
    for i := 0 to |items|
      invariant merged == AddAllIfNotExists(list, items[..i])
    {
      assert items[..i + 1][..i] == items[..i];
      if items[i] !in merged {
        merged := merged + [items[i]];
      }
    }
    assert items[..|items|] == items;
  }

  /** Merges the account's roles and permissions into the session; missing lists on the
      session become empty lists first. Nothing happens without a session or an account. */
  method UpdateSession(session: AuthSession?, userAuth: Option<UserAuth>)
    modifies session
    ensures session == null || userAuth.None? ==> session == null || unchanged(session)
    ensures session != null && userAuth.Some? ==>
      && session.roles == Some(AddAllIfNotExists(OrEmpty(old(session.roles)), OrEmpty(userAuth.value.roles)))
      && session.permissions == Some(AddAllIfNotExists(OrEmpty(old(session.permissions)), OrEmpty(userAuth.value.permissions)))
      && session.id == old(session.id) && session.userAuthId == old(session.userAuthId)
      && session.userAuthName == old(session.userAuthName) && session.userName == old(session.userName)
      && session.email == old(session.email)
  {
    if userAuth.None? || session == null {
      return;
    }
    if session.roles.None? {
      session.roles := Some([]);
    }
    if session.permissions.None? {
      session.permissions := Some([]);
    }
    if userAuth.value.roles.Some? {
      var roles := AddEachIfNotExists(session.roles.value, userAuth.value.roles.value);
      session.roles := Some(roles);
    }
    if userAuth.value.permissions.Some? {
      var permissions := AddEachIfNotExists(session.permissions.value, userAuth.value.permissions.value);
      session.permissions := Some(permissions);
    }
  }

  // ---------------------------------------------------------------------------
  // Sessions in the cache

  /** `SessionFeature.GetSessionKey(id)`. */
  function SessionKeyOf(sessionId: string): string
  {
    SessionKeyPrefix + sessionId
  }

  /** Different session ids never share a cache key, and the id can be read back off it. */
  lemma SessionKeyInjective(a: string, b: string)
    ensures SessionKeyOf(a)[|SessionKeyPrefix|..] == a
    ensures SessionKeyOf(a) == SessionKeyOf(b) ==> a == b
  {
    assert SessionKeyOf(a)[|SessionKeyPrefix|..] == a;
    assert SessionKeyOf(b)[|SessionKeyPrefix|..] == b;
  }

  /** The cache key of the request's session; null when it has no session id. */
  function GetSessionKey(req: Request, cfg: Config): (r: Option<string>)
    reads req
    ensures r.None? <==> GetSessionId(req, cfg).None?
    ensures r.Some? ==>
      && |SessionKeyPrefix| <= |r.value|
      && r.value[..|SessionKeyPrefix|] == SessionKeyPrefix
      && r.value[|SessionKeyPrefix|..] == GetSessionId(req, cfg).value
  {
    var sessionId := GetSessionId(req, cfg);
    if sessionId.None? then None else Some(SessionKeyOf(sessionId.value))
  }

  /** The cached session of the request; otherwise a new unauthenticated session, after
      creating session ids for a request that has none. */
  method GetUntypedSession(cache: CacheClient, req: Request, cfg: Config, e: SessionIds.Entropy)
      returns (session: AuthSession, next: SessionIds.Entropy, ghost permId: string, ghost tempId: string,
               ghost permDraw: nat, ghost tempDraw: nat)
    requires SessionIds.Fair(e.stream)
    modifies req, req.response
    ensures old(GetSessionKey(req, cfg)).Some? && old(GetSessionKey(req, cfg)).value in cache.entries ==>
      session == cache.entries[old(GetSessionKey(req, cfg)).value]
    ensures old(GetSessionKey(req, cfg)).Some? ==>
      && req.items == old(req.items) && next == e
      && (req.response != null ==> req.response.cookies == old(req.response.cookies))
    ensures !(old(GetSessionKey(req, cfg)).Some? && old(GetSessionKey(req, cfg)).value in cache.entries) ==>
      fresh(session) && IsUnauthenticated(session)
    ensures old(GetSessionKey(req, cfg)).None? ==>
      && SessionIds.WellFormedSessionId(permId) && SessionIds.WellFormedSessionId(tempId)
      && SessionIds.DrawnSessionId(permId, e, permDraw) && SessionIds.DrawnSessionId(tempId, e, tempDraw) && permDraw < tempDraw
      && next.pos == e.pos + (tempDraw + 1) * SessionIds.SessionIdBytes
      && req.items == old(req.items)[PermanentSessionId := Text(permId)][SessionId := Text(tempId)]
      && (req.response != null ==>
            req.response.cookies == old(req.response.cookies)
              + [IdCookie(req, PermanentSessionId, permId, cfg)] + [IdCookie(req, SessionId, tempId, cfg)])
      && GetSessionId(req, cfg) == Some(if IsPermanentSession(req, cfg) then permId else tempId)
    ensures next.stream == e.stream
  {
    var sessionKey := GetSessionKey(req, cfg);
    next, permId, tempId, permDraw, tempDraw := e, "", "", 0, 0;
    if sessionKey.Some? {
      if sessionKey.value in cache.entries {
        return cache.entries[sessionKey.value], e, "", "", 0, 0;
      }
    }
    if sessionKey.None? {
      var active;
      active, next, permId, tempId, permDraw, tempDraw := CreateSessionIdsForRequest(req, cfg, e);
    }
    session := new AuthSession();
  }

  /** Removes the request's session from the cache; a request without a session id
      removes nothing. */
  method ClearSession(cache: CacheClient, req: Request, cfg: Config)
    modifies cache
    ensures GetSessionKey(req, cfg).Some? ==> cache.entries == old(cache.entries) - {GetSessionKey(req, cfg).value}
    ensures GetSessionKey(req, cfg).None? ==> cache.entries == old(cache.entries)
  {
    var sessionKey := GetSessionKey(req, cfg);
    if sessionKey.Some? {
      cache.entries := cache.entries - {sessionKey.value};
    }
  }

  // ---------------------------------------------------------------------------
  // Cookies

  /** Expires the temporary and permanent session-id cookies and the user-auth-id cookie. */
  method DeleteSessionCookies(res: HttpResponse?)
    modifies res
    ensures res != null ==>
      res.cookies == old(res.cookies) + [DeleteCookie(SessionId), DeleteCookie(PermanentSessionId), DeleteCookie(XUserAuthId)]
  {
    if res == null {
      return;
    }
    res.cookies := res.cookies + [DeleteCookie(SessionId)];
    res.cookies := res.cookies + [DeleteCookie(PermanentSessionId)];
    res.cookies := res.cookies + [DeleteCookie(XUserAuthId)];
  }

  /** Expires the JWT bearer and refresh-token cookies. */
  method DeleteJwtCookie(res: HttpResponse?)
    modifies res
    ensures res != null ==>
      res.cookies == old(res.cookies) + [DeleteCookie(TokenCookie), DeleteCookie(RefreshTokenCookie)]
  {
    if res != null {
      res.cookies := res.cookies + [DeleteCookie(TokenCookie)];
      res.cookies := res.cookies + [DeleteCookie(RefreshTokenCookie)];
    }
  }

  /** The option naming a lifetime. */
  function LifetimeOption(isPermanent: bool): string
  {
    if isPermanent then Permanent else Temporary
  }

  /** The request state `GenerateNewSessionCookies` leaves behind: with the re-asserted
      lifetime option stored next to both new ids, the request keeps its lifetime and its
      session id is the new id of that lifetime. */
  lemma RotatedSessionState(req: Request, cfg: Config, initial: set<string>, isPerm: bool,
                            order: seq<string>, tempId: string, permId: string)
    requires forall o :: o in initial ==> ',' !in o
    requires Enumerates(order, ApplySessionOptions(initial, [Some(LifetimeOption(isPerm))]))
    requires SessionOptionsKey in req.items && req.items[SessionOptionsKey] == Text(Text.Join(",", order))
    requires PermanentSessionId in req.items && req.items[PermanentSessionId] == Text(permId)
    requires SessionId in req.items && req.items[SessionId] == Text(tempId)
    ensures GetSessionOptions(req, cfg) == ApplySessionOptions(initial, [Some(LifetimeOption(isPerm))])
    ensures IsPermanentSession(req, cfg) == isPerm
    ensures GetSessionId(req, cfg) == Some(if isPerm then permId else tempId)
  {
    var options := [Some(LifetimeOption(isPerm))];
    var r := ApplySessionOptions(initial, options);
    LastLifetimeOptionWins(initial, options, 0);
    forall x | x in r ensures ',' !in x {
      AppliedOptionsFrom(initial, options, x);
    }
    OptionsRoundTrip(order, r);
  }

  /** The last steps of `GenerateNewSessionCookies`: re-asserts the request's lifetime
      option and makes `session` the request's session under the id of that lifetime. */
  method AssignRotatedSession(req: Request, session: AuthSession, tempId: string, permId: string, cfg: Config)
      returns (ghost order: seq<string>)
    requires PermanentSessionId in req.items && req.items[PermanentSessionId] == Text(permId)
    requires SessionId in req.items && req.items[SessionId] == Text(tempId)
    modifies req, req.response, session
    ensures GetSessionId(req, cfg) == session.id
    ensures IsPermanentSession(req, cfg) == old(IsPermanentSession(req, cfg))
    ensures Enumerates(order, ApplySessionOptions(old(GetSessionOptions(req, cfg)), [Some(LifetimeOption(old(IsPermanentSession(req, cfg))))]))
    ensures req.response != null ==>
      req.response.cookies == old(req.response.cookies) + [AddPermanentCookie(SessionOptionsKey, Text.Join(",", order), None)]
    ensures req.items == old(req.items)[SessionOptionsKey := Text(Text.Join(",", order))][SessionItemKey := SessionObject(session)]
    ensures session.id == Some(if IsPermanentSession(req, cfg) then permId else tempId)
    ensures session.roles == old(session.roles) && session.permissions == old(session.permissions)
    ensures session.userAuthId == old(session.userAuthId) && session.userAuthName == old(session.userAuthName)
    ensures session.userName == old(session.userName) && session.email == old(session.email)
  {
    var isPerm := IsPermanentSession(req, cfg);
    var lifetime := LifetimeOption(isPerm);
    ghost var initial := GetSessionOptions(req, cfg);
    ghost var result;
    result, order := AddSessionOptions(req, [Some(lifetime)], cfg);
    session.id := Some(if isPerm then permId else tempId);
    req.items := req.items[SessionItemKey := SessionObject(session)];
    RotatedSessionState(req, cfg, initial, isPerm, order, tempId, permId);
  }

  /** The new ids of a rotation, temporary first: two successive draws of the generator,
      each stored in the item cache and sent as a cookie on `res`. */
  method CreateRotatedSessionIds(res: HttpResponse, req: Request, cfg: Config, e: SessionIds.Entropy)
      returns (tempId: string, permId: string, next: SessionIds.Entropy, ghost tempDraw: nat, ghost permDraw: nat)
    requires SessionIds.Fair(e.stream)
    modifies req, res
    ensures SessionIds.WellFormedSessionId(tempId) && SessionIds.WellFormedSessionId(permId)
    ensures SessionIds.DrawnSessionId(tempId, e, tempDraw) && SessionIds.DrawnSessionId(permId, e, permDraw) && tempDraw < permDraw
    ensures next.stream == e.stream && next.pos == e.pos + (permDraw + 1) * SessionIds.SessionIdBytes
    ensures req.items == old(req.items)[SessionId := Text(tempId)][PermanentSessionId := Text(permId)]
    ensures res.cookies == old(res.cookies) + [IdCookie(req, SessionId, tempId, cfg)] + [IdCookie(req, PermanentSessionId, permId, cfg)]
    ensures GetSessionOptions(req, cfg) == old(GetSessionOptions(req, cfg))
  {
    var e1;
    ghost var r1, r2;
    tempId, e1, r1 := CreateTemporarySessionId(res, req, cfg, e);
    permId, next, r2 := CreatePermanentSessionId(res, req, cfg, e1);
    SessionIds.LaterDraw(e, e1, r1 + 1, r2);
    tempDraw, permDraw := r1, r1 + 1 + r2;
  }

  /** Rotates the session ids of an HTTP request: drops the old session from the cache,
      clears the response's cookies, sends new temporary and permanent ids and the
      re-asserted lifetime option, and makes `session` the request's session under the new
      id of its lifetime. Without an HTTP response nothing happens. */
  method GenerateNewSessionCookies(req: Request, session: AuthSession, cache: CacheClient, cfg: Config, e: SessionIds.Entropy)
      returns (next: SessionIds.Entropy, ghost tempId: string, ghost permId: string, ghost order: seq<string>,
               ghost tempDraw: nat, ghost permDraw: nat)
    requires SessionIds.Fair(e.stream)
    modifies req, req.response, session, cache
    ensures req.response == null ==>
      unchanged(req, session, cache) && next == e
    ensures req.response != null ==>
      && (old(GetSessionKey(req, cfg)).Some? ==> cache.entries == old(cache.entries) - {old(GetSessionKey(req, cfg)).value})
      && (old(GetSessionKey(req, cfg)).None? ==> cache.entries == old(cache.entries))
      && SessionIds.WellFormedSessionId(tempId) && SessionIds.WellFormedSessionId(permId)
      && SessionIds.DrawnSessionId(permId, e, permDraw) && SessionIds.DrawnSessionId(tempId, e, tempDraw) && tempDraw < permDraw
      && next.pos == e.pos + (permDraw + 1) * SessionIds.SessionIdBytes
      && IsPermanentSession(req, cfg) == old(IsPermanentSession(req, cfg))
      && Enumerates(order, ApplySessionOptions(old(GetSessionOptions(req, cfg)), [Some(LifetimeOption(old(IsPermanentSession(req, cfg))))]))
      && req.response.cookies ==
           [IdCookie(req, SessionId, tempId, cfg)] + [IdCookie(req, PermanentSessionId, permId, cfg)]
           + [AddPermanentCookie(SessionOptionsKey, Text.Join(",", order), None)]
      && req.items == old(req.items)[SessionId := Text(tempId)][PermanentSessionId := Text(permId)]
                        [SessionOptionsKey := Text(Text.Join(",", order))][SessionItemKey := SessionObject(session)]
      && session.id == Some(if IsPermanentSession(req, cfg) then permId else tempId)
      && GetSessionId(req, cfg) == session.id
      && session.roles == old(session.roles) && session.permissions == old(session.permissions)
      && session.userAuthId == old(session.userAuthId) && session.userAuthName == old(session.userAuthName)
      && session.userName == old(session.userName) && session.email == old(session.email)
    ensures next.stream == e.stream
  {
    var res := req.response;
    if res == null {
      return e, "", "", [], 0, 0;
    }
    var sessionKey := GetSessionKey(req, cfg);
    if sessionKey.Some? {
      cache.entries := cache.entries - {sessionKey.value};
    }
    res.cookies := [];
    var t, p;
    t, p, next, tempDraw, permDraw := CreateRotatedSessionIds(res, req, cfg, e);
    assert res.cookies == [IdCookie(req, SessionId, t, cfg)] + [IdCookie(req, PermanentSessionId, p, cfg)];
    tempId, permId := t, p;
    order := AssignRotatedSession(req, session, t, p, cfg);
  }
}
