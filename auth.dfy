/**
 * Request credentials and access gates (middleware/auth.js): the cookie
 * header parser, where the token is taken from, the 401/403 gate, loading the
 * current user once per request, and the case-insensitive role check.
 *
 * decodeURIComponent, JWT verification and the user lookup are calls into
 * code outside the model; they are parameters here: `decode` and `verify`
 * give None where the library throws or reports an error, `find` is
 * `User.findByPk` with the role included.
 */
module Auth {
  import opened Wrappers
  import opened JsText
  import opened JsValue

  // ---------------------------------------------------------------------------
  // parseCookies

  /** One `;`-separated segment of a cookie header, cut at its first `=`. */
  datatype Segment = NoEquals | Pair(key: string, raw: string)

  /** The trimmed text before the first `=`, and the trimmed (still encoded) text after it. */
  function Cut(part: string): (s: Segment)
    ensures s.NoEquals? <==> '=' !in part
  {
    match IndexOf(part, '=')
    case None => NoEquals
    case Some(idx) => Pair(Trim(part[..idx]), Trim(part[idx + 1..]))
  }

  /** The segments of a header: split at every `;`, each cut at its first `=`. */
  function Segments(parts: seq<string>): (segs: seq<Segment>)
    ensures |segs| == |parts| && forall i :: 0 <= i < |parts| ==> segs[i] == Cut(parts[i])
  {
    seq(|parts|, i requires 0 <= i < |parts| => Cut(parts[i]))
  }

  /** The reducer: skip a segment without `=`, fail when decoding fails, else set the key. */
  function Step(acc: map<string, string>, seg: Segment, decode: string -> Option<string>): Option<map<string, string>> {
    match seg
    case NoEquals => Some(acc)
    case Pair(k, raw) =>
      match decode(raw)
      case None => None
      case Some(v) => Some(acc[k := v])
  }

  /** The reduction over the segments from left to right; None when a decode throws. */
  function Fold(segs: seq<Segment>, decode: string -> Option<string>): Option<map<string, string>>
    decreases |segs|
  {
    if segs == [] then Some(map[])
    else
      match Fold(segs[..|segs| - 1], decode)
      case None => None
      case Some(acc) => Step(acc, segs[|segs| - 1], decode)
  }

  /** `req.headers.cookie ? String(req.headers.cookie) : ''`. */
  function HeaderText(header: Option<string>): string {
    if header.Some? then header.value else ""
  }

  /** What the reduction leaves: the map, or the empty map when a decode threw. */
  function FoldOrEmpty(segs: seq<Segment>, decode: string -> Option<string>): map<string, string> {
    match Fold(segs, decode)
    case None => map[]
    case Some(m) => m
  }

  /** What parseCookies returns for a header text: the empty map when it is empty or a decode throws. */
  function Cookies(raw: string, decode: string -> Option<string>): map<string, string> {
    if raw == "" then map[] else FoldOrEmpty(Segments(Split(raw, ';')), decode)
  }

  /** parseCookies: the empty map for an empty header, else the reducer's loop. */
  method ParseCookies(header: Option<string>, decode: string -> Option<string>) returns (m: map<string, string>)
    ensures m == Cookies(HeaderText(header), decode)
  {
    var raw := HeaderText(header);
    if raw == "" {
      return map[];
    }
    m := ReduceSegments(Split(raw, ';'), decode);
  }

  /** The reduce over the `;`-separated parts: one map updated in place by the reducer. */
  method ReduceSegments(parts: seq<string>, decode: string -> Option<string>) returns (m: map<string, string>)
    ensures m == FoldOrEmpty(Segments(parts), decode)
  {
    var segs := Segments(parts);
    var acc: map<string, string> := map[];
    var i := 0;
    while i < |segs|
      invariant 0 <= i <= |segs|
      invariant Fold(segs[..i], decode) == Some(acc)
    {
      FoldNext(segs, decode, i, acc);
      var next := Step(acc, segs[i], decode);
      if next.None? {
        FailureEmpties(segs, decode, i);
        return map[];
      }
      acc := next.value;
      i := i + 1;
    }
    assert segs[..|segs|] == segs;
    m := acc;
  }

  /** One more segment is one more step of the reducer. */
  lemma FoldNext(segs: seq<Segment>, decode: string -> Option<string>, i: nat, acc: map<string, string>)
    requires i < |segs| && Fold(segs[..i], decode) == Some(acc)
    ensures Fold(segs[..i + 1], decode) == Step(acc, segs[i], decode)
  {
    assert segs[..i + 1][..i] == segs[..i];
  }

  /** A segment that fails to decode, anywhere in the header, makes the whole reduction fail. */
  lemma {:induction false} FailureEmpties(segs: seq<Segment>, decode: string -> Option<string>, j: nat)
    requires j < |segs| && segs[j].Pair? && decode(segs[j].raw).None?
    ensures Fold(segs, decode) == None
    decreases |segs|
  {
    var n := |segs| - 1;
    if j < n {
      assert segs[..n][j] == segs[j];
      FailureEmpties(segs[..n], decode, j);
    }
  }

  /** ... and so parseCookies answers with the empty map. */
  lemma DecodeFailureGivesNoCookies(raw: string, decode: string -> Option<string>, j: nat)
    requires j < |Split(raw, ';')|
    requires Cut(Split(raw, ';')[j]).Pair? && decode(Cut(Split(raw, ';')[j]).raw).None?
    ensures Cookies(raw, decode) == map[]
  {
    FailureEmpties(Segments(Split(raw, ';')), decode, j);
  }

  /** A segment without `=` changes nothing. */
  lemma NoEqualsSkipped(parts: seq<string>, part: string, decode: string -> Option<string>)
    requires '=' !in part
    ensures Fold(Segments(parts + [part]), decode) == Fold(Segments(parts), decode)
  {
    var segs := Segments(parts + [part]);
    assert segs[..|parts|] == Segments(parts);
  }

  /** The key ends at the first `=`: a value may itself contain `=`. */
  lemma CutAtFirstEquals(key: string, value: string)
    requires '=' !in key
    ensures Cut(key + "=" + value) == Pair(Trim(key), Trim(value))
  {
    var part := key + "=" + value;
    assert part[|key|] == '=';
    assert part[..|key|] == key;
    assert part[|key| + 1..] == value;
    var idx := IndexOf(part, '=');
    assert idx == Some(|key|) by {
      if idx.Some? && idx.value < |key| {
        assert false;
      }
    }
  }

  /**
   * A later occurrence of a key overwrites an earlier one: when segment j is
   * the last one with key k, k maps to segment j's decoded value.
   */
  lemma {:induction false} LastPairWins(segs: seq<Segment>, decode: string -> Option<string>, j: nat)
    requires Fold(segs, decode).Some?
    requires j < |segs| && segs[j].Pair?
    requires forall i :: j < i < |segs| ==> !(segs[i].Pair? && segs[i].key == segs[j].key)
    ensures segs[j].key in Fold(segs, decode).value
    ensures decode(segs[j].raw) == Some(Fold(segs, decode).value[segs[j].key])
    decreases |segs|
  {
    var n := |segs| - 1;
    var k := segs[j].key;
    var prev := Fold(segs[..n], decode);
    assert prev.Some?;
    if j < n {
      assert segs[..n][j] == segs[j];
      forall i | j < i < n ensures !(segs[..n][i].Pair? && segs[..n][i].key == k) {
        assert segs[..n][i] == segs[i];
      }
      LastPairWins(segs[..n], decode, j);
    }
  }

  /** Every key of the result is the trimmed key of some segment. */
  lemma {:induction false} KeysComeFromPairs(segs: seq<Segment>, decode: string -> Option<string>, k: string)
    requires Fold(segs, decode).Some? && k in Fold(segs, decode).value
    ensures exists j :: 0 <= j < |segs| && segs[j].Pair? && segs[j].key == k
    decreases |segs|
  {
    var n := |segs| - 1;
    var prev := Fold(segs[..n], decode).value;
    if k in prev {
      KeysComeFromPairs(segs[..n], decode, k);
      var j :| 0 <= j < n && segs[..n][j].Pair? && segs[..n][j].key == k;
      assert segs[..n][j] == segs[j];
    } else {
      assert segs[n].Pair? && segs[n].key == k;
    }
  }

  // ---------------------------------------------------------------------------
  // getTokenFromRequest and authenticateToken

  const BearerPrefix := "Bearer "

  /**
   * getTokenFromRequest: an Authorization header that starts with "Bearer "
   * gives the rest of it (possibly empty); otherwise a non-empty `token`
   * cookie; otherwise a truthy `token` query parameter, as text; otherwise null.
   */
  function TokenFromRequest(authorization: Option<string>, cookieHeader: Option<string>, query: Value,
                            decode: string -> Option<string>): (t: Option<string>)
    ensures authorization.Some? && StartsWith(authorization.value, BearerPrefix) ==>
      t == Some(authorization.value[|BearerPrefix|..])
    ensures !(authorization.Some? && StartsWith(authorization.value, BearerPrefix)) ==>
      var cookies := Cookies(HeaderText(cookieHeader), decode);
      if "token" in cookies && cookies["token"] != "" then t == Some(cookies["token"])
      else if Truthy(Prop(query, "token")) then t == Some(ToText(Prop(query, "token")))
      else t == None
  {
    if authorization.Some? && StartsWith(authorization.value, BearerPrefix) then
      Some(authorization.value[|BearerPrefix|..])
    else
      var cookies := Cookies(HeaderText(cookieHeader), decode);
      if "token" in cookies && cookies["token"] != "" then Some(cookies["token"])
      else if Truthy(Prop(query, "token")) then Some(ToText(Prop(query, "token")))
      else None
  }

  /** What a gate decides: let the request through with the verified claims, or answer with an error. */
  datatype Gate = Pass(claims: Value) | Deny(error: HttpError)

  const MissingToken := HttpError(401, "Missing token")
  const InvalidToken := HttpError(403, "Invalid token")

  /** authenticateToken: 401 without a (non-empty) token, 403 when verification fails, else pass. */
  function Authenticate(token: Option<string>, verify: string -> Option<Value>): (g: Gate)
    ensures g.Deny? <==> token.None? || token.value == "" || verify(token.value).None?
    ensures g.Deny? && (token.None? || token.value == "") ==> g.error.status == 401
    ensures g.Deny? && token.Some? && token.value != "" ==> g.error.status == 403
    ensures g.Pass? ==> token.Some? && verify(token.value) == Some(g.claims)
  {
    if token.None? || token.value == "" then Deny(MissingToken)
    else
      match verify(token.value)
      case None => Deny(InvalidToken)
      case Some(claims) => Pass(claims)
  }

  /** A Bearer header decides alone: the cookie and query are not consulted, even when the header's token is empty. */
  lemma BearerHeaderDecides(rest: string, cookieHeader: Option<string>, query: Value,
                            decode: string -> Option<string>, verify: string -> Option<Value>)
    ensures TokenFromRequest(Some(BearerPrefix + rest), cookieHeader, query, decode) == Some(rest)
    ensures rest == "" ==>
      Authenticate(TokenFromRequest(Some(BearerPrefix + rest), cookieHeader, query, decode), verify) == Deny(MissingToken)
  {
    var h := BearerPrefix + rest;
    assert h[..|BearerPrefix|] == BearerPrefix;
    assert h[|BearerPrefix|..] == rest;
  }

  /** Without a usable header, a non-empty token cookie wins over the query string. */
  lemma CookieBeforeQuery(cookieHeader: Option<string>, query: Value, decode: string -> Option<string>)
    requires var c := Cookies(HeaderText(cookieHeader), decode); "token" in c && c["token"] != ""
    ensures TokenFromRequest(None, cookieHeader, query, decode) == Some(Cookies(HeaderText(cookieHeader), decode)["token"])
  {
  }

  /** loadUserFromToken: the claims of a valid token, when truthy, become `req.user`; nothing else ever fails. */
  function UserFromToken(token: Option<string>, verify: string -> Option<Value>, user: Value): (u: Value)
    ensures (token.None? || token.value == "") ==> u == user
    ensures token.Some? && token.value != "" && verify(token.value).Some? && Truthy(verify(token.value).value) ==>
      u == verify(token.value).value
    ensures u != user ==> Authenticate(token, verify) == Pass(u) && Truthy(u)
  {
    if token.None? || token.value == "" then user
    else
      match verify(token.value)
      case Some(claims) => if Truthy(claims) then claims else user
      case None => user
  }

  // ---------------------------------------------------------------------------
  // loadCurrentUser

  /** A user row with its role's name (`user.Role ? user.Role.name : null`). */
  datatype UserRecord = UserRecord(id: int, roleName: Option<string>)

  /** The request fields the middleware reads and writes. */
  datatype Session = Session(user: Value, currentUser: Option<UserRecord>, currentUserRole: Option<string>)

  /**
   * loadCurrentUser: skipped without a user id, skipped when the loaded user
   * already has that id, else the user found by id (if any) and its role's
   * name are stored. `req.user` is never changed.
   */
  function LoadCurrent(s: Session, find: Value -> Option<UserRecord>): (t: Session)
    ensures t.user == s.user
    ensures !Truthy(s.user) || !Truthy(Prop(s.user, "id")) ==> t == s
    ensures s.currentUser.Some? && Prop(s.user, "id") == Num(s.currentUser.value.id) ==> t == s
    ensures t != s ==>
      Truthy(Prop(s.user, "id")) && find(Prop(s.user, "id")).Some?
      && t.currentUser == find(Prop(s.user, "id"))
      && t.currentUserRole == find(Prop(s.user, "id")).value.roleName
    ensures (Truthy(s.user) && Truthy(Prop(s.user, "id"))
             && !(s.currentUser.Some? && Prop(s.user, "id") == Num(s.currentUser.value.id))
             && find(Prop(s.user, "id")).Some?) ==>
      t == Session(s.user, find(Prop(s.user, "id")), find(Prop(s.user, "id")).value.roleName)
  {
    if !Truthy(s.user) || !Truthy(Prop(s.user, "id")) then s
    else if s.currentUser.Some? && Prop(s.user, "id") == Num(s.currentUser.value.id) then s
    else
      match find(Prop(s.user, "id"))
      case None => s
      case Some(u) => Session(s.user, Some(u), u.roleName)
  }

  /**
   * Loading twice is loading once: a second load either skips or finds the
   * same user again, whatever id type the lookup accepts.
   */
  lemma LoadCurrentIdempotent(s: Session, find: Value -> Option<UserRecord>)
    ensures LoadCurrent(LoadCurrent(s, find), find) == LoadCurrent(s, find)
  {
    var t := LoadCurrent(s, find);
    assert t.user == s.user;
  }

  // ---------------------------------------------------------------------------
  // The role check of requireRoleApi and requireRolePage

  /** `Array.isArray(allowed) ? allowed : [allowed]`. */
  function RoleList(allowed: Value): (roles: seq<Value>)
    ensures allowed.Arr? ==> roles == allowed.items
    ensures !allowed.Arr? ==> roles == [allowed]
  {
    if allowed.Arr? then allowed.items else [allowed]
  }

  /** `roles.map(x => String(x).toLowerCase())`. */
  function LoweredRoles(allowed: Value): (names: seq<string>)
    ensures |names| == |RoleList(allowed)|
    ensures forall i :: 0 <= i < |names| ==> names[i] == Lower(ToText(RoleList(allowed)[i]))
  {
    var roles := RoleList(allowed);
    seq(|roles|, i requires 0 <= i < |roles| => Lower(ToText(roles[i])))
  }

  /** `(req.currentUserRole || '').toLowerCase()`. */
  function RoleText(role: Option<string>): string {
    Lower(if role.Some? then role.value else "")
  }

  /** The role test: a non-empty current role, in the allowed list, ignoring ASCII case. */
  predicate RoleAllowed(role: Option<string>, allowed: Value) {
    RoleText(role) != "" && RoleText(role) in LoweredRoles(allowed)
  }

  /** Access is granted exactly when the role is non-empty and some allowed entry equals it up to case. */
  lemma RoleAllowedIff(role: Option<string>, allowed: Value)
    ensures RoleAllowed(role, allowed) <==>
      role.Some? && role.value != ""
      && exists i :: 0 <= i < |RoleList(allowed)| && Lower(ToText(RoleList(allowed)[i])) == Lower(role.value)
  {
    var names := LoweredRoles(allowed);
    if RoleAllowed(role, allowed) {
      var i :| 0 <= i < |names| && names[i] == RoleText(role);
      assert Lower(ToText(RoleList(allowed)[i])) == Lower(role.value);
    }
    if role.Some? && role.value != ""
      && exists i :: 0 <= i < |RoleList(allowed)| && Lower(ToText(RoleList(allowed)[i])) == Lower(role.value) {
      var i :| 0 <= i < |RoleList(allowed)| && Lower(ToText(RoleList(allowed)[i])) == Lower(role.value);
      assert names[i] == RoleText(role);
    }
  }

  /** A missing or empty role is always refused. */
  lemma NoRoleRefused(allowed: Value)
    ensures !RoleAllowed(None, allowed) && !RoleAllowed(Some(""), allowed)
  {
  }

  /** The current role's case does not matter. */
  lemma RoleCaseIgnored(s: string, allowed: Value)
    ensures RoleAllowed(Some(s), allowed) == RoleAllowed(Some(Lower(s)), allowed)
  {
    LowerIdempotent(s);
  }

  /** Nor does the case of the allowed names. */
  lemma AllowedCaseIgnored(role: Option<string>, names: seq<string>)
    ensures var raw := Arr(seq(|names|, i requires 0 <= i < |names| => Str(names[i])));
      var low := Arr(seq(|names|, i requires 0 <= i < |names| => Str(Lower(names[i]))));
      RoleAllowed(role, raw) == RoleAllowed(role, low)
  {
    var raw := Arr(seq(|names|, i requires 0 <= i < |names| => Str(names[i])));
    var low := Arr(seq(|names|, i requires 0 <= i < |names| => Str(Lower(names[i]))));
    forall i | 0 <= i < |names| ensures LoweredRoles(raw)[i] == LoweredRoles(low)[i] {
      LowerIdempotent(names[i]);
    }
    assert LoweredRoles(raw) == LoweredRoles(low);
  }

  /** A single allowed role means the one-element list of it. */
  lemma SingleRoleIsList(role: Option<string>, allowed: Value)
    requires !allowed.Arr?
    ensures RoleAllowed(role, allowed) == RoleAllowed(role, Arr([allowed]))
  {
    assert LoweredRoles(allowed) == LoweredRoles(Arr([allowed]));
  }

  /** What requireRolePage does: redirect to the login page, refuse, or continue. */
  datatype PageGate = Redirect(location: string) | PageForbidden | PageNext

  /** `loginPath || '/'`. */
  function LoginLocation(loginPath: Option<string>): (l: string)
    ensures l != ""
    ensures loginPath.Some? && loginPath.value != "" ==> l == loginPath.value
  {
    if loginPath.Some? && loginPath.value != "" then loginPath.value else "/"
  }

  /**
   * requireRolePage on a request's session: the outcome and the session after
   * it. A request without a user id is redirected before any lookup.
   */
  function RolePage(s: Session, allowed: Value, loginPath: Option<string>, find: Value -> Option<UserRecord>): (r: (PageGate, Session))
    ensures !Truthy(s.user) || !Truthy(Prop(s.user, "id")) ==> r == (Redirect(LoginLocation(loginPath)), s)
    ensures Truthy(s.user) && Truthy(Prop(s.user, "id")) ==>
      r.1 == LoadCurrent(s, find)
      && (r.0 == PageNext <==> RoleAllowed(r.1.currentUserRole, allowed))
      && (r.0 != PageNext ==> r.0 == PageForbidden)
  {
    if !Truthy(s.user) || !Truthy(Prop(s.user, "id")) then (Redirect(LoginLocation(loginPath)), s)
    else
      var t := LoadCurrent(s, find);
      if RoleAllowed(t.currentUserRole, allowed) then (PageNext, t) else (PageForbidden, t)
  }

  const Forbidden := HttpError(403, "forbidden")

  /** requireRoleApi on a request's session: authenticate, load the user, check the role. */
  function RoleApi(s: Session, token: Option<string>, allowed: Value,
                   verify: string -> Option<Value>, find: Value -> Option<UserRecord>): (r: (Gate, Session))
    ensures Authenticate(token, verify).Deny? ==> r == (Authenticate(token, verify), s)
    ensures Authenticate(token, verify).Pass? ==>
      var t := LoadCurrent(Session(Authenticate(token, verify).claims, s.currentUser, s.currentUserRole), find);
      r.1 == t && (r.0.Pass? <==> RoleAllowed(t.currentUserRole, allowed))
      && (r.0.Deny? ==> r.0.error == Forbidden)
  {
    match Authenticate(token, verify)
    case Deny(e) => (Deny(e), s)
    case Pass(claims) =>
      var t := LoadCurrent(Session(claims, s.currentUser, s.currentUserRole), find);
      if RoleAllowed(t.currentUserRole, allowed) then (Pass(claims), t) else (Deny(Forbidden), t)
  }

  /** No request reaches a role-gated API route without a valid token and an allowed role. */
  lemma RoleApiPassNeedsTokenAndRole(s: Session, token: Option<string>, allowed: Value,
                                     verify: string -> Option<Value>, find: Value -> Option<UserRecord>)
    requires RoleApi(s, token, allowed, verify, find).0.Pass?
    ensures token.Some? && token.value != "" && verify(token.value).Some?
    ensures RoleAllowed(RoleApi(s, token, allowed, verify, find).1.currentUserRole, allowed)
  {
  }

  // ---------------------------------------------------------------------------
  // The request object

  /** The parts of an Express request the middleware reads, and the fields it sets on it. */
  class Request {
    var authorization: Option<string>
    var cookieHeader: Option<string>
    var query: Value
    var user: Value
    var currentUser: Option<UserRecord>
    var currentUserRole: Option<string>

    function State(): Session
      reads this
    {
      Session(user, currentUser, currentUserRole)
    }

    constructor (authorization: Option<string>, cookieHeader: Option<string>, query: Value)
      ensures this.authorization == authorization && this.cookieHeader == cookieHeader && this.query == query
      ensures State() == Session(Null, None, None)
    {
      this.authorization := authorization;
      this.cookieHeader := cookieHeader;
      this.query := query;
      user := Null;
      currentUser := None;
      currentUserRole := None;
    }

    /** getTokenFromRequest, parsing the cookie header with the loop. */
    method Token(decode: string -> Option<string>) returns (t: Option<string>)
      ensures t == TokenFromRequest(authorization, cookieHeader, query, decode)
    {
      var h := authorization;
      if h.Some? && StartsWith(h.value, BearerPrefix) {
        return Some(h.value[|BearerPrefix|..]);
      }
      var cookies := ParseCookies(cookieHeader, decode);
      if "token" in cookies && cookies["token"] != "" {
        return Some(cookies["token"]);
      }
      var q := Prop(query, "token");
      if Truthy(q) {
        return Some(ToText(q));
      }
      return None;
    }

    /** authenticateToken: on a pass, `req.user` becomes the verified claims. */
    method AuthenticateToken(decode: string -> Option<string>, verify: string -> Option<Value>) returns (g: Gate)
      modifies this`user
      ensures g == Authenticate(TokenFromRequest(authorization, cookieHeader, query, decode), verify)
      ensures user == (if g.Pass? then g.claims else old(user))
    {
      var token := Token(decode);
      g := Authenticate(token, verify);
      if g.Pass? {
        user := g.claims;
      }
    }

    /** loadUserFromToken: never refuses; sets `req.user` from a valid token. */
    method LoadUserFromToken(decode: string -> Option<string>, verify: string -> Option<Value>)
      modifies this`user
      ensures user == UserFromToken(TokenFromRequest(authorization, cookieHeader, query, decode), verify, old(user))
    {
      var token := Token(decode);
      user := UserFromToken(token, verify, user);
    }

    /** loadCurrentUser, with its skip rules. */
    method LoadCurrentUser(find: Value -> Option<UserRecord>)
      modifies this`currentUser, this`currentUserRole
      ensures State() == LoadCurrent(old(State()), find)
    {
      var id := Prop(user, "id");
      if !Truthy(user) || !Truthy(id) {
        return;
      }
      if currentUser.Some? && id == Num(currentUser.value.id) {
        return;
      }
      var found := find(id);
      if found.Some? {
        currentUser := found;
        currentUserRole := found.value.roleName;
      }
    }

    /** requireRoleApi: authenticate, load the current user, then check the role. */
    method RequireRoleApi(allowed: Value, decode: string -> Option<string>, verify: string -> Option<Value>,
                          find: Value -> Option<UserRecord>) returns (g: Gate)
      modifies this`user, this`currentUser, this`currentUserRole
      ensures (g, State()) == RoleApi(old(State()), TokenFromRequest(authorization, cookieHeader, query, decode), allowed, verify, find)
    {
      g := AuthenticateToken(decode, verify);
      if g.Deny? {
        return;
      }
      LoadCurrentUser(find);
      if !RoleAllowed(currentUserRole, allowed) {
        g := Deny(Forbidden);
      }
    }

    /** requireRolePage: redirect without a user id, then load the current user and check the role. */
    method RequireRolePage(allowed: Value, loginPath: Option<string>, find: Value -> Option<UserRecord>) returns (o: PageGate)
      modifies this`currentUser, this`currentUserRole
      ensures (o, State()) == RolePage(old(State()), allowed, loginPath, find)
    {
      if !Truthy(user) || !Truthy(Prop(user, "id")) {
        return Redirect(LoginLocation(loginPath));
      }
      LoadCurrentUser(find);
      o := if RoleAllowed(currentUserRole, allowed) then PageNext else PageForbidden;
    }
  }
}
