/**
  The token check, the role guard and the restaurant guard (`app/middleware/auth_middleware.py`,
  `app/api/dashboard_orders.py`).
 */
module Access {
  import opened Text

  datatype Claims = Claims(tokenType: Option<string>, role: Option<string>, userType: Option<string>,
                           restaurantId: Option<int>)

  datatype HttpError = HttpError(code: nat, detail: string)

  datatype Checked = Allowed(claims: Claims) | Denied(error: HttpError)

  // ---------- The token ----------

  /** Of the audiences from the i-th on: the first accepted claims, or else the last refusal. */
  function FirstAccepted(audiences: seq<string>, validate: string -> Checked, i: nat,
                         lastError: Option<HttpError>): Checked
    requires i <= |audiences|
    decreases |audiences| - i
  {
    if i == |audiences| then Denied(if lastError.Some? then lastError.value else HttpError(401, "Invalid token"))
    else
      match validate(audiences[i])
      case Allowed(claims) => Allowed(claims)
      case Denied(error) => FirstAccepted(audiences, validate, i + 1, Some(error))
  }

  /** `_validate_access_token`; `validate` is the JWT library's verdict on the token for an audience. */
  method ValidateAccessToken(token: Option<string>, audiences: seq<string>, validate: string -> Checked)
    returns (result: Checked)
    ensures result == CheckToken(token, audiences, validate)
  {
    if token.None? || token.value == "" {
      return Denied(HttpError(401, "Not authenticated"));
    }
    var claims: Option<Claims> := None;
    var lastError: Option<HttpError> := None;
    var i := 0;
    while i < |audiences|
      invariant i <= |audiences|
      invariant claims.None?
      invariant FirstAccepted(audiences, validate, 0, None) == FirstAccepted(audiences, validate, i, lastError)
    {
      match validate(audiences[i]) {
        case Allowed(c) =>
          claims := Some(c);
          break;
        case Denied(error) =>
          lastError := Some(error);
      }
      i := i + 1;
    }
    if claims.None? {
      return Denied(if lastError.Some? then lastError.value else HttpError(401, "Invalid token"));
    }
    if claims.value.tokenType != Some("access") {
      return Denied(HttpError(401, "Access token required"));
    }
    return Allowed(claims.value);
  }

  function CheckToken(token: Option<string>, audiences: seq<string>, validate: string -> Checked): Checked {
    if token.None? || token.value == "" then Denied(HttpError(401, "Not authenticated"))
    else
      match FirstAccepted(audiences, validate, 0, None)
      case Denied(error) => Denied(error)
      case Allowed(claims) =>
        if claims.tokenType != Some("access") then Denied(HttpError(401, "Access token required")) else Allowed(claims)
  }

  /** The audience whose claims count. */
  predicate FirstAccepting(audiences: seq<string>, validate: string -> Checked, i: int) {
    0 <= i < |audiences| && validate(audiences[i]).Allowed? && forall j :: 0 <= j < i ==> validate(audiences[j]).Denied?
  }

  lemma {:induction false} FirstAcceptedIs(audiences: seq<string>, validate: string -> Checked, i: nat,
                                           lastError: Option<HttpError>)
    requires i <= |audiences| && forall j :: 0 <= j < i ==> validate(audiences[j]).Denied?
    ensures var r := FirstAccepted(audiences, validate, i, lastError);
            && (r.Allowed? ==> exists k :: FirstAccepting(audiences, validate, k) && r == validate(audiences[k]))
            && (r.Denied? ==> forall j :: 0 <= j < |audiences| ==> validate(audiences[j]).Denied?)
    decreases |audiences| - i
  {
    if i < |audiences| {
      if validate(audiences[i]).Denied? {
        FirstAcceptedIs(audiences, validate, i + 1, Some(validate(audiences[i]).error));
      } else {
        assert FirstAccepting(audiences, validate, i);
      }
    }
  }

  /**
    The check succeeds exactly when an audience accepts the token and the first accepted claims are an access token's.
   */
  lemma AllowedIff(token: Option<string>, audiences: seq<string>, validate: string -> Checked)
    ensures CheckToken(token, audiences, validate).Allowed?
       <==> && token.Some? && token.value != ""
            && exists i :: FirstAccepting(audiences, validate, i)
                           && validate(audiences[i]).claims.tokenType == Some("access")
    ensures forall i :: CheckToken(token, audiences, validate).Allowed? && FirstAccepting(audiences, validate, i) ==>
              CheckToken(token, audiences, validate) == validate(audiences[i])
  {
    FirstAcceptedIs(audiences, validate, 0, None);
    assert forall i, k :: FirstAccepting(audiences, validate, i) && FirstAccepting(audiences, validate, k) ==>
             !(i < k) && !(k < i);
  }

  /** When the claims do not depend on the audience, neither does the verdict on the order of the list. */
  lemma OrderOfAudiencesIrrelevant(token: Option<string>, a: seq<string>, b: seq<string>, validate: string -> Checked)
    requires forall x :: x in a <==> x in b
    requires forall x, y :: validate(x).Allowed? && validate(y).Allowed? ==> validate(x) == validate(y)
    ensures CheckToken(token, a, validate).Allowed? <==> CheckToken(token, b, validate).Allowed?
    ensures CheckToken(token, a, validate).Allowed? ==> CheckToken(token, a, validate) == CheckToken(token, b, validate)
  {
    FirstAcceptedIs(a, validate, 0, None);
    FirstAcceptedIs(b, validate, 0, None);
    forall x | x in a ensures x in b {}
    if i :| FirstAccepting(a, validate, i) {
      assert a[i] in b;
    }
    if i :| FirstAccepting(b, validate, i) {
      assert b[i] in a;
    }
  }

  /** Which error a refusal gives: none or no token, the last audience's, or that it is no access token. */
  lemma DeniedWith(token: Option<string>, audiences: seq<string>, validate: string -> Checked)
    ensures var result := CheckToken(token, audiences, validate);
            var none := forall i :: 0 <= i < |audiences| ==> validate(audiences[i]).Denied?;
            result.Denied? ==>
              result.error ==
                if token.None? || token.value == "" then HttpError(401, "Not authenticated")
                else if !none then HttpError(401, "Access token required")
                else if audiences == [] then HttpError(401, "Invalid token")
                else validate(audiences[|audiences| - 1]).error
  {
    FirstAcceptedIs(audiences, validate, 0, None);
    if forall i :: 0 <= i < |audiences| ==> validate(audiences[i]).Denied? {
      LastError(audiences, validate, 0, None);
    }
  }

  lemma {:induction false} LastError(audiences: seq<string>, validate: string -> Checked, i: nat,
                                     lastError: Option<HttpError>)
    requires i <= |audiences| && forall j :: i <= j < |audiences| ==> validate(audiences[j]).Denied?
    ensures i < |audiences| ==>
              FirstAccepted(audiences, validate, i, lastError) == validate(audiences[|audiences| - 1])
    decreases |audiences| - i
  {
    if i < |audiences| {
      LastError(audiences, validate, i + 1, Some(validate(audiences[i]).error));
    }
  }

  // ---------- The guards ----------

  function OrEmpty(s: Option<string>): string {
    if s.Some? then s.value else ""
  }

  predicate RoleMatch(role: string, type_: string, allowed: string) {
    var wanted := Lower(allowed);
    || role == wanted
    || (wanted == "admin" && type_ == "admin")
    || ((wanted == "client" || wanted == "restaurant") && type_ == "restaurant")
  }

  /** `_role_matches`. */
  method RoleMatches(userRole: Option<string>, userType: Option<string>, allowedRoles: seq<string>) returns (ok: bool)
    ensures ok <==> AnyRoleMatches(userRole, userType, allowedRoles)
  {
    var role, type_ := Lower(OrEmpty(userRole)), Lower(OrEmpty(userType));
    for i := 0 to |allowedRoles|
      invariant forall j :: 0 <= j < i ==> !RoleMatch(role, type_, allowedRoles[j])
    {
      var wanted := Lower(allowedRoles[i]);
      if role == wanted {
        return true;
      }
      if wanted == "admin" && type_ == "admin" {
        return true;
      }
      if wanted in {"client", "restaurant"} && type_ == "restaurant" {
        return true;
      }
    }
    return false;
  }

  predicate AnyRoleMatches(userRole: Option<string>, userType: Option<string>, allowedRoles: seq<string>) {
    var role, type_ := Lower(OrEmpty(userRole)), Lower(OrEmpty(userType));
    exists i :: 0 <= i < |allowedRoles| && RoleMatch(role, type_, allowedRoles[i])
  }

  /** The string comparison of `require_role`: the claim printed by `str` against the path as written. */
  predicate PathMatches(restaurantId: Option<int>, path: string) {
    path == "" || (if restaurantId.Some? then IntText(restaurantId.value) else "None") == path
  }

  /** `require_role(roles)` on a request whose path holds a restaurant id. */
  predicate RequireRole(claims: Claims, roles: seq<string>, path: string) {
    && (roles == [] || AnyRoleMatches(claims.role, claims.userType, roles))
    && (claims.userType == Some("restaurant") ==> PathMatches(claims.restaurantId, path))
  }

  /** `_check_restaurant_access`: the comparison of integers. */
  predicate RestaurantAccess(claims: Claims, restaurantId: int) {
    || claims.userType == Some("admin")
    || (claims.userType == Some("restaurant") && claims.restaurantId == Some(restaurantId))
  }

  // ---------- What a list of roles admits ----------

  /**
    The path clause: only users of type "restaurant" whose claim does not print as the id in the path are turned away.
   */
  lemma PathClause(claims: Claims, path: string)
    ensures RequireRole(claims, [], path) <==>
            (|| claims.userType != Some("restaurant") || path == ""
             || path == if claims.restaurantId.Some? then IntText(claims.restaurantId.value) else "None")
  {
  }

  /** A list admits whom one of its roles admits, and never more than the path clause lets through. */
  lemma ListAdmits(claims: Claims, roles: seq<string>, path: string)
    requires roles != []
    ensures RequireRole(claims, roles, path) <==>
            && RequireRole(claims, [], path)
            && exists i :: 0 <= i < |roles| && RequireRole(claims, [roles[i]], path)
  {
    hide RoleMatch, PathMatches, Lower;
    forall i | 0 <= i < |roles|
      ensures AnyRoleMatches(claims.role, claims.userType, [roles[i]]) <==>
              RoleMatch(Lower(OrEmpty(claims.role)), Lower(OrEmpty(claims.userType)), roles[i])
    {
      assert [roles[i]][0] == roles[i];
    }
    assert RequireRole(claims, [], path) <==>
           (claims.userType == Some("restaurant") ==> PathMatches(claims.restaurantId, path));
    if RequireRole(claims, roles, path) {
      var role, type_ := Lower(OrEmpty(claims.role)), Lower(OrEmpty(claims.userType));
      var i :| 0 <= i < |roles| && RoleMatch(role, type_, roles[i]);
      assert RequireRole(claims, [roles[i]], path);
    }
    if i :| 0 <= i < |roles| && RequireRole(claims, [roles[i]], path) {
      assert RoleMatch(Lower(OrEmpty(claims.role)), Lower(OrEmpty(claims.userType)), roles[i]);
    }
  }

  /** "admin", in any case, admits those whose role or type reads so. */
  lemma AdminAdmits(claims: Claims, allowed: string, path: string)
    requires Lower(allowed) == "admin"
    ensures RequireRole(claims, [allowed], path) <==>
            && RequireRole(claims, [], path)
            && (|| (claims.role.Some? && Lower(claims.role.value) == "admin")
                || (claims.userType.Some? && Lower(claims.userType.value) == "admin"))
  {
    OneRole(claims, allowed);
    assert Lower("") == "";
  }

  /** "client" and "restaurant" admit those whose role reads as this one, and every user of type "restaurant". */
  lemma ClientAdmits(claims: Claims, allowed: string, path: string)
    requires Lower(allowed) == "client" || Lower(allowed) == "restaurant"
    ensures RequireRole(claims, [allowed], path) <==>
            && RequireRole(claims, [], path)
            && (|| (claims.role.Some? && Lower(claims.role.value) == Lower(allowed))
                || (claims.userType.Some? && Lower(claims.userType.value) == "restaurant"))
  {
    OneRole(claims, allowed);
    assert Lower("") == "";
  }

  /** Any other list admits exactly those whose role, or lack of one, reads as one of the list. */
  lemma OtherRolesAdmit(claims: Claims, roles: seq<string>, path: string)
    requires roles != [] && forall r <- roles :: Lower(r) !in {"admin", "client", "restaurant"}
    ensures RequireRole(claims, roles, path) <==>
            && RequireRole(claims, [], path)
            && exists r <- roles :: Lower(r) == if claims.role.Some? then Lower(claims.role.value) else ""
  {
    ListAdmits(claims, roles, path);
    assert Lower("") == "";
    forall i | 0 <= i < |roles|
      ensures RequireRole(claims, [roles[i]], path) <==>
              && RequireRole(claims, [], path)
              && Lower(roles[i]) == if claims.role.Some? then Lower(claims.role.value) else ""
    {
      OneRole(claims, roles[i]);
      assert roles[i] in roles;
    }
    hide RequireRole;
  }

  lemma OneRole(claims: Claims, allowed: string)
    ensures AnyRoleMatches(claims.role, claims.userType, [allowed]) <==>
            RoleMatch(Lower(OrEmpty(claims.role)), Lower(OrEmpty(claims.userType)), allowed)
  {
    assert [allowed][0] == allowed;
  }

  /**
    The two comparisons agree on every claim exactly when the path writes the id canonically; `n` is the integer the
    framework reads the path as.
   */
  lemma ComparisonsAgreeIffCanonical(path: string, n: int)
    ensures (forall claim: Option<int> :: PathMatches(claim, path) <==> claim == Some(n)) <==> path == IntText(n)
  {
    if path == IntText(n) {
      forall claim: Option<int> ensures PathMatches(claim, path) <==> claim == Some(n) {
        if claim.Some? && IntText(claim.value) == path {
          IntTextInjective(claim.value, n);
        }
        assert path[0] == '-' || '0' <= path[0] <= '9';
        assert "None"[0] == 'N';
      }
    } else {
      assert PathMatches(Some(n), path) ==> path == "";
      assert path == "" ==> PathMatches(None, path);
    }
  }

  /** A path with a leading zero is read as an id whose owner the string comparison turns away. */
  lemma LeadingZeroDisagrees()
    ensures !PathMatches(Some(7), "07") && PathMatches(Some(7), "7")
  {
    assert Decimal(7) == ['7'];
  }

  /** On a canonical path the two guards together admit the admins and the users of that restaurant, and nobody else. */
  lemma GuardsAdmitExactly(claims: Claims, path: string, n: int)
    requires path == IntText(n)
    ensures RequireRole(claims, ["admin", "client"], path) && RestaurantAccess(claims, n)
       <==> (|| claims.userType == Some("admin")
             || (claims.userType == Some("restaurant") && claims.restaurantId == Some(n)))
  {
    ComparisonsAgreeIffCanonical(path, n);
    assert Lower("admin") == "admin" && Lower("client") == "client" && Lower("restaurant") == "restaurant";
    var role, type_ := Lower(OrEmpty(claims.role)), Lower(OrEmpty(claims.userType));
    assert claims.userType == Some("admin") ==> RoleMatch(role, type_, ["admin", "client"][0]);
    assert claims.userType == Some("restaurant") ==> RoleMatch(role, type_, ["admin", "client"][1]);
  }
}
