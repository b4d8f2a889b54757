/** app/middleware/manager-only.ts: role claims read from the session token, and the
  * route guard that sends employee-only users away from manager pages. */
module ManagerOnly {
  import opened Wrappers
  import opened Strings
  import opened Json
  import opened Jwt
  import Auth

  const RoleClaimUri := "http://schemas.microsoft.com/ws/2008/06/identity/claims/role"
  const EmployeeRole := "employee"
  const EmployeeHome := "/timesheets"

  /** `value.filter(entry => typeof entry === "string")`: the string items, in order. */
  function StringItems(items: seq<Value>): (r: seq<string>)
    ensures |r| <= |items|
    ensures forall s :: s in r <==> Str(s) in items
    decreases |items|
  {
    if items == [] then []
    else (if items[0].Str? then [items[0].s] else []) + StringItems(items[1..])
  }

  /** Filtering the string items distributes over concatenation, so their order is kept. */
  lemma {:induction false} StringItemsAppend(a: seq<Value>, b: seq<Value>)
    ensures StringItems(a + b) == StringItems(a) + StringItems(b)
    decreases |a|
  {
    if a == [] {
      assert a + b == b;
    } else {
      assert (a + b)[0] == a[0];
      assert (a + b)[1..] == a[1..] + b;
      StringItemsAppend(a[1..], b);
    }
  }

  predicate IsTrimmed(s: string)
  {
    s != [] ==> !IsJsSpace(s[0]) && !IsJsSpace(s[|s| - 1])
  }

  /** Trimming never introduces a character that was not there. */
  lemma TrimKeeps(s: string, c: char)
    requires c !in s
    ensures c !in Trim(s)
  {
    var r := Trim(s);
    var lead := LeadingSpace(s);
    forall k | 0 <= k < |r| ensures r[k] != c {
      assert r[k] == s[lead + k];
    }
  }

  /** `.map(entry => entry.trim())`. */
  function Trims(parts: seq<string>): (r: seq<string>)
    ensures |r| == |parts|
    ensures forall i :: 0 <= i < |parts| ==> r[i] == Trim(parts[i])
  {
    seq(|parts|, i requires 0 <= i < |parts| => Trim(parts[i]))
  }

  /** `.filter(Boolean)` on strings: the non-empty ones, in order. */
  function NonEmpty(xs: seq<string>): (r: seq<string>)
    ensures |r| <= |xs|
    decreases |xs|
  {
    if xs == [] then []
    else (if xs[0] != "" then [xs[0]] else []) + NonEmpty(xs[1..])
  }

  /** A string is kept exactly when it is non-empty and among the inputs. */
  lemma {:induction false} NonEmptyMembers(xs: seq<string>)
    ensures forall t :: t in NonEmpty(xs) <==> t != "" && t in xs
    decreases |xs|
  {
    if xs != [] {
      NonEmptyMembers(xs[1..]);
      assert xs == [xs[0]] + xs[1..];
    }
  }

  /** Filtering distributes over concatenation, so the kept strings keep their order. */
  lemma {:induction false} NonEmptyAppend(a: seq<string>, b: seq<string>)
    ensures NonEmpty(a + b) == NonEmpty(a) + NonEmpty(b)
    decreases |a|
  {
    if a == [] {
      assert a + b == b;
    } else {
      assert (a + b)[0] == a[0];
      assert (a + b)[1..] == a[1..] + b;
      NonEmptyAppend(a[1..], b);
    }
  }

  /** `.map(entry => entry.trim()).filter(Boolean)`: no more roles than pieces. Which roles
    * are kept is stated by TrimmedNonEmptyMembers, and their order by TrimmedNonEmptyAppend. */
  function TrimmedNonEmpty(parts: seq<string>): (r: seq<string>)
    ensures |r| <= |parts|
  {
    NonEmpty(Trims(parts))
  }

  /** A role is kept exactly when it is the non-empty trim of some piece. */
  lemma TrimmedNonEmptyMembers(parts: seq<string>)
    ensures forall t :: t in TrimmedNonEmpty(parts) <==> t != "" && t in Trims(parts)
  {
    NonEmptyMembers(Trims(parts));
  }

  /** The kept roles are non-empty and trimmed. */
  lemma TrimmedNonEmptyTrimmed(parts: seq<string>)
    ensures forall i :: 0 <= i < |TrimmedNonEmpty(parts)| ==>
      TrimmedNonEmpty(parts)[i] != "" && IsTrimmed(TrimmedNonEmpty(parts)[i])
  {
    var r := TrimmedNonEmpty(parts);
    NonEmptyMembers(Trims(parts));
    forall i | 0 <= i < |r|
      ensures r[i] != "" && IsTrimmed(r[i])
    {
      assert r[i] in r;
      var j :| 0 <= j < |parts| && Trims(parts)[j] == r[i];
    }
  }

  /** Pieces without a comma give roles without a comma. */
  lemma TrimmedNonEmptyCommaFree(parts: seq<string>)
    requires forall i :: 0 <= i < |parts| ==> ',' !in parts[i]
    ensures forall i :: 0 <= i < |TrimmedNonEmpty(parts)| ==> ',' !in TrimmedNonEmpty(parts)[i]
  {
    var r := TrimmedNonEmpty(parts);
    NonEmptyMembers(Trims(parts));
    forall i | 0 <= i < |r|
      ensures ',' !in r[i]
    {
      assert r[i] in r;
      var j :| 0 <= j < |parts| && Trims(parts)[j] == r[i];
      TrimKeeps(parts[j], ',');
    }
  }

  /** Trimming piece by piece distributes over concatenation. */
  lemma TrimsAppend(a: seq<string>, b: seq<string>)
    ensures Trims(a + b) == Trims(a) + Trims(b)
  {
    forall i | 0 <= i < |a + b|
      ensures Trims(a + b)[i] == (Trims(a) + Trims(b))[i]
    {
      if i < |a| {
        assert (a + b)[i] == a[i];
      } else {
        assert (a + b)[i] == b[i - |a|];
      }
    }
  }

  /** The kept roles appear in the order of their pieces. */
  lemma TrimmedNonEmptyAppend(a: seq<string>, b: seq<string>)
    ensures TrimmedNonEmpty(a + b) == TrimmedNonEmpty(a) + TrimmedNonEmpty(b)
  {
    TrimsAppend(a, b);
    NonEmptyAppend(Trims(a), Trims(b));
  }

  /** `value.split(",").map(entry => entry.trim()).filter(Boolean)`: a role is kept exactly
    * when it is the non-empty trim of a comma-separated piece. */
  function SplitRoleList(s: string): (r: seq<string>)
    ensures forall i :: 0 <= i < |r| ==> r[i] != "" && ',' !in r[i] && IsTrimmed(r[i])
    ensures |r| <= |Split(s, ',')|
    ensures forall t :: t in r <==> t != "" && t in Trims(Split(s, ','))
  {
    TrimmedNonEmptyTrimmed(Split(s, ','));
    TrimmedNonEmptyMembers(Split(s, ','));
    TrimmedNonEmptyCommaFree(Split(s, ','));
    TrimmedNonEmpty(Split(s, ','))
  }

  /** A piece without a comma contributes its trimmed text, unless that is empty. */
  lemma SplitRoleListPiece(s: string)
    requires ',' !in s
    ensures SplitRoleList(s) == if Trim(s) == "" then [] else [Trim(s)]
  {
    SplitWithout(s, ',');
    assert Split(s, ',')[1..] == [];
  }

  /** The roles of `a,b` are the roles of `a` followed by the roles of `b`; with
    * SplitRoleListPiece this determines the roles of every string claim. */
  lemma SplitRoleListAppend(a: string, b: string)
    ensures SplitRoleList(a + "," + b) == SplitRoleList(a) + SplitRoleList(b)
  {
    assert a + "," + b == a + [','] + b;
    SplitConcat(a, ',', b);
    TrimmedNonEmptyAppend(Split(a, ','), Split(b, ','));
  }

  /** `normalizeRoles(value)`: a falsy value or one that is neither array nor string gives
    * nothing; an array gives its string items unchanged (not split, not trimmed); a string
    * gives its comma-separated parts, trimmed, without the empty ones. */
  function NormalizeRoles(value: Option<Value>): (r: seq<string>)
    ensures !Present(value) ==> r == []
    ensures value.Some? && !value.value.Arr? && !value.value.Str? ==> r == []
    ensures value.Some? && value.value.Arr? ==> r == StringItems(value.value.items)
    ensures value.Some? && value.value.Str? ==> r == SplitRoleList(value.value.s)
  {
    if !Present(value) then []
    else
      match value.value
      case Arr(items) => StringItems(items)
      case Str(s) => SplitRoleList(s)
      case _ => []
  }

  predicate IsLowerCase(s: string)
  {
    forall k :: 0 <= k < |s| ==> !IsUpper(s[k])
  }

  /** `.map(role => role.toLowerCase()).filter(Boolean)`: the kept roles are exactly the
    * lower-cased non-empty inputs. */
  function LowerNonEmpty(raw: seq<string>): (r: seq<string>)
    ensures |r| <= |raw|
    ensures forall i :: 0 <= i < |r| ==> r[i] != "" && IsLowerCase(r[i])
    ensures forall t :: t in r <==> exists x :: x in raw && x != "" && ToLower(x) == t
    decreases |raw|
  {
    if raw == [] then []
    else
      var rest := LowerNonEmpty(raw[1..]);
      assert forall x :: x in raw <==> x == raw[0] || x in raw[1..];
      (if raw[0] != "" then [ToLower(raw[0])] else []) + rest
  }

  lemma {:induction false} LowerNonEmptyAppend(a: seq<string>, b: seq<string>)
    ensures LowerNonEmpty(a + b) == LowerNonEmpty(a) + LowerNonEmpty(b)
    decreases |a|
  {
    if a == [] {
      assert a + b == b;
    } else {
      assert (a + b)[0] == a[0];
      assert (a + b)[1..] == a[1..] + b;
      LowerNonEmptyAppend(a[1..], b);
    }
  }

  /** The roles one claim contributes. */
  function ClaimRoles(payload: Value, key: string): seq<string>
  {
    LowerNonEmpty(NormalizeRoles(Get(payload, key)))
  }

  /** The roles of a decoded payload: nothing for a payload that is not an object. The
    * roles of an object, claim by claim, are stated by RolesInClaimOrder. */
  function RolesFromPayload(payload: Value): (r: seq<string>)
    ensures !IsObject(payload) ==> r == []
    ensures forall i :: 0 <= i < |r| ==> r[i] != "" && IsLowerCase(r[i])
  {
    if !IsObject(payload) then []
    else
      LowerNonEmpty(
        NormalizeRoles(Get(payload, RoleClaimUri)) +
        NormalizeRoles(Get(payload, "role")) +
        NormalizeRoles(Get(payload, "roles")))
  }

  /** Roles come from the URI claim first, then `role`, then `roles`, each in its own order. */
  lemma RolesInClaimOrder(payload: Value)
    requires IsObject(payload)
    ensures RolesFromPayload(payload) ==
      ClaimRoles(payload, RoleClaimUri) + ClaimRoles(payload, "role") + ClaimRoles(payload, "roles")
  {
    var a := NormalizeRoles(Get(payload, RoleClaimUri));
    var b := NormalizeRoles(Get(payload, "role"));
    var c := NormalizeRoles(Get(payload, "roles"));
    LowerNonEmptyAppend(a + b, c);
    LowerNonEmptyAppend(a, b);
  }

  /** `getRolesFromToken(token)`: no roles for a missing or empty token or a payload that
    * does not decode; otherwise every role is non-empty and lower-case. */
  function GetRolesFromToken(token: Option<string>, host: Host): (r: seq<string>)
    ensures token.None? || token.value == "" ==> r == []
    ensures token.Some? && DecodePayload(token.value, host).None? ==> r == []
    ensures token.Some? && token.value != "" && DecodePayload(token.value, host).Some? ==>
      r == RolesFromPayload(DecodePayload(token.value, host).value)
    ensures forall i :: 0 <= i < |r| ==> r[i] != "" && IsLowerCase(r[i])
  {
    if token.None? || token.value == "" then []
    else
      match DecodePayload(token.value, host)
      case None => []
      case Some(payload) => RolesFromPayload(payload)
  }

  /** A non-empty list all of whose entries are "employee" is one whose set of entries is
    * exactly {"employee"}. */
  lemma EmployeeOnlySet(roles: seq<string>)
    ensures (|roles| > 0 && forall i :: 0 <= i < |roles| ==> roles[i] == EmployeeRole) <==>
      (set role | role in roles) == {EmployeeRole}
  {
    var present := set role | role in roles;
    if |roles| > 0 && forall i :: 0 <= i < |roles| ==> roles[i] == EmployeeRole {
      assert roles[0] in present;
      forall x | x in present ensures x == EmployeeRole {
        var i :| 0 <= i < |roles| && roles[i] == x;
      }
    }
    if present == {EmployeeRole} {
      assert EmployeeRole in present;
      forall i | 0 <= i < |roles| ensures roles[i] == EmployeeRole {
        assert roles[i] in present;
      }
    }
  }

  /** `roles.length > 0 && roles.every(role => role === "employee")`. */
  predicate IsEmployeeOnly(roles: seq<string>)
    ensures IsEmployeeOnly(roles) <==> (set role | role in roles) == {EmployeeRole}
  {
    EmployeeOnlySet(roles);
    |roles| > 0 && forall i :: 0 <= i < |roles| ==> roles[i] == EmployeeRole
  }

  /** The manager-only route guard: the only redirect it produces is to the timesheets
    * page, and it produces it exactly when the token's roles are all "employee". */
  function ManagerOnlyGuard(token: Option<string>, host: Host): (redirect: Option<string>)
    ensures redirect.Some? <==> IsEmployeeOnly(GetRolesFromToken(token, host))
    ensures redirect.Some? ==> redirect.value == EmployeeHome
  {
    if IsEmployeeOnly(GetRolesFromToken(token, host)) then Some(EmployeeHome) else None
  }

  /** Running the guard: `useAuth()` may rehydrate the user, which leaves the token as it
    * was, and the decision is taken on the token's roles. */
  method Run(session: Auth.Session, host: Host) returns (redirect: Option<string>)
    modifies session
    ensures session.token == old(session.token)
    ensures old(session.user).None? && old(session.IsAuthed()) ==>
      session.user == Auth.GetUserFromToken(session.token.value, host)
    ensures old(session.user).Some? || !old(session.IsAuthed()) ==> session.user == old(session.user)
    ensures redirect == ManagerOnlyGuard(old(session.token), host)
  {
    session.Rehydrate(host);
    var roles := GetRolesFromToken(session.token, host);
    if IsEmployeeOnly(roles) {
      redirect := Some(EmployeeHome);
    } else {
      redirect := None;
    }
  }

  /** No role information is not a restriction: a token without roles is let through. */
  lemma NoRolesNoRedirect(token: Option<string>, host: Host)
    requires GetRolesFromToken(token, host) == []
    ensures ManagerOnlyGuard(token, host) == None
  {
  }

  /** One role other than "employee" is enough to be let through. */
  lemma AnyOtherRoleAllowed(token: Option<string>, host: Host, i: nat)
    requires i < |GetRolesFromToken(token, host)|
    requires GetRolesFromToken(token, host)[i] != EmployeeRole
    ensures ManagerOnlyGuard(token, host) == None
  {
  }

  /** Trimming a string that has no white space at either end leaves it alone. */
  lemma TrimTrimmed(s: string)
    requires s != [] && IsTrimmed(s)
    ensures Trim(s) == s
  {
    assert LeadingSpace(s) == 0;
    assert TrailingSpace(s) == 0;
  }

  /** Trimming `" " + s` drops the one blank. */
  lemma TrimBlankPrefix(s: string)
    requires s != [] && IsTrimmed(s)
    ensures Trim(" " + s) == s
  {
    var t := " " + s;
    assert t[1..] == s;
    assert LeadingSpace(t) == 1 + LeadingSpace(s);
    assert LeadingSpace(s) == 0;
    assert t[1..] == s;
    assert TrailingSpace(s) == 0;
  }

  /** `"first, second".split(",")` is `[first, " second"]`. */
  lemma SplitCommaPair(first: string, second: string)
    requires ',' !in first && ',' !in second
    ensures Split(first + ", " + second, ',') == [first, " " + second]
  {
    assert first + ", " + second == first + [','] + (" " + second);
    SplitAfter(first, ',', " " + second);
    assert ',' !in " " + second;
    SplitWithout(" " + second, ',');
  }

  /** `"first, second".split(",").map(trim).filter(Boolean)` is `[first, second]`. */
  lemma SplitCommaBlank(first: string, second: string)
    requires first != [] && second != [] && IsTrimmed(first) && IsTrimmed(second)
    requires ',' !in first && ',' !in second
    ensures SplitRoleList(first + ", " + second) == [first, second]
  {
    var parts := [first, " " + second];
    SplitCommaPair(first, second);
    TrimBlankPrefix(second);
    TrimTrimmed(first);
    assert Trims(parts) == [first, second];
    assert NonEmpty([first, second][1..]) == [second] + NonEmpty([]);
    assert NonEmpty([first, second]) == [first] + NonEmpty([first, second][1..]);
  }

  /** A string role claim is split on commas and each part trimmed:
    * `"Manager, Employee"` gives "manager" then "employee". */
  lemma StringClaimIsSplit(first: string, second: string)
    requires first != [] && second != [] && IsTrimmed(first) && IsTrimmed(second)
    requires ',' !in first && ',' !in second
    ensures ClaimRoles(Obj(map["role" := Str(first + ", " + second)]), "role") ==
      [ToLower(first), ToLower(second)]
  {
    var text := first + ", " + second;
    var p := Obj(map["role" := Str(text)]);
    assert NormalizeRoles(Get(p, "role")) == SplitRoleList(text) by {
      assert Get(p, "role") == Some(Str(text));
    }
    SplitCommaBlank(first, second);
    assert LowerNonEmpty([first, second]) == [ToLower(first)] + LowerNonEmpty([second]);
  }

  /** An array role claim is neither split nor trimmed: its string items are only
    * lower-cased, and an item holding a comma stays one role. */
  lemma ArrayClaimIsNotSplit(first: string, second: string)
    requires first != [] && second != []
    ensures ClaimRoles(Obj(map["roles" := Arr([Str(first), Num(0), Str(" " + second + ", x")])]), "roles") ==
      [ToLower(first), ToLower(" " + second + ", x")]
  {
    var items := [Str(first), Num(0), Str(" " + second + ", x")];
    assert StringItems(items[2..]) == [" " + second + ", x"] + StringItems(items[3..]);
    assert StringItems(items[1..]) == [] + StringItems(items[2..]);
    assert StringItems(items) == [first, " " + second + ", x"];
    assert LowerNonEmpty([first, " " + second + ", x"]) ==
      [ToLower(first)] + LowerNonEmpty([" " + second + ", x"]);
  }

  /** A role padded with a blank counts as a different role inside an array, which is
    * not trimmed, but as the role itself in a string claim, which is: so `[" employee"]`
    * is not employee-only while `" employee"` is. */
  lemma PaddedRole(role: string)
    requires role != [] && IsTrimmed(role) && ',' !in role && IsLowerCase(role)
    ensures RolesFromPayload(Obj(map["roles" := Arr([Str(" " + role)])])) == [" " + role]
    ensures RolesFromPayload(Obj(map["roles" := Str(" " + role)])) == [role]
    ensures role == EmployeeRole ==>
      && !IsEmployeeOnly(RolesFromPayload(Obj(map["roles" := Arr([Str(" " + role)])])))
      && IsEmployeeOnly(RolesFromPayload(Obj(map["roles" := Str(" " + role)])))
  {
    PaddedArrayRole(role);
    PaddedStringRole(role);
    if role == EmployeeRole {
      var padded := " " + role;
      assert [padded][0] != EmployeeRole by {
        assert |padded| != |EmployeeRole|;
      }
      assert [role][0] == EmployeeRole;
    }
  }

  lemma LowerOfLower(s: string)
    requires IsLowerCase(s)
    ensures ToLower(s) == s
  {
  }

  lemma PaddedArrayRole(role: string)
    requires role != [] && IsLowerCase(role)
    ensures RolesFromPayload(Obj(map["roles" := Arr([Str(" " + role)])])) == [" " + role]
  {
    var padded := " " + role;
    var p := Obj(map["roles" := Arr([Str(padded)])]);
    RolesInClaimOrder(p);
    assert ClaimRoles(p, RoleClaimUri) == [] by { assert Get(p, RoleClaimUri) == None; }
    assert ClaimRoles(p, "role") == [] by { assert Get(p, "role") == None; }
    assert ClaimRoles(p, "roles") == [padded] by {
      assert Get(p, "roles") == Some(Arr([Str(padded)]));
      assert StringItems([Str(padded)]) == [padded] + StringItems([]);
      LowerOfLower(padded);
      assert LowerNonEmpty([padded]) == [padded] + LowerNonEmpty([]);
    }
  }

  lemma PaddedStringRole(role: string)
    requires role != [] && IsTrimmed(role) && ',' !in role && IsLowerCase(role)
    ensures RolesFromPayload(Obj(map["roles" := Str(" " + role)])) == [role]
  {
    var padded := " " + role;
    var q := Obj(map["roles" := Str(padded)]);
    RolesInClaimOrder(q);
    assert ClaimRoles(q, RoleClaimUri) == [] by { assert Get(q, RoleClaimUri) == None; }
    assert ClaimRoles(q, "role") == [] by { assert Get(q, "role") == None; }
    assert ClaimRoles(q, "roles") == [role] by {
      assert Get(q, "roles") == Some(Str(padded));
      assert SplitRoleList(padded) == [role] by {
        assert ',' !in padded;
        SplitRoleListPiece(padded);
        TrimBlankPrefix(role);
      }
      LowerOfLower(role);
      assert LowerNonEmpty([role]) == [role] + LowerNonEmpty([]);
    }
  }
}
