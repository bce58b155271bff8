/**
 * The authentication middleware: `protect` reads a Bearer token, verifies it and attaches
 * the signed-in user to the request; `authorize(...roles)` admits the attached user when
 * its role is one of the arguments.
 */
module Auth {

  import opened Wrappers
  import opened Text
  import opened Accounts

  const BearerPrefix: string := "Bearer "

  /**
   * `header.startsWith('Bearer ')` and then `header.split(' ')[1]`, kept only when truthy:
   * the token is the text after `Bearer ` up to the next space. There is one exactly when a
   * character other than a space follows the prefix.
   */
  function BearerToken(header: Option<string>): (r: Option<string>)
    ensures r.Some? <==>
      header.Some? && |header.value| > |BearerPrefix| &&
      header.value[..|BearerPrefix|] == BearerPrefix && header.value[|BearerPrefix|] != ' '
    ensures r.Some? ==>
      var h, n := header.value, |BearerPrefix|;
      && r.value != "" && ' ' !in r.value
      && n + |r.value| <= |h| && h[n..n + |r.value|] == r.value
      && (n + |r.value| == |h| || h[n + |r.value|] == ' ')
  {
    if header.None? || |header.value| < |BearerPrefix| || header.value[..|BearerPrefix|] != BearerPrefix then None
    else
      var h := header.value;
      var rest := h[|BearerPrefix|..];
      assert h == "Bearer" + [' '] + rest;
      SplitAtSeparator("Bearer", ' ', rest);
      FirstPiece(rest, ' ');
      var token := Piece(h, ' ', 1);
      assert token == Some(Split(rest, ' ')[0]);
      if token.value != "" then token else None
  }

  /** Why a middleware stopped the request. */
  datatype Refusal = NoToken | TokenFailed | UserNotFound | UserInfoMissing | RoleNotAllowed

  /** A middleware either calls `next()` or answers with a status code. */
  datatype Gate = Next | Reject(code: nat, refusal: Refusal)

  /** The parts of an Express request the middleware reads and writes. */
  class Request {
    var authorization: Option<string>
    var user: Option<User>

    constructor (authorization: Option<string>)
      ensures this.authorization == authorization && user.None?
    {
      this.authorization := authorization;
      user := None;
    }
  }

  /**
   * `protect`: without a token, 401; `verify` stands for `jwt.verify` and gives the id in
   * the payload, or `None` when it throws; an id that is not an ObjectId makes the lookup
   * throw, also a 401; an id of nobody attaches no user and answers 401; otherwise the
   * user is attached and the next handler runs.
   */
  method Protect(req: Request, verify: string -> Option<IdText>, users: Directory) returns (g: Gate)
    modifies req
    ensures req.authorization == old(req.authorization)
    ensures BearerToken(req.authorization).None? ==> g == Reject(401, NoToken) && req.user == old(req.user)
    ensures BearerToken(req.authorization).Some? ==>
      var payload := verify(BearerToken(req.authorization).value);
      if payload.None? || payload.value.NotObjectId? then g == Reject(401, TokenFailed) && req.user == old(req.user)
      else if payload.value.value !in users then g == Reject(401, UserNotFound) && req.user.None?
      else g == Next && req.user == Some(User(payload.value.value, users[payload.value.value]))
  {
    var token := BearerToken(req.authorization);
    if token.None? {
      return Reject(401, NoToken);
    }
    var payload := verify(token.value);
    if payload.None? || payload.value.NotObjectId? {
      return Reject(401, TokenFailed);
    }
    var id := payload.value.value;
    if id !in users {
      req.user := None;
      return Reject(401, UserNotFound);
    }
    req.user := Some(User(id, users[id]));
    g := Next;
  }

  /**
   * An argument of `authorize(...roles)`: the routes pass either role names or, in one
   * place, an array of them, which the rest parameter keeps as a single element.
   */
  datatype RoleArg = RoleText(name: string) | RoleList(names: seq<string>)

  /**
   * `authorize(...roles)`: 401 when no user is attached, 403 when `roles.includes(role)`
   * fails, and `next()` otherwise. `includes` compares with `===`, so only a role name
   * given as a string argument can match.
   */
  function Authorize(roles: seq<RoleArg>, user: Option<User>): (g: Gate)
    ensures user.None? ==> g == Reject(401, UserInfoMissing)
    ensures user.Some? ==> (g == Next <==> exists i :: 0 <= i < |roles| && roles[i] == RoleText(RoleName(user.value.role)))
    ensures user.Some? && g != Next ==> g == Reject(403, RoleNotAllowed)
  {
    if user.None? then Reject(401, UserInfoMissing)
    else if RoleText(RoleName(user.value.role)) !in roles then Reject(403, RoleNotAllowed)
    else Next
  }

  /** `authorize('doctor')`, as the appointment routes write it. */
  function DoctorOnly(): seq<RoleArg> {
    [RoleText("doctor")]
  }

  /** `authorize('doctor')` admits exactly the signed-in doctors. */
  lemma DoctorOnlyAdmitsDoctors(user: Option<User>)
    ensures Authorize(DoctorOnly(), user) == Next <==> user.Some? && user.value.role == Doctor
  {
    if user.Some? && user.value.role != Doctor {
      assert RoleName(user.value.role) != "doctor";
    }
  }

  /** `authorize(['doctor'])`, as the prescription routes write it: one argument, an array. */
  function PrescriptionGuardAsWritten(): seq<RoleArg> {
    [RoleList(["doctor"])]
  }

  /** As written, the prescription guard turns every signed-in user away, doctors included. */
  lemma PrescriptionGuardRefusesEveryone(user: User)
    ensures Authorize(PrescriptionGuardAsWritten(), Some(user)) == Reject(403, RoleNotAllowed)
  {
  }

  /** The prescription guard as evidently intended: the one the appointment routes use. */
  function PrescriptionGuard(): seq<RoleArg> {
    DoctorOnly()
  }

  /** The intended prescription guard admits exactly the signed-in doctors. */
  lemma PrescriptionGuardAdmitsDoctors(user: Option<User>)
    ensures Authorize(PrescriptionGuard(), user) == Next <==> user.Some? && user.value.role == Doctor
  {
    DoctorOnlyAdmitsDoctors(user);
  }
}
