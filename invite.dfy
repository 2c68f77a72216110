/**
 * Inviting a user (`POST /api/admin/invite`): an ordered chain of checks —
 * signed in, admin, a JSON body, a well-formed e-mail address, a name of at
 * least two characters after trimming, one of the three roles — and the
 * invitation, sent only when every check passes.
 */
module Invite {
  import opened Wrappers
  import opened Text
  import opened Records
  import opened Gates

  /** A member of the parsed body: absent, a string, or some other JSON value. */
  datatype Field = Missing | Str(s: string) | NonString

  /** `request.json()`: unparseable, the literal `null` (destructuring it
      throws), or a value whose three members are read. Arrays, numbers and
      strings read as all members missing. */
  datatype Body = Malformed | JsonNull | JsonValue(email: Field, name: Field, role: Field)

  datatype Reply = Success | Failure(status: nat, message: string)

  const Unauthenticated := Failure(401, "Nicht authentifiziert")
  const NotAdmin := Failure(403, "Keine Berechtigung")
  const BadJson := Failure(400, "Ungültiges JSON-Format")
  const InternalError := Failure(500, "Interner Serverfehler")
  const BadEmail := Failure(400, "Ungültige E-Mail-Adresse")
  const BadName := Failure(400, "Name muss mindestens 2 Zeichen haben")
  const BadRole := Failure(400, "Ungültige Rolle. Erlaubt: normal, moderator, admin")

  /** The invitation sent: address, full name and role as given. */
  datatype Invitation = Invitation(email: string, fullName: string, role: Role)

  /** What the handler does: the invitation it sends, if any, and its reply. */
  datatype Outcome = Outcome(invitation: Option<Invitation>, reply: Reply)

  // ---------------------------------------------------------------------------
  // The e-mail pattern

  /** The language of `/^[^\s@]+@[^\s@]+\.[^\s@]+$/`: no white space, a single
      `@` with something before it, and after it a `.` with something on both
      sides. */
  ghost predicate MatchesEmailPattern(s: string)
  {
    && (forall k :: 0 <= k < |s| ==> !IsSpace(s[k]))
    && exists i, j :: 0 < i && i + 1 < j < |s| - 1 && s[i] == '@' && s[j] == '.'
                      && forall k :: 0 <= k < |s| && k != i ==> s[k] != '@'
  }

  predicate NoSpace(s: string)
  {
    forall k :: 0 <= k < |s| ==> !IsSpace(s[k])
  }

  /** `isValidEmail`, checked piece by piece: split at `@` into exactly a
      non-empty local part and a domain holding a `.` that is neither its
      first nor its last character. */
  predicate IsValidEmail(s: string)
  {
    var parts := Split(s, '@');
    && NoSpace(s)
    && |parts| == 2
    && parts[0] != ""
    && |parts[1]| >= 3 && '.' in parts[1][1..|parts[1]| - 1]
  }

  lemma IsValidEmailMatchesPattern(s: string)
    ensures IsValidEmail(s) <==> MatchesEmailPattern(s)
  {
    if IsValidEmail(s) {
      ValidEmailMatches(s);
    }
    if MatchesEmailPattern(s) {
      MatchingEmailIsValid(s);
    }
  }

  lemma ValidEmailMatches(s: string)
    requires IsValidEmail(s)
    ensures MatchesEmailPattern(s)
  {
    var parts := Split(s, '@');
    var local, domain := parts[0], parts[1];
    JoinSplit(s, '@');
    SplitPiecesAvoidSeparator(s, '@');
    assert Join(parts[1..], '@') == domain;
    assert s == local + ['@'] + domain;
    var i := |local|;
    var d :| 0 <= d < |domain| - 2 && domain[1..|domain| - 1][d] == '.';
    var j := i + 1 + 1 + d;
    assert s[i] == '@';
    assert s[j] == domain[1 + d] == '.';
    forall k | 0 <= k < |s| && k != i
      ensures s[k] != '@'
    {
      if k < i {
        assert s[k] == local[k];
      } else {
        assert s[k] == domain[k - i - 1];
      }
    }
  }

  lemma MatchingEmailIsValid(s: string)
    requires MatchesEmailPattern(s)
    ensures IsValidEmail(s)
  {
    var i, j :| 0 < i && i + 1 < j < |s| - 1 && s[i] == '@' && s[j] == '.'
                && forall k :: 0 <= k < |s| && k != i ==> s[k] != '@';
    var local, domain := s[..i], s[i + 1..];
    assert s == local + ['@'] + domain;
    assert '@' !in local by {
      forall k | 0 <= k < |local| ensures local[k] != '@' { assert local[k] == s[k]; }
    }
    assert '@' !in domain by {
      forall k | 0 <= k < |domain| ensures domain[k] != '@' { assert domain[k] == s[k + i + 1]; }
    }
    SplitEmail(local, domain);
    assert domain[1..|domain| - 1][j - i - 2] == s[j];
  }

  lemma SplitEmail(local: string, domain: string)
    requires '@' !in local && '@' !in domain
    ensures Split(local + ['@'] + domain, '@') == [local, domain]
  {
    SplitAtFirstSeparator(local, domain, '@');
    SplitWithoutSeparator(domain, '@');
  }

  // ---------------------------------------------------------------------------
  // Name and role

  /** `!name || typeof name !== 'string' || name.trim().length < 2`, negated. */
  predicate NameOk(f: Field)
  {
    f.Str? && f.s != "" && Utf16Length(Trim(f.s)) >= 2
  }

  /** A string name is accepted iff it still has two UTF-16 units after trimming. */
  lemma NameOkIff(s: string)
    ensures NameOk(Str(s)) <==> Utf16Length(Trim(s)) >= 2
  {
    if s == "" {
      assert Trim(s) == "";
    }
  }

  function RoleName(r: Role): string
  {
    match r
    case Normal => "normal"
    case Moderator => "moderator"
    case Admin => "admin"
  }

  /** `VALID_ROLES.includes(role)`: the role a field names, if it names one. */
  function RoleOf(f: Field): (r: Option<Role>)
    ensures r.Some? ==> f == Str(RoleName(r.value))
    ensures forall q: Role :: f == Str(RoleName(q)) ==> r == Some(q)
  {
    if f == Str("normal") then Some(Normal)
    else if f == Str("moderator") then Some(Moderator)
    else if f == Str("admin") then Some(Admin)
    else None
  }

  // ---------------------------------------------------------------------------
  // The handler

  predicate EmailOk(f: Field)
  {
    f.Str? && f.s != "" && IsValidEmail(f.s)
  }

  function AuthChecks(user: Option<UserId>, profiles: seq<Profile>): (checks: seq<Check<Reply>>)
    ensures |checks| == 2
  {
    var profile := if user.Some? then ProfileById(profiles, user.value) else None;
    [ Check(user.Some?, Unauthenticated),
      Check(profile.Some? && profile.value.role == Admin, NotAdmin) ]
  }

  function BodyChecks(body: Body): (checks: seq<Check<Reply>>)
    ensures |checks| == 5
  {
    var value := body.JsonValue?;
    ValueChecks(!body.Malformed?, !body.JsonNull?,
                value && EmailOk(body.email), value && NameOk(body.name), value && RoleOf(body.role).Some?)
  }

  function ValueChecks(json: bool, notNull: bool, email: bool, name: bool, role: bool): (checks: seq<Check<Reply>>)
    ensures |checks| == 5
  {
    [ Check(json, BadJson), Check(notNull, InternalError), Check(email, BadEmail),
      Check(name, BadName), Check(role, BadRole) ]
  }

  lemma ValueChecksFirst(json: bool, notNull: bool, email: bool, name: bool, role: bool)
    ensures FirstFailure(ValueChecks(json, notNull, email, name, role)) ==
            if !json then Some(BadJson)
            else if !notNull then Some(InternalError)
            else if !email then Some(BadEmail)
            else if !name then Some(BadName)
            else if !role then Some(BadRole)
            else None
  {
    var checks := ValueChecks(json, notNull, email, name, role);
    if !json { FirstFailureAt(checks, 0); }
    else if !notNull { FirstFailureAt(checks, 1); }
    else if !email { FirstFailureAt(checks, 2); }
    else if !name { FirstFailureAt(checks, 3); }
    else if !role { FirstFailureAt(checks, 4); }
  }

  /** The checks before the invitation, in the order the handler takes them. */
  function InviteChecks(user: Option<UserId>, profiles: seq<Profile>, body: Body): seq<Check<Reply>>
  {
    AuthChecks(user, profiles) + BodyChecks(body)
  }

  /** The part of `POST` after the caller is known to be an admin. */
  function ReadBody(body: Body, inviteError: Option<string>): (o: Outcome)
    ensures o.invitation.Some? <==> FirstFailure(BodyChecks(body)).None?
    ensures FirstFailure(BodyChecks(body)).Some? ==> o.reply == FirstFailure(BodyChecks(body)).value
    ensures o.invitation.Some? ==>
              && body.JsonValue? && body.email.Str? && body.name.Str? && RoleOf(body.role).Some?
              && o.invitation.value == Invitation(body.email.s, body.name.s, RoleOf(body.role).value)
              && o.reply == (if inviteError.Some? then Failure(400, inviteError.value) else Success)
  {
    var value := body.JsonValue?;
    var email := value && EmailOk(body.email);
    var name := value && NameOk(body.name);
    var role := value && RoleOf(body.role).Some?;
    ValueChecksFirst(!body.Malformed?, !body.JsonNull?, email, name, role);
    if body.Malformed? then Outcome(None, BadJson)
    else if body.JsonNull? then Outcome(None, InternalError)
    else if !email then Outcome(None, BadEmail)
    else if !name then Outcome(None, BadName)
    else if !role then Outcome(None, BadRole)
    else
      var invitation := Invitation(body.email.s, body.name.s, RoleOf(body.role).value);
      Outcome(Some(invitation), if inviteError.Some? then Failure(400, inviteError.value) else Success)
  }

  /** `POST`. `inviteError` is the error the invitation call reports, if any. */
  function Post(user: Option<UserId>, profiles: seq<Profile>, body: Body, inviteError: Option<string>): (o: Outcome)
    ensures o.invitation.Some? <==> FirstFailure(InviteChecks(user, profiles, body)).None?
    ensures FirstFailure(InviteChecks(user, profiles, body)).Some? ==>
              o.reply == FirstFailure(InviteChecks(user, profiles, body)).value
    ensures o.invitation.Some? ==>
              && body.JsonValue? && body.email.Str? && body.name.Str? && RoleOf(body.role).Some?
              && o.invitation.value == Invitation(body.email.s, body.name.s, RoleOf(body.role).value)
              && o.reply == (if inviteError.Some? then Failure(400, inviteError.value) else Success)
  {
    var auth := AuthChecks(user, profiles);
    FirstFailureConcat(auth, BodyChecks(body));
    if user.None? then
      FirstFailureAt(auth, 0);
      Outcome(None, Unauthenticated)
    else
      var profile := ProfileById(profiles, user.value);
      if profile.None? || profile.value.role != Admin then
        FirstFailureAt(auth, 1);
        Outcome(None, NotAdmin)
      else
        assert forall k :: 0 <= k < |auth| ==> auth[k].passes;
        ReadBody(body, inviteError)
  }

  /** Sign-in and admin rights are decided before the body is looked at. */
  lemma AuthorisationComesFirst(user: Option<UserId>, profiles: seq<Profile>, a: Body, b: Body, inviteError: Option<string>)
    requires user.None? || ProfileById(profiles, user.value).None? || ProfileById(profiles, user.value).value.role != Admin
    ensures Post(user, profiles, a, inviteError) == Post(user, profiles, b, inviteError)
    ensures Post(user, profiles, a, inviteError).invitation.None?
  {
  }
}
