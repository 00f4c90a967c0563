/**
 * Users and the anonymous visitor: role choice on creation, the account
 * token claims (confirm, reset password, change email, API auth) applied
 * to user records, and the permission checks of both kinds of subject.
 */
module Accounts {
  import opened Optional
  import opened Permissions
  import opened Tokens
  import opened Roles

  /** The configuration values the core reads. */
  datatype Config = Config(
    adminEmail: string,
    enableComment: bool,
    enableRegister: bool)

  const ADMINISTRATOR_ROLE := "Administrator"

  /** The decoded token carries `key` bound to user `id`. */
  predicate ClaimFor(data: Option<Payload>, key: string, id: int) {
    data.Some? && Get(data.value, key) == Some(Int(id))
  }

  /** The `new_email` of a decoded change-email token, when it carries one as a string. */
  function NewEmail(data: Payload): Option<string> {
    match Get(data, NEW_EMAIL_CLAIM)
    case Some(Str(e)) => Some(e)
    case _ => None
  }

  /** A user row, updated in place. */
  class User {
    const id: int
    var email: string
    var role: Role?
    var confirmed: bool
    var passwordHash: string
    var avatarHash: string

    /** `User(**kwargs)`: a user created without a role gets the Administrator role when
        its email is the configured administrator address and that role exists, and the
        first default role otherwise (none when there is no default role).
        `gravatar` stands for the external digest of the lower-cased address. */
    constructor (id: int, email: string, role: Role?, passwordHash: string,
                 roles: RoleTable, cfg: Config, gravatar: string -> string)
      ensures this.id == id && this.email == email && this.passwordHash == passwordHash
      ensures !confirmed && avatarHash == gravatar(email)
      ensures role != null ==> this.role == role
      ensures role == null && email == cfg.adminEmail && roles.ByName(ADMINISTRATOR_ROLE) != null ==>
                this.role == roles.ByName(ADMINISTRATOR_ROLE)
      ensures role == null && (email != cfg.adminEmail || roles.ByName(ADMINISTRATOR_ROLE) == null) ==>
                this.role == roles.DefaultRole()
    {
      this.id := id;
      this.email := email;
      this.confirmed := false;
      this.passwordHash := passwordHash;
      var chosen := role;
      if chosen == null {
        if email == cfg.adminEmail {
          chosen := roles.ByName(ADMINISTRATOR_ROLE);
        }
        if chosen == null {
          chosen := roles.DefaultRole();
        }
      }
      this.role := chosen;
      this.avatarHash := gravatar(email);
    }

    /** `User.can`: false without a role, otherwise the role's containment test. */
    predicate Can(perm: nat)
      reads this, role
      ensures Can(perm) <==> role != null && Covers(role.permissions, perm)
    {
      role != null && role.HasPermission(perm)
    }

    /** `User.is_administrator`: `can(ADMIN)`, i.e. bit 4 of the role's bitmask. */
    predicate IsAdministrator()
      reads this, role
      ensures IsAdministrator() <==> role != null && TestBit(role.permissions, 4)
    {
      if role != null then HasFlagIffBit(role.permissions, ADMIN); Can(ADMIN) else false
    }

    /** `User.confirm`: sets `confirmed` exactly when the token decodes and its
        `confirm` claim is this user's id; otherwise nothing changes. */
    method Confirm(secret: string, now: int, token: Token) returns (ok: bool)
      modifies this`confirmed
      ensures ok <==> ClaimFor(Loads(secret, now, token), CONFIRM_CLAIM, id)
      ensures ok ==> confirmed
      ensures !ok ==> confirmed == old(confirmed)
    {
      var data := Loads(secret, now, token);
      if data.None? {
        return false;
      }
      if Get(data.value, CONFIRM_CLAIM) != Some(Int(id)) {
        return false;
      }
      confirmed := true;
      return true;
    }

    /** `User.update_email`: assigning the current address again changes nothing;
        a new address also refreshes the avatar digest. */
    method UpdateEmail(newEmail: string, gravatar: string -> string)
      modifies this`email, this`avatarHash
      ensures email == newEmail
      ensures old(email) == newEmail ==> avatarHash == old(avatarHash)
      ensures old(email) != newEmail ==> avatarHash == gravatar(newEmail)
    {
      if email != newEmail {
        email := newEmail;
        avatarHash := gravatar(newEmail);
      }
    }

    /** `User.change_email`: succeeds exactly when the token decodes, its `change_email`
        claim is this user's id, it carries a `new_email`, and no user has that address
        yet; then the address becomes `new_email`. Every failure leaves the user unchanged.
        The user is a stored row, so its own address counts as taken and a successful
        change always moves to a different address. */
    method ChangeEmail(secret: string, now: int, token: Token, users: UserStore,
                       gravatar: string -> string) returns (ok: bool)
      requires this in users.accounts.Values
      modifies this`email, this`avatarHash
      ensures ok <==> ClaimFor(Loads(secret, now, token), CHANGE_EMAIL_CLAIM, id)
                      && NewEmail(Loads(secret, now, token).value).Some?
                      && !old(users.EmailTaken(NewEmail(Loads(secret, now, token).value).value))
      ensures ok ==> email == NewEmail(Loads(secret, now, token).value).value
      ensures ok ==> email != old(email) && avatarHash == gravatar(email)
      ensures !ok ==> email == old(email) && avatarHash == old(avatarHash)
    {
      var data := Loads(secret, now, token);
      if data.None? {
        return false;
      }
      if Get(data.value, CHANGE_EMAIL_CLAIM) != Some(Int(id)) {
        return false;
      }
      var newEmail := NewEmail(data.value);
      if newEmail.None? {
        return false;
      }
      if users.EmailTaken(newEmail.value) {
        return false;
      }
      UpdateEmail(newEmail.value, gravatar);
      return true;
    }
  }

  /** The `users` table, keyed by id. */
  class UserStore {
    var accounts: map<int, User>

    constructor ()
      ensures accounts == map[] && Valid()
    {
      accounts := map[];
    }

    ghost predicate Valid()
      reads this
    {
      forall i :: i in accounts ==> accounts[i].id == i
    }

    /** `User.query.filter_by(email=e).first() is not None`. */
    predicate EmailTaken(e: string)
      reads this, accounts.Values
    {
      exists u :: u in accounts.Values && u.email == e
    }

    /** `User.query.get(key)`: the user with that id; nothing for a missing key. */
    function Lookup(key: Option<Value>): (u: User?)
      reads this
      ensures u != null <==> key.Some? && key.value.Int? && key.value.i in accounts
      ensures u != null ==> u == accounts[key.value.i]
    {
      match key
      case Some(Int(i)) => if i in accounts then accounts[i] else null
      case _ => null
    }

    /** The user a reset token names, when it decodes. */
    function ResetTarget(secret: string, now: int, token: Token): (u: User?)
      reads this
    {
      var data := Loads(secret, now, token);
      if data.None? then null else Lookup(Get(data.value, RESET_CLAIM))
    }

    /** `User.reset_password`: succeeds exactly when the token decodes and its `reset`
        claim names an existing user, whose password digest is then replaced.
        `newHash` stands for the external digest of the new password. */
    method ResetPassword(secret: string, now: int, token: Token, newHash: string) returns (ok: bool)
      modifies ResetTarget(secret, now, token)
      ensures ok <==> Loads(secret, now, token).Some?
                      && Lookup(Get(Loads(secret, now, token).value, RESET_CLAIM)) != null
      ensures ok ==> ResetTarget(secret, now, token).passwordHash == newHash
      ensures var u := ResetTarget(secret, now, token);
                u != null ==> u.email == old(u.email) && u.confirmed == old(u.confirmed)
                              && u.role == old(u.role) && u.avatarHash == old(u.avatarHash)
    {
      var data := Loads(secret, now, token);
      if data.None? {
        return false;
      }
      var user := Lookup(Get(data.value, RESET_CLAIM));
      if user == null {
        return false;
      }
      user.passwordHash := newHash;
      return true;
    }

    /** `User.verify_auth_token`: `None` for a token that does not decode, the user
        with the decoded `id` (or `None`), and a raised `KeyError` for a decoded
        token without an `id` key. */
    function VerifyAuthToken(secret: string, now: int, token: Token): (r: AuthResult)
      reads this
      ensures Loads(secret, now, token).None? ==> r == Returned(null)
      ensures Loads(secret, now, token).Some? && AUTH_CLAIM !in Loads(secret, now, token).value ==>
                r == KeyErrorRaised
      ensures r.Returned? && r.user != null ==> r.user in accounts.Values
      ensures Valid() && r.Returned? && r.user != null ==>
                ClaimFor(Loads(secret, now, token), AUTH_CLAIM, r.user.id)
      ensures Valid() ==> forall i :: ClaimFor(Loads(secret, now, token), AUTH_CLAIM, i) ==>
                r == Returned(if i in accounts then accounts[i] else null)
    {
      var data := Loads(secret, now, token);
      if data.None? then Returned(null)
      else if AUTH_CLAIM !in data.value then KeyErrorRaised
      else Returned(Lookup(Some(data.value[AUTH_CLAIM])))
    }

    /** `verify_auth_token` with the `id` claim read by `data.get('id')`, as the other
        claim checks read theirs: every decoded payload yields a user or nothing,
        and a token that does not decode yields nothing. */
    function AuthenticatedUser(secret: string, now: int, token: Token): (u: User?)
      reads this
      ensures Loads(secret, now, token).None? ==> u == null
      ensures u != null ==> u in accounts.Values
      ensures Valid() && u != null ==> ClaimFor(Loads(secret, now, token), AUTH_CLAIM, u.id)
      ensures Valid() ==> forall i :: ClaimFor(Loads(secret, now, token), AUTH_CLAIM, i) ==>
                u == (if i in accounts then accounts[i] else null)
    {
      var data := Loads(secret, now, token);
      if data.None? then null else Lookup(Get(data.value, AUTH_CLAIM))
    }

    /** The corrected check agrees with `verify_auth_token` wherever the latter returns,
        and answers "no user" exactly where the latter raises. */
    lemma AuthenticatedUserAgrees(secret: string, now: int, token: Token)
      ensures VerifyAuthToken(secret, now, token).Returned? ==>
                VerifyAuthToken(secret, now, token).user == AuthenticatedUser(secret, now, token)
      ensures VerifyAuthToken(secret, now, token).KeyErrorRaised? ==>
                AuthenticatedUser(secret, now, token) == null
    {
    }

    /** A confirmation token is accepted by the user it was made for, during its lifetime. */
    lemma ConfirmationRoundTrip(secret: string, expiration: int, issued: int, now: int, id: int)
      requires issued <= now <= issued + expiration
      ensures ClaimFor(Loads(secret, now, ConfirmationToken(secret, expiration, issued, id)), CONFIRM_CLAIM, id)
      ensures forall other :: other != id ==>
                !ClaimFor(Loads(secret, now, ConfirmationToken(secret, expiration, issued, id)), CONFIRM_CLAIM, other)
    {
      LoadsDumps(secret, expiration, issued, now, map[CONFIRM_CLAIM := Int(id)]);
    }

    /** An auth token made for an existing user resolves to that user during its
        lifetime and to nothing after it. */
    lemma AuthRoundTrip(secret: string, expiration: int, issued: int, now: int, id: int)
      requires Valid() && id in accounts
      ensures now <= issued + expiration ==>
                VerifyAuthToken(secret, now, AuthToken(secret, expiration, issued, id)) == Returned(accounts[id])
      ensures now > issued + expiration ==>
                VerifyAuthToken(secret, now, AuthToken(secret, expiration, issued, id)) == Returned(null)
    {
      LoadsDumps(secret, expiration, issued, now, map[AUTH_CLAIM := Int(id)]);
    }

    /** Claim isolation on the reset path: a confirmation or auth token, however valid,
        names no user to reset. */
    lemma ResetNeedsResetClaim(secret: string, expiration: int, issued: int, now: int, id: int)
      ensures ResetTarget(secret, now, ConfirmationToken(secret, expiration, issued, id)) == null
      ensures ResetTarget(secret, now, AuthToken(secret, expiration, issued, id)) == null
    {
      ClaimIsolation(secret, expiration, issued, id, "");
    }

    /** As written, `verify_auth_token` raises on a live token of another kind: a
        confirmation token decodes, and looking up its missing `id` key raises
        `KeyError`. The corrected check answers "no user" for the same token. */
    lemma ConfirmationTokenIsNotAuth(secret: string, expiration: int, issued: int, now: int, id: int)
      requires now <= issued + expiration
      ensures VerifyAuthToken(secret, now, ConfirmationToken(secret, expiration, issued, id)) == KeyErrorRaised
      ensures AuthenticatedUser(secret, now, ConfirmationToken(secret, expiration, issued, id)) == null
    {
      LoadsDumps(secret, expiration, issued, now, map[CONFIRM_CLAIM := Int(id)]);
    }
  }

  /** What `verify_auth_token` does: return a user or `None`, or raise. */
  datatype AuthResult = Returned(user: User?) | KeyErrorRaised

  /** The subject of a permission check: a signed-in user or the anonymous visitor. */
  datatype Subject = Anonymous | Member(user: User)

  /** `AnonymousUser.can`: COMMENT follows the comment switch, LOGIN the registration
      switch, every other value (compound ones included) is refused. */
  predicate AnonymousCan(cfg: Config, perm: nat)
    ensures AnonymousCan(cfg, perm) ==> perm == COMMENT || perm == LOGIN
  {
    if perm == COMMENT then cfg.enableComment
    else if perm == LOGIN then cfg.enableRegister
    else false
  }

  /** `current_user.can(perm)` for either kind of subject. */
  predicate SubjectCan(cfg: Config, s: Subject, perm: nat)
    reads if s.Member? then {s.user} else {}, if s.Member? then {s.user.role} else {}
  {
    match s
    case Anonymous => AnonymousCan(cfg, perm)
    case Member(u) => u.Can(perm)
  }

  /** `current_user.is_administrator()`: never for the anonymous visitor. */
  predicate SubjectIsAdministrator(s: Subject)
    reads if s.Member? then {s.user} else {}, if s.Member? then {s.user.role} else {}
    ensures SubjectIsAdministrator(s) <==>
              s.Member? && s.user.role != null && TestBit(s.user.role.permissions, 4)
  {
    s.Member? && s.user.IsAdministrator()
  }

  /** The anonymous policy: the two switches gate COMMENT and LOGIN, and nothing else
      is ever granted, so an anonymous visitor is never an administrator. */
  lemma AnonymousPolicy(cfg: Config, perm: nat)
    ensures SubjectCan(cfg, Anonymous, COMMENT) == cfg.enableComment
    ensures SubjectCan(cfg, Anonymous, LOGIN) == cfg.enableRegister
    ensures perm != COMMENT && perm != LOGIN ==> !SubjectCan(cfg, Anonymous, perm)
    ensures !SubjectCan(cfg, Anonymous, COMMENT + LOGIN)
    ensures !SubjectIsAdministrator(Anonymous)
  {
  }

  /** A signed-in user is an administrator exactly when it can ADMIN, and a user
      without a role can do nothing non-zero. */
  lemma MemberAdministrator(cfg: Config, u: User)
    ensures SubjectIsAdministrator(Member(u)) <==> SubjectCan(cfg, Member(u), ADMIN)
    ensures u.role == null ==> forall p: nat :: p != 0 ==> !SubjectCan(cfg, Member(u), p)
  {
    if u.role == null {
      forall p: nat | p != 0 ensures !SubjectCan(cfg, Member(u), p) {
      }
    }
  }
}
