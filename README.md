# flask_blog permission, account and view rules in Dafny

This project models the core rules of the flask_blog web application:

- **Permissions.** Five permission flags are combined into an integer bitmask per role. Roles test, add, remove and reset bits in place. `init_roles` seeds three roles, User, Moderator and Administrator, and marks User as the default.
- **Users.** A new user is given the Administrator role when their address is the configured administrator address, and the default role otherwise. `can` and `is_administrator` answer through the role.
- **Anonymous visitors.** The anonymous visitor may comment when comments are enabled, and may log in when registration is enabled. It can do nothing else.
- **Account tokens.** Signed, time-limited tokens confirm an account, reset a password, change an email address and authenticate API calls. The model covers the claim checks applied to user rows.
- **Request handlers.** The rules the handlers apply:
  - the WRITE gate of post creation;
  - the author-or-ADMIN gate of editing and deleting;
  - the COMMENT gate and 60-second throttle of commenting;
  - the page `-1` rule for the last comment page;
  - the year / month / "m-d" grouping of the archive.

Modules:

- `Optional` holds the `Option` type.
- `Permissions` holds the flags, and Python's `&` and `|` on non-negative integers as recursive functions on `nat`. It also holds the value-level add, has and remove operations, and the finding below.
- `Tokens` is the signed token codec, with the signature abstracted. A token either carries a payload sealed under a key with an expiry instant, or is unreadable. Decoding succeeds only under the same key and no later than the expiry.
- `Roles` holds the `Role` class, whose bitmask is updated in place, and the `RoleTable` class with `InitRoles`.
- `Accounts` holds the `User` class, the `UserStore` table keyed by id, and the anonymous policy.
- `Views` holds the `Blog` class, whose post and comment tables are maps from id to row, and the `Session` class. It also holds the page rule and the archive builder.

## Model

| member | source | states |
|---|---|---|
| Roles.Role.constructor | app/models.py:22-25 | a role created without permissions starts with bitmask 0; given permissions are kept |
| Roles.Role.HasPermission | app/models.py:31-32 | holds exactly when every bit of `perm` is set in the bitmask |
| Permissions.HasIffCovers | app/models.py:31-32 | `m & p == p` holds exactly when every bit of `p` is also a bit of `m` |
| Permissions.HasFlagIffBit | app/models.py:31-32 | for a single flag, `has_permission` is the test of that flag's bit |
| Permissions.CoversUnion | app/models.py:31-32 | a compound permission is held exactly when each of its parts is held |
| Roles.Role.AddPermission | app/models.py:27-29 | new bitmask is the old one plus `perm` unless `perm` was contained; for a flag, the flag is then held and the result is the bitwise union |
| Permissions.AddFlag | app/models.py:27-29 | after adding a flag it is held, and exactly that bit joined the bits held before |
| Roles.Role.RemovePermission | app/models.py:34-36 | new bitmask is the old one minus `perm` when contained; it never grows; a removed flag is no longer held |
| Permissions.RemoveFlag | app/models.py:34-36 | after removing a flag it is not held, and exactly that bit left the bits held before |
| Permissions.RedundantUpdateIsNoOp | app/models.py:27-36 | adding a flag whose bit is set, or removing one whose bit is clear, leaves the bitmask unchanged |
| Permissions.AddThenRemove | app/models.py:27-36 | add followed by remove of an unheld flag restores the original bitmask |
| Permissions.RemoveThenAdd | app/models.py:27-36 | remove followed by add of a held flag restores the original bitmask |
| Roles.Role.ResetPermissions | app/models.py:38-39 | the bitmask becomes 0, so no non-zero permission is held |
| Roles.Role.ReseedPermissions | app/models.py:54-56 | reset then adding the listed permissions in order yields the fold of the as-written add over the list |
| Permissions.AddFlagIsGrant | app/models.py:27-29 | for every single flag, the as-written add equals the bitwise union |
| Roles.AddAllBits | app/models.py:54-56 | adding a list of flags sets exactly the listed bits on top of those already held |
| Roles.SeedMasks | app/models.py:43-49 | the seeded bitmasks are User = 2, Moderator = 14, Administrator = 30, and the default name is a seeded name |
| Roles.RoleTable.ByName | app/models.py:51 | the row returned carries the name and is in the table; none exactly when no row has that name |
| Roles.RoleTable.DefaultRole | app/models.py:87 | the row returned is marked default; none exactly when no row is |
| Roles.RoleTable.FetchOrCreate | app/models.py:51-53 | returns the existing row with that name, or appends a fresh role with bitmask 0 that is not the default; other names resolve as before |
| Roles.RoleTable.SeedRole | app/models.py:51-58 | afterwards the named row exists with the seeded bitmask and default flag; other names resolve to the same rows and stay seeded; rows are only appended |
| Roles.RoleTable.SeedNext | app/models.py:50-58 | one loop step carries the loop invariant from the first `i` names to the first `i+1` |
| Roles.RoleTable.InitRoles | app/models.py:42-59 | afterwards every seeded name resolves to a row with its seeded bitmask and a default flag that is true only for User. Existing rows stay in place and only seed-named rows are added. Every appended row is a fresh object, so a caller may run it twice within its own frame. A run on a table that already has all three roles adds nothing, so a second run reproduces the same rows and bitmasks |
| Accounts.User.constructor | app/models.py:81-89 | a user without a role gets Administrator when the address is the administrator address and that role exists, otherwise the first default role |
| Accounts.User.Can | app/models.py:163-164 | false without a role, otherwise every bit of `perm` is in the role's bitmask |
| Accounts.User.IsAdministrator | app/models.py:166-167 | holds exactly when the role's bitmask has bit 4 (ADMIN) |
| Accounts.MemberAdministrator | app/models.py:163-167 | a signed-in user is an administrator exactly when it can ADMIN; a user without a role can do nothing non-zero |
| Accounts.AnonymousPolicy | app/models.py:216-230 | COMMENT follows the comment switch, LOGIN the registration switch, every other value (compound ones included) is refused, never an administrator |
| Accounts.User.Confirm | app/models.py:106-116 | succeeds and sets `confirmed` exactly when the token decodes with this user's id in `confirm`; otherwise nothing changes |
| Accounts.UserStore.ConfirmationRoundTrip | app/models.py:102-116 | a confirmation token is accepted within its lifetime by the user it was made for and by no other |
| Accounts.UserStore.Lookup | app/models.py:129 | the user with the given integer id, none for a missing or non-integer key |
| Accounts.UserStore.ResetPassword | app/models.py:122-134 | succeeds exactly when the token decodes and its `reset` claim names an existing user, whose password digest is then replaced; no other field of that user changes |
| Accounts.UserStore.ResetNeedsResetClaim | app/models.py:118-134 | confirmation and auth tokens, however valid, name no user to reset |
| Accounts.User.UpdateEmail | app/models.py:158-161 | the address becomes the new one; the avatar digest is refreshed only when the address changed |
| Accounts.User.ChangeEmail | app/models.py:141-156 | succeeds exactly when the token decodes, its `change_email` claim is this user's id, it carries `new_email`, and that address is unused; on success the address is `new_email`, which differs from the old one because the user's own row holds the old address, and the avatar digest is that of the new address; on every failure the user is unchanged |
| Accounts.UserStore.VerifyAuthToken | app/models.py:203-210 | `None` when the token does not decode; a raised KeyError when it decodes without `id`; otherwise the user the `id` claim names, which is a stored user; conversely a decoded `id` claim `i` yields the user stored under `i`, or `None` when there is none |
| Accounts.UserStore.AuthenticatedUser | app/models.py:203-210 | corrected check: `None` when the token does not decode; otherwise the user stored under the decoded `id` claim, and `None` when the claim is missing, never an exception |
| Accounts.UserStore.AuthenticatedUserAgrees | app/models.py:203-210 | the corrected check returns what `verify_auth_token` returns wherever the latter returns, and `None` exactly where it raises |
| Accounts.UserStore.AuthRoundTrip | app/models.py:198-210 | an auth token resolves to its user within its lifetime and to `None` after it |
| Accounts.UserStore.ConfirmationTokenIsNotAuth | app/models.py:203-210 | a live confirmation token decodes but carries no `id` key, so `verify_auth_token` raises on it, while the corrected check returns `None` |
| Accounts.AnonymousCan | app/models.py:218-227 | the anonymous visitor is granted nothing but COMMENT and LOGIN |
| Accounts.SubjectIsAdministrator | app/models.py:229-230 | the anonymous visitor never is; a signed-in user exactly when its role's bitmask has bit 4 (ADMIN) |
| Tokens.Dumps | app/models.py:102-104 | a dumped token is sealed and carries exactly the given payload |
| Tokens.Loads | app/models.py:109 | decodes exactly the tokens sealed under the same key whose expiry is not past, to the payload they were sealed with |
| Tokens.ConfirmationToken | app/models.py:102-104 | sealed under the secret, expiring `expiration` seconds after `now`, with the single claim `confirm` bound to the user id |
| Tokens.ResetToken | app/models.py:118-120 | sealed under the secret, expiring `expiration` seconds after `now`, with the single claim `reset` bound to the user id |
| Tokens.EmailChangeToken | app/models.py:136-139 | sealed under the secret, expiring `expiration` seconds after `now`, with exactly the claims `change_email` (the user id) and `new_email` (the new address) |
| Tokens.AuthToken | app/models.py:198-201 | sealed under the secret, expiring `expiration` seconds after `now`, with the single claim `id` bound to the user id |
| Tokens.LoadsDumps | app/models.py:106-111 | a token decodes to its payload under its key during its lifetime and to nothing after it |
| Tokens.LoadsWrongKey | app/models.py:107-111 | a token made under another key never decodes |
| Tokens.ClaimIsolation | app/models.py:102-139 | each token kind lacks the claim keys the other kinds look for |
| Views.ResolvePage | app/main/views.py:103-105 | a page other than -1 is kept; page -1 with at least one comment resolves to a page of at least 1 |
| Views.LastPageBounds | app/main/views.py:103-105 | page -1 with at least one comment resolves to the page in `[1, count]` whose range holds the last comment; with no comments it resolves to 0 |
| Views.Blog.CreatePost | app/main/views.py:113-125 | anonymous: login required; without WRITE: 403 and nothing stored; a submitted form stores exactly one new post by the user |
| Views.MayModify | app/main/views.py:132-133 | the user may change a post exactly when it is the post's author or its role has the ADMIN bit; the author is compared by id, as the `UserMixin` equality that `User` inherits (app/models.py:66) compares `get_id()`, and a post without an author belongs to nobody |
| Views.CanAdminIsBit | app/models.py:163-164 | `can(ADMIN)` holds exactly when the user has a role whose bitmask has bit 4 |
| Views.Blog.EditPost | app/main/views.py:128-149 | login first, then 404 for a missing post, then 403 unless author or ADMIN; a submitted form replaces title, category, summary and body only |
| Views.Blog.DeletePost | app/main/views.py:152-161 | login first, then 404, then 403 unless author or ADMIN; an allowed request removes exactly that post and keeps every comment, clearing the post reference of the deleted post's comments, since the `Post.comments` relationship (app/models.py:247) has no delete cascade; a refused request changes nothing |
| Views.Blog.AddComment | app/main/views.py:231-257 | 403 without COMMENT before the session is read or written; a throttled request is refused and keeps the stored time; otherwise the stored time becomes `now`, then 404 for a missing post or a missing replied-to comment, else exactly the new comment is stored; reply references stay resolvable |
| Views.Throttled | app/main/views.py:237 | a throttled request comes less than 60 seconds after a stored time |
| Views.ThrottleSpacing | app/main/views.py:236-240 | after a comment at a non-zero time, a request is throttled exactly when it comes less than 60 seconds later, so accepted comments are at least 60 seconds apart; a stored zero and a fresh session throttle nothing |
| Views.NatToStringInjective | app/main/views.py:222 | distinct numbers print differently |
| Views.DateKeyInjective | app/main/views.py:222 | equal "m-d" keys have equal month and day, so posts from different days never share a bucket |
| Views.BuildArchive | app/main/views.py:213-228 | every year/month/day path holds exactly the posts of that day in query order, and no list, day table or month table is empty |
| Views.BucketAppend | app/main/views.py:217-227 | bucketing distributes over concatenation, so buckets keep the query order |
| Views.BucketCount | app/main/views.py:217-227 | a post occurs in the bucket of its own date as often as in the query, and in no other bucket |
| Views.ArchiveCoversEveryPost | app/main/views.py:217-227 | every post is listed under its own year, month and day key |
| Permissions.CompoundAddDoubleCounts | app/models.py:27-29 | with COMMENT held, adding COMMENT+WRITE as written yields MODERATE, so neither the requested permission nor COMMENT is then held |
| Permissions.CompoundAddLeavesFlags | app/models.py:27-29 | with ADMIN held, adding MODERATE+ADMIN as written yields 40, which is not a union of the five flags |
| Permissions.GrantHolds | app/models.py:27-29 | after the corrected add both the new permission and every old bit are held |
| Permissions.GrantHeldIsNoOp | app/models.py:27-29 | the corrected add of a held permission leaves the bitmask unchanged |
| Permissions.GrantKeepsFlagUnion | app/models.py:27-29 | the corrected add of two unions of flags is again within their union |
| Roles.Role.GrantPermission | app/models.py:27-29 | corrected in-place add: the permission is held afterwards, no old bit is lost, and a held permission changes nothing |

## Left out

- The signature and serialisation layer (`itsdangerous`, a JWS signer as in RFC 7515) is abstracted. A token is sealed under a key with an expiry instant, and the cryptography is not modelled. The current time is a parameter.
- Password hashing (`werkzeug`) is a parameter: the new digest is passed to `ResetPassword`.
- The gravatar MD5 digest is a parameter too: a function from the address to the digest. The constructor always computes the digest, since every modelled user has an address.
- Users that are not yet saved (id `None`) are not modelled. Every `User` has an integer id.
- Accounts.NewEmail: a `new_email` claim that is present but not a string is treated as missing. The source would pass it to the email query.
- Accounts.UserStore.Lookup: a non-integer `id` or `reset` claim finds no user. The source hands the value to the ORM's `get`.
- ORM sessions, commits, `url_for`, `to_json`, flashing, redirects and template rendering are not modelled. Handler outcomes are the values of `Response`.
- Pagination internals are not modelled. Only the page number handed to `paginate` is.
- Views.Blog.CreatePost: `PostForm` (app/main/forms.py:37-39) declares only `body`, so as written `create_post` raises AttributeError at app/main/views.py:120 on every valid submission and stores nothing. The model takes title, category, summary and body as a validated draft and stores the post the handler evidently means to store.
- Views.Blog.EditPost: with the same `PostForm`, `edit` raises AttributeError once past the author-or-ADMIN gate, at app/main/views.py:136 on a valid submission and at app/main/views.py:145 on every other request. The model takes the four fields as a draft and shows the form when there is none.
- Views.Blog.AddComment: `CommentForm` (app/main/forms.py:41-43) declares only `body`, so as written `add_comment` raises AttributeError at app/main/views.py:243, after the session write at app/main/views.py:240 and the post lookup, and stores no comment. The model takes `body`, `replay_id`, `name`, `email` and `url` as inputs and stores the comment.
- Form validators, `Category.insert_categories`, the post editor script and the schema migration are not modelled.
- Concurrent requests racing on the session's throttle time are not modelled. Each request is a sequential step.
- Dictionary key order is not modelled. The archive's year, month and day tables are Dafny maps, while the source's dictionaries iterate in the order the keys first appear in the query (app/main/views.py:224-226).

## Findings

| source | as written | input that shows it | evidently intended | confidence | as-written member | corrected member |
|---|---|---|---|---|---|---|
| app/models.py:27-29 | `add_permission` adds `perm` arithmetically whenever not all of its bits are held, so a compound permission that is partly held adds the held bits a second time | bitmask 2 (COMMENT), `add_permission(6)` gives 8 (MODERATE); bitmask 16 (ADMIN), `add_permission(24)` gives 40 | set every bit of `perm`, i.e. bitwise union `permissions \| perm` | high (not executed); `init_roles` only adds single flags, for which both agree (Permissions.AddFlagIsGrant) | Permissions.CompoundAddDoubleCounts | Permissions.GrantHolds |
| app/models.py:203-210 | `verify_auth_token` reads the claim as `data['id']` outside the `try`, so a token that decodes but carries no `id` key raises KeyError | a live confirmation token, e.g. one made for user 1 and presented within its hour | answer "no user" for every token that does not authenticate, as the other claim checks answer `False` by reading their claim with `data.get(...)` | medium (not executed) | Accounts.UserStore.ConfirmationTokenIsNotAuth | Accounts.UserStore.AuthenticatedUser |
