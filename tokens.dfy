/**
 * The signed, time-limited account tokens, with the signature layer
 * abstracted: a token either carries a payload sealed under a secret key
 * together with its expiry instant, or is unreadable text. Decoding
 * succeeds only under the same key and no later than the expiry, which is
 * the behaviour the account code relies on; the cryptography itself is
 * not modelled.
 */
module Tokens {
  import opened Optional

  /** A JSON value carried in a token payload. */
  datatype Value = Int(i: int) | Str(s: string)

  /** A decoded token: the JSON object of its claims. */
  type Payload = map<string, Value>

  datatype Token =
    | Sealed(key: string, payload: Payload, expiresAt: int)
    | Unreadable(text: string)

  /** The default lifetime of the account tokens, in seconds. */
  const DEFAULT_EXPIRATION: int := 3600

  // Claim keys of the four token kinds.
  const CONFIRM_CLAIM := "confirm"
  const RESET_CLAIM := "reset"
  const CHANGE_EMAIL_CLAIM := "change_email"
  const NEW_EMAIL_CLAIM := "new_email"
  const AUTH_CLAIM := "id"

  /** `Serializer(secret, expiration).dumps(payload)` at clock time `now`. */
  function Dumps(secret: string, expiration: int, now: int, payload: Payload): (t: Token)
    ensures t.Sealed? && t.payload == payload
  {
    Sealed(secret, payload, now + expiration)
  }

  /** `Serializer(secret).loads(token)` at clock time `now`; `None` stands for the
      exception raised on a bad signature, a malformed token or an expired one. */
  function Loads(secret: string, now: int, t: Token): (r: Option<Payload>)
    ensures r.Some? <==> t.Sealed? && t.key == secret && now <= t.expiresAt
    ensures r.Some? ==> r.value == t.payload
  {
    if t.Sealed? && t.key == secret && now <= t.expiresAt then Some(t.payload) else None
  }

  /** Python's `dict.get(key)`. */
  function Get(data: Payload, key: string): Option<Value> {
    if key in data then Some(data[key]) else None
  }

  function ConfirmationToken(secret: string, expiration: int, now: int, id: int): (t: Token)
    ensures t.Sealed? && t.key == secret && t.expiresAt == now + expiration
    ensures t.payload.Keys == {CONFIRM_CLAIM} && t.payload[CONFIRM_CLAIM] == Int(id)
  {
    Dumps(secret, expiration, now, map[CONFIRM_CLAIM := Int(id)])
  }

  function ResetToken(secret: string, expiration: int, now: int, id: int): (t: Token)
    ensures t.Sealed? && t.key == secret && t.expiresAt == now + expiration
    ensures t.payload.Keys == {RESET_CLAIM} && t.payload[RESET_CLAIM] == Int(id)
  {
    Dumps(secret, expiration, now, map[RESET_CLAIM := Int(id)])
  }

  function EmailChangeToken(secret: string, expiration: int, now: int, id: int, newEmail: string): (t: Token)
    ensures t.Sealed? && t.key == secret && t.expiresAt == now + expiration
    ensures t.payload.Keys == {CHANGE_EMAIL_CLAIM, NEW_EMAIL_CLAIM}
    ensures t.payload[CHANGE_EMAIL_CLAIM] == Int(id) && t.payload[NEW_EMAIL_CLAIM] == Str(newEmail)
  {
    Dumps(secret, expiration, now, map[CHANGE_EMAIL_CLAIM := Int(id), NEW_EMAIL_CLAIM := Str(newEmail)])
  }

  function AuthToken(secret: string, expiration: int, now: int, id: int): (t: Token)
    ensures t.Sealed? && t.key == secret && t.expiresAt == now + expiration
    ensures t.payload.Keys == {AUTH_CLAIM} && t.payload[AUTH_CLAIM] == Int(id)
  {
    Dumps(secret, expiration, now, map[AUTH_CLAIM := Int(id)])
  }

  /** A token decodes, under the key it was made with, to the payload it was made
      from for its whole lifetime, and to nothing once it has expired. */
  lemma LoadsDumps(secret: string, expiration: int, issued: int, now: int, payload: Payload)
    ensures now <= issued + expiration ==>
              Loads(secret, now, Dumps(secret, expiration, issued, payload)) == Some(payload)
    ensures now > issued + expiration ==>
              Loads(secret, now, Dumps(secret, expiration, issued, payload)) == None
  {
  }

  /** A token made under another key never decodes. */
  lemma LoadsWrongKey(secret: string, other: string, expiration: int, issued: int, now: int, payload: Payload)
    requires secret != other
    ensures Loads(other, now, Dumps(secret, expiration, issued, payload)) == None
  {
  }

  /** The four token kinds carry disjoint claim keys, so a token of one kind
      never presents the claim another kind looks for. */
  lemma ClaimIsolation(secret: string, expiration: int, now: int, id: int, e: string)
    ensures Get(ConfirmationToken(secret, expiration, now, id).payload, RESET_CLAIM) == None
    ensures Get(ConfirmationToken(secret, expiration, now, id).payload, CHANGE_EMAIL_CLAIM) == None
    ensures Get(ConfirmationToken(secret, expiration, now, id).payload, AUTH_CLAIM) == None
    ensures Get(ResetToken(secret, expiration, now, id).payload, CONFIRM_CLAIM) == None
    ensures Get(ResetToken(secret, expiration, now, id).payload, CHANGE_EMAIL_CLAIM) == None
    ensures Get(ResetToken(secret, expiration, now, id).payload, AUTH_CLAIM) == None
    ensures Get(EmailChangeToken(secret, expiration, now, id, e).payload, CONFIRM_CLAIM) == None
    ensures Get(EmailChangeToken(secret, expiration, now, id, e).payload, RESET_CLAIM) == None
    ensures Get(EmailChangeToken(secret, expiration, now, id, e).payload, AUTH_CLAIM) == None
    ensures Get(AuthToken(secret, expiration, now, id).payload, CONFIRM_CLAIM) == None
    ensures Get(AuthToken(secret, expiration, now, id).payload, RESET_CLAIM) == None
    ensures Get(AuthToken(secret, expiration, now, id).payload, CHANGE_EMAIL_CLAIM) == None
  {
  }
}
