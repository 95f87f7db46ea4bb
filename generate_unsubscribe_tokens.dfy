/** The `emailUnsubscribeTokens` collection: one record per signed token,
    keyed by the token id, pointing at the email it unsubscribes from, with an
    expiry date filled in on create. */
module UnsubscribeTokens {
  import opened Common
  import opened UnsubscribeToken

  /** The default lifetime of a record, in milliseconds: 30 days. */
  const RecordLifetime: int := 30 * 24 * 60 * 60 * 1000

  /** The `expiresAt` a change leaves: a create without one gets now plus the
      lifetime; every other value, and every other operation, is kept. */
  function ExpiresAtOnChange(op: Operation, expiresAt: Option<int>, now: int): (r: Option<int>)
    ensures r.Some? <==> expiresAt.Some? || op == Create
    ensures expiresAt.Some? ==> r == expiresAt
  {
    if op == Create && expiresAt.None? then Some(now + RecordLifetime) else expiresAt
  }

  /** The `data` of a change to a token record, updated in place by the hook. */
  class TokenData {
    var id: string
    var emailId: Option<nat>
    var expiresAt: Option<int>

    constructor (id: string, emailId: Option<nat>, expiresAt: Option<int>)
      ensures this.id == id && this.emailId == emailId && this.expiresAt == expiresAt
    {
      this.id, this.emailId, this.expiresAt := id, emailId, expiresAt;
    }

    /** The collection's beforeChange hook. */
    method BeforeChange(op: Operation, now: int)
      modifies this
      ensures expiresAt == ExpiresAtOnChange(op, old(expiresAt), now)
      ensures id == old(id) && emailId == old(emailId)
    {
      if op == Create {
        if expiresAt.None? {
          expiresAt := Some(now + RecordLifetime);
        }
      }
    }
  }

  /** A record created without `expiresAt` expires exactly 30 days, the signed
      token's lifetime, after it was made; an update leaves an absent date
      absent. */
  lemma DefaultLifetimeIsTokenLifetime(now: int)
    ensures ExpiresAtOnChange(Create, None, now) == Some(now + UnsubscribeTokenExpiration)
    ensures ExpiresAtOnChange(Update, None, now) == None
  {
  }

  /** A token and the record created with it at the same instant go stale
      together: at any later time the token still verifies exactly when the
      record's date is not yet past (`expiresAt < now` is the expiry test of
      the unsubscribe endpoint). */
  lemma TokenAndRecordExpireTogether(secret: Option<string>, made: int, later: int, tokenId: string, c: Codec)
    requires Sound(c) && !MissingSecret(secret)
    ensures var expiresAt := ExpiresAtOnChange(Create, None, made).value;
      Verify(secret, later, Generate(secret, made, tokenId, c).value, c).Some? <==> !(expiresAt < later)
  {
    VerifyGenerated(secret, made, later, tokenId, c);
  }
}
