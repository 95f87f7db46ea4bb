/** The `authenticated` access predicate. */
module Access {

  /** `req.user` as a request carries it: absent, `null`, or a user document. */
  datatype UserField = Absent | NullUser | Present(id: nat)

  /** `Boolean(user)`: only a present user document is truthy. */
  function Authenticated(user: UserField): (r: bool)
    ensures r <==> user.Present?
  {
    match user
    case Present(_) => true
    case _ => false
  }

  /** The three cases of the access predicate's tests. */
  lemma AuthenticatedCases(id: nat)
    ensures Authenticated(Present(id))
    ensures !Authenticated(NullUser)
    ensures !Authenticated(Absent)
  {
  }
}
