/**
 The two access-control rules of the watch list API, as pure predicates over
 the request method, the requesting user (None when nobody is logged in) and,
 for the second rule, the review the request is about. In the repository the
 owner rule is a class nested inside the admin rule, and neither rule is
 attached to any view; here both stand alone.
 */
module Permissions {
  import opened Models

  /** The methods Django REST Framework treats as read-only. */
  const SafeMethods: set<string> := {"GET", "HEAD", "OPTIONS"}

  /** The mutating methods a client normally sends. */
  const MutatingMethods: set<string> := {"POST", "PUT", "PATCH", "DELETE"}

  /** `IsAdminOrReadOnly.has_permission`: reads for everyone, writes for staff only. */
  function IsAdminOrReadOnly(verb: string, user: Option<User>): (granted: bool)
    ensures verb in SafeMethods ==> granted
    ensures verb !in SafeMethods ==> (granted <==> user.Some? && user.value.isStaff)
  {
    if verb in SafeMethods then true
    else user.Some? && user.value.isStaff
  }

  /**
   `ReviewUserorReadOnly.has_object_permission`: reads for everyone, writes
   only for the user who wrote the review.
   */
  function ReviewUserOrReadOnly(verb: string, user: Option<User>, review: Review): (granted: bool)
    ensures verb in SafeMethods ==> granted
    ensures verb !in SafeMethods ==> (granted <==> user.Some? && user.value.id == review.reviewUser)
  {
    if verb in SafeMethods then true
    else user.Some? && user.value.id == review.reviewUser
  }

  /** No mutating method is safe, so the two sets never overlap. */
  lemma MutatingMethodsAreNotSafe(verb: string)
    requires verb in MutatingMethods
    ensures verb !in SafeMethods
  {
    assert verb == "POST" || verb == "PUT" || verb == "PATCH" || verb == "DELETE";
  }

  /**
   On a mutating method the admin rule grants exactly the staff: a missing or
   non-staff user is refused POST, PUT, PATCH and DELETE alike.
   */
  lemma AdminRuleOnMutations(verb: string, user: Option<User>)
    requires verb in MutatingMethods
    ensures IsAdminOrReadOnly(verb, user) <==> user.Some? && user.value.isStaff
  {
    MutatingMethodsAreNotSafe(verb);
  }

  /** The admin rule looks at the user only through the staff flag. */
  lemma AdminRuleSeesOnlyStaffFlag(verb: string, u1: User, u2: User)
    requires u1.isStaff == u2.isStaff
    ensures IsAdminOrReadOnly(verb, Some(u1)) == IsAdminOrReadOnly(verb, Some(u2))
  {
  }

  /**
   The owner rule looks at the review only through its author, and at the user
   only through the identity: being staff neither helps nor hurts.
   */
  lemma OwnerRuleSeesOnlyIdentities(verb: string, u1: User, u2: User, r1: Review, r2: Review)
    requires u1.id == u2.id && r1.reviewUser == r2.reviewUser
    ensures ReviewUserOrReadOnly(verb, Some(u1), r1) == ReviewUserOrReadOnly(verb, Some(u2), r2)
  {
  }

  /**
   On a mutating method the owner rule grants exactly the review's author; a
   staff user who did not write the review is refused like anyone else.
   */
  lemma OwnerRuleOnMutations(verb: string, user: User, review: Review)
    requires verb in MutatingMethods
    ensures ReviewUserOrReadOnly(verb, Some(user), review) <==> user.id == review.reviewUser
  {
    MutatingMethodsAreNotSafe(verb);
  }

  /** Nobody logged in: both rules grant exactly the safe methods. */
  lemma AnonymousGetsExactlySafeMethods(verb: string, review: Review)
    ensures IsAdminOrReadOnly(verb, None) <==> verb in SafeMethods
    ensures ReviewUserOrReadOnly(verb, None, review) <==> verb in SafeMethods
  {
  }
}
