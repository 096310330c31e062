/** The two access gates wrapped around the administrative views. A gate
    admits the request or sends it to the login page; a rejected request runs
    none of the view's code. */
module Decorators {
  import opened Models

  /** The user a request carries: anonymous, or an authenticated user record. */
  datatype RequestUser = AnonymousUser | AuthenticatedUser(user: User)

  /** staff_required: authenticated and marked staff. */
  predicate StaffRequired(who: RequestUser): (admitted: bool)
    ensures admitted ==> who.AuthenticatedUser?
    ensures who.AuthenticatedUser? ==> (admitted <==> who.user.isStaff)
  {
    who.AuthenticatedUser? && who.user.isStaff
  }

  /** superuser_required: authenticated and marked superuser. */
  predicate SuperuserRequired(who: RequestUser): (admitted: bool)
    ensures admitted ==> who.AuthenticatedUser?
    ensures who.AuthenticatedUser? ==> (admitted <==> who.user.isSuperuser)
  {
    who.AuthenticatedUser? && who.user.isSuperuser
  }

  /** Neither gate admits an anonymous request. */
  lemma AnonymousRejected()
    ensures !StaffRequired(AnonymousUser) && !SuperuserRequired(AnonymousUser)
  {
  }

  /** Being a superuser does not open the staff gate: the two flags are independent. */
  lemma SuperuserWithoutStaffRejected(u: User)
    requires u.isSuperuser && !u.isStaff
    ensures SuperuserRequired(AuthenticatedUser(u))
    ensures !StaffRequired(AuthenticatedUser(u))
  {
  }

  /** A staff member who is not a superuser passes the staff gate but not the superuser gate. */
  lemma AdminOnlyPassesStaffGate(u: User)
    requires IsAdmin(u)
    ensures StaffRequired(AuthenticatedUser(u))
    ensures !SuperuserRequired(AuthenticatedUser(u))
  {
  }
}
