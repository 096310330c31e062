/** Account operations of the web views: registration through the page and
    through the JSON endpoint, promotion of a user to admin, and removal of a
    user. Each is a function from the store before the request to the store
    after it and the request's outcome; class Persistence.Store performs the
    same steps in place. */
module Accounts {
  import opened Models
  import opened Decorators
  import opened Forms
  import opened Database

  function Max(a: int, b: int): int {
    if a >= b then a else b
  }

  // ---------------------------------------------------------------- register_view

  datatype RegisterOutcome = RegistrationRefused(errors: seq<RegistrationError>) | Registered(id: UserId)

  /** register_view on a POST: a valid form creates the user (staff exactly when
      the admin box was ticked) and then a profile carrying the submitted details,
      with role 'admin' or 'user' to match. */
  function Register(db: Db, d: RegistrationData, configuredPasscode: string): (r: (Db, RegisterOutcome))
    ensures r.1.Registered? <==> RegistrationAcceptable(d, db.users, configuredPasscode)
    ensures r.1.RegistrationRefused? ==> r.0 == db && r.1.errors != []
    ensures r.1.Registered? ==>
              && r.0.users.Keys == db.users.Keys + {r.1.id}
              && r.0.profiles.Keys == db.profiles.Keys + {r.1.id}
              && r.0.users == db.users[r.1.id := NewAccount(d)]
              && r.0.profiles == db.profiles[r.1.id := NewAccountProfile(d)]
              && r.0.reports == db.reports && r.0.listings == db.listings
              && r.0.notifications == db.notifications
    ensures Valid(db) && r.1.Registered? ==> r.1.id !in db.users && r.1.id !in db.profiles
  {
    var errors := RegistrationErrors(d, db.users, configuredPasscode);
    RegistrationValidIff(d, db.users, configuredPasscode);
    if errors != [] then (db, RegistrationRefused(errors))
    else
      var id := db.nextUser;
      (db.(users := db.users[id := NewAccount(d)], profiles := db.profiles[id := NewAccountProfile(d)],
           nextUser := id + 1),
       Registered(id))
  }

  /** The user record a successful registration creates. */
  function NewAccount(d: RegistrationData): (u: User)
    ensures u.username == d.username && u.email == d.email && u.password == d.password
    ensures u.firstName == d.firstName
    ensures u.isStaff == d.isAdminRegistration && !u.isSuperuser
  {
    User(d.username, d.email, d.password, d.firstName, d.isAdminRegistration, false)
  }

  /** The profile a successful registration creates. */
  function NewAccountProfile(d: RegistrationData): (p: Profile)
    requires d.age.Some? ==> d.age.value >= 0
    ensures p.role == (if d.isAdminRegistration then AdminRole else UserRole)
    ensures d.age.Some? ==> p.age.Some? && p.age.value == d.age.value
    ensures d.age.None? ==> p.age.None?
    ensures p.city == Some(d.city) && p.phoneNumber == Some(d.phoneNumber)
    ensures p.picture == DefaultProfilePicture
  {
    Profile(if d.isAdminRegistration then AdminRole else UserRole,
            if d.age.Some? then Some(d.age.value as nat) else None,
            Some(d.city), Some(d.phoneNumber), DefaultProfilePicture)
  }

  /** A registration keeps the store's constraints: the new key is fresh and the
      new username unused. */
  lemma RegisterPreservesValid(db: Db, d: RegistrationData, configuredPasscode: string)
    requires Valid(db)
    ensures Valid(Register(db, d, configuredPasscode).0)
  {
    var r := Register(db, d, configuredPasscode);
    if r.1.Registered? {
      var id := r.1.id;
      forall a, b | a in r.0.users && b in r.0.users && r.0.users[a].username == r.0.users[b].username
        ensures a == b
      {
        if a != id && b != id {
          assert db.users[a].username == db.users[b].username;
        }
      }
    }
  }

  /** Registration never takes the number of admins past three, and never raises
      a count that is already at or past it. */
  lemma RegisterKeepsAdminLimit(db: Db, d: RegistrationData, configuredPasscode: string)
    ensures AdminCount(Register(db, d, configuredPasscode).0.users) <= Max(AdminCount(db.users), MaxAdmins)
  {
    var r := Register(db, d, configuredPasscode);
    if r.1.Registered? {
      AdminCountUpdate(db.users, r.1.id, r.0.users[r.1.id]);
      assert r.0.users == db.users[r.1.id := r.0.users[r.1.id]];
    }
  }

  // ---------------------------------------------------------------- RegisterView.post

  datatype ApiOutcome = FieldsMissing | ApiUsernameExists | ApiEmailExists | ApiCreated(id: UserId)

  /** A submitted value counts as present when it is there and not empty. */
  predicate Present(v: Option<string>) {
    v.Some? && v.value != ""
  }

  /** The JSON registration endpoint: username, email and password must all be
      present and the username and email unused; then a plain user and a profile
      with every default are created. The password rules of the form do not apply. */
  function ApiRegister(db: Db, username: Option<string>, email: Option<string>, password: Option<string>)
    : (r: (Db, ApiOutcome))
    ensures !Present(username) || !Present(email) || !Present(password) ==> r == (db, FieldsMissing)
    ensures r.1.ApiCreated? <==>
              Present(username) && Present(email) && Present(password)
              && !UsernameTaken(db.users, username.value) && !EmailTaken(db.users, email.value)
    ensures !r.1.ApiCreated? ==> r.0 == db
    ensures r.1.ApiCreated? ==>
              && r.0.users == db.users[r.1.id := User(username.value, email.value, password.value, "", false, false)]
              && r.0.profiles == db.profiles[r.1.id := NewProfile()]
              && r.0.reports == db.reports && r.0.listings == db.listings
              && r.0.notifications == db.notifications
    ensures Valid(db) && r.1.ApiCreated? ==> r.1.id !in db.users && r.1.id !in db.profiles
    ensures Valid(db) ==> Valid(r.0)
  {
    if !Present(username) || !Present(password) || !Present(email) then (db, FieldsMissing)
    else if UsernameTaken(db.users, username.value) then (db, ApiUsernameExists)
    else if EmailTaken(db.users, email.value) then (db, ApiEmailExists)
    else
      var id := db.nextUser;
      var user := User(username.value, email.value, password.value, "", false, false);
      (db.(users := db.users[id := user], profiles := db.profiles[id := NewProfile()], nextUser := id + 1),
       ApiCreated(id))
  }

  // ---------------------------------------------------------------- admin_promote_user_view

  /** Setting a user's staff flag touches no key and no username. */
  lemma StaffFlagKeepsValid(db: Db, target: UserId)
    requires target in db.users
    ensures Valid(db) ==> Valid(db.(users := db.users[target := db.users[target].(isStaff := true)]))
  {
    var users := db.users[target := db.users[target].(isStaff := true)];
    assert users.Keys == db.users.Keys;
    if Valid(db) {
      forall a, b | a in users && b in users && users[a].username == users[b].username
        ensures a == b
      {
        assert users[a].username == db.users[a].username && users[b].username == db.users[b].username;
      }
    }
  }

  /** Changing a profile's role touches no key. */
  lemma ProfileRoleKeepsValid(db: Db, target: UserId)
    requires target in db.profiles
    ensures Valid(db) ==> Valid(db.(profiles := db.profiles[target := db.profiles[target].(role := AdminRole)]))
  {
  }

  datatype PromoteOutcome =
    | PromoteDenied        // the superuser gate refused the request
    | AdminLimitHit        // three admins already exist
    | PromoteUserNotFound
    | AlreadyPrivileged    // the target is already staff or superuser
    | Promoted
    | PromotedWithoutProfile  // is_staff was saved, then reading the missing profile raised

  /** admin_promote_user_view on a POST. The admin limit is checked before the
      target is even looked up. */
  function Promote(db: Db, actor: Principal, target: UserId): (r: (Db, PromoteOutcome))
    ensures r.1 == Promoted <==>
              SuperuserRequired(RequestUserOf(db, actor)) && AdminCount(db.users) < MaxAdmins
              && target in db.users && !db.users[target].isStaff && !db.users[target].isSuperuser
              && target in db.profiles
    ensures r.1 == PromotedWithoutProfile <==>
              SuperuserRequired(RequestUserOf(db, actor)) && AdminCount(db.users) < MaxAdmins
              && target in db.users && !db.users[target].isStaff && !db.users[target].isSuperuser
              && target !in db.profiles
    ensures r.1 == AlreadyPrivileged <==>
              SuperuserRequired(RequestUserOf(db, actor)) && AdminCount(db.users) < MaxAdmins
              && target in db.users && (db.users[target].isStaff || db.users[target].isSuperuser)
    ensures !SuperuserRequired(RequestUserOf(db, actor)) ==> r == (db, PromoteDenied)
    ensures SuperuserRequired(RequestUserOf(db, actor)) && AdminCount(db.users) >= MaxAdmins ==>
              r == (db, AdminLimitHit)
    ensures r.1 != Promoted && r.1 != PromotedWithoutProfile ==> r.0 == db
    ensures r.1 == Promoted || r.1 == PromotedWithoutProfile ==>
              && target in db.users && r.0.users == db.users[target := db.users[target].(isStaff := true)]
              && AdminCount(db.users) < MaxAdmins
              && r.0.reports == db.reports && r.0.listings == db.listings
              && r.0.notifications == db.notifications
    ensures r.1 == Promoted ==> r.0.profiles == db.profiles[target := db.profiles[target].(role := AdminRole)]
    ensures r.1 == PromotedWithoutProfile ==> r.0.profiles == db.profiles && target !in db.profiles
    ensures Valid(db) ==> Valid(r.0)
  {
    if !SuperuserRequired(RequestUserOf(db, actor)) then (db, PromoteDenied)
    else if AdminCount(db.users) >= MaxAdmins then (db, AdminLimitHit)
    else if target !in db.users then (db, PromoteUserNotFound)
    else if db.users[target].isSuperuser || db.users[target].isStaff then (db, AlreadyPrivileged)
    else
      var users := db.users[target := db.users[target].(isStaff := true)];
      StaffFlagKeepsValid(db, target);
      if target in db.profiles then
        ProfileRoleKeepsValid(db.(users := users), target);
        (db.(users := users, profiles := db.profiles[target := db.profiles[target].(role := AdminRole)]), Promoted)
      else
        (db.(users := users), PromotedWithoutProfile)
  }

  /** A promotion adds exactly one admin, so the admin count never passes three
      through promotion and never grows once it is at three or more. */
  lemma PromoteKeepsAdminLimit(db: Db, actor: Principal, target: UserId)
    ensures var r := Promote(db, actor, target);
            (r.1 == Promoted ==> AdminCount(r.0.users) == AdminCount(db.users) + 1)
            && AdminCount(r.0.users) <= Max(AdminCount(db.users), MaxAdmins)
  {
    var r := Promote(db, actor, target);
    if r.1 == Promoted || r.1 == PromotedWithoutProfile {
      AdminCountUpdate(db.users, target, db.users[target].(isStaff := true));
    }
  }

  // ---------------------------------------------------------------- admin_remove_user_view

  datatype RemoveOutcome =
    | RemoveDenied          // the staff gate refused the request
    | RemoveUserNotFound
    | CannotRemoveAdmin     // a non-superuser tried to remove a staff member
    | CannotRemoveSuperuser
    | Removed

  /** admin_remove_user_view on a POST. The staff-target check comes before the
      superuser-target check; a removal deletes the user with every cascade. */
  function Remove(db: Db, actor: Principal, target: UserId): (r: (Db, RemoveOutcome))
    ensures r.1 == Removed <==>
              && StaffRequired(RequestUserOf(db, actor))
              && target in db.users && !db.users[target].isSuperuser
              && (!db.users[target].isStaff || RequestUserOf(db, actor).user.isSuperuser)
    ensures r.1 == Removed ==> r.0 == DeleteUser(db, target)
    ensures r.1 != Removed ==> r.0 == db
    ensures !StaffRequired(RequestUserOf(db, actor)) ==> r.1 == RemoveDenied
    ensures Valid(db) ==> Valid(r.0)
  {
    var who := RequestUserOf(db, actor);
    if !StaffRequired(who) then (db, RemoveDenied)
    else if target !in db.users then (db, RemoveUserNotFound)
    else if db.users[target].isStaff && !who.user.isSuperuser then (db, CannotRemoveAdmin)
    else if db.users[target].isSuperuser then (db, CannotRemoveSuperuser)
    else
      assert Valid(db) ==> Valid(DeleteUser(db, target)) by {
        if Valid(db) { DeleteUserPreservesValid(db, target); }
      }
      (DeleteUser(db, target), Removed)
  }

  /** Whoever passes the staff gate is staff, so no one can remove themselves. */
  lemma NoSelfRemoval(db: Db, id: UserId)
    ensures Remove(db, Session(id), id).1 != Removed
    ensures Remove(db, Session(id), id).0 == db
  {
  }

  /** A staff member who is not a superuser can never remove a superuser. */
  lemma AdminCannotRemoveSuperuser(db: Db, actor: UserId, target: UserId)
    requires actor in db.users && IsAdmin(db.users[actor])
    requires target in db.users && db.users[target].isSuperuser
    ensures Remove(db, Session(actor), target) == (db, CannotRemoveAdmin) || Remove(db, Session(actor), target) == (db, CannotRemoveSuperuser)
  {
  }

  /** Removing a user never raises the admin count. */
  lemma RemoveNeverAddsAdmins(db: Db, actor: Principal, target: UserId)
    ensures AdminCount(Remove(db, actor, target).0.users) <= AdminCount(db.users)
  {
    var r := Remove(db, actor, target);
    if r.1 == Removed {
      AdminCountRemove(db.users, {target});
    }
  }
}
