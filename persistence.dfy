/** The database as an object whose tables the views update in place. Every
    method performs the same steps as its view, on the tables themselves, and
    its postcondition says that the tables afterwards, read as one Db value,
    are what the matching function of Accounts or Lifecycle gives. */
module Persistence {
  import opened Models
  import opened Decorators
  import opened Forms
  import opened Database
  import Accounts
  import Lifecycle

  class Store {
    var users: map<UserId, User>
    var profiles: map<UserId, Profile>
    var reports: map<ReportId, PetReport>
    var listings: map<ListingId, PetForAdoption>
    var notifications: map<NotificationId, Notification>
    var nextUser: nat
    var nextReport: nat
    var nextListing: nat
    var nextNotification: nat

    /** All tables read as one value. */
    function State(): Db
      reads this
    {
      Db(users, profiles, reports, listings, notifications, nextUser, nextReport, nextListing, nextNotification)
    }

    predicate Valid()
      reads this
    {
      Database.Valid(State())
    }

    constructor ()
      ensures Valid() && State() == EmptyDb()
    {
      users, profiles, reports, listings, notifications := map[], map[], map[], map[], map[];
      nextUser, nextReport, nextListing, nextNotification := 0, 0, 0, 0;
    }

    /** register_view on a POST. */
    method Register(d: RegistrationData, configuredPasscode: string) returns (outcome: Accounts.RegisterOutcome)
      requires Valid()
      modifies this
      ensures Valid()
      ensures (State(), outcome) == Accounts.Register(old(State()), d, configuredPasscode)
    {
      Accounts.RegisterPreservesValid(State(), d, configuredPasscode);
      var errors := RegistrationErrors(d, users, configuredPasscode);
      if errors != [] {
        outcome := Accounts.RegistrationRefused(errors);
      } else {
        RegistrationValidIff(d, users, configuredPasscode);
        var id := CreateAccount(d);
        outcome := Accounts.Registered(id);
      }
    }

    /** The saving half of register_view: the user row, made staff when the
        admin box was ticked, then the profile row. */
    method CreateAccount(d: RegistrationData) returns (id: UserId)
      requires d.age.Some? ==> d.age.value >= 0
      modifies this
      ensures id == old(nextUser)
      ensures State() == old(State()).(users := old(users)[id := Accounts.NewAccount(d)],
                                       profiles := old(profiles)[id := Accounts.NewAccountProfile(d)],
                                       nextUser := id + 1)
    {
      id := nextUser;
      users := users[id := User(d.username, d.email, d.password, d.firstName, false, false)];
      if d.isAdminRegistration {
        users := users[id := users[id].(isStaff := true)];
      }
      profiles := profiles[id := Accounts.NewAccountProfile(d)];
      nextUser := id + 1;
      assert users == old(users)[id := Accounts.NewAccount(d)];
    }

    /** RegisterView.post, the JSON registration endpoint. */
    method ApiRegister(username: Option<string>, email: Option<string>, password: Option<string>)
      returns (outcome: Accounts.ApiOutcome)
      requires Valid()
      modifies this
      ensures Valid()
      ensures (State(), outcome) == Accounts.ApiRegister(old(State()), username, email, password)
    {
      if !Accounts.Present(username) || !Accounts.Present(password) || !Accounts.Present(email) {
        return Accounts.FieldsMissing;
      }
      if UsernameTaken(users, username.value) {
        return Accounts.ApiUsernameExists;
      }
      if EmailTaken(users, email.value) {
        return Accounts.ApiEmailExists;
      }
      var id := nextUser;
      users := users[id := User(username.value, email.value, password.value, "", false, false)];
      profiles := profiles[id := NewProfile()];
      nextUser := id + 1;
      outcome := Accounts.ApiCreated(id);
    }

    /** admin_promote_user_view on a POST: the user row is saved before the
        profile is read, so a missing profile leaves the user promoted. */
    method Promote(actor: Principal, target: UserId) returns (outcome: Accounts.PromoteOutcome)
      requires Valid()
      modifies this
      ensures Valid()
      ensures (State(), outcome) == Accounts.Promote(old(State()), actor, target)
    {
      ghost var expected := Accounts.Promote(State(), actor, target);
      if !SuperuserRequired(RequestUserOf(State(), actor)) {
        return Accounts.PromoteDenied;
      }
      if AdminCount(users) >= MaxAdmins {
        return Accounts.AdminLimitHit;
      }
      if target !in users {
        return Accounts.PromoteUserNotFound;
      }
      if users[target].isSuperuser || users[target].isStaff {
        return Accounts.AlreadyPrivileged;
      }
      users := users[target := users[target].(isStaff := true)];
      if target !in profiles {
        return Accounts.PromotedWithoutProfile;
      }
      profiles := profiles[target := profiles[target].(role := AdminRole)];
      outcome := Accounts.Promoted;
      assert State() == expected.0;
    }

    /** admin_remove_user_view on a POST: the user is deleted together with
        everything that refers to it. */
    method Remove(actor: Principal, target: UserId) returns (outcome: Accounts.RemoveOutcome)
      requires Valid()
      modifies this
      ensures Valid()
      ensures (State(), outcome) == Accounts.Remove(old(State()), actor, target)
    {
      ghost var result := Accounts.Remove(State(), actor, target);
      var who := RequestUserOf(State(), actor);
      if !StaffRequired(who) {
        return Accounts.RemoveDenied;
      }
      if target !in users {
        return Accounts.RemoveUserNotFound;
      }
      if users[target].isStaff && !who.user.isSuperuser {
        return Accounts.CannotRemoveAdmin;
      }
      if users[target].isSuperuser {
        return Accounts.CannotRemoveSuperuser;
      }
      ghost var expected := DeleteUser(State(), target);
      DeleteUserPreservesValid(State(), target);
      var keptReports := map id | id in reports && reports[id].reporter != target :: reports[id];
      assert keptReports == expected.reports;
      notifications := map id | id in notifications && KeepNotification(notifications[id], target, keptReports)
                               :: notifications[id];
      assert notifications == expected.notifications;
      listings := map id | id in listings && listings[id].lister != target :: listings[id];
      assert listings == expected.listings;
      reports := keptReports;
      profiles := profiles - {target};
      users := users - {target};
      outcome := Accounts.Removed;
      assert State() == expected;
      assert result == (expected, Accounts.Removed);
    }

    /** create_pet_report_view on a POST. */
    method CreateReport(actor: Principal, reportType: string, f: ReportFormData, now: int)
      returns (outcome: Lifecycle.CreateOutcome)
      requires Valid()
      modifies this
      ensures Valid()
      ensures (State(), outcome) == Lifecycle.CreateReport(old(State()), actor, reportType, f, now)
    {
      if RequestUserOf(State(), actor).AnonymousUser? {
        return Lifecycle.NotLoggedIn;
      }
      if !ReportFormValid(f) {
        return Lifecycle.ReportRefused;
      }
      var id := nextReport;
      reports := reports[id := Lifecycle.ReportFromForm(reportType, actor.userId, f, now)];
      nextReport := id + 1;
      outcome := Lifecycle.ReportCreated(id);
    }

    /** admin_put_for_adoption_view on a POST: save the new listing, then close the report. */
    method PutForAdoption(actor: Principal, reportId: ReportId, f: ListingFormData, now: int)
      returns (outcome: Lifecycle.ConvertOutcome)
      requires Valid()
      modifies this
      ensures Valid()
      ensures (State(), outcome) == Lifecycle.PutForAdoption(old(State()), actor, reportId, f, now)
    {
      ghost var expected := Lifecycle.PutForAdoption(State(), actor, reportId, f, now);
      if !StaffRequired(RequestUserOf(State(), actor)) {
        return Lifecycle.ConvertDenied;
      }
      if reportId !in reports || reports[reportId].status != PendingAdoption {
        return Lifecycle.NotPendingAdoption;
      }
      if !ListingFormValid(f) {
        return Lifecycle.ListingRefused;
      }
      var report := reports[reportId];
      var id := nextListing;
      listings := listings[id := Lifecycle.ListingFromReport(report, f, actor.userId, now)];
      nextListing := id + 1;
      reports := reports[reportId := report.(status := Closed)];
      outcome := Lifecycle.Listed(id);
      assert State() == expected.0;
    }

    /** The first superuser by primary key, found by walking the keys upwards. */
    method FindSystemUser() returns (system: Option<UserId>)
      requires Valid()
      ensures system == LowestSuperuser(users)
    {
      var i := 0;
      while i < nextUser
        invariant i <= nextUser
        invariant forall id :: id in users && id < i ==> !users[id].isSuperuser
      {
        if i in users && users[i].isSuperuser {
          assert i in SuperuserIds(users);
          return Some(i);
        }
        i := i + 1;
      }
      assert SuperuserIds(users) == {};
      return None;
    }
  }
}
