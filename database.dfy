/** The persisted state as one value: a table per model, keyed by integer
    primary keys, with the next key each table hands out. Valid() states the
    relational constraints the database keeps (keys below the counters, unique
    usernames, every foreign key pointing at an existing row), and the two
    deletion functions state the on_delete=CASCADE rules. */
module Database {
  import opened Models
  import opened Decorators

  datatype Db = Db(
    users: map<UserId, User>,
    profiles: map<UserId, Profile>,
    reports: map<ReportId, PetReport>,
    listings: map<ListingId, PetForAdoption>,
    notifications: map<NotificationId, Notification>,
    nextUser: nat,
    nextReport: nat,
    nextListing: nat,
    nextNotification: nat)

  /** A store with no rows. */
  function EmptyDb(): (db: Db)
    ensures Valid(db)
    ensures db.users == map[] && db.reports == map[] && db.listings == map[]
  {
    Db(map[], map[], map[], map[], map[], 0, 0, 0, 0)
  }

  predicate UniqueUsernames(users: map<UserId, User>) {
    forall a, b :: a in users && b in users && users[a].username == users[b].username ==> a == b
  }

  predicate NotificationLinksValid(n: Notification, users: map<UserId, User>, reports: map<ReportId, PetReport>) {
    n.recipient in users && (n.petReport.Some? ==> n.petReport.value in reports)
  }

  /** The constraints the tables keep: every key is below its table's counter
      (so the next key is always fresh), usernames are unique, and every
      foreign key points at an existing row. */
  predicate Valid(db: Db)
    ensures Valid(db) ==>
              && db.nextUser !in db.users && db.nextReport !in db.reports
              && db.nextListing !in db.listings && db.nextNotification !in db.notifications
  {
    && (forall id :: id in db.users ==> id < db.nextUser)
    && (forall id :: id in db.reports ==> id < db.nextReport)
    && (forall id :: id in db.listings ==> id < db.nextListing)
    && (forall id :: id in db.notifications ==> id < db.nextNotification)
    && UniqueUsernames(db.users)
    && db.profiles.Keys <= db.users.Keys
    && (forall id :: id in db.reports ==> db.reports[id].reporter in db.users)
    && (forall id :: id in db.listings ==> db.listings[id].lister in db.users)
    && (forall id :: id in db.notifications ==>
          NotificationLinksValid(db.notifications[id], db.users, db.reports))
  }

  /** The user a request acts as: the session's user when that user still exists. */
  datatype Principal = Anonymous | Session(userId: UserId)

  function RequestUserOf(db: Db, actor: Principal): (who: RequestUser)
    ensures who.AuthenticatedUser? <==> actor.Session? && actor.userId in db.users
    ensures who.AuthenticatedUser? ==> who.user == db.users[actor.userId]
  {
    if actor.Session? && actor.userId in db.users then AuthenticatedUser(db.users[actor.userId])
    else AnonymousUser
  }

  /** Deleting a report also deletes the notifications linked to it. */
  function DeleteReport(db: Db, id: ReportId): (r: Db)
    ensures r.reports == db.reports - {id}
    ensures forall n :: n in r.notifications ==> r.notifications[n].petReport != Some(id)
    ensures forall n :: n in db.notifications && db.notifications[n].petReport != Some(id) ==>
              n in r.notifications && r.notifications[n] == db.notifications[n]
    ensures r.notifications.Keys <= db.notifications.Keys
    ensures r.users == db.users && r.profiles == db.profiles && r.listings == db.listings
    ensures r.nextUser == db.nextUser && r.nextReport == db.nextReport
    ensures r.nextListing == db.nextListing && r.nextNotification == db.nextNotification
    ensures Valid(db) ==> Valid(r)
  {
    db.(reports := db.reports - {id},
        notifications := map n | n in db.notifications && db.notifications[n].petReport != Some(id)
                                :: db.notifications[n])
  }

  predicate KeepNotification(n: Notification, gone: UserId, reports: map<ReportId, PetReport>) {
    n.recipient != gone && (n.petReport.None? || n.petReport.value in reports)
  }

  /** Deleting a user deletes their profile, their reports, their listings and
      their notifications, and with the reports every notification linked to one. */
  function DeleteUser(db: Db, u: UserId): (r: Db)
    ensures r.users == db.users - {u}
    ensures r.profiles == db.profiles - {u}
    ensures forall id :: id in r.reports ==> id in db.reports && r.reports[id] == db.reports[id]
    ensures forall id :: id in db.reports ==> (id in r.reports <==> db.reports[id].reporter != u)
    ensures forall id :: id in r.listings ==> id in db.listings && r.listings[id] == db.listings[id]
    ensures forall id :: id in db.listings ==> (id in r.listings <==> db.listings[id].lister != u)
    ensures forall id :: id in r.notifications ==>
              id in db.notifications && r.notifications[id] == db.notifications[id]
              && r.notifications[id].recipient != u
    ensures forall id :: id in db.notifications ==>
              (id in r.notifications <==> KeepNotification(db.notifications[id], u, r.reports))
    ensures r.nextUser == db.nextUser && r.nextReport == db.nextReport
    ensures r.nextListing == db.nextListing && r.nextNotification == db.nextNotification
  {
    var reports := map id | id in db.reports && db.reports[id].reporter != u :: db.reports[id];
    db.(users := db.users - {u},
        profiles := db.profiles - {u},
        reports := reports,
        listings := map id | id in db.listings && db.listings[id].lister != u :: db.listings[id],
        notifications := map id | id in db.notifications && KeepNotification(db.notifications[id], u, reports)
                                :: db.notifications[id])
  }

  /** Deleting a user keeps every foreign key pointing at an existing row:
      the cascade removes exactly what would otherwise dangle. */
  lemma DeleteUserPreservesValid(db: Db, u: UserId)
    requires Valid(db)
    ensures Valid(DeleteUser(db, u))
  {
    var r := DeleteUser(db, u);
    forall id | id in r.reports ensures r.reports[id].reporter in r.users {
      assert db.reports[id].reporter != u;
    }
    forall id | id in r.listings ensures r.listings[id].lister in r.users {
      assert db.listings[id].lister != u;
    }
    forall id | id in r.notifications
      ensures NotificationLinksValid(r.notifications[id], r.users, r.reports)
    {
      assert KeepNotification(db.notifications[id], u, r.reports);
    }
  }

  /** A notification about a report of the deleted user goes with that report. */
  lemma DeleteUserDropsLinkedNotifications(db: Db, u: UserId, n: NotificationId)
    requires n in db.notifications && db.notifications[n].petReport.Some?
    requires db.notifications[n].petReport.value in db.reports
    requires db.reports[db.notifications[n].petReport.value].reporter == u
    ensures n !in DeleteUser(db, u).notifications
  {
    var r := DeleteUser(db, u);
    assert db.notifications[n].petReport.value !in r.reports;
  }

  /** The lowest-keyed superuser, if any: the account the automated job lists pets under. */
  function SuperuserIds(users: map<UserId, User>): set<UserId> {
    set id | id in users && users[id].isSuperuser
  }

  ghost function MinOf(s: set<nat>): (m: nat)
    requires s != {}
    ensures m in s && forall y :: y in s ==> m <= y
    decreases |s|
  {
    var x :| x in s;
    if s == {x} then x
    else
      var m' := MinOf(s - {x});
      assert forall y :: y in s ==> y == x || y in s - {x};
      if x <= m' then x else m'
  }

  ghost function LowestSuperuser(users: map<UserId, User>): (r: Option<UserId>)
    ensures r.None? <==> SuperuserIds(users) == {}
    ensures r.Some? ==> r.value in users && users[r.value].isSuperuser
    ensures r.Some? ==> forall id :: id in users && users[id].isSuperuser ==> r.value <= id
  {
    var s := SuperuserIds(users);
    if s == {} then None
    else
      var m := MinOf(s);
      assert forall id :: id in users && users[id].isSuperuser ==> id in s;
      Some(m)
  }
}
