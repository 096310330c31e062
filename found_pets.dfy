/** The scheduled job that turns approved, unclaimed Found reports into adoption
    listings once they are more than fifteen days old. Each eligible report is
    handled on its own: when any step for it fails, the failure is recorded and the
    job moves on to the next report. The job acts as the superuser with the
    lowest key, and does nothing at all when there is no superuser. */
module FoundPets {
  import opened Models
  import opened Database
  import Persistence

  /** The waiting period, in seconds. */
  const FifteenDays: int := 15 * 24 * 60 * 60

  /** A report the job picks up at time `now`. The age test is strict: a report
      exactly fifteen days old is not yet eligible. */
  predicate Eligible(report: PetReport, now: int): (eligible: bool)
    ensures eligible ==> report.reportType == "Found" && report.status == Open && report.isApproved
    ensures eligible ==> report.dateReported + FifteenDays < now
    ensures (report.reportType == "Found" && report.status == Open && report.isApproved
             && report.dateReported + FifteenDays < now) ==> eligible
  {
    && report.reportType == "Found"
    && report.status == Open
    && report.isApproved
    && report.dateReported < now - FifteenDays
  }

  /** The rows the job's query selects. */
  function EligibleIds(reports: map<ReportId, PetReport>, now: int): (ids: set<ReportId>)
    ensures ids <= reports.Keys
    ensures forall id :: id in reports ==> (id in ids <==> Eligible(reports[id], now))
  {
    set id | id in reports && Eligible(reports[id], now)
  }

  /** What goes wrong for one report beyond the source's own checks: the listing
      insert fails, or the listing is stored and then the report update fails. */
  datatype Fault = NoFault | CreateFails | SaveFails

  /** Everything the job takes from outside the tables: the lister, the clock,
      which storage writes fail, and the date formatting of the description. */
  datatype JobEnv = JobEnv(
    system: UserId,
    now: int,
    faults: map<ReportId, Fault>,
    dateText: int -> string)

  function FaultFor(env: JobEnv, id: ReportId): Fault {
    if id in env.faults then env.faults[id] else NoFault
  }

  /** The listing the job creates for a report. The description needs the event
      date; the job cannot build one for a report without it. */
  function AutoListing(report: PetReport, env: JobEnv): (l: PetForAdoption)
    requires report.eventDate.Some?
    ensures report.name.Some? && report.name.value != "" ==> l.name == report.name.value
    ensures report.name.None? || report.name == Some("") ==> l.name == "Friendly " + report.petType
    ensures l.age >= 1
    ensures report.age.None? || report.age == Some(0) ==> l.age == 1
    ensures report.age.Some? && report.age.value > 0 ==> l.age == report.age.value
    ensures l.gender == report.gender && l.petType == report.petType && l.breed == report.breed
    ensures l.color == report.color && l.image == report.petImage
    ensures "This lovely " + report.petType + " was found near " + report.location + " on " <= l.description
    ensures l.lister == env.system && l.status == Available && l.dateListed == env.now
  {
    var name := if report.name.Some? && report.name.value != "" then report.name.value
                else "Friendly " + report.petType;
    var age := if report.age.Some? && report.age.value != 0 then report.age.value else 1;
    var head := "This lovely " + report.petType + " was found near " + report.location + " on ";
    var description := head + (env.dateText(report.eventDate.value) + DescriptionTail);
    PetForAdoption(name, age, report.gender, report.petType, report.breed, report.color,
                   report.petImage, description, env.system, Available, env.now)
  }

  const DescriptionTail: string := ". After a waiting period, this pet is now looking for a loving forever home!"

  /** A report whose whole iteration succeeds: listing stored and report closed. */
  predicate Completes(report: PetReport, env: JobEnv, id: ReportId) {
    report.eventDate.Some? && FaultFor(env, id) == NoFault
  }

  /** A report whose iteration gets as far as storing the listing. */
  predicate CreatesListing(report: PetReport, env: JobEnv, id: ReportId) {
    report.eventDate.Some? && FaultFor(env, id) != CreateFails
  }

  /** One iteration, on the report `report` as it was read when the job selected
      it. The result says whether the success counter goes up. */
  function JobStep(db: Db, env: JobEnv, id: ReportId, report: PetReport): (r: (Db, bool))
    ensures r.1 <==> id in db.reports && Completes(report, env, id)
    ensures id !in db.reports || !CreatesListing(report, env, id) ==> r.0 == db
    ensures id in db.reports && CreatesListing(report, env, id) ==>
              && r.0.listings == db.listings[db.nextListing := AutoListing(report, env)]
              && r.0.nextListing == db.nextListing + 1
    ensures r.0.reports == if r.1 then db.reports[id := report.(status := Closed)] else db.reports
    ensures r.0 == db.(reports := r.0.reports, listings := r.0.listings, nextListing := r.0.nextListing)
  {
    if id !in db.reports || !CreatesListing(report, env, id) then (db, false)
    else
      var withListing := db.(listings := db.listings[db.nextListing := AutoListing(report, env)],
                             nextListing := db.nextListing + 1);
      if FaultFor(env, id) == SaveFails then (withListing, false)
      else (withListing.(reports := withListing.reports[id := report.(status := Closed)]), true)
  }

  datatype JobRun = JobRun(db: Db, listed: nat)

  /** The job's loop over the selected rows, in the order it visits them; every
      iteration works on the row as it was when selected from `db`. */
  function RunJob(db: Db, env: JobEnv, rows: seq<ReportId>): (r: JobRun)
    ensures r.listed <= |rows|
    ensures db.nextListing <= r.db.nextListing <= db.nextListing + |rows|
    ensures r.db == db.(reports := r.db.reports, listings := r.db.listings, nextListing := r.db.nextListing)
    ensures r.db.reports.Keys == db.reports.Keys
    decreases |rows|
  {
    if rows == [] then JobRun(db, 0)
    else
      var prev := RunJob(db, env, rows[..|rows| - 1]);
      var id := rows[|rows| - 1];
      if id !in db.reports then JobRun(prev.db, prev.listed)
      else
        var step := JobStep(prev.db, env, id, db.reports[id]);
        JobRun(step.0, prev.listed + if step.1 then 1 else 0)
  }

  /** How many of `rows` the job should list: the reference count for the job's counter. */
  function CompletedCount(reports: map<ReportId, PetReport>, env: JobEnv, rows: seq<ReportId>): (n: nat)
    ensures n <= |rows|
  {
    if rows == [] then 0
    else
      var id := rows[|rows| - 1];
      CompletedCount(reports, env, rows[..|rows| - 1])
        + if id in reports && Completes(reports[id], env, id) then 1 else 0
  }

  /** How many listings the rows should produce, counting those whose report
      update then fails. */
  function CreatedCount(reports: map<ReportId, PetReport>, env: JobEnv, rows: seq<ReportId>): (n: nat)
    ensures n <= |rows|
  {
    if rows == [] then 0
    else
      var id := rows[|rows| - 1];
      CreatedCount(reports, env, rows[..|rows| - 1])
        + if id in reports && CreatesListing(reports[id], env, id) then 1 else 0
  }

  /** The reports among `rows` whose iteration succeeds. */
  function CompletedIds(reports: map<ReportId, PetReport>, env: JobEnv, rows: seq<ReportId>): set<ReportId> {
    set id | id in rows && id in reports && Completes(reports[id], env, id)
  }

  /** Every selected report ends closed exactly when its iteration succeeded,
      and is otherwise left as it was; every other report is untouched. */
  lemma {:induction false} RunJobReportOutcome(db: Db, env: JobEnv, rows: seq<ReportId>)
    ensures forall id :: id in db.reports ==>
              RunJob(db, env, rows).db.reports[id] ==
                (if id in rows && Completes(db.reports[id], env, id) then db.reports[id].(status := Closed)
                 else db.reports[id])
    decreases |rows|
  {
    if rows != [] {
      var front := rows[..|rows| - 1];
      var last := rows[|rows| - 1];
      RunJobReportOutcome(db, env, front);
      assert rows == front + [last];
      var prev := RunJob(db, env, front).db;
      var r := RunJob(db, env, rows).db;
      if last in db.reports {
        var report := db.reports[last];
        assert r.reports == if Completes(report, env, last) then prev.reports[last := report.(status := Closed)]
                            else prev.reports;
      } else {
        assert r == prev;
      }
    }
  }

  predicate ListingKeysBelowCounter(db: Db) {
    forall l :: l in db.listings ==> l < db.nextListing
  }

  /** Listings already stored stay as they were, and every new one is an
      available listing under the job's lister, keyed from the listing counter. */
  lemma {:induction false} RunJobListingsFrame(db: Db, env: JobEnv, rows: seq<ReportId>)
    requires ListingKeysBelowCounter(db)
    ensures forall l :: l in db.listings ==>
              l in RunJob(db, env, rows).db.listings && RunJob(db, env, rows).db.listings[l] == db.listings[l]
    ensures forall l :: l in RunJob(db, env, rows).db.listings && l !in db.listings ==>
              && db.nextListing <= l < RunJob(db, env, rows).db.nextListing
              && RunJob(db, env, rows).db.listings[l].lister == env.system
              && RunJob(db, env, rows).db.listings[l].status == Available
    decreases |rows|
  {
    if rows != [] {
      var front := rows[..|rows| - 1];
      var last := rows[|rows| - 1];
      RunJobListingsFrame(db, env, front);
      var prev := RunJob(db, env, front).db;
      var r := RunJob(db, env, rows).db;
      assert prev.nextListing !in prev.listings;
      if last in db.reports && CreatesListing(db.reports[last], env, last) {
        var listing := AutoListing(db.reports[last], env);
        assert r.listings == prev.listings[prev.nextListing := listing];
        assert r.nextListing == prev.nextListing + 1;
        assert listing.lister == env.system && listing.status == Available;
      } else {
        assert r == prev;
      }
    }
  }

  /** The success counter equals the number of selected reports whose iteration
      succeeded. */
  lemma {:induction false} RunJobCountsCompleted(db: Db, env: JobEnv, rows: seq<ReportId>)
    ensures RunJob(db, env, rows).listed == CompletedCount(db.reports, env, rows)
    decreases |rows|
  {
    if rows != [] {
      RunJobCountsCompleted(db, env, rows[..|rows| - 1]);
    }
  }

  /** Exactly one listing is stored per report whose listing insert succeeds,
      including those whose report update then fails. */
  lemma {:induction false} RunJobCountsListings(db: Db, env: JobEnv, rows: seq<ReportId>)
    ensures RunJob(db, env, rows).db.nextListing == db.nextListing + CreatedCount(db.reports, env, rows)
    decreases |rows|
  {
    if rows != [] {
      RunJobCountsListings(db, env, rows[..|rows| - 1]);
    }
  }

  /** When every selected report goes through, the counter equals the number
      of selected reports. */
  lemma {:induction false} AllCompletedListsAll(reports: map<ReportId, PetReport>, env: JobEnv, rows: seq<ReportId>)
    requires forall id :: id in rows ==> id in reports && Completes(reports[id], env, id)
    ensures CompletedCount(reports, env, rows) == |rows|
    decreases |rows|
  {
    if rows != [] {
      AllCompletedListsAll(reports, env, rows[..|rows| - 1]);
    }
  }

  /** Each report whose iteration stores a listing finds that listing, built from
      the report, among the listings afterwards. */
  lemma {:induction false} RunJobListsEachReport(db: Db, env: JobEnv, rows: seq<ReportId>, id: ReportId)
    requires ListingKeysBelowCounter(db)
    requires id in rows && id in db.reports && CreatesListing(db.reports[id], env, id)
    ensures AutoListing(db.reports[id], env) in RunJob(db, env, rows).db.listings.Values
    decreases |rows|
  {
    var front := rows[..|rows| - 1];
    var r := RunJob(db, env, rows);
    if id == rows[|rows| - 1] {
      var prev := RunJob(db, env, front);
      assert r.db.listings[prev.db.nextListing] == AutoListing(db.reports[id], env);
    } else {
      var k :| 0 <= k < |rows| && rows[k] == id;
      assert front[k] == id;
      RunJobListsEachReport(db, env, front, id);
      RunJobListingsFrame(db, env, front);
      var prev := RunJob(db, env, front);
      var last := rows[|rows| - 1];
      var l :| l in prev.db.listings && prev.db.listings[l] == AutoListing(db.reports[id], env);
      assert prev.db.nextListing !in prev.db.listings;
      if last in db.reports && CreatesListing(db.reports[last], env, last) {
        assert r.db.listings == prev.db.listings[prev.db.nextListing := AutoListing(db.reports[last], env)];
      } else {
        assert r.db == prev.db;
      }
      assert r.db.listings[l] == prev.db.listings[l];
    }
  }

  /** After the job, the reports eligible at any time `t` are the ones eligible
      at `t` before it, less those it closed. */
  lemma EligibleAfterJob(db: Db, env: JobEnv, rows: seq<ReportId>, t: int)
    ensures EligibleIds(RunJob(db, env, rows).db.reports, t) ==
            EligibleIds(db.reports, t) - CompletedIds(db.reports, env, rows)
  {
    var after := RunJob(db, env, rows).db.reports;
    RunJobReportOutcome(db, env, rows);
    forall id | id in after
      ensures Eligible(after[id], t) <==> Eligible(db.reports[id], t) && id !in CompletedIds(db.reports, env, rows)
    {
      if id in rows {
        assert after[id] == (if Completes(db.reports[id], env, id) then db.reports[id].(status := Closed)
                             else db.reports[id]);
      }
    }
  }

  /** Running the job again at the same moment, after a run in which every
      selected report went through, selects nothing. */
  lemma RerunFindsNothing(db: Db, env: JobEnv, rows: seq<ReportId>)
    requires forall id :: id in EligibleIds(db.reports, env.now) ==> id in rows
    requires forall id :: id in rows && id in db.reports ==> Completes(db.reports[id], env, id)
    ensures EligibleIds(RunJob(db, env, rows).db.reports, env.now) == {}
  {
    EligibleAfterJob(db, env, rows, env.now);
    assert EligibleIds(db.reports, env.now) <= CompletedIds(db.reports, env, rows);
  }

  /** The job keeps the store's constraints, provided it lists under an existing user. */
  lemma RunJobPreservesValid(db: Db, env: JobEnv, rows: seq<ReportId>)
    requires Valid(db) && env.system in db.users
    ensures Valid(RunJob(db, env, rows).db)
  {
    var r := RunJob(db, env, rows).db;
    RunJobReportOutcome(db, env, rows);
    RunJobListingsFrame(db, env, rows);
    assert forall id :: id in r.reports ==> r.reports[id].reporter == db.reports[id].reporter;
    assert forall id :: id in r.notifications ==>
             NotificationLinksValid(r.notifications[id], r.users, r.reports) by {
      assert r.reports.Keys == db.reports.Keys;
      assert r.notifications == db.notifications && r.users == db.users;
    }
  }

  /** One pass of the job's loop body: build and store the listing, then close
      the report; a failure at any point ends the pass early. */
  method ListFoundPet(store: Persistence.Store, env: JobEnv, id: ReportId, report: PetReport)
    returns (counted: bool)
    requires id in store.reports
    modifies store
    ensures (store.State(), counted) == JobStep(old(store.State()), env, id, report)
  {
    counted := false;
    if CreatesListing(report, env, id) {
      store.listings := store.listings[store.nextListing := AutoListing(report, env)];
      store.nextListing := store.nextListing + 1;
      if FaultFor(env, id) != SaveFails {
        store.reports := store.reports[id := report.(status := Closed)];
        counted := true;
      }
    }
  }

  datatype JobOutcome = NoSuperuser | NoneEligible | Finished(listed: nat)

  predicate NoDuplicates(rows: seq<ReportId>) {
    forall i, j :: 0 <= i < j < |rows| ==> rows[i] != rows[j]
  }

  /** The job's loop: every selected report is visited once, in an order the
      store does not fix, and worked on as it was read before the loop began. */
  method ListAll(store: Persistence.Store, env: JobEnv, selected: set<ReportId>)
    returns (listed: nat, ghost rows: seq<ReportId>)
    requires selected <= store.reports.Keys
    modifies store
    ensures NoDuplicates(rows)
    ensures forall id :: id in rows <==> id in selected
    ensures RunJob(old(store.State()), env, rows) == JobRun(store.State(), listed)
  {
    ghost var db0 := store.State();
    var snapshot := store.reports;
    var pending := selected;
    listed := 0;
    rows := [];
    while pending != {}
      invariant pending <= selected
      invariant forall id :: id in selected <==> id in pending || id in rows
      invariant forall i :: 0 <= i < |rows| ==> rows[i] !in pending
      invariant NoDuplicates(rows)
      invariant RunJob(db0, env, rows) == JobRun(store.State(), listed)
      decreases |pending|
    {
      var id :| id in pending;
      pending := pending - {id};
      ghost var front := rows;
      rows := rows + [id];
      assert rows[..|rows| - 1] == front;
      var counted := ListFoundPet(store, env, id, snapshot[id]);
      if counted {
        listed := listed + 1;
      }
    }
  }

  /** Command.handle. The order in which the selected reports are visited is not
      fixed; `rows` is the order this run used. */
  method ProcessFoundPets(store: Persistence.Store, now: int, faults: map<ReportId, Fault>, dateText: int -> string)
    returns (outcome: JobOutcome, ghost rows: seq<ReportId>)
    requires store.Valid()
    modifies store
    ensures store.Valid()
    ensures outcome.NoSuperuser? <==> LowestSuperuser(old(store.users)).None?
    ensures outcome.NoneEligible? <==>
              LowestSuperuser(old(store.users)).Some? && EligibleIds(old(store.reports), now) == {}
    ensures !outcome.Finished? ==> store.State() == old(store.State())
    ensures outcome.Finished? ==>
              && NoDuplicates(rows)
              && (forall id :: id in rows <==> id in EligibleIds(old(store.reports), now))
              && var env := JobEnv(LowestSuperuser(old(store.users)).value, now, faults, dateText);
                 RunJob(old(store.State()), env, rows) == JobRun(store.State(), outcome.listed)
  {
    rows := [];
    var system := store.FindSystemUser();
    if system.None? {
      return NoSuperuser, rows;
    }
    var env := JobEnv(system.value, now, faults, dateText);
    var selected := set id | id in store.reports && Eligible(store.reports[id], now);
    if selected == {} {
      return NoneEligible, rows;
    }
    ghost var db0 := store.State();
    var listed;
    listed, rows := ListAll(store, env, selected);
    RunJobPreservesValid(db0, env, rows);
    outcome := Finished(listed);
  }
}
