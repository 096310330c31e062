/** The report side of the web views: filing a lost/found report, turning a
    report that is pending adoption into an adoption listing, and the public
    list of listings that are still available. */
module Lifecycle {
  import opened Models
  import opened Decorators
  import opened Forms
  import opened Database

  // ---------------------------------------------------------------- create_pet_report_view

  datatype CreateOutcome = NotLoggedIn | ReportRefused | ReportCreated(id: ReportId)

  /** The report create_pet_report_view builds from a valid form. The cleaned
      name and breed are stored as submitted (an empty string when left blank),
      and the cleaned gender is passed explicitly, so a blank gender is stored as
      "" rather than the field default. */
  function ReportFromForm(reportType: string, reporter: UserId, f: ReportFormData, now: int): (report: PetReport)
    requires ReportFormValid(f)
    ensures report.status == Open && !report.isApproved
    ensures report.reportType == reportType && report.reporter == reporter
    ensures report.gender == f.gender && report.name == Some(f.name) && report.breed == Some(f.breed)
    ensures report.petType == f.petType && report.color == f.color && report.petImage == f.petImage.value
    ensures report.location == f.location && report.contactInfo == f.contactInfo
    ensures f.age.Some? ==> report.age.Some? && report.age.value == f.age.value
    ensures f.age.None? ==> report.age.None?
    ensures report.dateReported == now && report.eventDate.None?
  {
    NewPetReport(reportType, reporter, Some(f.name),
                 if f.age.Some? then Some(f.age.value as nat) else None,
                 Some(f.gender), f.petType, Some(f.breed), f.color, f.petImage.value,
                 f.location, f.contactInfo, now)
  }

  /** create_pet_report_view on a POST. The report type is the URL segment and is
      stored without being checked against Lost/Found. */
  function CreateReport(db: Db, actor: Principal, reportType: string, f: ReportFormData, now: int)
    : (r: (Db, CreateOutcome))
    ensures RequestUserOf(db, actor).AnonymousUser? ==> r == (db, NotLoggedIn)
    ensures r.1.ReportCreated? <==> RequestUserOf(db, actor).AuthenticatedUser? && ReportFormValid(f)
    ensures !r.1.ReportCreated? ==> r.0 == db
    ensures r.1.ReportCreated? ==>
              && r.0.reports.Keys == db.reports.Keys + {r.1.id}
              && (forall id :: id in db.reports && id != r.1.id ==> r.0.reports[id] == db.reports[id])
              && r.0.reports[r.1.id] == ReportFromForm(reportType, actor.userId, f, now)
              && r.0.users == db.users && r.0.profiles == db.profiles
              && r.0.listings == db.listings && r.0.notifications == db.notifications
    ensures Valid(db) && r.1.ReportCreated? ==> r.1.id !in db.reports
    ensures Valid(db) ==> Valid(r.0)
  {
    if RequestUserOf(db, actor).AnonymousUser? then (db, NotLoggedIn)
    else if !ReportFormValid(f) then (db, ReportRefused)
    else
      var id := db.nextReport;
      (db.(reports := db.reports[id := ReportFromForm(reportType, actor.userId, f, now)], nextReport := id + 1),
       ReportCreated(id))
  }

  // ---------------------------------------------------------------- admin_put_for_adoption_view

  datatype ConvertOutcome = ConvertDenied | NotPendingAdoption | ListingRefused | Listed(id: ListingId)

  /** The listing an admin creates from a report: name, age, gender and
      description from the form; pet type, breed, colour and image from the
      report; the admin as lister; available. */
  function ListingFromReport(report: PetReport, f: ListingFormData, lister: UserId, now: int): (listing: PetForAdoption)
    requires ListingFormValid(f)
    ensures listing.status == Available && listing.lister == lister
    ensures listing.petType == report.petType && listing.breed == report.breed
    ensures listing.color == report.color && listing.image == report.petImage
    ensures listing.name == f.name && listing.age as int == f.age.value
    ensures listing.gender == f.gender && listing.description == f.description
  {
    PetForAdoption(f.name, f.age.value as nat, f.gender, report.petType, report.breed, report.color,
                   report.petImage, f.description, lister, Available, now)
  }

  /** admin_put_for_adoption_view on a POST. Only a report whose status is
      Pending Adoption is found; the listing is saved and then the report closed. */
  function PutForAdoption(db: Db, actor: Principal, reportId: ReportId, f: ListingFormData, now: int)
    : (r: (Db, ConvertOutcome))
    ensures !StaffRequired(RequestUserOf(db, actor)) ==> r == (db, ConvertDenied)
    ensures StaffRequired(RequestUserOf(db, actor))
            && (reportId !in db.reports || db.reports[reportId].status != PendingAdoption) ==>
              r == (db, NotPendingAdoption)
    ensures r.1.Listed? <==>
              StaffRequired(RequestUserOf(db, actor)) && reportId in db.reports
              && db.reports[reportId].status == PendingAdoption && ListingFormValid(f)
    ensures !r.1.Listed? ==> r.0 == db
    ensures r.1.Listed? ==>
              && r.0.listings.Keys == db.listings.Keys + {r.1.id}
              && (forall id :: id in db.listings && id != r.1.id ==> r.0.listings[id] == db.listings[id])
              && r.0.listings[r.1.id] == ListingFromReport(db.reports[reportId], f, actor.userId, now)
              && r.0.reports == db.reports[reportId := db.reports[reportId].(status := Closed)]
              && r.0.users == db.users && r.0.profiles == db.profiles
              && r.0.notifications == db.notifications
    ensures Valid(db) && r.1.Listed? ==> r.1.id !in db.listings
    ensures Valid(db) ==> Valid(r.0)
  {
    if !StaffRequired(RequestUserOf(db, actor)) then (db, ConvertDenied)
    else if reportId !in db.reports || db.reports[reportId].status != PendingAdoption then (db, NotPendingAdoption)
    else if !ListingFormValid(f) then (db, ListingRefused)
    else
      var report := db.reports[reportId];
      var id := db.nextListing;
      (db.(listings := db.listings[id := ListingFromReport(report, f, actor.userId, now)],
           nextListing := id + 1,
           reports := db.reports[reportId := report.(status := Closed)]),
       Listed(id))
  }

  /** A report is converted at most once: right after a conversion the same
      request finds no report pending adoption and changes nothing. */
  lemma ConvertOnlyOnce(db: Db, actor: Principal, reportId: ReportId, f: ListingFormData, now: int, now': int)
    requires PutForAdoption(db, actor, reportId, f, now).1.Listed?
    ensures var db' := PutForAdoption(db, actor, reportId, f, now).0;
            PutForAdoption(db', actor, reportId, f, now') == (db', NotPendingAdoption)
  {
  }

  // ---------------------------------------------------------------- pets_list_view, dashboard_view

  /** The listings the public pet list and the dashboard show: status Available. */
  function AvailablePets(listings: map<ListingId, PetForAdoption>): (ids: set<ListingId>)
    ensures ids <= listings.Keys
    ensures forall id :: id in listings ==> (id in ids <==> listings[id].status == Available)
  {
    set id | id in listings && listings[id].status == Available
  }

  /** A conversion adds exactly its new listing to the public list. */
  lemma ConversionShowsNewListing(db: Db, actor: Principal, reportId: ReportId, f: ListingFormData, now: int)
    requires Valid(db)
    requires PutForAdoption(db, actor, reportId, f, now).1.Listed?
    ensures var r := PutForAdoption(db, actor, reportId, f, now);
            AvailablePets(r.0.listings) == AvailablePets(db.listings) + {r.1.id}
  {
    var r := PutForAdoption(db, actor, reportId, f, now);
    assert forall id :: id in r.0.listings ==> id == r.1.id || id in db.listings;
  }

  // ---------------------------------------------------------------- Pending Adoption

  /** The reports admin_adoption_processing_view lists for an admin to convert. */
  function PendingAdoptionReports(reports: map<ReportId, PetReport>): (ids: set<ReportId>)
    ensures ids <= reports.Keys
    ensures forall id :: id in reports ==> (id in ids <==> reports[id].status == PendingAdoption)
  {
    set id | id in reports && reports[id].status == PendingAdoption
  }

  /** No report is in the Pending Adoption state. */
  predicate NonePending(reports: map<ReportId, PetReport>) {
    forall id :: id in reports ==> reports[id].status != PendingAdoption
  }

  /** Filing a report never creates a Pending Adoption report ... */
  lemma CreateReportKeepsNonePending(db: Db, actor: Principal, reportType: string, f: ReportFormData, now: int)
    requires NonePending(db.reports)
    ensures NonePending(CreateReport(db, actor, reportType, f, now).0.reports)
  {
    var r := CreateReport(db, actor, reportType, f, now);
    if r.1.ReportCreated? {
      forall id | id in r.0.reports ensures r.0.reports[id].status != PendingAdoption {
        if id != r.1.id { assert id in db.reports; }
      }
    }
  }

  /** ... so from a store without one, conversion always reports that nothing is
      pending adoption. */
  lemma ConversionNeedsPendingReport(db: Db, actor: Principal, reportId: ReportId, f: ListingFormData, now: int)
    requires NonePending(db.reports) && StaffRequired(RequestUserOf(db, actor))
    ensures PutForAdoption(db, actor, reportId, f, now) == (db, NotPendingAdoption)
  {
  }
}
