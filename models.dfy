/** Record shapes, choice sets and defaults of the pet-rescue data model:
    users and their profiles, lost/found pet reports, adoption listings and
    notifications. Records are values; the tables holding them are maps from
    integer primary keys (see module Database). */
module Models {

  type UserId = nat
  type ReportId = nat
  type ListingId = nat
  type NotificationId = nat

  /** An uploaded image, kept only as an opaque reference to the stored file. */
  type ImageRef = string

  datatype Option<T> = None | Some(value: T)

  /** The fields of the framework's user record that this application reads or writes.
      The password is the credential as given; hashing is not modelled. */
  datatype User = User(
    username: string,
    email: string,
    password: string,
    firstName: string,
    isStaff: bool,
    isSuperuser: bool)

  /** Profile.ROLE_CHOICES: 'admin' and 'user'. */
  datatype Role = AdminRole | UserRole

  /** A profile belongs to exactly one user; the table is keyed by that user's id. */
  datatype Profile = Profile(
    role: Role,
    age: Option<nat>,
    city: Option<string>,
    phoneNumber: Option<string>,
    picture: ImageRef)

  /** PetReport.STATUS_CHOICES. */
  datatype ReportStatus = Open | PendingAdoption | Closed

  /** A lost or found pet incident. The report type is kept as the string the
      request supplied: the choices Lost/Found are declared but never enforced.
      `isApproved` and `eventDate` are not declared on the stored record but are
      read by the automated adoption job, so they are part of this shape. */
  datatype PetReport = PetReport(
    reportType: string,
    reporter: UserId,
    name: Option<string>,
    age: Option<nat>,
    gender: string,
    petType: string,
    breed: Option<string>,
    color: string,
    petImage: ImageRef,
    location: string,
    contactInfo: string,
    status: ReportStatus,
    dateReported: int,
    isApproved: bool,
    eventDate: Option<int>)

  /** PetForAdoption.ADOPTION_STATUS_CHOICES. */
  datatype ListingStatus = Available | Pending | Adopted

  datatype PetForAdoption = PetForAdoption(
    name: string,
    age: nat,
    gender: string,
    petType: string,
    breed: Option<string>,
    color: string,
    image: ImageRef,
    description: string,
    lister: UserId,
    status: ListingStatus,
    dateListed: int)

  datatype Notification = Notification(
    recipient: UserId,
    petReport: Option<ReportId>,
    message: string,
    isRead: bool,
    createdAt: int)

  const GenderChoices: set<string> := {"Male", "Female", "Unknown"}
  const DefaultGender: string := "Unknown"
  const DefaultProfilePicture: ImageRef := "profile_pics/default.png"

  /** The stored value of a role choice. */
  function RoleValue(role: Role): (v: string)
    ensures v == "admin" <==> role == AdminRole
    ensures v == "user" <==> role == UserRole
  {
    match role
    case AdminRole => "admin"
    case UserRole => "user"
  }

  /** The stored value of a report status choice. */
  function ReportStatusValue(status: ReportStatus): (v: string)
    ensures v == "Open" <==> status == Open
    ensures v == "Pending Adoption" <==> status == PendingAdoption
    ensures v == "Closed" <==> status == Closed
  {
    match status
    case Open => "Open"
    case PendingAdoption => "Pending Adoption"
    case Closed => "Closed"
  }

  /** get_report_type_display: the label of a declared report type, and the
      stored value itself for a value outside the declared choices. */
  function ReportTypeLabel(reportType: string): (shown: string)
    ensures reportType == "Lost" ==> shown == "Lost pet"
    ensures reportType == "Found" ==> shown == "Found pet"
    ensures reportType !in {"Lost", "Found"} ==> shown == reportType
  {
    if reportType == "Lost" then "Lost pet"
    else if reportType == "Found" then "Found pet"
    else reportType
  }

  /** A profile created with every field left to its default. */
  function NewProfile(): (p: Profile)
    ensures p.role == UserRole
    ensures p.age.None? && p.city.None? && p.phoneNumber.None?
    ensures p.picture == DefaultProfilePicture
  {
    Profile(UserRole, None, None, None, DefaultProfilePicture)
  }

  /** A report as created by the ORM: `gender` is None when the caller omits the
      keyword (the field default applies) and Some(g) when it passes g, even an
      empty g. Status, approval, event date and creation time take their defaults. */
  function NewPetReport(
    reportType: string, reporter: UserId, name: Option<string>, age: Option<nat>,
    gender: Option<string>, petType: string, breed: Option<string>, color: string,
    petImage: ImageRef, location: string, contactInfo: string, now: int): (r: PetReport)
    ensures r.status == Open && !r.isApproved && r.eventDate.None?
    ensures r.dateReported == now
    ensures gender.None? ==> r.gender == DefaultGender
    ensures gender.Some? ==> r.gender == gender.value
    ensures r.reportType == reportType && r.reporter == reporter
    ensures r.petType == petType && r.color == color && r.petImage == petImage
  {
    PetReport(reportType, reporter, name, age,
              if gender.Some? then gender.value else DefaultGender,
              petType, breed, color, petImage, location, contactInfo,
              Open, now, false, None)
  }

  /** A notification created without an explicit read flag starts unread. */
  function NewNotification(recipient: UserId, petReport: Option<ReportId>, message: string, now: int): (n: Notification)
    ensures !n.isRead
    ensures n.recipient == recipient && n.petReport == petReport && n.message == message
    ensures n.createdAt == now
  {
    Notification(recipient, petReport, message, false, now)
  }

  /** The name shown for a report: its own name when it has a non-empty one. */
  function DisplayName(name: Option<string>): string {
    if name.Some? && name.value != "" then name.value else "Unnamed Pet"
  }

  /** PetReport.__str__: "<type label>: <name or 'Unnamed Pet'> (<pet type>) by <username>". */
  function ReportText(report: PetReport, reporterName: string): (s: string)
    ensures ReportTypeLabel(report.reportType) + ": " <= s
    ensures |s| >= |" by " + reporterName|
    ensures s[|s| - |" by " + reporterName|..] == " by " + reporterName
    ensures report.name.Some? && report.name.value != "" ==>
              s == ReportTypeLabel(report.reportType) + ": " + report.name.value
                   + " (" + report.petType + ") by " + reporterName
    ensures report.name.None? || report.name == Some("") ==>
              s == ReportTypeLabel(report.reportType) + ": Unnamed Pet (" + report.petType + ") by " + reporterName
  {
    var head := ReportTypeLabel(report.reportType) + ": ";
    var tail := " by " + reporterName;
    var s := head + DisplayName(report.name) + " (" + report.petType + ")" + tail;
    assert s == head + (DisplayName(report.name) + " (" + report.petType + ")" + tail);
    assert s == (head + DisplayName(report.name) + " (" + report.petType + ")") + tail;
    s
  }

  /** An "admin" in this application is a staff member who is not a superuser. */
  predicate IsAdmin(u: User) {
    u.isStaff && !u.isSuperuser
  }

  /** At most this many admins may exist when one more is registered or promoted. */
  const MaxAdmins: nat := 3

  function AdminIds(users: map<UserId, User>): set<UserId> {
    set id | id in users && IsAdmin(users[id])
  }

  /** The count the registration form and the promotion view compare against MaxAdmins. */
  function AdminCount(users: map<UserId, User>): (n: nat)
    ensures n <= |users|
  {
    var admins := AdminIds(users);
    SubsetCard(admins, users.Keys);
    |admins|
  }

  /** The count is zero exactly when no user is an admin. */
  lemma NoAdminsIffZero(users: map<UserId, User>)
    ensures AdminCount(users) == 0 <==> forall id :: id in users ==> !IsAdmin(users[id])
  {
    var admins := AdminIds(users);
    assert forall id :: id in users && IsAdmin(users[id]) ==> id in admins;
  }

  /** Replacing or adding one user changes the admin count by that user's own contribution only. */
  lemma AdminCountUpdate(users: map<UserId, User>, id: UserId, u: User)
    ensures AdminCount(users[id := u]) ==
            AdminCount(users) - (if id in users && IsAdmin(users[id]) then 1 else 0)
                              + (if IsAdmin(u) then 1 else 0)
  {
    AdminIdsUpdate(users, id, u);
    CardWithout(AdminIds(users), id);
    CardWithout(AdminIds(users[id := u]), id);
  }

  lemma AdminIdsUpdate(users: map<UserId, User>, id: UserId, u: User)
    ensures AdminIds(users[id := u]) - {id} == AdminIds(users) - {id}
    ensures id in AdminIds(users[id := u]) <==> IsAdmin(u)
    ensures id in AdminIds(users) <==> id in users && IsAdmin(users[id])
  {
  }

  lemma CardWithout<T>(s: set<T>, x: T)
    ensures |s| == |s - {x}| + (if x in s then 1 else 0)
  {
    if x in s {
      assert s == (s - {x}) + {x};
    } else {
      assert s - {x} == s;
    }
  }

  /** Removing users never raises the admin count. */
  lemma AdminCountRemove(users: map<UserId, User>, gone: set<UserId>)
    ensures AdminCount(users - gone) <= AdminCount(users)
  {
    assert AdminIds(users - gone) <= AdminIds(users);
    SubsetCard(AdminIds(users - gone), AdminIds(users));
  }

  lemma SubsetCard<T>(a: set<T>, b: set<T>)
    requires a <= b
    ensures |a| <= |b|
  {
    assert b == a + (b - a);
  }
}
