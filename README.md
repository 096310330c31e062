# PurPaws pet rescue: accounts, reports and adoption listings

This project is a Dafny model of the core of the PurPaws pet-rescue web application, a Django project. It covers:

- **Accounts and roles.** The registration form's rules:
  - password strength, checked in a fixed order;
  - unique username and email;
  - the admin passcode;
  - the cap of three admins.
  
  It also covers the HTML and JSON registration endpoints, and the superuser-only promotion of a user to admin. Finally, it covers the staff-only removal of a user, with the cascading deletes that removal triggers.
- **Access gates.** `staff_required` and `superuser_required`.
- **The report lifecycle.**
  - A signed-in user files a lost or found report.
  - An admin turns a report that is pending adoption into an adoption listing and closes the report.
  - The public list shows listings that are still available.
- **The found-pets job.** A scheduled command takes approved Found reports that are more than fifteen days old and turns each one into an available adoption listing. The listing is posted under the lowest-keyed superuser. Each report is handled on its own, so a failure on one does not stop the others.
- **Record shapes and renderers.** The record shapes, choice sets and defaults; `PetReport.__str__`; and the admin's notification summary.

## Layout

Each view is modelled twice:

- **A function on the whole store.** It takes a `Database.Db` value, which holds the five tables as maps from primary keys plus the key counters. It returns the new store and an outcome, one outcome per branch of the view.
- **A method of `Persistence.Store`.** This class holds the same tables as fields and performs the view's steps on them in place. The method's postcondition says that its new state and outcome are exactly what the function gives.

The properties are proved as lemmas about the functions. The found-pets job is an imperative method, `FoundPets.ProcessFoundPets`, whose loop is proved against a fold over the reports it visits (`FoundPets.RunJob`).

| file | module | models |
|---|---|---|
| models.dfy | Models | users/models.py: records, choices, defaults, `PetReport.__str__`, the admin count |
| admin_display.dfy | AdminDisplay | users/admin.py: `message_summary` |
| decorators.dfy | Decorators | users/decorators.py |
| forms.dfy | Forms | users/views.py: `RegistrationForm`, `PetReportForm`, `PutForAdoptionForm` |
| database.dfy | Database | the store, its integrity constraints, `on_delete=CASCADE` |
| accounts.dfy | Accounts | users/views.py: registration, promotion, removal |
| lifecycle.dfy | Lifecycle | users/views.py: report creation, adoption conversion, listing filters |
| persistence.dfy | Persistence | the views as in-place updates of the tables |
| found_pets.dfy | FoundPets | users/management/commands/process_found_pets.py |

The model follows the code in these places:

- **No approval step.** The found-pets job filters on `is_approved` and reads `event_date`. `PetReport` in users/models.py declares neither field. The model gives the report both fields.
  - No modelled view and not the job sets `is_approved`: a report is created unapproved. Only the REST `PetReportViewSet` (users/views.py:23-26) and the admin site, which are not part of this model, can approve one.
  - A report created by the views has no event date. Were such a report approved outside the model, the job would leave it open and not count it: the listing is never built and the failure is only logged.
- **Nothing modelled makes a report "Pending Adoption".** No modelled view and not the job sets that status, yet it is the only status the admin conversion accepts. The REST `PetReportViewSet` and the admin site can write it, but they are not part of this model. The model keeps this as it is: `Lifecycle.ConversionNeedsPendingReport` shows that, within the model, conversion then always answers "not pending adoption".
- **No atomicity.** Both the conversion and the job save the listing first and then close the report, as two separate writes. In the job, the second write can fail after the first has succeeded, and the model keeps that case.
- **Duplicate definitions.** users/views.py defines `dashboard_view`, `admin_adoption_processing_view`, `PutForAdoptionForm` and `admin_put_for_adoption_view` twice. The later definition is the one in effect, so the model follows it (users/views.py:489-557).

## Model

| member | source | states |
|---|---|---|
| Models.RoleValue | users/models.py:6-8 | the stored value is "admin" exactly for the admin role and "user" exactly for the user role |
| Models.ReportStatusValue | users/models.py:18-35 | each status has its own stored value ("Open", "Pending Adoption", "Closed") and no two share one |
| Models.ReportTypeLabel | users/models.py:17-40 | "Lost" and "Found" display as "Lost pet" and "Found pet"; any other stored type displays as itself |
| Models.NewProfile | users/models.py:5-12 | a profile created with defaults has role user, no age, city or phone, and the default picture |
| Models.NewPetReport | users/models.py:16-35 | a new report is Open, unapproved, without event date, dated now; gender defaults to "Unknown" only when not passed |
| Models.NewNotification | users/models.py:61-66 | a new notification is unread and dated now |
| Models.ReportText | users/models.py:38-41 | the text is exactly the type label, ": ", the pet's name, " (", the pet type, ") by " and the reporter's name, with "Unnamed Pet" in place of a missing or empty name |
| Models.AdminCount | users/views.py:127 | the number of admins (staff, not superuser) is at most the number of users |
| Models.NoAdminsIffZero | users/views.py:127 | the admin count is zero exactly when no user is an admin |
| Models.AdminCountUpdate | users/views.py:129-130 | replacing one user changes the admin count by that user's own contribution and nothing else |
| Models.AdminCountRemove | users/views.py:479-480 | deleting users never raises the admin count |
| AdminDisplay.MessageSummary | users/admin.py:34-35 | messages up to 50 characters are shown whole; longer ones as their first 50 characters plus "..."; never more than 53 characters; always a prefix-preserving rendering |
| Decorators.StaffRequired | users/decorators.py:4-10 | admits exactly authenticated users with is_staff |
| Decorators.SuperuserRequired | users/decorators.py:12-18 | admits exactly authenticated users with is_superuser |
| Decorators.AnonymousRejected | users/decorators.py:6-14 | an anonymous request passes neither gate |
| Decorators.SuperuserWithoutStaffRejected | users/decorators.py:4-18 | a superuser without is_staff passes the superuser gate but not the staff gate |
| Decorators.AdminOnlyPassesStaffGate | users/decorators.py:4-18 | an admin (staff, not superuser) passes the staff gate and not the superuser gate |
| Forms.CleanPassword | users/views.py:138-146 | an empty password is not checked; otherwise it is accepted exactly when strong, and the first failing rule (length 8, lowercase, uppercase, digit, special) names the error |
| Forms.SamplePasswordAccepted | users/views.py:138-146 | "Password123!" satisfies every rule |
| Forms.LowercaseDigitsPasswordRefused | users/views.py:138-146 | "password123" is refused for lacking an uppercase letter, the lowercase rule having passed |
| Forms.AdminRegistrationError | users/views.py:108-136 | no error unless registering as admin; then a missing passcode, a wrong passcode, or three or more admins, in that order, each error reported exactly when the earlier checks passed and its own failed |
| Forms.RegistrationErrors | users/views.py:91-165 | "username required" is reported exactly for an empty username; "username exists" exactly for a non-empty username of at most 150 characters that is taken; "email exists" exactly for a non-empty taken email; "passwords differ" exactly when both are given, the password passed its rules and the two differ |
| Forms.RegistrationValidIff | users/views.py:91-165 | the form reports no error exactly when every field rule, password rule, confirmation, uniqueness and admin rule holds |
| Forms.NonAdminRegistrationIgnoresPasscode | users/views.py:108-136 | without the admin box neither the submitted passcode nor the configured one affects the errors, and no admin error is reported |
| Forms.ReportFormValid | users/views.py:286-295 | a valid report form has pet type, colour, image, location and contact, a gender from the choices or blank, and a non-negative age; a form with only the required fields filled within their lengths is valid |
| Forms.ListingFormValid | users/views.py:500-511 | a valid listing form has a name, an age of at least zero, a description and a gender from the choices; a missing name, age or description makes it invalid |
| Forms.AdminRegistrationRefusedAtLimit | users/views.py:128-133 | an admin registration with three or more admins is always refused |
| Database.Valid | users/models.py:1-67 | a consistent store's counters are fresh keys of their tables |
| Database.EmptyDb | users/models.py:1-67 | the empty store satisfies every integrity constraint |
| Database.RequestUserOf | users/decorators.py:6-14 | a request is authenticated exactly when its session names an existing user |
| Database.DeleteReport | users/models.py:63 | deleting a report deletes exactly the notifications linked to it, keeps the others, creates none, leaves the other tables and the counters alone, and keeps the store consistent |
| Database.DeleteUser | users/models.py:7-63 | deleting a user deletes its profile, reports, listings, its notifications and those linked to its reports, and nothing else |
| Database.DeleteUserPreservesValid | users/models.py:7-63 | the cascade leaves no dangling reference |
| Database.DeleteUserDropsLinkedNotifications | users/models.py:22-63 | a notification about a deleted user's report is deleted along with it |
| Database.LowestSuperuser | users/management/commands/process_found_pets.py:15 | none exactly when there is no superuser; otherwise a superuser whose key is at most every superuser's key |
| Accounts.Register | users/views.py:168-204 | registration succeeds exactly when the form is acceptable; a refusal changes nothing; a success adds, under one fresh key and with every other row kept, the user of Accounts.NewAccount and the profile of Accounts.NewAccountProfile |
| Accounts.NewAccount | users/views.py:176-185 | the new user has the submitted username, email, password and first name, is staff exactly for an admin registration, and is never a superuser |
| Accounts.NewAccountProfile | users/views.py:189-195 | the new profile has role admin exactly for an admin registration, the submitted age when given, the submitted city and phone number, and the default picture |
| Accounts.RegisterPreservesValid | users/views.py:155-195 | a registration keeps keys fresh and usernames unique |
| Accounts.RegisterKeepsAdminLimit | users/views.py:128-183 | registration never takes the admin count above three or above what it already was |
| Accounts.ApiRegister | users/views.py:41-55 | missing username, email or password, or a taken username or email, change nothing; otherwise exactly one user with the submitted username, email and password and a default profile are added under a fresh key, with no password-strength check and every other table kept |
| Accounts.Promote | users/views.py:429-460 | only a superuser may promote; the admin limit is checked before the target is looked up; a missing target changes nothing; an existing staff or superuser target gets "already privileged" and changes nothing; otherwise the user becomes staff and, when it has a profile, an admin; "promoted without profile" is returned exactly for an unprivileged target with no profile, after the staff flag is saved |
| Accounts.PromoteKeepsAdminLimit | users/views.py:433-438 | a promotion raises the admin count by exactly one and never past three |
| Accounts.Remove | users/views.py:463-486 | staff may remove a user exactly when it exists, is not staff unless the actor is a superuser, and is not a superuser; removal is the cascading delete |
| Accounts.NoSelfRemoval | users/views.py:470-478 | no request removes the user making it |
| Accounts.AdminCannotRemoveSuperuser | users/views.py:470-478 | an admin's attempt to remove a superuser is refused and changes nothing |
| Accounts.RemoveNeverAddsAdmins | users/views.py:463-486 | a removal never raises the admin count |
| Lifecycle.ReportFromForm | users/views.py:228-248 | the report carries the form's data including its age, the URL's report type and the reporter, is Open and unapproved with no event date, and stores a blank gender as "" rather than the default |
| Lifecycle.CreateReport | users/views.py:221-255 | anonymous requests and invalid forms change nothing; otherwise exactly one new report under a fresh key |
| Lifecycle.ListingFromReport | users/views.py:527-535 | name, age, gender and description come from the form; type, breed, colour and image from the report; the admin lists it as available |
| Lifecycle.PutForAdoption | users/views.py:514-543 | only staff, only for a report pending adoption, only with a valid form; then one new listing and the report closed, nothing else |
| Lifecycle.ConvertOnlyOnce | users/views.py:519-540 | repeating a successful conversion finds nothing pending and changes nothing |
| Lifecycle.AvailablePets | users/views.py:306-321 | a listing is shown exactly when it is available |
| Lifecycle.PendingAdoptionReports | users/views.py:489-497 | a report is offered for processing exactly when it is pending adoption |
| Lifecycle.ConversionShowsNewListing | users/views.py:527-535 | a conversion adds exactly its new listing to the public list |
| Lifecycle.CreateReportKeepsNonePending | users/views.py:235-248 | filing a report never creates one pending adoption |
| Lifecycle.ConversionNeedsPendingReport | users/views.py:519-523 | with nothing pending adoption, a staff conversion always fails without change |
| Persistence.Store.constructor | users/models.py:1-67 | a new store is empty and consistent |
| Persistence.Store.Register | users/views.py:168-204 | the tables after the request and the outcome are those of Accounts.Register, and stay consistent |
| Persistence.Store.CreateAccount | users/views.py:176-195 | saving adds the user of Accounts.NewAccount and the profile of Accounts.NewAccountProfile under the next user key and moves the counter on |
| Persistence.Store.ApiRegister | users/views.py:41-55 | as Accounts.ApiRegister |
| Persistence.Store.Promote | users/views.py:429-460 | as Accounts.Promote |
| Persistence.Store.Remove | users/views.py:463-486 | as Accounts.Remove |
| Persistence.Store.CreateReport | users/views.py:221-255 | as Lifecycle.CreateReport |
| Persistence.Store.PutForAdoption | users/views.py:514-543 | as Lifecycle.PutForAdoption |
| Persistence.Store.FindSystemUser | users/management/commands/process_found_pets.py:15 | the scan over keys finds the lowest-keyed superuser, or none |
| FoundPets.Eligible | users/management/commands/process_found_pets.py:25-34 | a report is eligible exactly when it is Found, Open and approved and was reported more than fifteen days before now, stated in both directions |
| FoundPets.EligibleIds | users/management/commands/process_found_pets.py:29-34 | the selection holds exactly the keys of the eligible reports |
| FoundPets.JobStep | users/management/commands/process_found_pets.py:44-77 | one iteration succeeds exactly when the report exists, has an event date and no fault; it stores the report's auto-listing under the next listing key unless the insert fails, closes the report exactly on success, and changes no other table and no other counter |
| FoundPets.AutoListing | users/management/commands/process_found_pets.py:46-67 | name is the report's non-empty name or "Friendly " and the pet type; age is the report's when positive and exactly 1 when missing or zero; gender, type, breed, colour and image copied; description opens with the pet type and location; available, under the system user |
| FoundPets.RunJob | users/management/commands/process_found_pets.py:42-77 | the counter never exceeds the number of reports visited; at most one listing per visit; users, profiles and notifications untouched; no report created or deleted |
| FoundPets.RunJobReportOutcome | users/management/commands/process_found_pets.py:43-77 | a visited report ends closed exactly when its iteration succeeded, otherwise unchanged; unvisited reports are untouched |
| FoundPets.RunJobListingsFrame | users/management/commands/process_found_pets.py:56-67 | existing listings are kept; every new listing is available, listed by the system user, under a fresh key |
| FoundPets.RunJobCountsCompleted | users/management/commands/process_found_pets.py:42-73 | the counter equals the number of visited reports whose iteration succeeded |
| FoundPets.RunJobCountsListings | users/management/commands/process_found_pets.py:56-71 | one listing is stored per report whose insert succeeded, even when closing the report then failed |
| FoundPets.AllCompletedListsAll | users/management/commands/process_found_pets.py:42-73 | with no failure the counter equals the number of reports visited |
| FoundPets.RunJobListsEachReport | users/management/commands/process_found_pets.py:56-67 | each report whose insert succeeded has its listing among the listings afterwards |
| FoundPets.EligibleAfterJob | users/management/commands/process_found_pets.py:29-70 | at any time afterwards, the eligible reports are those eligible before less the ones the job closed |
| FoundPets.RerunFindsNothing | users/management/commands/process_found_pets.py:29-70 | after a run without failures, a second run at the same moment selects nothing |
| FoundPets.RunJobPreservesValid | users/management/commands/process_found_pets.py:43-77 | the job leaves no dangling reference |
| FoundPets.ListFoundPet | users/management/commands/process_found_pets.py:44-77 | one iteration on the tables is exactly one step of the fold |
| FoundPets.ListAll | users/management/commands/process_found_pets.py:43-77 | every selected report is visited exactly once and the tables end as the fold over that order gives |
| FoundPets.ProcessFoundPets | users/management/commands/process_found_pets.py:11-79 | with no superuser, or no eligible report, nothing changes; otherwise the reports visited are exactly the eligible ones (Found, Open, approved, reported strictly more than fifteen days ago) and the tables and count are those of the fold under the lowest-keyed superuser |

## Left out

- Rendering, redirects, flash messages, login and logout, sessions and every GET branch are not modelled. Only the state changes and the outcome that decides the reply are.
- The REST viewsets, serializers, URL configuration, the admin site's editing and dump_project.py are not part of this model. The viewsets (users/views.py:18-36) and the admin site can create and update profiles, reports, listings and notifications with any field values, including `is_approved` and the "Pending Adoption" status.
- users/serializers.py imports a `Message` model that users/models.py does not declare, so as written users/views.py fails to import. The model assumes that import is repaired.
- Image upload and storage are not modelled. An image is an opaque reference.
- Forms.ListingFormValid, Lifecycle.CreateReport and Accounts.Register: ages are unbounded naturals. In the database a `PositiveIntegerField` is a bounded integer (at most 2147483647 on PostgreSQL and MySQL). The listing form is a ModelForm and would refuse a larger age. The report and registration forms (users/views.py:95, 294) accept it, and the insert then fails; in registration the user row is already saved by then (users/views.py:176-195). The model captures none of this.
- Password hashing is not modelled. The stored password is the submitted one.
- Accounts.NewAccount and Accounts.ApiRegister: Django's `create_user` lower-cases the domain part of the email and NFKC-normalises the username before saving, while the uniqueness checks compare the raw input; the model stores both exactly as submitted, so it does not capture two submissions that differ only in those respects ending up as equal stored values.
- The form fields' whitespace stripping and the email-format check of `EmailField` are not modelled. Required-field and length checks are.
- Python's Unicode `islower`, `isupper`, `isdigit` and `isalnum` are modelled on ASCII letters and digits only.
- The clock is an integer number of seconds, passed as a parameter.
- The job's `strftime` date rendering is a function parameter (`dateText`).
- Database failures inside the job (the insert failing, or the report update failing after the insert) are a per-report fault map. The model does not say what causes them.
- The order in which the job visits the selected reports is not fixed. The method returns it as a ghost value.
- The job's console output and the view's success messages are not modelled.
- Transactions and concurrent requests are not modelled. Every request runs alone.
- The `__str__` of Profile, PetForAdoption and Notification are not modelled. They only format text for the admin site.
- Notification creation and marking as read are not modelled. No modelled view and not the job creates or updates notifications, so only their defaults and cascades are. The REST `NotificationViewSet` (users/views.py:33-36) and the admin site can do both.
- FoundPets.AutoListing: the contract states only the fixed opening of the description. The date text and the closing sentence follow it in the body.
- A promotion whose target has no profile raises in the source after `is_staff` has been saved. The model reports this as the outcome `PromotedWithoutProfile` and keeps the saved flag.
