# HealthAndMed scheduling core, modelled in Dafny

HealthAndMed is a medical-appointment backend. Patients book a doctor's
slot (`Agenda`). Booking locks the slot and creates a `Pendente`
appointment (`Agendamento`). The doctor accepts it (`Agendado`) or refuses
it (`Recusado`). The patient or an administrator may cancel it
(`Cancelado`), which unlocks the slot again. Administrators manage users.
Creating a user of type "médico" or "paciente" also creates the matching
doctor (`Medico`) or patient (`Paciente`) record. Callers authenticate
with HTTP Basic credentials. The identifier is an e-mail address, an
11-digit CPF or a doctor's CRM.

This project models that core as pure functions over an immutable store:

- `Entities`: the records and the store, one map per table keyed by record id.
  - A request's surroundings are an `Env`: the clock reading, and which `SaveChanges` calls fail, with what message.
  - A repository call returns `Done(value, store)` or `Threw(exception)`.
  - An endpoint returns its response together with the store it leaves behind.
- `Keys`: how fresh ids are chosen (one above the largest in use). It also fixes the scan order that `FirstOrDefault` with a predicate uses: ascending id.
- `Text`: case folding, ordinal substring search, `IsNullOrEmpty`, digits, and the `\s` character class.
- Repositories:
  - `AppointmentRepository` and `ScheduleRepository`: insert, delete, list, and the sparse-merge update.
  - `UserRepository`: the same operations for users.
  - `PatientRepository` and `DoctorRepository`: insert, lookup by user id, and the doctor list with each doctor's user loaded.
- `Authorization`: the role table of the `[Authorize]` attributes, and the ownership filters for doctors and patients.
- Controllers:
  - `AppointmentController`: listing, booking, the administrator's update and delete, cancellation and the doctor's ruling.
  - `ScheduleController`: the slot endpoints.
  - `DoctorController`: doctor search with optional filters, and the search restricted to doctors with an open future slot.
  - `UserController`: user provisioning.
- `Authentication`: the Basic authentication handler, from the request path and the decoded credentials down to the claims it issues.
- `EmailAddress`: the e-mail validation attribute.
- `Booking`: the slot-locking invariant. It says that an active (`Pendente` or `Agendado`) appointment sits in an existing locked slot, and that no two active appointments share a slot. This module states which endpoints keep the invariant and which break it.
- `Api`: the role check in front of every endpoint, and the invariant stated for whole requests.

Where the intended behaviour and the code disagree, the model follows the code:

- A locked slot, an appointment in the wrong status and an invalid ruling token are answered with 400 BadRequest. There is no 409 Conflict.
- The administrator's appointment update is not a full replacement. It forwards only the three ids, and the repository keeps each stored id unless the new one is positive.
- "A slot is locked iff it backs one non-terminal appointment" does not hold. A refused booking keeps its slot locked with nothing active in it (`Booking.RefusalKeepsSlotLocked`).
- Deleting an appointment leaves its slot locked.
- Slot update and slot delete never check that the acting doctor owns the slot.
- Slot update always clears the slot's lock. Its patch leaves `IsBloqueado` at false, and the repository copies the flag unconditionally. So any doctor can free a booked slot (`Api.AnyDoctorCanFreeBookedSlot`).

## Model

| member | source | states |
|---|---|---|
| Keys.NextId | HealthAndMed.API/Repository/AppointmentRepository.cs:27-28 | an inserted record gets a positive id that no stored record uses |
| Text.Lower | HealthAndMed.API/Controllers/AppointmentController.cs:237-241 | `ToLower` keeps the length and folds each character on its own |
| Text.LowerIdempotent | HealthAndMed.API/Controllers/AppointmentController.cs:237-241 | folding twice equals folding once |
| Text.Contains | HealthAndMed.API/Controllers/DoctorController.cs:50 | `Contains` is true exactly when the query occurs at some position of the text |
| AppointmentRepository.CreateAppointment | HealthAndMed.API/Repository/AppointmentRepository.cs:18-31 | null input throws; a rejected save throws and writes nothing; otherwise the record is stored under a fresh id, status `Pendente`, both timestamps `now`, the given ids and reason kept, no other table touched |
| AppointmentRepository.DeleteAppointment | HealthAndMed.API/Repository/AppointmentRepository.cs:33-41 | an unknown id throws `NotImplementedException`; otherwise exactly that record is removed |
| AppointmentRepository.ListAppointments | HealthAndMed.API/Repository/AppointmentRepository.cs:43-62 | one row per stored appointment, carrying its id, patient, doctor and slot ids, status, reason and both timestamps |
| AppointmentRepository.MergeAppointment | HealthAndMed.API/Repository/AppointmentRepository.cs:73-78 | each id is replaced only by a positive one; status and reason only by non-null ones; creation time is kept; modification time is `now` |
| AppointmentRepository.UpdateAppointment | HealthAndMed.API/Repository/AppointmentRepository.cs:64-82 | null input and an unknown id throw with their messages; otherwise only the named record changes, by the merge |
| AppointmentRepository.BlankPatchKeepsRecord | HealthAndMed.API/Repository/AppointmentRepository.cs:73-78 | a patch carrying only the id changes nothing except the modification time |
| AppointmentRepository.MergeIdempotent | HealthAndMed.API/Repository/AppointmentRepository.cs:73-78 | applying the same patch twice equals applying it once |
| AppointmentRepository.WritesKeepKeys | HealthAndMed.API/Repository/AppointmentRepository.cs:18-82 | after any successful write, each record is still stored under its own id, so lookup by key is `FirstOrDefault(a => a.Id == id)` |
| AppointmentRepository.ListingAfterCreate | HealthAndMed.API/Repository/AppointmentRepository.cs:18-62 | after a successful insert the listing gains exactly the new key, with the requested ids, status `Pendente` and `now`; the other rows are unchanged |
| AppointmentRepository.ListingAfterDelete | HealthAndMed.API/Repository/AppointmentRepository.cs:33-62 | after a successful delete the listing loses exactly that key; the other rows are unchanged |
| ScheduleRepository.CreateDoctorsSchedule | HealthAndMed.API/Repository/DoctorsScheduleRepository.cs:18-30 | a new slot is always unlocked, stamped `now`, under a fresh id, with the given doctor and times |
| ScheduleRepository.DeleteDoctorsSchedule | HealthAndMed.API/Repository/DoctorsScheduleRepository.cs:32-40 | an unknown id throws; otherwise exactly that slot is removed |
| ScheduleRepository.ListDoctorsSchedule | HealthAndMed.API/Repository/DoctorsScheduleRepository.cs:42-61 | one row per stored slot, carrying its id, doctor, times, lock and both timestamps |
| ScheduleRepository.MergeAgenda | HealthAndMed.API/Repository/DoctorsScheduleRepository.cs:72-76 | the lock is always taken from the patch; a time only when it is not the default; doctor and creation time are kept |
| ScheduleRepository.UpdateDoctorsSchedule | HealthAndMed.API/Repository/DoctorsScheduleRepository.cs:63-80 | null input and an unknown id throw (the latter with the appointment wording); otherwise only the named slot changes, by the merge |
| ScheduleRepository.LockPatchTouchesOnlyTheFlag | HealthAndMed.API/Repository/DoctorsScheduleRepository.cs:72-76 | locking or unlocking with a blank patch changes only the flag and the modification time |
| ScheduleRepository.MergeIdempotent | HealthAndMed.API/Repository/DoctorsScheduleRepository.cs:72-76 | applying the same patch twice equals applying it once |
| ScheduleRepository.WritesKeepKeys | HealthAndMed.API/Repository/DoctorsScheduleRepository.cs:18-80 | every successful write keeps each slot under its own id |
| ScheduleRepository.ListingAfterCreate | HealthAndMed.API/Repository/DoctorsScheduleRepository.cs:18-61 | after a successful insert the listing gains exactly the new key, unlocked, with the requested doctor and times and `now`; the other rows are unchanged |
| ScheduleRepository.ListingAfterDelete | HealthAndMed.API/Repository/DoctorsScheduleRepository.cs:32-61 | after a successful delete the listing loses exactly that key; the other rows are unchanged |
| UserRepository.CreateUser | HealthAndMed.API/Repository/UserRepository.cs:18-29 | the user is stored under a fresh id with its fields as given, stamped `now` |
| UserRepository.DeleteUser | HealthAndMed.API/Repository/UserRepository.cs:31-39 | an unknown id throws; otherwise exactly that user is removed |
| UserRepository.ListUsers | HealthAndMed.API/Repository/UserRepository.cs:41-57 | one row per stored user, carrying its id, name, CPF, e-mail, password, type and both timestamps |
| UserRepository.Overwrite | HealthAndMed.API/Repository/UserRepository.cs:69-73 | a non-null incoming value wins; a null one keeps the stored value |
| UserRepository.MergeUsuario | HealthAndMed.API/Repository/UserRepository.cs:68-73 | name, CPF, e-mail, password and type are each overwritten only by non-null values; creation time is kept |
| UserRepository.UpdateUser | HealthAndMed.API/Repository/UserRepository.cs:59-77 | null input and an unknown id throw; otherwise only the named user changes, by the merge |
| UserRepository.NullPatchKeepsUser | HealthAndMed.API/Repository/UserRepository.cs:68-73 | a patch whose fields are all null changes nothing except the modification time |
| UserRepository.MergeIdempotent | HealthAndMed.API/Repository/UserRepository.cs:68-73 | applying the same patch twice equals applying it once |
| UserRepository.WritesKeepKeys | HealthAndMed.API/Repository/UserRepository.cs:18-77 | every successful write keeps each user under its own id |
| UserRepository.ListingAfterCreate | HealthAndMed.API/Repository/UserRepository.cs:18-57 | after a successful insert the listing gains exactly the new key, with the given fields and `now`; the other rows are unchanged |
| UserRepository.ListingAfterDelete | HealthAndMed.API/Repository/UserRepository.cs:31-57 | after a successful delete the listing loses exactly that key; the other rows are unchanged |
| PatientRepository.CreatePatient | HealthAndMed.API/Repository/PatientRepository.cs:16-28 | the patient is stored under a fresh id with its user id, stamped `now` |
| PatientRepository.GetPatientByUserId | HealthAndMed.API/Repository/PatientRepository.cs:30-33 | returns a stored patient of that user; null exactly when the user has no patient record |
| PatientRepository.WritesKeepKeys | HealthAndMed.API/Repository/PatientRepository.cs:16-28 | an insert keeps each patient under its own id |
| DoctorRepository.CreateDoctor | HealthAndMed.API/Repository/DoctorRepository.cs:14-26 | the doctor is stored under a fresh id with user id, CRM, specialty and fee as given |
| DoctorRepository.GetDoctorByUserId | HealthAndMed.API/Repository/DoctorRepository.cs:29-32 | returns a stored doctor of that user; null exactly when the user has no doctor record |
| DoctorRepository.GetAllDoctors | HealthAndMed.API/Repository/DoctorRepository.cs:33-36 | the `Include` is an inner join on a required foreign key: exactly the stored doctors whose user exists, each paired with that user |
| DoctorRepository.WritesKeepKeys | HealthAndMed.API/Repository/DoctorRepository.cs:14-26 | an insert keeps each doctor under its own id |
| Authorization.RoleTable | HealthAndMed.API/Controllers/AppointmentController.cs:38-280 | administrators may call every endpoint. Patients may list, book and cancel appointments and search doctors. Doctors may list and rule on appointments and list, create and update slots. Any other role string may call nothing |
| Authorization.NoPatientRecordOwnsNothing | HealthAndMed.API/Controllers/AppointmentController.cs:53-54 | a caller without a patient record sees no appointment as a patient |
| Authorization.PatientOwnershipIsThroughRecord | HealthAndMed.API/Controllers/AppointmentController.cs:53-54 | a patient owns an appointment only through a patient record attached to their user id |
| AppointmentController.GetAppointment | HealthAndMed.API/Controllers/AppointmentController.cs:40-63 | an administrator gets every appointment. A doctor gets exactly those of doctor records attached to their user. Anyone else gets exactly those of their patient record |
| AppointmentController.CreateAppointment | HealthAndMed.API/Controllers/AppointmentController.cs:72-111 | unknown slot: NotFound, nothing written. Locked slot: BadRequest, nothing written. Free slot: locked first, then a `Pendente` appointment with the three input ids in a fresh record. A failed second write leaves the slot locked and answers BadRequest |
| AppointmentController.UpdateAppointment | HealthAndMed.API/Controllers/AppointmentController.cs:121-145 | unknown id: NotFound. Otherwise each of the three ids is replaced only when positive. The record keeps its id, status, reason and creation time, and its modification time becomes `now`. Every other record and every slot stay |
| AppointmentController.CancelTarget | HealthAndMed.API/Controllers/AppointmentController.cs:162-169 | an administrator reaches any appointment; anyone else only one of their own patient record |
| AppointmentController.CancelAppointment | HealthAndMed.API/Controllers/AppointmentController.cs:155-203 | out of scope: NotFound. Not `Pendente`/`Agendado`: BadRequest. Otherwise the record becomes `Cancelado` (reason set unless null), then its slot is unlocked. Each write failure answers 500 and keeps the writes made before it |
| AppointmentController.RulingTarget | HealthAndMed.API/Controllers/AppointmentController.cs:220-230 | a doctor reaches only appointments of their own doctor records; every other permitted role reaches any |
| AppointmentController.RulingStatus | HealthAndMed.API/Controllers/AppointmentController.cs:237-248 | "aceito" in any case gives `Agendado`; "recusado" gives `Recusado`; every other token gives none |
| AppointmentController.UpdateAppointmentStatus | HealthAndMed.API/Controllers/AppointmentController.cs:213-272 | out of scope: NotFound. Not `Pendente`: BadRequest, whatever the token says. Null token: 500. Bad token: BadRequest. Otherwise only status and modification time change, and no slot is touched |
| AppointmentController.DeleteAppointment | HealthAndMed.API/Controllers/AppointmentController.cs:281-297 | unknown id: NotFound; otherwise exactly that record is removed and its slot stays as it was |
| ScheduleController.GetDoctorsSchedule | HealthAndMed.API/Controllers/DoctorsScheduleController.cs:34-53 | a doctor gets exactly the slots of their own doctor records; every other caller gets all slots |
| ScheduleController.CreateDoctorsSchedule | HealthAndMed.API/Controllers/DoctorsScheduleController.cs:62-80 | a failed save is BadRequest with nothing written; otherwise one new unlocked slot with the given doctor and times |
| ScheduleController.UpdateDoctorsSchedule | HealthAndMed.API/Controllers/DoctorsScheduleController.cs:90-113 | unknown slot: NotFound. Otherwise the times change (a default time keeps the old one), the body's doctor is ignored, the slot keeps its id and creation time, the modification time becomes `now`, and the lock becomes false |
| ScheduleController.DeleteDoctorsSchedule | HealthAndMed.API/Controllers/DoctorsScheduleController.cs:122-138 | unknown slot: NotFound; otherwise exactly that slot is removed |
| DoctorController.Selected | HealthAndMed.API/Controllers/DoctorController.cs:45-78 | selects exactly the doctors that have a user and that every active filter accepts |
| DoctorController.GetDoctors | HealthAndMed.API/Controllers/DoctorController.cs:37-87 | always 200, since the join never yields a doctor without a user. The rows are exactly the accepted doctors, with their user's name and e-mail |
| DoctorController.FutureSlotsOf | HealthAndMed.API/Controllers/DoctorController.cs:108-148 | a doctor's listed slots are exactly their unlocked slots starting after `now`, each row carrying the slot's id, start, end and both timestamps |
| DoctorController.GetDoctorsWithFutureSchedules | HealthAndMed.API/Controllers/DoctorController.cs:99-157 | always 200. It lists exactly the accepted doctors that have an open future slot, each with those slots |
| DoctorController.NoFilterListsEveryDoctor | HealthAndMed.API/Controllers/DoctorController.cs:45-66 | a search without filters lists exactly the doctors that have a user, so every doctor when none is missing its user |
| DoctorController.EmptyFiltersAreIgnored | HealthAndMed.API/Controllers/DoctorController.cs:48-61 | empty-string text filters answer the same as absent ones |
| DoctorController.FiltersAreConjunctive | HealthAndMed.API/Controllers/DoctorController.cs:48-66 | a doctor is listed iff each filter, applied alone, lists it |
| DoctorController.SearchesAgree | HealthAndMed.API/Controllers/DoctorController.cs:99-157 | the future search lists a subset of the plain search, with the same doctor columns |
| UserController.GetUser | HealthAndMed.API/Controllers/UserController.cs:41-52 | one row per stored user |
| UserController.CreateUser | HealthAndMed.API/Controllers/UserController.cs:61-115 | the user is stored first. Type "médico" (any case) with CRM, specialty and fee adds a doctor for that user. Without those fields the answer is BadRequest and the user stays. Type "paciente" adds a patient. Any other type adds only the user. Each failed save is 500 and keeps earlier writes |
| UserController.UpdateUser | HealthAndMed.API/Controllers/UserController.cs:125-152 | unknown id: NotFound; otherwise each of the five fields is replaced only when non-null, and no other user changes |
| UserController.DeleteUser | HealthAndMed.API/Controllers/UserController.cs:161-178 | unknown id: NotFound; otherwise exactly that user is removed |
| UserController.TypesExclusive | HealthAndMed.API/Controllers/UserController.cs:78-98 | no type string is both a doctor type and a patient type |
| UserController.ProvisioningCounts | HealthAndMed.API/Controllers/UserController.cs:61-115 | without save failures, exactly one user is added. One doctor is added exactly when a doctor type comes with all its fields. One patient is added exactly when the type is patient. Slots and appointments are untouched |
| UserController.RefusedDoctorKeepsUser | HealthAndMed.API/Controllers/UserController.cs:76-85 | a doctor missing a field is refused, but the user already stored remains and no doctor is added |
| UserController.UserRowStored | HealthAndMed.API/Controllers/UserController.cs:61-72 | once the user save succeeds, the user is stored under a fresh id whatever the doctor or patient step does |
| UserController.GetUserAfterCreate | HealthAndMed.API/Controllers/UserController.cs:41-115 | after a creation whose user save succeeds, `GetUser` lists exactly one new user with the request's fields and `now`, and the earlier users unchanged; after a failed save it lists the same users |
| Authentication.IndexOf | HealthAndMed.API/Authentication/BasicAuthenticationHandler.cs:76 | finds the first occurrence of the separator, or reports that there is none |
| Authentication.SplitFirst | HealthAndMed.API/Authentication/BasicAuthenticationHandler.cs:76-84 | no ':' means no split; otherwise identifier + ":" + password rebuilds the credentials, and the identifier holds no ':' |
| Authentication.SplitJoin | HealthAndMed.API/Authentication/BasicAuthenticationHandler.cs:76-84 | splitting a joined pair returns it, so a password may contain ':' |
| Authentication.Classify | HealthAndMed.API/Authentication/BasicAuthenticationHandler.cs:88-138 | the identifier is read as an e-mail iff it contains '@'; as a CPF iff not and it is 11 digits; otherwise as a CRM |
| Authentication.CpfShapedIsCpf | HealthAndMed.API/Authentication/BasicAuthenticationHandler.cs:173-176 | an 11-digit identifier is always read as a CPF |
| Authentication.FirstStop | HealthAndMed.API/Authentication/BasicAuthenticationHandler.cs:91-93 | a scan stops at the smallest key it stops at, and throws iff that record is one it dereferences null on |
| Authentication.UserClaims | HealthAndMed.API/Authentication/BasicAuthenticationHandler.cs:99-105 | claims exist iff name, e-mail and type are non-null, and then they carry that user's id and type |
| Authentication.Login | HealthAndMed.API/Authentication/BasicAuthenticationHandler.cs:88-159 | a credential check never answers anonymously |
| Authentication.Authenticate | HealthAndMed.API/Authentication/BasicAuthenticationHandler.cs:28-171 | anonymous paths pass without identity. Each header defect fails with its own message. Credentials without ':' fail. Otherwise the answer is that of the identifier/password check, and only that path authenticates |
| Authentication.EmailLogin | HealthAndMed.API/Authentication/BasicAuthenticationHandler.cs:89-110 | with complete user records, an identifier with '@' logs in iff some user has that e-mail (any case) and password. The principal is that user, with their type as role. Otherwise it fails with the e-mail message |
| Authentication.CpfLogin | HealthAndMed.API/Authentication/BasicAuthenticationHandler.cs:113-134 | with complete user records, an 11-digit identifier logs in iff some user has that CPF and password, as that user; otherwise it fails with the CPF message |
| Authentication.CrmLogin | HealthAndMed.API/Authentication/BasicAuthenticationHandler.cs:137-158 | any other identifier logs in iff some doctor whose user exists has that CRM (any case) and their user that password. The principal is the doctor's user, not the doctor, with that user's id, type as role, name and e-mail. Otherwise it fails with the CRM message |
| EmailAddress.MatchesAddress | HealthAndMed.API/Extensions/CustomDataAnnotations/CustomEmailAddress.cs:23-25 | decides the intended address shape: a non-empty local part, one '@', and a domain with an inner '.', with no other '@' and no whitespace |
| EmailAddress.IsValid | HealthAndMed.API/Extensions/CustomDataAnnotations/CustomEmailAddress.cs:11-26 | null is valid; a non-string is not; a string is valid iff the pattern, with .NET's `$`, matches it |
| EmailAddress.IsValidAnchored | HealthAndMed.API/Extensions/CustomDataAnnotations/CustomEmailAddress.cs:23-25 | the same with the pattern anchored at the very end: a string is valid iff it has the intended shape |
| EmailAddress.OneAtNoWhitespace | HealthAndMed.API/Extensions/CustomDataAnnotations/CustomEmailAddress.cs:19-25 | an address of the intended shape has exactly one '@' and no whitespace |
| EmailAddress.AtAtEitherEndRejected | HealthAndMed.API/Extensions/CustomDataAnnotations/CustomEmailAddress.cs:19-25 | the empty string, and a string starting or ending with '@', are rejected |
| EmailAddress.DomainNeedsInnerDot | HealthAndMed.API/Extensions/CustomDataAnnotations/CustomEmailAddress.cs:23-25 | "a@b" and "a@.b" are rejected, "a@b.c" accepted |
| EmailAddress.TrailingLineFeedAccepted | HealthAndMed.API/Extensions/CustomDataAnnotations/CustomEmailAddress.cs:23-25 | the pattern as written accepts "a@b.c" followed by a line feed, which the intended shape rejects |
| EmailAddress.AnchoringsDifferOnlyAtFinalLineFeed | HealthAndMed.API/Extensions/CustomDataAnnotations/CustomEmailAddress.cs:23-25 | the two anchorings disagree only on a valid address followed by one line feed |
| Booking.LockKeeps | HealthAndMed.API/Controllers/AppointmentController.cs:83-89 | locking a slot keeps the invariant, and so does unlocking a slot that no active appointment uses |
| Booking.CreateKeeps | HealthAndMed.API/Controllers/AppointmentController.cs:76-98 | booking keeps the invariant under every fault pattern, because it books only a free slot and locks it first |
| Booking.CancelKeeps | HealthAndMed.API/Controllers/AppointmentController.cs:171-195 | cancelling keeps the invariant under every fault pattern: the appointment stops being active before its slot is freed |
| Booking.RulingKeeps | HealthAndMed.API/Controllers/AppointmentController.cs:232-264 | accepting or refusing keeps the invariant |
| Booking.DeleteKeeps | HealthAndMed.API/Controllers/AppointmentController.cs:285-290 | deleting an appointment keeps the invariant |
| Booking.SlotCreateKeeps | HealthAndMed.API/Controllers/DoctorsScheduleController.cs:66-73 | creating a slot keeps the invariant |
| Booking.AdminUpdateBreaks | HealthAndMed.API/Controllers/AppointmentController.cs:131-138 | moving an active appointment into a free slot breaks the invariant, because the new slot is not locked |
| Booking.SlotUpdateBreaks | HealthAndMed.API/Controllers/DoctorsScheduleController.cs:100-106 | updating a slot that an active appointment uses breaks the invariant |
| Booking.SlotDeleteBreaks | HealthAndMed.API/Controllers/DoctorsScheduleController.cs:126-131 | deleting a slot that an active appointment uses breaks the invariant (in the model's store, without foreign keys) |
| Booking.BreakingWritesOnSample | HealthAndMed.API/Controllers/AppointmentController.cs:131-138 | one concrete store that satisfies the invariant, and that each of the three breaking writes takes out of it |
| Booking.RefusalKeepsSlotLocked | HealthAndMed.API/Controllers/AppointmentController.cs:241-264 | after a refusal, the slot stays locked with no active appointment in it |
| Api.Handle | HealthAndMed.API/Controllers/AppointmentController.cs:38-280 | a caller whose role the endpoint does not name gets Forbidden and nothing is written; a permitted caller never gets Forbidden |
| Api.UserWritesKeepBookings | HealthAndMed.API/Controllers/UserController.cs:61-178 | user provisioning never changes slots or appointments (in the model's store, without foreign keys) |
| Api.InvariantKeptOutsideRawWrites | HealthAndMed.API/Controllers/AppointmentController.cs:72-297 | every request except appointment update, slot update and slot delete keeps the invariant |
| Api.PatientsKeepInvariant | HealthAndMed.API/Controllers/AppointmentController.cs:70-203 | no request from a patient breaks the invariant |
| Api.AnyDoctorCanFreeBookedSlot | HealthAndMed.API/Controllers/DoctorsScheduleController.cs:88-113 | any doctor, owner of the slot or not, breaks the invariant by updating a booked slot |
| Api.SlotWritesIgnoreCaller | HealthAndMed.API/Controllers/DoctorsScheduleController.cs:88-138 | slot update and delete answer the same for every permitted caller |

## Left out

- Parsing the header value and Base64/UTF-8 decoding are library calls. The request carries their results. A malformed header is not modelled, so the `FormatException` branch and its message are left out.
- Logging, the claims-identity plumbing and the `AuthenticationTicket` are left out. The handler's result is the principal's four claims.
- The database's foreign keys and cascade deletes are left out, as are the column lengths. A write the database rejects is an injected fault. The store lets a doctor, patient or appointment point at a missing record. Where a property needs the foreign key, it says so with `DoctorsHaveUsers`.
- The listing queries drop the display fields they join in: patient and doctor names, the slot start, and the doctor's CRM, specialty and fee. The appointment and slot listings' inner joins, which would drop rows with dangling references, are not modelled: those listings keep every stored row. The doctor list's join is modelled.
- Listings are maps keyed by id, so result order and `Distinct()` are not modelled.
- Reads never fail. The `catch` branches of the listing endpoints are therefore unreachable in the model, except the null dereferences that are modelled.
- Concurrency is left out. Each request runs alone, so the booking race between two simultaneous requests for one slot is not modelled.
- The regex's 250 ms timeout is left out. The unused `IndexOf('@')` in the e-mail validator does nothing and is left out too.
- ASP.NET model validation ([Required], the e-mail attribute applied to bodies) runs before the endpoints. It is not modelled.
- The role and user-id claims are taken as a typed `Principal`. The `int.Parse` of the id claim, and its "0" default, are not modelled.
- Text.Lower: case folding is simple Latin-1 lower-casing, and characters outside Latin-1 are left unchanged. `OrdinalIgnoreCase` upper-cases the full Unicode range. It also matches pairs such as 'ÿ'/'Ÿ' or 'µ'/'Μ' that Latin-1 lower-casing does not. The culture-sensitive `ToLower()` that the status ruling and the user-type checks use (AppointmentController.cs:237,241; UserController.cs:78) is not modelled either: under a Turkish culture 'I' lowers to a dotless 'ı', which the model does not do.
- Text.IsDigit: only the ASCII digits, while `char.IsDigit` also accepts other Unicode decimal digits.
- The consultation fee is an opaque real; only its presence is ever checked.
- Clock readings are whole ticks, one reading per request; several `DateTime.Now` calls in one request read the same value.

## Findings

| source | as written | input that shows it | evidently intended | confidence | as-written member | corrected member |
|---|---|---|---|---|---|---|
| HealthAndMed.API/Extensions/CustomDataAnnotations/CustomEmailAddress.cs:23-25 | the pattern ends in `$`, which in .NET also matches just before a final line feed | "a@b.c\n" is accepted although it contains whitespace | reject every string containing whitespace, that is, anchor at the very end (`\z`) | medium; not executed | EmailAddress.IsValid, EmailAddress.TrailingLineFeedAccepted | EmailAddress.IsValidAnchored |
