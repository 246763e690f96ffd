/**
 * The in-memory directory and booking store of `services/mockApiService.ts`.
 *
 * The module-level arrays and id counters become one immutable `Store`
 * value; every exported operation is one atomic transition (the simulated
 * network delay is not modelled). An operation that throws returns `Err`
 * and no store, so the caller's store is left exactly as it was.
 */
module MockApi {
  import opened Wrappers
  import opened Types
  import opened Seqs
  import opened Decimal

  datatype Store = Store(
    users: seq<User>,
    appointments: seq<Appointment>,
    nextUserId: nat,
    nextDoctorId: nat,
    nextAppointmentId: nat)

  /** The errors the store throws, one per distinct message. */
  datatype ApiError =
    | UserNotFound
    | DoctorNotApproved
    | EmailInUse
    | UserOrDoctorNotFound
    | AppointmentNotFoundOrUnauthorized
    | DoctorNotFound

  function Message(e: ApiError): string
  {
    match e
    case UserNotFound => "User not found"
    case DoctorNotApproved => "Doctor account not yet approved."
    case EmailInUse => "Email already in use"
    case UserOrDoctorNotFound => "User or Doctor not found"
    case AppointmentNotFoundOrUnauthorized => "Appointment not found or unauthorized"
    case DoctorNotFound => "Doctor not found"
  }

  /** Each error kind has its own message, so the text shown identifies the error. */
  lemma MessageIdentifiesError(e1: ApiError, e2: ApiError)
    ensures Message(e1) == Message(e2) <==> e1 == e2
  {
  }

  const DayMs: int := 24 * 60 * 60 * 1000

  /** The state the store starts in; `now` stands for `Date.now()` at start-up. */
  function Seed(now: int): (r: Store)
    ensures |r.users| == 9 && |r.appointments| == 1
    ensures r.users[4].id == "d3" && r.users[8].id == "d7"
    ensures forall i :: 0 <= i < |r.users| ==>
      (r.users[i].PendingApproval() <==> r.users[i].id == "d3" || r.users[i].id == "d7")
    ensures forall i :: 0 <= i < |r.appointments| ==>
      r.appointments[i].status == Scheduled && r.appointments[i].apptTime > now
  {
    Store(
      [ AdminAccount("1", "Admin User", "admin@health.com"),
        PatientAccount("2", "Patient Zero", "patient@health.com"),
        DoctorAccount("d1", "Dr. Alice Wonderland", "alice@health.com", "Cardiology", 250, true, 15),
        DoctorAccount("d2", "Dr. Bob Builder", "bob@health.com", "Pediatrics", 150, true, 12),
        DoctorAccount("d3", "Dr. Carol Danvers", "carol@health.com", "Dermatology", 200, false, 8),
        DoctorAccount("d4", "Dr. David Banner", "david@health.com", "Neurology", 300, true, 20),
        DoctorAccount("d5", "Dr. Eleanor Arroway", "eleanor@health.com", "Oncology", 275, true, 18),
        DoctorAccount("d6", "Dr. Frank Poole", "frank@health.com", "Orthopedics", 220, true, 9),
        DoctorAccount("d7", "Dr. Grace Augustine", "grace@health.com", "General Practice", 120, false, 5) ],
      [ Appointment("a1", "2", "Patient Zero", "d1", "Dr. Alice Wonderland", Some("Cardiology"),
                    now + 2 * DayMs, "Annual check-up", Scheduled) ],
      4, 8, 2)
  }

  // Search conditions of the `find` and `filter` calls.

  function HasEmail(email: string): User -> bool
  {
    (u: User) => u.email == email
  }

  function HasId(id: string): User -> bool
  {
    (u: User) => u.id == id
  }

  function LacksId(id: string): User -> bool
  {
    (u: User) => u.id != id
  }

  function IsDoctorWithId(id: string): User -> bool
  {
    (u: User) => u.id == id && u.RoleOf() == Doctor
  }

  function IsDoctor(u: User): bool
  {
    u.RoleOf() == Doctor
  }

  function IsApprovedDoctor(u: User): bool
  {
    u.RoleOf() == Doctor && u.DoctorAccount? && u.approved
  }

  function IsOwnedBy(appointmentId: string, userId: string): Appointment -> bool
  {
    (a: Appointment) => a.id == appointmentId && a.userId == userId
  }

  function ForPatient(userId: string): Appointment -> bool
  {
    (a: Appointment) => a.userId == userId
  }

  function ForDoctor(doctorId: string): Appointment -> bool
  {
    (a: Appointment) => a.doctorId == doctorId
  }

  function ApptTime(a: Appointment): int
  {
    a.apptTime
  }

  // --- Auth ---

  datatype Credentials = Credentials(token: string, user: User)

  const TokenPrefix: string := "mock-token-for-"

  function DoctorIdFor(n: nat): string
  {
    "d" + NatToString(n)
  }

  function AppointmentIdFor(n: nat): string
  {
    "a" + NatToString(n)
  }

  /** `users.find(u => u.email === email)`: the first record with the email. */
  function FindByEmail(s: Store, email: string): (r: Option<User>)
    ensures r.None? <==> forall i :: 0 <= i < |s.users| ==> s.users[i].email != email
    ensures forall i :: IsFirst(s.users, i, HasEmail(email)) ==> r == Some(s.users[i])
  {
    match FindFirst(s.users, HasEmail(email))
    case None => None
    case Some(i) => Some(s.users[i])
  }

  /**
   * `mockLogin`: the first record with the email signs in, unless it is a
   * doctor awaiting approval. The password is not an input at all.
   */
  function Login(s: Store, email: string): (r: Result<Credentials, ApiError>)
    ensures (forall i :: 0 <= i < |s.users| ==> s.users[i].email != email) ==> r == Err(UserNotFound)
    ensures forall i :: IsFirst(s.users, i, HasEmail(email)) ==>
      r == if s.users[i].PendingApproval() then Err(DoctorNotApproved)
           else Ok(Credentials(TokenPrefix + s.users[i].id, s.users[i]))
    ensures r.Ok? ==> r.value.user in s.users && r.value.user.email == email
    ensures r.Ok? ==> !r.value.user.PendingApproval()
  {
    match FindByEmail(s, email)
    case None => Err(UserNotFound)
    case Some(u) =>
      if u.PendingApproval() then Err(DoctorNotApproved)
      else Ok(Credentials(TokenPrefix + u.id, u))
  }

  /** The record `mockRegister` creates, before it is appended. */
  function NewAccount(s: Store, name: string, email: string, role: Role): User
  {
    match role
    case Doctor => DoctorAccount(DoctorIdFor(s.nextDoctorId), name, email, "General", 100, false, 1)
    case Patient => PatientAccount(NatToString(s.nextUserId), name, email)
    case Admin => AdminAccount(NatToString(s.nextUserId), name, email)
  }

  /**
   * `mockRegister`: refuses an email that is already stored, otherwise
   * appends one new record and advances exactly the counter it used.
   */
  function Register(s: Store, name: string, email: string, role: Role): (r: Result<(Store, User), ApiError>)
    ensures r.Err? <==> exists i :: 0 <= i < |s.users| && s.users[i].email == email
    ensures r.Err? ==> r.error == EmailInUse
    ensures r.Ok? ==>
      var (s', u) := r.value;
      && s'.users == s.users + [u]
      && s'.appointments == s.appointments
      && s'.nextAppointmentId == s.nextAppointmentId
      && u.name == name && u.email == email && u.RoleOf() == role
    ensures r.Ok? && role == Doctor ==>
      var (s', u) := r.value;
      && u == DoctorAccount(DoctorIdFor(s.nextDoctorId), name, email, "General", 100, false, 1)
      && s'.nextDoctorId == s.nextDoctorId + 1 && s'.nextUserId == s.nextUserId
    ensures r.Ok? && role != Doctor ==>
      var (s', u) := r.value;
      && u.id == NatToString(s.nextUserId)
      && s'.nextUserId == s.nextUserId + 1 && s'.nextDoctorId == s.nextDoctorId
  {
    if FindFirst(s.users, HasEmail(email)).Some? then Err(EmailInUse)
    else
      var u := NewAccount(s, name, email, role);
      var s' := if role == Doctor then s.(nextDoctorId := s.nextDoctorId + 1)
                else s.(nextUserId := s.nextUserId + 1);
      Ok((s'.(users := s.users + [u]), u))
  }

  // --- Doctors ---

  /** `mockGetApprovedDoctors`: the approved doctor records, in storage order. */
  function ApprovedDoctors(s: Store): (r: seq<User>)
    ensures forall u :: u in r <==> u in s.users && u.DoctorAccount? && u.approved
    ensures forall u :: multiset(r)[u] == if u.DoctorAccount? && u.approved then multiset(s.users)[u] else 0
    ensures IsSubseq(r, s.users)
  {
    Filter(s.users, IsApprovedDoctor)
  }

  /** `mockGetAllDoctors`: every Doctor-role record, approved or not, in storage order. */
  function AllDoctors(s: Store): (r: seq<User>)
    ensures forall u :: u in r <==> u in s.users && u.DoctorAccount?
    ensures forall u :: multiset(r)[u] == if u.DoctorAccount? then multiset(s.users)[u] else 0
    ensures IsSubseq(r, s.users)
  {
    Filter(s.users, IsDoctor)
  }

  // --- Appointments ---

  /** `users.find(u => u.id === id)`: the first record with the id. */
  function FindUser(s: Store, id: string): (r: Option<User>)
    ensures r.None? <==> forall i :: 0 <= i < |s.users| ==> s.users[i].id != id
    ensures forall i :: IsFirst(s.users, i, HasId(id)) ==> r == Some(s.users[i])
  {
    match FindFirst(s.users, HasId(id))
    case None => None
    case Some(i) => Some(s.users[i])
  }

  /** The appointment `mockBookAppointment` creates from the two resolved records. */
  function NewAppointment(s: Store, patient: User, doctor: User, userId: string, doctorId: string,
                          apptTime: int, notes: string): Appointment
  {
    Appointment(AppointmentIdFor(s.nextAppointmentId), userId, patient.name, doctorId, doctor.name,
                doctor.SpecialtyField(), apptTime, notes, Scheduled)
  }

  /**
   * `mockBookAppointment`: both ids must resolve to some record (of any
   * role, approved or not); the new appointment copies the names and the
   * specialty and is appended as Scheduled. There is no slot-conflict check.
   */
  function Book(s: Store, userId: string, doctorId: string, apptTime: int, notes: string)
    : (r: Result<(Store, Appointment), ApiError>)
    ensures r.Err? <==>
      (forall i :: 0 <= i < |s.users| ==> s.users[i].id != userId) ||
      (forall i :: 0 <= i < |s.users| ==> s.users[i].id != doctorId)
    ensures r.Err? ==> r.error == UserOrDoctorNotFound
    ensures r.Ok? ==>
      var (s', a) := r.value;
      s' == s.(appointments := s.appointments + [a], nextAppointmentId := s.nextAppointmentId + 1)
    ensures r.Ok? ==>
      var a := r.value.1;
      && a.id == AppointmentIdFor(s.nextAppointmentId)
      && a.userId == userId && a.doctorId == doctorId
      && a.apptTime == apptTime && a.notes == notes && a.status == Scheduled
    ensures r.Ok? ==> forall i :: IsFirst(s.users, i, HasId(userId)) ==>
      r.value.1.userName == s.users[i].name
    ensures r.Ok? ==> forall j :: IsFirst(s.users, j, HasId(doctorId)) ==>
      r.value.1.doctorName == s.users[j].name && r.value.1.doctorSpecialty == s.users[j].SpecialtyField()
  {
    match (FindUser(s, userId), FindUser(s, doctorId))
    case (Some(patient), Some(doctor)) =>
      var a := NewAppointment(s, patient, doctor, userId, doctorId, apptTime, notes);
      Ok((s.(appointments := s.appointments + [a], nextAppointmentId := s.nextAppointmentId + 1), a))
    case _ => Err(UserOrDoctorNotFound)
  }

  /**
   * `mockGetUserAppointments`: exactly the patient's appointments, latest
   * time first.
   */
  function PatientAppointments(s: Store, userId: string): (r: seq<Appointment>)
    ensures forall a :: multiset(r)[a] == if a.userId == userId then multiset(s.appointments)[a] else 0
    ensures forall a :: a in r <==> a in s.appointments && a.userId == userId
    ensures SortedDesc(r, ApptTime)
  {
    SortDesc(Filter(s.appointments, ForPatient(userId)), ApptTime)
  }

  /**
   * `mockCancelAppointment`: the first appointment with both the id and the
   * owner becomes Cancelled, whatever its status was; nothing else changes.
   */
  function Cancel(s: Store, appointmentId: string, userId: string): (r: Result<(Store, Appointment), ApiError>)
    ensures r.Err? <==> forall i :: 0 <= i < |s.appointments| ==>
      !(s.appointments[i].id == appointmentId && s.appointments[i].userId == userId)
    ensures r.Err? ==> r.error == AppointmentNotFoundOrUnauthorized
    ensures forall i :: IsFirst(s.appointments, i, IsOwnedBy(appointmentId, userId)) ==>
      var a := s.appointments[i].(status := Cancelled);
      r == Ok((s.(appointments := s.appointments[i := a]), a))
  {
    match FindFirst(s.appointments, IsOwnedBy(appointmentId, userId))
    case None => Err(AppointmentNotFoundOrUnauthorized)
    case Some(i) =>
      var a := s.appointments[i].(status := Cancelled);
      Ok((s.(appointments := s.appointments[i := a]), a))
  }

  // --- Doctor Dashboard ---

  /**
   * `mockGetDoctorAppointments`: exactly the appointments booked with the
   * doctor id, latest time first.
   */
  function DoctorAppointments(s: Store, doctorId: string): (r: seq<Appointment>)
    ensures forall a :: multiset(r)[a] == if a.doctorId == doctorId then multiset(s.appointments)[a] else 0
    ensures forall a :: a in r <==> a in s.appointments && a.doctorId == doctorId
    ensures SortedDesc(r, ApptTime)
  {
    SortDesc(Filter(s.appointments, ForDoctor(doctorId)), ApptTime)
  }

  // --- Admin Dashboard ---

  /**
   * `mockApproveDoctor`: the first Doctor-role record with the id becomes
   * approved; the call fails only when there is no such record.
   */
  function Approve(s: Store, doctorId: string): (r: Result<(Store, User), ApiError>)
    ensures r.Err? <==> forall i :: 0 <= i < |s.users| ==>
      !(s.users[i].id == doctorId && s.users[i].RoleOf() == Doctor)
    ensures r.Err? ==> r.error == DoctorNotFound
    ensures forall i :: IsFirst(s.users, i, IsDoctorWithId(doctorId)) ==>
      s.users[i].DoctorAccount? &&
      var d := s.users[i].(approved := true);
      r == Ok((s.(users := s.users[i := d]), d))
  {
    match FindFirst(s.users, IsDoctorWithId(doctorId))
    case None => Err(DoctorNotFound)
    case Some(i) =>
      var d := s.users[i].(approved := true);
      Ok((s.(users := s.users[i := d]), d))
  }

  /**
   * `mockRemoveDoctor`: deletes every record with the id, whatever its
   * role, and never fails; appointments and counters are untouched.
   */
  function Remove(s: Store, doctorId: string): (r: Store)
    ensures forall u :: u in r.users <==> u in s.users && u.id != doctorId
    ensures forall u :: multiset(r.users)[u] == if u.id != doctorId then multiset(s.users)[u] else 0
    ensures IsSubseq(r.users, s.users)
    ensures r.appointments == s.appointments
    ensures r.nextUserId == s.nextUserId && r.nextDoctorId == s.nextDoctorId
    ensures r.nextAppointmentId == s.nextAppointmentId
  {
    s.(users := Filter(s.users, LacksId(doctorId)))
  }
}
