/**
 * The invariant the booking store keeps, and properties relating several
 * store operations: unique emails and ids, ids that the counters have
 * already handed out (so every generated id is fresh), idempotence of
 * cancellation and approval, and the doctor sign-up scenario.
 */
module StoreInvariant {
  import opened Wrappers
  import opened Types
  import opened Seqs
  import opened Decimal
  import opened MockApi

  function EmailOf(u: User): string
  {
    u.email
  }

  function IdOf(u: User): string
  {
    u.id
  }

  function AppointmentIdOf(a: Appointment): string
  {
    a.id
  }

  /** `id` is one the user counters have already produced. */
  ghost predicate IssuedUserId(s: Store, id: string)
  {
    || (exists k: nat :: k < s.nextUserId && id == NatToString(k))
    || (exists k: nat :: k < s.nextDoctorId && id == DoctorIdFor(k))
  }

  /** `id` is one the appointment counter has already produced. */
  ghost predicate IssuedAppointmentId(s: Store, id: string)
  {
    exists k: nat :: k < s.nextAppointmentId && id == AppointmentIdFor(k)
  }

  ghost predicate Valid(s: Store)
  {
    && DistinctBy(s.users, EmailOf)
    && DistinctBy(s.users, IdOf)
    && (forall u :: u in s.users ==> IssuedUserId(s, u.id))
    && DistinctBy(s.appointments, AppointmentIdOf)
    && (forall a :: a in s.appointments ==> IssuedAppointmentId(s, a.id))
  }

  /** The seed data satisfies the invariant. */
  lemma SeedValid(now: int)
    ensures Valid(Seed(now))
  {
    SeedDistinct(now);
    SeedIssued(now);
  }

  lemma SeedDistinct(now: int)
    ensures DistinctBy(Seed(now).users, EmailOf)
    ensures DistinctBy(Seed(now).users, IdOf)
    ensures DistinctBy(Seed(now).appointments, AppointmentIdOf)
  {
    var us := Seed(now).users;
    forall i, j | 0 <= i < j < |us|
      ensures EmailOf(us[i]) != EmailOf(us[j]) && IdOf(us[i]) != IdOf(us[j])
    {
      if us[i].email[0] == us[j].email[0] {
        assert us[i].email[1] != us[j].email[1];
      }
      if |us[i].id| == |us[j].id| {
        assert us[i].id[|us[i].id| - 1] != us[j].id[|us[j].id| - 1];
      }
    }
  }

  lemma SeedIssued(now: int)
    ensures forall u :: u in Seed(now).users ==> IssuedUserId(Seed(now), u.id)
    ensures forall a :: a in Seed(now).appointments ==> IssuedAppointmentId(Seed(now), a.id)
  {
    assert NatToString(1) == "1" && NatToString(2) == "2";
    assert DoctorIdFor(1) == "d1" && DoctorIdFor(2) == "d2" && DoctorIdFor(3) == "d3";
    assert DoctorIdFor(4) == "d4" && DoctorIdFor(5) == "d5" && DoctorIdFor(6) == "d6";
    assert DoctorIdFor(7) == "d7";
    assert AppointmentIdFor(1) == "a1";
  }

  /** Once issued, an id stays issued while the counters grow. */
  lemma IssuedUserIdGrows(s: Store, t: Store, id: string)
    requires s.nextUserId <= t.nextUserId && s.nextDoctorId <= t.nextDoctorId
    requires IssuedUserId(s, id)
    ensures IssuedUserId(t, id)
  {
    if exists k: nat :: k < s.nextUserId && id == NatToString(k) {
      var k: nat :| k < s.nextUserId && id == NatToString(k);
      assert k < t.nextUserId;
    } else {
      var k: nat :| k < s.nextDoctorId && id == DoctorIdFor(k);
      assert k < t.nextDoctorId;
    }
  }

  /** The ids the user counters produce next have not been issued. */
  lemma FreshUserIds(s: Store)
    ensures !IssuedUserId(s, NatToString(s.nextUserId))
    ensures !IssuedUserId(s, DoctorIdFor(s.nextDoctorId))
  {
    forall k: nat | NatToString(k) == NatToString(s.nextUserId)
      ensures k == s.nextUserId
    {
      NatToStringInjective(k, s.nextUserId);
    }
    forall k: nat
      ensures DoctorIdFor(k) != NatToString(s.nextUserId)
    {
      PrefixedNumeralIsNotNumeral('d', k, s.nextUserId);
    }
    forall k: nat | DoctorIdFor(k) == DoctorIdFor(s.nextDoctorId)
      ensures k == s.nextDoctorId
    {
      PrefixedNumeralInjective('d', k, s.nextDoctorId);
    }
    forall k: nat
      ensures NatToString(k) != DoctorIdFor(s.nextDoctorId)
    {
      PrefixedNumeralIsNotNumeral('d', s.nextDoctorId, k);
    }
  }

  /** The id the appointment counter produces next has not been issued. */
  lemma FreshAppointmentId(s: Store)
    ensures !IssuedAppointmentId(s, AppointmentIdFor(s.nextAppointmentId))
  {
    forall k: nat | AppointmentIdFor(k) == AppointmentIdFor(s.nextAppointmentId)
      ensures k == s.nextAppointmentId
    {
      PrefixedNumeralInjective('a', k, s.nextAppointmentId);
    }
  }

  /**
   * Registration keeps the invariant; the new record's id and email belong
   * to no record that was already stored.
   */
  lemma RegisterKeepsValid(s: Store, name: string, email: string, role: Role)
    requires Valid(s)
    requires Register(s, name, email, role).Ok?
    ensures Valid(Register(s, name, email, role).value.0)
    ensures forall v :: v in s.users ==>
      v.id != Register(s, name, email, role).value.1.id &&
      v.email != Register(s, name, email, role).value.1.email
  {
    var (t, u) := Register(s, name, email, role).value;
    FreshUserIds(s);
    assert !IssuedUserId(s, u.id);
    assert u.id == NatToString(s.nextUserId) || u.id == DoctorIdFor(s.nextDoctorId);
    forall v | v in s.users
      ensures v.id != u.id && v.email != u.email
    {
      var i :| 0 <= i < |s.users| && s.users[i] == v;
    }
    DistinctAppend(s.users, u, EmailOf);
    DistinctAppend(s.users, u, IdOf);
    forall v | v in t.users
      ensures IssuedUserId(t, v.id)
    {
      if v in s.users {
        IssuedUserIdGrows(s, t, v.id);
      } else {
        assert v == u;
        if role == Doctor {
          assert s.nextDoctorId < t.nextDoctorId;
        } else {
          assert s.nextUserId < t.nextUserId;
        }
      }
    }
  }

  /**
   * Booking keeps the invariant; the new appointment's id belongs to no
   * appointment that was already stored.
   */
  lemma BookKeepsValid(s: Store, userId: string, doctorId: string, apptTime: int, notes: string)
    requires Valid(s)
    requires Book(s, userId, doctorId, apptTime, notes).Ok?
    ensures Valid(Book(s, userId, doctorId, apptTime, notes).value.0)
    ensures forall b :: b in s.appointments ==> b.id != Book(s, userId, doctorId, apptTime, notes).value.1.id
  {
    var i := FindFirst(s.users, HasId(userId)).value;
    var j := FindFirst(s.users, HasId(doctorId)).value;
    var (t, a) := Book(s, userId, doctorId, apptTime, notes).value;
    assert a.id == AppointmentIdFor(s.nextAppointmentId);
    FreshAppointmentId(s);
    forall b | b in s.appointments
      ensures b.id != a.id
    {
    }
    forall k | 0 <= k < |s.appointments|
      ensures AppointmentIdOf(s.appointments[k]) != AppointmentIdOf(a)
    {
      assert s.appointments[k] in s.appointments;
    }
    DistinctAppend(s.appointments, a, AppointmentIdOf);
    forall b | b in t.appointments
      ensures IssuedAppointmentId(t, b.id)
    {
      if b in s.appointments {
        var k: nat :| k < s.nextAppointmentId && b.id == AppointmentIdFor(k);
        assert k < t.nextAppointmentId;
      } else {
        assert b == a;
      }
    }
  }

  /** Cancellation keeps the invariant. */
  lemma CancelKeepsValid(s: Store, appointmentId: string, userId: string)
    requires Valid(s)
    requires Cancel(s, appointmentId, userId).Ok?
    ensures Valid(Cancel(s, appointmentId, userId).value.0)
  {
    var i := FindFirst(s.appointments, IsOwnedBy(appointmentId, userId)).value;
    var t := Cancel(s, appointmentId, userId).value.0;
    var a := s.appointments[i].(status := Cancelled);
    assert t.appointments == s.appointments[i := a];
    DistinctUpdate(s.appointments, i, a, AppointmentIdOf);
    forall b | b in t.appointments
      ensures IssuedAppointmentId(t, b.id)
    {
      var k :| 0 <= k < |t.appointments| && t.appointments[k] == b;
      assert b.id == s.appointments[k].id && s.appointments[k] in s.appointments;
    }
  }

  /** Approval keeps the invariant. */
  lemma ApproveKeepsValid(s: Store, doctorId: string)
    requires Valid(s)
    requires Approve(s, doctorId).Ok?
    ensures Valid(Approve(s, doctorId).value.0)
  {
    var i := FindFirst(s.users, IsDoctorWithId(doctorId)).value;
    var t := Approve(s, doctorId).value.0;
    var d := s.users[i].(approved := true);
    assert t.users == s.users[i := d];
    DistinctUpdate(s.users, i, d, EmailOf);
    DistinctUpdate(s.users, i, d, IdOf);
    forall v | v in t.users
      ensures IssuedUserId(t, v.id)
    {
      var k :| 0 <= k < |t.users| && t.users[k] == v;
      assert v.id == s.users[k].id && s.users[k] in s.users;
    }
  }

  /** Removal keeps the invariant. */
  lemma RemoveKeepsValid(s: Store, doctorId: string)
    requires Valid(s)
    ensures Valid(Remove(s, doctorId))
  {
    FilterDistinct(s.users, LacksId(doctorId), EmailOf);
    FilterDistinct(s.users, LacksId(doctorId), IdOf);
  }

  /** After a removal no record carries the id, and removing it again changes nothing. */
  lemma RemoveIdempotent(s: Store, doctorId: string)
    ensures forall u :: u in Remove(s, doctorId).users ==> u.id != doctorId
    ensures Remove(Remove(s, doctorId), doctorId) == Remove(s, doctorId)
  {
    var t := Remove(s, doctorId);
    FilterKeepsAll(t.users, LacksId(doctorId));
  }

  /** Filtering a sequence all of whose elements pass gives it back unchanged. */
  lemma {:induction false} FilterKeepsAll<T(!new)>(s: seq<T>, p: T -> bool)
    requires forall x :: x in s ==> p(x)
    ensures Filter(s, p) == s
  {
    if |s| > 0 {
      FilterKeepsAll(s[1..], p);
      assert s == [s[0]] + s[1..];
    }
  }

  /**
   * In a valid store, cancelling an existing appointment on behalf of anyone
   * but its owner fails.
   */
  lemma CancelNeedsOwner(s: Store, k: int, userId: string)
    requires Valid(s)
    requires 0 <= k < |s.appointments| && s.appointments[k].userId != userId
    ensures Cancel(s, s.appointments[k].id, userId) == Err(AppointmentNotFoundOrUnauthorized)
  {
    var id := s.appointments[k].id;
    forall i | 0 <= i < |s.appointments| && s.appointments[i].id == id
      ensures i == k
    {
    }
  }

  /**
   * Cancelling twice equals cancelling once: the second call succeeds,
   * returns the same appointment and leaves the store as the first left it.
   */
  lemma CancelIdempotent(s: Store, appointmentId: string, userId: string)
    requires Cancel(s, appointmentId, userId).Ok?
    ensures var (t, a) := Cancel(s, appointmentId, userId).value;
      a.status == Cancelled && Cancel(t, appointmentId, userId) == Ok((t, a))
  {
    var p := IsOwnedBy(appointmentId, userId);
    var i := FindFirst(s.appointments, p).value;
    var (t, a) := Cancel(s, appointmentId, userId).value;
    assert t.appointments == s.appointments[i := a];
    assert IsFirst(t.appointments, i, p);
    assert t.appointments[i := t.appointments[i].(status := Cancelled)] == t.appointments;
  }

  /**
   * Approving twice equals approving once: the second call succeeds and
   * leaves the store as the first left it.
   */
  lemma ApproveIdempotent(s: Store, doctorId: string)
    requires Approve(s, doctorId).Ok?
    ensures var (t, d) := Approve(s, doctorId).value;
      d.DoctorAccount? && d.approved && Approve(t, doctorId) == Ok((t, d))
  {
    var p := IsDoctorWithId(doctorId);
    var i := FindFirst(s.users, p).value;
    var (t, d) := Approve(s, doctorId).value;
    assert t.users == s.users[i := d];
    assert IsFirst(t.users, i, p);
    assert t.users[i := t.users[i].(approved := true)] == t.users;
  }

  /** The approved-doctor listing is a subsequence of the all-doctor listing. */
  lemma ApprovedAmongAllDoctors(s: Store)
    ensures IsSubseq(ApprovedDoctors(s), AllDoctors(s))
  {
    FilterMonotone(s.users, IsDoctor, IsApprovedDoctor);
  }

  /**
   * A doctor who signs up cannot log in until an administrator approves the
   * new id; after approval the login returns the approved record.
   */
  lemma DoctorSignUpNeedsApproval(s: Store, name: string, email: string)
    requires Valid(s)
    requires Register(s, name, email, Doctor).Ok?
    ensures var (t, d) := Register(s, name, email, Doctor).value;
      && Login(t, email) == Err(DoctorNotApproved)
      && Approve(t, d.id).Ok?
      && Login(Approve(t, d.id).value.0, email)
         == Ok(Credentials(TokenPrefix + d.id, d.(approved := true)))
  {
    var (t, d) := Register(s, name, email, Doctor).value;
    RegisterKeepsValid(s, name, email, Doctor);
    var n := |s.users|;
    assert t.users[n] == d;
    assert IsFirst(t.users, n, HasEmail(email));
    assert IsFirst(t.users, n, IsDoctorWithId(d.id));
    var u := Approve(t, d.id).value.0;
    assert u.users == t.users[n := d.(approved := true)];
    assert IsFirst(u.users, n, HasEmail(email));
  }

  /**
   * Booking the same doctor at the same time twice succeeds both times:
   * there is no slot-conflict check.
   */
  lemma DoubleBookingAllowed(s: Store, userId: string, doctorId: string, apptTime: int, notes: string)
    requires Book(s, userId, doctorId, apptTime, notes).Ok?
    ensures var t := Book(s, userId, doctorId, apptTime, notes).value.0;
      Book(t, userId, doctorId, apptTime, notes).Ok?
  {
    var i := FindFirst(s.users, HasId(userId)).value;
    var j := FindFirst(s.users, HasId(doctorId)).value;
    assert Book(s, userId, doctorId, apptTime, notes).value.0.users == s.users;
  }
  /**
   * Cancellation does not look at the prior status: in a valid store the
   * owner can cancel an appointment that is already Completed.
   */
  lemma CancelOverridesCompleted(s: Store, k: int)
    requires Valid(s)
    requires 0 <= k < |s.appointments| && s.appointments[k].status == Completed
    ensures var a := s.appointments[k];
      Cancel(s, a.id, a.userId) == Ok((s.(appointments := s.appointments[k := a.(status := Cancelled)]),
                                       a.(status := Cancelled)))
  {
    var a := s.appointments[k];
    forall i | 0 <= i < k
      ensures !IsOwnedBy(a.id, a.userId)(s.appointments[i])
    {
      assert AppointmentIdOf(s.appointments[i]) != AppointmentIdOf(s.appointments[k]);
    }
    assert IsFirst(s.appointments, k, IsOwnedBy(a.id, a.userId));
  }

  /**
   * Of two appointments of one patient at different times, the patient's
   * listing shows the later one first.
   */
  lemma LaterAppointmentListedFirst(s: Store, userId: string, i: int, j: int)
    requires 0 <= i < |PatientAppointments(s, userId)| && 0 <= j < |PatientAppointments(s, userId)|
    requires PatientAppointments(s, userId)[i].apptTime > PatientAppointments(s, userId)[j].apptTime
    ensures i < j
  {
    var r := PatientAppointments(s, userId);
    assert SortedDesc(r, ApptTime);
    assert ApptTime(r[i]) > ApptTime(r[j]);
  }
}
