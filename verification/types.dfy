/** The domain entities: roles, appointment states, accounts and appointments. */
module Types {
  import opened Wrappers

  datatype Role = Patient | Doctor | Admin

  datatype AppointmentStatus = Scheduled | Cancelled | Completed

  /**
   * A user record. A record whose role is Doctor always carries the practice
   * fields, so the role is given by the constructor rather than stored.
   */
  datatype User =
    | PatientAccount(id: string, name: string, email: string)
    | AdminAccount(id: string, name: string, email: string)
    | DoctorAccount(id: string, name: string, email: string,
                    specialty: string, fee: int, approved: bool, experience: int)
  {
    function RoleOf(): Role
    {
      match this
      case PatientAccount(_, _, _) => Patient
      case AdminAccount(_, _, _) => Admin
      case DoctorAccount(_, _, _, _, _, _, _) => Doctor
    }

    /** The `specialty` field as read from the record: absent unless it is a doctor. */
    function SpecialtyField(): Option<string>
    {
      if DoctorAccount? then Some(specialty) else None
    }

    /** A doctor account an administrator has not approved yet. */
    predicate PendingApproval()
    {
      DoctorAccount? && !approved
    }
  }

  /**
   * An appointment. Patient name, doctor name and specialty are copies taken
   * at booking time; `apptTime` is a timestamp in milliseconds.
   */
  datatype Appointment = Appointment(
    id: string,
    userId: string,
    userName: string,
    doctorId: string,
    doctorName: string,
    doctorSpecialty: Option<string>,
    apptTime: int,
    notes: string,
    status: AppointmentStatus)
}
