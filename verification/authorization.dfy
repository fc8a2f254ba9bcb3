/**
 * Who may call what, and which records a caller sees.
 *
 * `Permits` is the role table the `[Authorize(Roles = ...)]` attributes
 * spell out on each endpoint; the framework compares the role claim
 * (the user's `TipoUsuario`, verbatim) with these names exactly. The
 * ownership predicates are the filters the controllers build from
 * `Medico.IdUsuario` and `Paciente.IdUsuario`.
 */
module Authorization {
  import opened Wrappers
  import opened Entities
  import PatientRepository

  datatype Endpoint =
    | ListAppointments | CreateAppointment | UpdateAppointment
    | CancelAppointment | UpdateAppointmentStatus | DeleteAppointment
    | ListSchedules | CreateSchedule | UpdateSchedule | DeleteSchedule
    | SearchDoctors | SearchDoctorsWithFutureSchedules
    | ListUsers | CreateUser | UpdateUser | DeleteUser

  /** The roles each endpoint's `[Authorize]` attribute names. */
  function AllowedRoles(e: Endpoint): set<string> {
    match e
    case ListAppointments => {PacienteRole, MedicoRole, Administrador}
    case CreateAppointment => {PacienteRole, Administrador}
    case UpdateAppointment => {Administrador}
    case CancelAppointment => {PacienteRole, Administrador}
    case UpdateAppointmentStatus => {MedicoRole, Administrador}
    case DeleteAppointment => {Administrador}
    case ListSchedules => {MedicoRole, Administrador}
    case CreateSchedule => {MedicoRole, Administrador}
    case UpdateSchedule => {MedicoRole, Administrador}
    case DeleteSchedule => {Administrador}
    case SearchDoctors => {PacienteRole, Administrador}
    case SearchDoctorsWithFutureSchedules => {PacienteRole, Administrador}
    case ListUsers => {Administrador}
    case CreateUser => {Administrador}
    case UpdateUser => {Administrador}
    case DeleteUser => {Administrador}
  }

  predicate Permits(role: string, e: Endpoint) {
    role in AllowedRoles(e)
  }

  /**
   * The division of duties the table encodes: an administrator may call
   * everything; a patient books and cancels but never rules on a booking,
   * edits a slot or manages users; a doctor rules on bookings and edits
   * slots but never books or cancels; every other role string may call
   * nothing.
   */
  lemma RoleTable(e: Endpoint, role: string)
    ensures Permits(Administrador, e)
    ensures Permits(PacienteRole, e) <==>
      e in {ListAppointments, CreateAppointment, CancelAppointment, SearchDoctors, SearchDoctorsWithFutureSchedules}
    ensures Permits(MedicoRole, e) <==>
      e in {ListAppointments, UpdateAppointmentStatus, ListSchedules, CreateSchedule, UpdateSchedule}
    ensures role !in {Administrador, MedicoRole, PacienteRole} ==> !Permits(role, e)
  {
  }

  /**
   * `GetAllDoctors().Any(d => d.Id == idMedico && d.IdUsuario == userId)`,
   * over the doctors the join with their users loads.
   */
  predicate DoctorOwns(st: Store, userId: int, idMedico: int) {
    exists k | k in st.medicos ::
      st.medicos[k].id == idMedico && st.medicos[k].idUsuario == userId && userId in st.usuarios
  }

  /** `GetPatientByUserId(userId)?.Id == idPaciente`; false when the user has no patient record. */
  predicate PatientOwns(st: Store, userId: int, idPaciente: int) {
    var p := PatientRepository.GetPatientByUserId(st, userId);
    p.Some? && p.value.id == idPaciente
  }

  /** A user without a patient record owns no appointment as a patient. */
  lemma NoPatientRecordOwnsNothing(st: Store, userId: int, idPaciente: int)
    requires forall k | k in st.pacientes :: st.pacientes[k].idUsuario != userId
    ensures !PatientOwns(st, userId, idPaciente)
  {
  }

  /**
   * A patient owns an appointment only through a patient record attached
   * to the caller's user id.
   */
  lemma PatientOwnershipIsThroughRecord(st: Store, userId: int, idPaciente: int)
    requires PatientOwns(st, userId, idPaciente)
    ensures exists k :: k in st.pacientes && st.pacientes[k].idUsuario == userId && st.pacientes[k].id == idPaciente
  {
    var p := PatientRepository.GetPatientByUserId(st, userId).value;
    var k :| k in st.pacientes && st.pacientes[k] == p;
  }

  /** The appointments a caller sees when listing (`GetAppointment`). */
  predicate SeesAppointment(st: Store, caller: Principal, a: Agendamento) {
    if caller.role == Administrador then true
    else if caller.role == MedicoRole then DoctorOwns(st, caller.userId, a.idMedico)
    else PatientOwns(st, caller.userId, a.idPaciente)
  }
}
