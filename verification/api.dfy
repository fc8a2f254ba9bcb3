/**
 * The API as a whole: a request from an authenticated caller is checked
 * against the role table and then handed to its endpoint. This is where
 * the slot-locking invariant is stated for whole requests.
 */
module Api {
  import opened Wrappers
  import opened Entities
  import Authorization
  import AR = AppointmentRepository
  import SR = ScheduleRepository
  import UR = UserRepository
  import AC = AppointmentController
  import SC = ScheduleController
  import DC = DoctorController
  import UC = UserController
  import Booking

  /** A request: the endpoint and its route and body parameters. */
  datatype Request =
    | ListAppointmentsReq
    | CreateAppointmentReq(appointment: AC.AppointmentModel)
    | UpdateAppointmentReq(id: int, appointment: AC.AppointmentModel)
    | CancelAppointmentReq(id: int, justificativa: Option<string>)
    | UpdateAppointmentStatusReq(id: int, status: Option<string>)
    | DeleteAppointmentReq(id: int)
    | ListSchedulesReq
    | CreateScheduleReq(schedule: SC.ScheduleModel)
    | UpdateScheduleReq(id: int, schedule: SC.ScheduleModel)
    | DeleteScheduleReq(id: int)
    | SearchDoctorsReq(filter: DC.DoctorFilter)
    | SearchDoctorsWithFutureSchedulesReq(filter: DC.DoctorFilter)
    | ListUsersReq
    | CreateUserReq(user: UC.UserModel)
    | UpdateUserReq(id: int, user: UC.UserModel)
    | DeleteUserReq(id: int)
  {
    function Target(): Authorization.Endpoint {
      match this
      case ListAppointmentsReq => Authorization.ListAppointments
      case CreateAppointmentReq(_) => Authorization.CreateAppointment
      case UpdateAppointmentReq(_, _) => Authorization.UpdateAppointment
      case CancelAppointmentReq(_, _) => Authorization.CancelAppointment
      case UpdateAppointmentStatusReq(_, _) => Authorization.UpdateAppointmentStatus
      case DeleteAppointmentReq(_) => Authorization.DeleteAppointment
      case ListSchedulesReq => Authorization.ListSchedules
      case CreateScheduleReq(_) => Authorization.CreateSchedule
      case UpdateScheduleReq(_, _) => Authorization.UpdateSchedule
      case DeleteScheduleReq(_) => Authorization.DeleteSchedule
      case SearchDoctorsReq(_) => Authorization.SearchDoctors
      case SearchDoctorsWithFutureSchedulesReq(_) => Authorization.SearchDoctorsWithFutureSchedules
      case ListUsersReq => Authorization.ListUsers
      case CreateUserReq(_) => Authorization.CreateUser
      case UpdateUserReq(_, _) => Authorization.UpdateUser
      case DeleteUserReq(_) => Authorization.DeleteUser
    }

    /** The three writes that bypass the booking workflow. */
    predicate RawWrite() {
      UpdateAppointmentReq? || UpdateScheduleReq? || DeleteScheduleReq?
    }
  }

  /** The payload of a 200 answer. */
  datatype Body =
    | Message(text: string)
    | Appointments(appointments: map<int, AR.AppointmentDTO>)
    | Schedules(schedules: map<int, SR.ScheduleDTO>)
    | Doctors(doctors: map<int, DC.DoctorRow>)
    | DoctorsWithSlots(doctorsWithSlots: map<int, DC.DoctorWithSlots>)
    | Users(users: map<int, UR.UserDTO>)

  function Lift<T>(r: Response<T>, wrap: T -> Body): Response<Body> {
    match r
    case Ok(v) => Ok(wrap(v))
    case NotFound(m) => NotFound(m)
    case BadRequest(m) => BadRequest(m)
    case ServerError(m) => ServerError(m)
    case Forbidden => Forbidden
  }

  function LiftReply(r: Reply<string>): Reply<Body> {
    Reply(Lift(r.response, t => Message(t)), r.store)
  }

  /** Serves one request: Forbidden without a write when the role table refuses the caller. */
  function Handle(st: Store, caller: Principal, req: Request, env: Env): (r: Reply<Body>)
    ensures !Authorization.Permits(caller.role, req.Target()) ==> r == Reply(Forbidden, st)
    ensures Authorization.Permits(caller.role, req.Target()) ==> r.response != Forbidden
  {
    if !Authorization.Permits(caller.role, req.Target()) then Reply(Forbidden, st)
    else
      match req
      case ListAppointmentsReq => Reply(Lift(AC.GetAppointment(st, caller), m => Appointments(m)), st)
      case CreateAppointmentReq(a) => LiftReply(AC.CreateAppointment(st, a, env))
      case UpdateAppointmentReq(id, a) => LiftReply(AC.UpdateAppointment(st, id, a, env))
      case CancelAppointmentReq(id, j) => LiftReply(AC.CancelAppointment(st, caller, id, j, env))
      case UpdateAppointmentStatusReq(id, s) => LiftReply(AC.UpdateAppointmentStatus(st, caller, id, s, env))
      case DeleteAppointmentReq(id) => LiftReply(AC.DeleteAppointment(st, id, env))
      case ListSchedulesReq => Reply(Lift(SC.GetDoctorsSchedule(st, caller), m => Schedules(m)), st)
      case CreateScheduleReq(s) => LiftReply(SC.CreateDoctorsSchedule(st, s, env))
      case UpdateScheduleReq(id, s) => LiftReply(SC.UpdateDoctorsSchedule(st, id, s, env))
      case DeleteScheduleReq(id) => LiftReply(SC.DeleteDoctorsSchedule(st, id, env))
      case SearchDoctorsReq(f) => Reply(Lift(DC.GetDoctors(st, f), m => Doctors(m)), st)
      case SearchDoctorsWithFutureSchedulesReq(f) =>
        Reply(Lift(DC.GetDoctorsWithFutureSchedules(st, f, env.now), m => DoctorsWithSlots(m)), st)
      case ListUsersReq => Reply(Lift(UC.GetUser(st), m => Users(m)), st)
      case CreateUserReq(u) => LiftReply(UC.CreateUser(st, u, env))
      case UpdateUserReq(id, u) => LiftReply(UC.UpdateUser(st, id, u, env))
      case DeleteUserReq(id) => LiftReply(UC.DeleteUser(st, id, env))
  }

  /** User provisioning never touches slots or appointments. */
  lemma UserWritesKeepBookings(st: Store, caller: Principal, req: Request, env: Env)
    requires req.CreateUserReq? || req.UpdateUserReq? || req.DeleteUserReq?
    ensures Handle(st, caller, req, env).store.agendas == st.agendas
    ensures Handle(st, caller, req, env).store.agendamentos == st.agendamentos
  {
    if Authorization.Permits(caller.role, req.Target()) {
      match req
      case CreateUserReq(u) => assert Handle(st, caller, req, env).store == UC.CreateUser(st, u, env).store;
      case UpdateUserReq(id, u) => assert Handle(st, caller, req, env).store == UC.UpdateUser(st, id, u, env).store;
      case DeleteUserReq(id) => assert Handle(st, caller, req, env).store == UC.DeleteUser(st, id, env).store;
    }
  }

  /** Every request except the three raw writes keeps the slot-locking invariant. */
  lemma InvariantKeptOutsideRawWrites(st: Store, caller: Principal, req: Request, env: Env)
    requires Booking.SlotLocking(st)
    requires !req.RawWrite()
    ensures Booking.SlotLocking(Handle(st, caller, req, env).store)
  {
    if Authorization.Permits(caller.role, req.Target()) {
      match req
      case CreateAppointmentReq(a) => Booking.CreateKeeps(st, a, env);
      case CancelAppointmentReq(id, j) => Booking.CancelKeeps(st, caller, id, j, env);
      case UpdateAppointmentStatusReq(id, s) => Booking.RulingKeeps(st, caller, id, s, env);
      case DeleteAppointmentReq(id) => Booking.DeleteKeeps(st, id, env);
      case CreateScheduleReq(s) => Booking.SlotCreateKeeps(st, s, env);
      case CreateUserReq(_) => UserWritesKeepBookings(st, caller, req, env);
      case UpdateUserReq(_, _) => UserWritesKeepBookings(st, caller, req, env);
      case DeleteUserReq(_) => UserWritesKeepBookings(st, caller, req, env);
      case _ =>
    }
  }

  /** Nothing a patient may call breaks the invariant. */
  lemma PatientsKeepInvariant(st: Store, caller: Principal, req: Request, env: Env)
    requires Booking.SlotLocking(st)
    requires caller.role == PacienteRole
    ensures Booking.SlotLocking(Handle(st, caller, req, env).store)
  {
    if !req.RawWrite() {
      InvariantKeptOutsideRawWrites(st, caller, req, env);
    }
  }

  /**
   * Any doctor, whether or not the slot is theirs, can clear the lock of a
   * booked slot by updating it.
   */
  lemma AnyDoctorCanFreeBookedSlot(st: Store, caller: Principal, k: int, schedule: SC.ScheduleModel, env: Env)
    requires caller.role == MedicoRole
    requires k in st.agendamentos && Booking.Active(st.agendamentos[k]) && st.agendamentos[k].idAgenda in st.agendas
    requires env.Fault(0).None?
    ensures !Booking.SlotLocking(Handle(st, caller, UpdateScheduleReq(st.agendamentos[k].idAgenda, schedule), env).store)
  {
    Booking.SlotUpdateBreaks(st, k, schedule, env);
  }

  /** Slot update and delete answer the same whoever the (permitted) caller is. */
  lemma SlotWritesIgnoreCaller(st: Store, a: Principal, b: Principal, req: Request, env: Env)
    requires req.UpdateScheduleReq? || req.DeleteScheduleReq?
    requires Authorization.Permits(a.role, req.Target()) && Authorization.Permits(b.role, req.Target())
    ensures Handle(st, a, req, env) == Handle(st, b, req, env)
  {
  }
}
