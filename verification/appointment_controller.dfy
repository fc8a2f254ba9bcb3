/**
 * The appointment endpoints (`AppointmentController`): listing scoped by
 * role, booking with slot locking, the administrator's raw update and
 * delete, cancellation (which frees the slot) and the doctor's ruling
 * (which does not touch the slot).
 *
 * Each endpoint is a function of the store, the caller, the input and the
 * request environment, returning the response and the store it leaves.
 * The role check of the `[Authorize]` attributes is applied in front of
 * these functions by `Api.Handle`.
 */
module AppointmentController {
  import opened Wrappers
  import opened Entities
  import opened Text
  import AR = AppointmentRepository
  import SR = ScheduleRepository
  import PatientRepository
  import Authorization

  /** The request body of booking and of the administrator's update. */
  datatype AppointmentModel = AppointmentModel(idPaciente: int, idMedico: int, idAgenda: int)

  const SlotNotFound := "Agenda não encontrada"
  const SlotTaken := "A agenda selecionada já está reservada e não poderá ser utilizada, por favor, selecione outra opção e tente novamente."
  const Created := "Agendamento criado com sucesso!"
  const AppointmentNotFound := "Agendamento não encontrado"
  const Updated := "Agendamento atualizado com sucesso!"
  const NotFoundForPatient := "Consulta não encontrada ou não pertence ao paciente autenticado."
  const NotCancellable := "A consulta não pode ser cancelada, pois não está no status 'Pendente' ou 'Agendado'."
  const CancelledMessage := "Consulta cancelada com sucesso!"
  const NotFoundForUser := "Consulta não encontrada ou não pertence ao usuário autenticado."
  const NotPending := "A consulta não pode ser atualizada, pois não está no status 'Pendente'."
  const InvalidStatus := "Status inválido. Use 'Aceito' ou 'Recusado'."
  const Deleted := "Agendamento excluído com sucesso!"
  const InternalError := "Internal server error: "
  const InternalErrorPt := "Erro interno do servidor: "
  const AcceptToken := "aceito"
  const RefuseToken := "recusado"

  /** The store after the slot under `k` has been (un)locked by the lock patch. */
  function WithLock(st: Store, k: int, locked: bool, now: Time): Store
    requires k in st.agendas
  {
    st.(agendas := st.agendas[k := st.agendas[k].(isBloqueado := locked, dataModificacao := now)])
  }

  /** The appointment booking creates for `input`, under id `id`. */
  function Booked(id: int, input: AppointmentModel, now: Time): Agendamento {
    Agendamento(id, Some(Pendente), None, now, now, input.idPaciente, input.idMedico, input.idAgenda)
  }

  /**
   * `GetAppointment`: an administrator sees every appointment, a doctor
   * those booked with a doctor record of theirs, anyone else those of
   * their patient record (none when they have no patient record).
   */
  function GetAppointment(st: Store, caller: Principal): (r: Response<map<int, AR.AppointmentDTO>>)
    ensures r.Ok?
    ensures forall k | k in r.value :: k in st.agendamentos && r.value[k] == AR.ToDTO(st.agendamentos[k])
    ensures caller.role == Administrador ==> r.value.Keys == st.agendamentos.Keys
    ensures caller.role == MedicoRole ==> forall k :: k in r.value <==>
      k in st.agendamentos && Authorization.DoctorOwns(st, caller.userId, st.agendamentos[k].idMedico)
    ensures caller.role != Administrador && caller.role != MedicoRole ==> forall k :: k in r.value <==>
      k in st.agendamentos && Authorization.PatientOwns(st, caller.userId, st.agendamentos[k].idPaciente)
  {
    var rows := AR.ListAppointments(st);
    if caller.role == Administrador then
      Ok(rows)
    else if caller.role == MedicoRole then
      Ok(map k | k in rows && Authorization.DoctorOwns(st, caller.userId, rows[k].idMedico) :: rows[k])
    else
      var patient := PatientRepository.GetPatientByUserId(st, caller.userId);
      Ok(map k | k in rows && patient.Some? && patient.value.id == rows[k].idPaciente :: rows[k])
  }

  /**
   * `CreateAppointment`: an unknown slot is NotFound and a locked slot is
   * BadRequest, both without writing. A free slot is first locked (its
   * times untouched), then the appointment is created from the three ids
   * of the input, never checking that the slot belongs to that doctor. A
   * failure of the second write leaves the slot locked.
   */
  function CreateAppointment(st: Store, input: AppointmentModel, env: Env): (r: Reply<string>)
    ensures input.idAgenda !in st.agendas ==> r == Reply(NotFound(SlotNotFound), st)
    ensures input.idAgenda in st.agendas && st.agendas[input.idAgenda].isBloqueado ==>
      r == Reply(BadRequest(SlotTaken), st)
    ensures input.idAgenda in st.agendas && !st.agendas[input.idAgenda].isBloqueado ==>
      && (env.Fault(0).Some? ==> r == Reply(BadRequest(env.Fault(0).value), st))
      && (env.Fault(0).None? && env.Fault(1).Some? ==>
            r == Reply(BadRequest(env.Fault(1).value), WithLock(st, input.idAgenda, true, env.now)))
      && (env.Fault(0).None? && env.Fault(1).None? ==>
            && r.response == Ok(Created)
            && exists id :: id !in st.agendamentos && r.store ==
                 WithLock(st, input.idAgenda, true, env.now)
                   .(agendamentos := st.agendamentos[id := Booked(id, input, env.now)]))
  {
    var slots := SR.ListDoctorsSchedule(st);
    if input.idAgenda !in slots then
      Reply(NotFound(SlotNotFound), st)
    else if slots[input.idAgenda].isBloqueado == false then
      var lock := BlankAgenda().(id := input.idAgenda, isBloqueado := true);
      match SR.UpdateDoctorsSchedule(st, Some(lock), env.now, env.Fault(0))
      case Threw(e) => Reply(BadRequest(e.Message()), st)
      case Done(_, locked) =>
        var appointment := BlankAgendamento().(
          idPaciente := input.idPaciente, idAgenda := input.idAgenda, idMedico := input.idMedico);
        match AR.CreateAppointment(locked, Some(appointment), env.now, env.Fault(1))
        case Threw(e) => Reply(BadRequest(e.Message()), locked)
        case Done(created, booked) =>
          assert booked == WithLock(st, input.idAgenda, true, env.now)
                             .(agendamentos := st.agendamentos[created.id := Booked(created.id, input, env.now)]);
          Reply(Ok(Created), booked)
    else
      Reply(BadRequest(SlotTaken), st)
  }

  /**
   * `UpdateAppointment` (administrator): forwards only the three ids, so
   * each is replaced only when positive, while status, reason and every
   * slot's lock stay as they were.
   */
  function UpdateAppointment(st: Store, id: int, input: AppointmentModel, env: Env): (r: Reply<string>)
    ensures id !in st.agendamentos ==> r == Reply(NotFound(AppointmentNotFound), st)
    ensures id in st.agendamentos && env.Fault(0).Some? ==>
      r == Reply(ServerError(InternalError + env.Fault(0).value), st)
    ensures id in st.agendamentos && env.Fault(0).None? ==>
      && r.response == Ok(Updated)
      && r.store == st.(agendamentos := r.store.agendamentos)
      && r.store.agendamentos.Keys == st.agendamentos.Keys
      && (forall k | k in st.agendamentos && k != id :: r.store.agendamentos[k] == st.agendamentos[k])
      && var before, after := st.agendamentos[id], r.store.agendamentos[id];
         && after.statusAgendamento == before.statusAgendamento
         && after.motivoCancelamento == before.motivoCancelamento
         && after.id == before.id
         && after.dataCriacao == before.dataCriacao && after.dataModificacao == env.now
         && after.idPaciente == (if input.idPaciente > 0 then input.idPaciente else before.idPaciente)
         && after.idMedico == (if input.idMedico > 0 then input.idMedico else before.idMedico)
         && after.idAgenda == (if input.idAgenda > 0 then input.idAgenda else before.idAgenda)
  {
    if id !in AR.ListAppointments(st) then
      Reply(NotFound(AppointmentNotFound), st)
    else
      var patch := BlankAgendamento().(
        id := id, idPaciente := input.idPaciente, idAgenda := input.idAgenda, idMedico := input.idMedico);
      match AR.UpdateAppointment(st, Some(patch), env.now, env.Fault(0))
      case Threw(e) => Reply(ServerError(InternalError + e.Message()), st)
      case Done(_, updated) => Reply(Ok(Updated), updated)
  }

  /** The appointment `CancelAppointment` acts on: any for an administrator, else only the caller's own. */
  function CancelTarget(st: Store, caller: Principal, id: int): (r: Option<Agendamento>)
    ensures r.Some? <==> (id in st.agendamentos &&
      (caller.role == Administrador || Authorization.PatientOwns(st, caller.userId, st.agendamentos[id].idPaciente)))
    ensures r.Some? ==> r.value == st.agendamentos[id]
  {
    var rows := AR.ListAppointments(st);
    if id !in rows then None
    else if caller.role == Administrador then Some(st.agendamentos[id])
    else
      var patient := PatientRepository.GetPatientByUserId(st, caller.userId);
      if patient.Some? && rows[id].idPaciente == patient.value.id then Some(st.agendamentos[id]) else None
  }

  /** A status from which cancelling is allowed. */
  predicate Cancellable(a: Agendamento) {
    a.statusAgendamento == Some(Pendente) || a.statusAgendamento == Some(Agendado)
  }

  /**
   * `CancelAppointment`: only a `Pendente` or `Agendado` appointment in the
   * caller's scope can be cancelled. The appointment is written first
   * (status `Cancelado`, the given reason unless null), then the slot it
   * names is unlocked with its times untouched.
   */
  function CancelAppointment(st: Store, caller: Principal, id: int, justificativa: Option<string>, env: Env)
    : (r: Reply<string>)
    ensures CancelTarget(st, caller, id).None? ==> r == Reply(NotFound(NotFoundForPatient), st)
    ensures CancelTarget(st, caller, id).Some? && !Cancellable(st.agendamentos[id]) ==>
      r == Reply(BadRequest(NotCancellable), st)
    ensures CancelTarget(st, caller, id).Some? && Cancellable(st.agendamentos[id]) ==>
      var before := st.agendamentos[id];
      var cancelled := st.(agendamentos := st.agendamentos[id := before.(
        statusAgendamento := Some(Cancelado),
        motivoCancelamento := if justificativa.Some? then justificativa else before.motivoCancelamento,
        dataModificacao := env.now)]);
      && (env.Fault(0).Some? ==> r == Reply(ServerError(InternalErrorPt + env.Fault(0).value), st))
      && (env.Fault(0).None? && before.idAgenda !in st.agendas ==>
            r == Reply(ServerError(InternalErrorPt + SR.UnknownSlot), cancelled))
      && (env.Fault(0).None? && before.idAgenda in st.agendas && env.Fault(1).Some? ==>
            r == Reply(ServerError(InternalErrorPt + env.Fault(1).value), cancelled))
      && (env.Fault(0).None? && before.idAgenda in st.agendas && env.Fault(1).None? ==>
            r == Reply(Ok(CancelledMessage), WithLock(cancelled, before.idAgenda, false, env.now)))
  {
    match CancelTarget(st, caller, id)
    case None => Reply(NotFound(NotFoundForPatient), st)
    case Some(appointment) =>
      if appointment.statusAgendamento != Some(Pendente) && appointment.statusAgendamento != Some(Agendado) then
        Reply(BadRequest(NotCancellable), st)
      else
        var patch := Agendamento(id, Some(Cancelado), justificativa, DefaultTime, env.now,
                                 appointment.idPaciente, appointment.idMedico, appointment.idAgenda);
        match AR.UpdateAppointment(st, Some(patch), env.now, env.Fault(0))
        case Threw(e) => Reply(ServerError(InternalErrorPt + e.Message()), st)
        case Done(_, cancelled) =>
          var unlock := BlankAgenda().(id := appointment.idAgenda, isBloqueado := false);
          match SR.UpdateDoctorsSchedule(cancelled, Some(unlock), env.now, env.Fault(1))
          case Threw(e) => Reply(ServerError(InternalErrorPt + e.Message()), cancelled)
          case Done(_, unlocked) => Reply(Ok(CancelledMessage), unlocked)
  }

  /** The appointment `UpdateAppointmentStatus` acts on: only the caller's own for a doctor, else any. */
  function RulingTarget(st: Store, caller: Principal, id: int): (r: Option<Agendamento>)
    ensures r.Some? <==> (id in st.agendamentos &&
      (caller.role != MedicoRole || Authorization.DoctorOwns(st, caller.userId, st.agendamentos[id].idMedico)))
    ensures r.Some? ==> r.value == st.agendamentos[id]
  {
    var rows := AR.ListAppointments(st);
    if id !in rows then None
    else if caller.role == MedicoRole then
      if Authorization.DoctorOwns(st, caller.userId, rows[id].idMedico) then Some(st.agendamentos[id]) else None
    else Some(st.agendamentos[id])
  }

  /** The status a ruling token asks for: "aceito" or "recusado", in any letter case. */
  function RulingStatus(token: string): (r: Option<string>)
    ensures r == Some(Agendado) <==> Lower(token) == AcceptToken
    ensures r == Some(Recusado) <==> Lower(token) == RefuseToken
    ensures r.None? <==> Lower(token) != AcceptToken && Lower(token) != RefuseToken
  {
    if Lower(token) == AcceptToken then Some(Agendado)
    else if Lower(token) == RefuseToken then Some(Recusado)
    else None
  }

  /**
   * `UpdateAppointmentStatus`: the status is checked before the token, so
   * a non-`Pendente` appointment is refused whatever the token says. A
   * valid token rewrites only status and modification time; no slot is
   * touched, so a refused booking keeps its slot locked.
   */
  function UpdateAppointmentStatus(st: Store, caller: Principal, id: int, token: Option<string>, env: Env)
    : (r: Reply<string>)
    ensures RulingTarget(st, caller, id).None? ==> r == Reply(NotFound(NotFoundForUser), st)
    ensures RulingTarget(st, caller, id).Some? && st.agendamentos[id].statusAgendamento != Some(Pendente) ==>
      r == Reply(BadRequest(NotPending), st)
    ensures RulingTarget(st, caller, id).Some? && st.agendamentos[id].statusAgendamento == Some(Pendente) ==>
      && (token.None? ==> r == Reply(ServerError(InternalErrorPt + NullReferenceException.Message()), st))
      && (token.Some? && RulingStatus(token.value).None? ==> r == Reply(BadRequest(InvalidStatus), st))
      && (token.Some? && RulingStatus(token.value).Some? && env.Fault(0).Some? ==>
            r == Reply(ServerError(InternalErrorPt + env.Fault(0).value), st))
      && (token.Some? && RulingStatus(token.value).Some? && env.Fault(0).None? ==>
            r == Reply(Ok("Status da consulta alterado para " + token.value + " com sucesso!"),
                       st.(agendamentos := st.agendamentos[id := st.agendamentos[id].(
                         statusAgendamento := RulingStatus(token.value), dataModificacao := env.now)])))
  {
    match RulingTarget(st, caller, id)
    case None => Reply(NotFound(NotFoundForUser), st)
    case Some(appointment) =>
      if appointment.statusAgendamento != Some(Pendente) then
        Reply(BadRequest(NotPending), st)
      else if token.None? then
        Reply(ServerError(InternalErrorPt + NullReferenceException.Message()), st)
      else
        match RulingStatus(token.value)
        case None => Reply(BadRequest(InvalidStatus), st)
        case Some(status) =>
          var patch := appointment.(id := id, statusAgendamento := Some(status), dataModificacao := env.now);
          match AR.UpdateAppointment(st, Some(patch), env.now, env.Fault(0))
          case Threw(e) => Reply(ServerError(InternalErrorPt + e.Message()), st)
          case Done(_, ruled) =>
            Reply(Ok("Status da consulta alterado para " + token.value + " com sucesso!"), ruled)
  }

  /** `DeleteAppointment` (administrator): removes the record and leaves its slot locked. */
  function DeleteAppointment(st: Store, id: int, env: Env): (r: Reply<string>)
    ensures id !in st.agendamentos ==> r == Reply(NotFound(AppointmentNotFound), st)
    ensures id in st.agendamentos && env.Fault(0).Some? ==>
      r == Reply(ServerError(InternalError + env.Fault(0).value), st)
    ensures id in st.agendamentos && env.Fault(0).None? ==>
      r == Reply(Ok(Deleted), st.(agendamentos := st.agendamentos - {id}))
  {
    if id !in AR.ListAppointments(st) then
      Reply(NotFound(AppointmentNotFound), st)
    else
      match AR.DeleteAppointment(st, id, env.Fault(0))
      case Threw(e) => Reply(ServerError(InternalError + e.Message()), st)
      case Done(_, deleted) => Reply(Ok(Deleted), deleted)
  }
}
