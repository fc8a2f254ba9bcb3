/**
 * The slot endpoints (`DoctorsScheduleController`). Update and delete take
 * no caller: they never check that the acting doctor owns the slot.
 */
module ScheduleController {
  import opened Wrappers
  import opened Entities
  import SR = ScheduleRepository
  import Authorization

  /** The request body of slot creation and update. */
  datatype ScheduleModel = ScheduleModel(idMedico: int, horarioInicio: Time, horarioFim: Time)

  const SlotNotFound := "Agenda não encontrada"
  const Created := "Agenda criada com sucesso!"
  const Updated := "Agenda atualizada com sucesso!"
  const Deleted := "Agenda excluída com sucesso!"
  const InternalError := "Internal server error: "

  /** `GetDoctorsSchedule`: a doctor sees the slots of their own doctor records; anyone else sees all. */
  function GetDoctorsSchedule(st: Store, caller: Principal): (r: Response<map<int, SR.ScheduleDTO>>)
    ensures r.Ok?
    ensures forall k | k in r.value :: k in st.agendas && r.value[k] == SR.ToDTO(st.agendas[k])
    ensures caller.role == MedicoRole ==> forall k :: k in r.value <==>
      k in st.agendas && Authorization.DoctorOwns(st, caller.userId, st.agendas[k].idMedico)
    ensures caller.role != MedicoRole ==> r.value.Keys == st.agendas.Keys
  {
    var rows := SR.ListDoctorsSchedule(st);
    if caller.role == MedicoRole then
      Ok(map k | k in rows && Authorization.DoctorOwns(st, caller.userId, rows[k].idMedico) :: rows[k])
    else
      Ok(rows)
  }

  /** `CreateDoctorsSchedule`: a new unlocked slot for the given doctor and times. */
  function CreateDoctorsSchedule(st: Store, input: ScheduleModel, env: Env): (r: Reply<string>)
    ensures env.Fault(0).Some? ==> r == Reply(BadRequest(env.Fault(0).value), st)
    ensures env.Fault(0).None? ==>
      && r.response == Ok(Created)
      && exists id :: id !in st.agendas && r.store == st.(agendas := st.agendas[id :=
           Agenda(id, false, input.horarioInicio, input.horarioFim, env.now, env.now, input.idMedico)])
  {
    var slot := BlankAgenda().(
      idMedico := input.idMedico, horarioInicio := input.horarioInicio, horarioFim := input.horarioFim);
    match SR.CreateDoctorsSchedule(st, Some(slot), env.now, env.Fault(0))
    case Threw(e) => Reply(BadRequest(e.Message()), st)
    case Done(created, st') => Reply(Ok(Created), st')
  }

  /**
   * `UpdateDoctorsSchedule`: new times (a default time keeps the old one),
   * the doctor of the body ignored, and the lock flag reset to false
   * because the patch leaves it at its default.
   */
  function UpdateDoctorsSchedule(st: Store, id: int, input: ScheduleModel, env: Env): (r: Reply<string>)
    ensures id !in st.agendas ==> r == Reply(NotFound(SlotNotFound), st)
    ensures id in st.agendas && env.Fault(0).Some? ==>
      r == Reply(ServerError(InternalError + env.Fault(0).value), st)
    ensures id in st.agendas && env.Fault(0).None? ==>
      && r.response == Ok(Updated)
      && r.store == st.(agendas := r.store.agendas)
      && r.store.agendas.Keys == st.agendas.Keys
      && (forall k | k in st.agendas && k != id :: r.store.agendas[k] == st.agendas[k])
      && var before, after := st.agendas[id], r.store.agendas[id];
         && after.id == before.id
         && !after.isBloqueado
         && after.idMedico == before.idMedico
         && after.dataCriacao == before.dataCriacao && after.dataModificacao == env.now
         && after.horarioInicio == (if input.horarioInicio != DefaultTime then input.horarioInicio else before.horarioInicio)
         && after.horarioFim == (if input.horarioFim != DefaultTime then input.horarioFim else before.horarioFim)
  {
    if id !in SR.ListDoctorsSchedule(st) then
      Reply(NotFound(SlotNotFound), st)
    else
      var patch := BlankAgenda().(id := id, horarioInicio := input.horarioInicio, horarioFim := input.horarioFim);
      match SR.UpdateDoctorsSchedule(st, Some(patch), env.now, env.Fault(0))
      case Threw(e) => Reply(ServerError(InternalError + e.Message()), st)
      case Done(_, st') => Reply(Ok(Updated), st')
  }

  /** `DeleteDoctorsSchedule` (administrator): removes exactly that slot. */
  function DeleteDoctorsSchedule(st: Store, id: int, env: Env): (r: Reply<string>)
    ensures id !in st.agendas ==> r == Reply(NotFound(SlotNotFound), st)
    ensures id in st.agendas && env.Fault(0).Some? ==>
      r == Reply(ServerError(InternalError + env.Fault(0).value), st)
    ensures id in st.agendas && env.Fault(0).None? ==>
      r == Reply(Ok(Deleted), st.(agendas := st.agendas - {id}))
  {
    if id !in SR.ListDoctorsSchedule(st) then
      Reply(NotFound(SlotNotFound), st)
    else
      match SR.DeleteDoctorsSchedule(st, id, env.Fault(0))
      case Threw(e) => Reply(ServerError(InternalError + e.Message()), st)
      case Done(_, st') => Reply(Ok(Deleted), st')
  }
}
