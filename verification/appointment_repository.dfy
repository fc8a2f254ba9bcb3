/** The appointment table's repository (`AppointmentRepository`). */
module AppointmentRepository {
  import opened Wrappers
  import opened Entities
  import Keys

  const NoDataToCreate := "Você precisa informar os dados do agendamento para cadastro"
  const NoDataToUpdate := "Você precisa informar os dados do agendamento para atualização"
  const UnknownAppointment := "Agendamento não encontrado"

  /**
   * The row `ListAppointments` yields per appointment. The display fields
   * the query joins in (patient and doctor names, slot start) are not kept.
   */
  datatype AppointmentDTO = AppointmentDTO(
    id: int,
    idPaciente: int,
    idMedico: int,
    idAgenda: int,
    statusAgendamento: Option<string>,
    motivoCancelamento: Option<string>,
    dataCriacao: Time,
    dataModificacao: Time)

  function ToDTO(a: Agendamento): AppointmentDTO {
    AppointmentDTO(a.id, a.idPaciente, a.idMedico, a.idAgenda,
                   a.statusAgendamento, a.motivoCancelamento, a.dataCriacao, a.dataModificacao)
  }

  /**
   * Inserts a new appointment. Whatever the caller put in the status and
   * the timestamps, the stored record is `Pendente`, stamped with `now`,
   * under a fresh id.
   */
  function CreateAppointment(st: Store, data: Option<Agendamento>, now: Time, fault: Option<string>)
    : (o: Outcome<Agendamento>)
    ensures data.None? ==> o == Threw(ArgumentException(NoDataToCreate))
    ensures data.Some? && fault.Some? ==> o == Threw(DbUpdateException(fault.value))
    ensures data.Some? && fault.None? ==>
      && o.Done?
      && o.value.id !in st.agendamentos
      && o.value.statusAgendamento == Some(Pendente)
      && o.value.dataCriacao == now && o.value.dataModificacao == now
      && o.value.idPaciente == data.value.idPaciente
      && o.value.idMedico == data.value.idMedico
      && o.value.idAgenda == data.value.idAgenda
      && o.value.motivoCancelamento == data.value.motivoCancelamento
      && o.store.agendamentos == st.agendamentos[o.value.id := o.value]
      && o.store == st.(agendamentos := o.store.agendamentos)
  {
    if data.None? then Threw(ArgumentException(NoDataToCreate))
    else if fault.Some? then Threw(DbUpdateException(fault.value))
    else
      var id := Keys.NextId(st.agendamentos.Keys);
      var a := data.value.(id := id, statusAgendamento := Some(Pendente),
                           dataCriacao := now, dataModificacao := now);
      Done(a, st.(agendamentos := st.agendamentos[id := a]))
  }

  /** Removes the appointment stored under `id`; an unknown id throws. */
  function DeleteAppointment(st: Store, id: int, fault: Option<string>): (o: Outcome<()>)
    ensures id !in st.agendamentos ==> o == Threw(NotImplementedException)
    ensures id in st.agendamentos && fault.Some? ==> o == Threw(DbUpdateException(fault.value))
    ensures id in st.agendamentos && fault.None? ==>
      && o.Done?
      && o.store.agendamentos.Keys == st.agendamentos.Keys - {id}
      && (forall k | k in o.store.agendamentos :: o.store.agendamentos[k] == st.agendamentos[k])
      && o.store == st.(agendamentos := o.store.agendamentos)
  {
    if id !in st.agendamentos then Threw(NotImplementedException)
    else if fault.Some? then Threw(DbUpdateException(fault.value))
    else Done((), st.(agendamentos := st.agendamentos - {id}))
  }

  /** One row per stored appointment, carrying that appointment's fields. */
  function ListAppointments(st: Store): (rows: map<int, AppointmentDTO>)
    ensures rows.Keys == st.agendamentos.Keys
    ensures forall k | k in rows ::
      && rows[k].id == st.agendamentos[k].id
      && rows[k].idPaciente == st.agendamentos[k].idPaciente
      && rows[k].idMedico == st.agendamentos[k].idMedico
      && rows[k].idAgenda == st.agendamentos[k].idAgenda
      && rows[k].statusAgendamento == st.agendamentos[k].statusAgendamento
      && rows[k].motivoCancelamento == st.agendamentos[k].motivoCancelamento
      && rows[k].dataCriacao == st.agendamentos[k].dataCriacao
      && rows[k].dataModificacao == st.agendamentos[k].dataModificacao
  {
    map k | k in st.agendamentos :: ToDTO(st.agendamentos[k])
  }

  /**
   * The sparse merge of `UpdateAppointment`: an id of the patch replaces
   * the stored one only when positive, a string only when not null; the
   * modification time becomes `now` and the creation time is kept.
   */
  function MergeAppointment(existing: Agendamento, patch: Agendamento, now: Time): (r: Agendamento)
    ensures r.id == existing.id && r.dataCriacao == existing.dataCriacao && r.dataModificacao == now
    ensures patch.idPaciente > 0 ==> r.idPaciente == patch.idPaciente
    ensures patch.idPaciente <= 0 ==> r.idPaciente == existing.idPaciente
    ensures patch.idMedico > 0 ==> r.idMedico == patch.idMedico
    ensures patch.idMedico <= 0 ==> r.idMedico == existing.idMedico
    ensures patch.idAgenda > 0 ==> r.idAgenda == patch.idAgenda
    ensures patch.idAgenda <= 0 ==> r.idAgenda == existing.idAgenda
    ensures patch.statusAgendamento.Some? ==> r.statusAgendamento == patch.statusAgendamento
    ensures patch.statusAgendamento.None? ==> r.statusAgendamento == existing.statusAgendamento
    ensures patch.motivoCancelamento.Some? ==> r.motivoCancelamento == patch.motivoCancelamento
    ensures patch.motivoCancelamento.None? ==> r.motivoCancelamento == existing.motivoCancelamento
  {
    existing.(
      idPaciente := if patch.idPaciente > 0 then patch.idPaciente else existing.idPaciente,
      idMedico := if patch.idMedico > 0 then patch.idMedico else existing.idMedico,
      idAgenda := if patch.idAgenda > 0 then patch.idAgenda else existing.idAgenda,
      statusAgendamento := if patch.statusAgendamento.Some? then patch.statusAgendamento
                           else existing.statusAgendamento,
      motivoCancelamento := if patch.motivoCancelamento.Some? then patch.motivoCancelamento
                            else existing.motivoCancelamento,
      dataModificacao := now)
  }

  /** Applies `MergeAppointment` to the record whose id the patch names. */
  function UpdateAppointment(st: Store, data: Option<Agendamento>, now: Time, fault: Option<string>)
    : (o: Outcome<()>)
    ensures data.None? ==> o == Threw(ArgumentException(NoDataToUpdate))
    ensures data.Some? && data.value.id !in st.agendamentos ==>
      o == Threw(ArgumentException(UnknownAppointment))
    ensures data.Some? && data.value.id in st.agendamentos && fault.Some? ==>
      o == Threw(DbUpdateException(fault.value))
    ensures data.Some? && data.value.id in st.agendamentos && fault.None? ==>
      && o.Done?
      && o.store.agendamentos.Keys == st.agendamentos.Keys
      && o.store.agendamentos[data.value.id]
         == MergeAppointment(st.agendamentos[data.value.id], data.value, now)
      && (forall k | k in st.agendamentos && k != data.value.id ::
            o.store.agendamentos[k] == st.agendamentos[k])
      && o.store == st.(agendamentos := o.store.agendamentos)
  {
    if data.None? then Threw(ArgumentException(NoDataToUpdate))
    else if data.value.id !in st.agendamentos then Threw(ArgumentException(UnknownAppointment))
    else if fault.Some? then Threw(DbUpdateException(fault.value))
    else
      var id := data.value.id;
      Done((), st.(agendamentos := st.agendamentos[id := MergeAppointment(st.agendamentos[id], data.value, now)]))
  }

  /** A patch that names only the id leaves the record as it was, bar the modification time. */
  lemma BlankPatchKeepsRecord(existing: Agendamento, now: Time)
    ensures MergeAppointment(existing, BlankAgendamento().(id := existing.id), now)
            == existing.(dataModificacao := now)
  {
  }

  /** Applying the same patch twice is applying it once. */
  lemma MergeIdempotent(existing: Agendamento, patch: Agendamento, now: Time, later: Time)
    ensures MergeAppointment(MergeAppointment(existing, patch, now), patch, later)
            == MergeAppointment(existing, patch, later)
  {
  }

  /** Every write keeps each record under its own id. */
  lemma WritesKeepKeys(st: Store, data: Option<Agendamento>, id: int, now: Time, fault: Option<string>)
    requires WellKeyed(st)
    ensures CreateAppointment(st, data, now, fault).Done? ==> WellKeyed(CreateAppointment(st, data, now, fault).store)
    ensures UpdateAppointment(st, data, now, fault).Done? ==> WellKeyed(UpdateAppointment(st, data, now, fault).store)
    ensures DeleteAppointment(st, id, fault).Done? ==> WellKeyed(DeleteAppointment(st, id, fault).store)
  {
  }

  /**
   * After a successful insert the listing gains exactly the new key, whose
   * row carries the requested ids, status `Pendente` and `now`; every
   * other row is listed as before.
   */
  lemma ListingAfterCreate(st: Store, data: Option<Agendamento>, now: Time, fault: Option<string>)
    ensures CreateAppointment(st, data, now, fault).Done? ==>
      var id, before, after := CreateAppointment(st, data, now, fault).value.id,
                               ListAppointments(st), ListAppointments(CreateAppointment(st, data, now, fault).store);
      && id !in before
      && after.Keys == before.Keys + {id}
      && after[id].id == id
      && after[id].idPaciente == data.value.idPaciente
      && after[id].idMedico == data.value.idMedico
      && after[id].idAgenda == data.value.idAgenda
      && after[id].statusAgendamento == Some(Pendente)
      && after[id].dataCriacao == now && after[id].dataModificacao == now
      && (forall k | k in before :: after[k] == before[k])
  {
  }

  /** After a successful delete the listing loses exactly that key, and every other row is unchanged. */
  lemma ListingAfterDelete(st: Store, id: int, fault: Option<string>)
    ensures DeleteAppointment(st, id, fault).Done? ==>
      var before, after := ListAppointments(st), ListAppointments(DeleteAppointment(st, id, fault).store);
      && id in before
      && after.Keys == before.Keys - {id}
      && (forall k | k in after :: after[k] == before[k])
  {
  }
}
