/** The slot table's repository (`DoctorsScheduleRepository`). */
module ScheduleRepository {
  import opened Wrappers
  import opened Entities
  import Keys

  const NoDataToCreate := "Você precisa informar os dados da agenda para cadastro"
  const NoDataToUpdate := "Você precisa informar os dados da agenda para atualização"
  /** The repository reuses the appointment wording for an unknown slot. */
  const UnknownSlot := "Agendamento não encontrado"

  /**
   * The row `ListDoctorsSchedule` yields per slot. The doctor's name, CRM,
   * specialty and fee that the query joins in are not kept.
   */
  datatype ScheduleDTO = ScheduleDTO(
    id: int,
    idMedico: int,
    isBloqueado: bool,
    horarioInicio: Time,
    horarioFim: Time,
    dataCriacao: Time,
    dataModificacao: Time)

  function ToDTO(a: Agenda): ScheduleDTO {
    ScheduleDTO(a.id, a.idMedico, a.isBloqueado, a.horarioInicio, a.horarioFim, a.dataCriacao, a.dataModificacao)
  }

  /** Inserts a new slot: always unlocked, stamped with `now`, under a fresh id. */
  function CreateDoctorsSchedule(st: Store, data: Option<Agenda>, now: Time, fault: Option<string>)
    : (o: Outcome<Agenda>)
    ensures data.None? ==> o == Threw(ArgumentException(NoDataToCreate))
    ensures data.Some? && fault.Some? ==> o == Threw(DbUpdateException(fault.value))
    ensures data.Some? && fault.None? ==>
      && o.Done?
      && o.value.id !in st.agendas
      && !o.value.isBloqueado
      && o.value.dataCriacao == now && o.value.dataModificacao == now
      && o.value.idMedico == data.value.idMedico
      && o.value.horarioInicio == data.value.horarioInicio
      && o.value.horarioFim == data.value.horarioFim
      && o.store.agendas == st.agendas[o.value.id := o.value]
      && o.store == st.(agendas := o.store.agendas)
  {
    if data.None? then Threw(ArgumentException(NoDataToCreate))
    else if fault.Some? then Threw(DbUpdateException(fault.value))
    else
      var id := Keys.NextId(st.agendas.Keys);
      var a := data.value.(id := id, isBloqueado := false, dataCriacao := now, dataModificacao := now);
      Done(a, st.(agendas := st.agendas[id := a]))
  }

  /** Removes the slot stored under `id`; an unknown id throws. */
  function DeleteDoctorsSchedule(st: Store, id: int, fault: Option<string>): (o: Outcome<()>)
    ensures id !in st.agendas ==> o == Threw(NotImplementedException)
    ensures id in st.agendas && fault.Some? ==> o == Threw(DbUpdateException(fault.value))
    ensures id in st.agendas && fault.None? ==>
      && o.Done?
      && o.store.agendas.Keys == st.agendas.Keys - {id}
      && (forall k | k in o.store.agendas :: o.store.agendas[k] == st.agendas[k])
      && o.store == st.(agendas := o.store.agendas)
  {
    if id !in st.agendas then Threw(NotImplementedException)
    else if fault.Some? then Threw(DbUpdateException(fault.value))
    else Done((), st.(agendas := st.agendas - {id}))
  }

  /** One row per stored slot, carrying its id, doctor, times and lock. */
  function ListDoctorsSchedule(st: Store): (rows: map<int, ScheduleDTO>)
    ensures rows.Keys == st.agendas.Keys
    ensures forall k | k in rows ::
      && rows[k].id == st.agendas[k].id
      && rows[k].idMedico == st.agendas[k].idMedico
      && rows[k].isBloqueado == st.agendas[k].isBloqueado
      && rows[k].horarioInicio == st.agendas[k].horarioInicio
      && rows[k].horarioFim == st.agendas[k].horarioFim
      && rows[k].dataCriacao == st.agendas[k].dataCriacao
      && rows[k].dataModificacao == st.agendas[k].dataModificacao
  {
    map k | k in st.agendas :: ToDTO(st.agendas[k])
  }

  /**
   * The merge of `UpdateDoctorsSchedule`: the lock is ALWAYS taken from the
   * patch; a start or end time only when it is not `default(DateTime)`; the
   * doctor and the creation time are kept; the modification time is `now`.
   */
  function MergeAgenda(existing: Agenda, patch: Agenda, now: Time): (r: Agenda)
    ensures r.id == existing.id && r.idMedico == existing.idMedico
    ensures r.dataCriacao == existing.dataCriacao && r.dataModificacao == now
    ensures r.isBloqueado == patch.isBloqueado
    ensures patch.horarioInicio != DefaultTime ==> r.horarioInicio == patch.horarioInicio
    ensures patch.horarioInicio == DefaultTime ==> r.horarioInicio == existing.horarioInicio
    ensures patch.horarioFim != DefaultTime ==> r.horarioFim == patch.horarioFim
    ensures patch.horarioFim == DefaultTime ==> r.horarioFim == existing.horarioFim
  {
    existing.(
      isBloqueado := patch.isBloqueado,
      horarioInicio := if patch.horarioInicio != DefaultTime then patch.horarioInicio else existing.horarioInicio,
      horarioFim := if patch.horarioFim != DefaultTime then patch.horarioFim else existing.horarioFim,
      dataModificacao := now)
  }

  /** Applies `MergeAgenda` to the slot whose id the patch names. */
  function UpdateDoctorsSchedule(st: Store, data: Option<Agenda>, now: Time, fault: Option<string>)
    : (o: Outcome<()>)
    ensures data.None? ==> o == Threw(ArgumentException(NoDataToUpdate))
    ensures data.Some? && data.value.id !in st.agendas ==> o == Threw(ArgumentException(UnknownSlot))
    ensures data.Some? && data.value.id in st.agendas && fault.Some? ==>
      o == Threw(DbUpdateException(fault.value))
    ensures data.Some? && data.value.id in st.agendas && fault.None? ==>
      && o.Done?
      && o.store.agendas.Keys == st.agendas.Keys
      && o.store.agendas[data.value.id] == MergeAgenda(st.agendas[data.value.id], data.value, now)
      && (forall k | k in st.agendas && k != data.value.id :: o.store.agendas[k] == st.agendas[k])
      && o.store == st.(agendas := o.store.agendas)
  {
    if data.None? then Threw(ArgumentException(NoDataToUpdate))
    else if data.value.id !in st.agendas then Threw(ArgumentException(UnknownSlot))
    else if fault.Some? then Threw(DbUpdateException(fault.value))
    else
      var id := data.value.id;
      Done((), st.(agendas := st.agendas[id := MergeAgenda(st.agendas[id], data.value, now)]))
  }

  /**
   * Locking or unlocking a slot the way the appointment controller does it
   * (a blank `Agenda` with only the id and the flag) changes the flag and
   * the modification time and nothing else.
   */
  lemma LockPatchTouchesOnlyTheFlag(existing: Agenda, locked: bool, now: Time)
    ensures MergeAgenda(existing, BlankAgenda().(id := existing.id, isBloqueado := locked), now)
            == existing.(isBloqueado := locked, dataModificacao := now)
  {
  }

  /** Applying the same patch twice is applying it once. */
  lemma MergeIdempotent(existing: Agenda, patch: Agenda, now: Time, later: Time)
    ensures MergeAgenda(MergeAgenda(existing, patch, now), patch, later) == MergeAgenda(existing, patch, later)
  {
  }

  /** Every write keeps each record under its own id. */
  lemma WritesKeepKeys(st: Store, data: Option<Agenda>, id: int, now: Time, fault: Option<string>)
    requires WellKeyed(st)
    ensures CreateDoctorsSchedule(st, data, now, fault).Done? ==> WellKeyed(CreateDoctorsSchedule(st, data, now, fault).store)
    ensures UpdateDoctorsSchedule(st, data, now, fault).Done? ==> WellKeyed(UpdateDoctorsSchedule(st, data, now, fault).store)
    ensures DeleteDoctorsSchedule(st, id, fault).Done? ==> WellKeyed(DeleteDoctorsSchedule(st, id, fault).store)
  {
  }

  /**
   * After a successful insert the listing gains exactly the new key, whose
   * row carries the requested doctor and times, unlocked and stamped with
   * `now`; every other row is listed as before.
   */
  lemma ListingAfterCreate(st: Store, data: Option<Agenda>, now: Time, fault: Option<string>)
    ensures CreateDoctorsSchedule(st, data, now, fault).Done? ==>
      var id, before, after := CreateDoctorsSchedule(st, data, now, fault).value.id,
                               ListDoctorsSchedule(st), ListDoctorsSchedule(CreateDoctorsSchedule(st, data, now, fault).store);
      && id !in before
      && after.Keys == before.Keys + {id}
      && after[id].id == id
      && after[id].idMedico == data.value.idMedico
      && after[id].horarioInicio == data.value.horarioInicio
      && after[id].horarioFim == data.value.horarioFim
      && !after[id].isBloqueado
      && after[id].dataCriacao == now && after[id].dataModificacao == now
      && (forall k | k in before :: after[k] == before[k])
  {
  }

  /** After a successful delete the listing loses exactly that key, and every other row is unchanged. */
  lemma ListingAfterDelete(st: Store, id: int, fault: Option<string>)
    ensures DeleteDoctorsSchedule(st, id, fault).Done? ==>
      var before, after := ListDoctorsSchedule(st), ListDoctorsSchedule(DeleteDoctorsSchedule(st, id, fault).store);
      && id in before
      && after.Keys == before.Keys - {id}
      && (forall k | k in after :: after[k] == before[k])
  {
  }
}
