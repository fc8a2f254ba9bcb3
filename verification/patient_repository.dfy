/** The patient table's repository (`PatientRepository`). */
module PatientRepository {
  import opened Wrappers
  import opened Entities
  import Keys

  const NoDataToCreate := "Você precisa informar os dados do paciente para cadastro"

  /** Inserts a new patient stamped with `now` under a fresh id, keeping its user id. */
  function CreatePatient(st: Store, data: Option<Paciente>, now: Time, fault: Option<string>)
    : (o: Outcome<Paciente>)
    ensures data.None? ==> o == Threw(ArgumentException(NoDataToCreate))
    ensures data.Some? && fault.Some? ==> o == Threw(DbUpdateException(fault.value))
    ensures data.Some? && fault.None? ==>
      && o.Done?
      && o.value.id !in st.pacientes
      && o.value.idUsuario == data.value.idUsuario
      && o.value.dataCriacao == now && o.value.dataModificacao == now
      && o.store.pacientes == st.pacientes[o.value.id := o.value]
      && o.store == st.(pacientes := o.store.pacientes)
  {
    if data.None? then Threw(ArgumentException(NoDataToCreate))
    else if fault.Some? then Threw(DbUpdateException(fault.value))
    else
      var id := Keys.NextId(st.pacientes.Keys);
      var p := data.value.(id := id, dataCriacao := now, dataModificacao := now);
      Done(p, st.(pacientes := st.pacientes[id := p]))
  }

  /** The ids of the patients attached to `userId`. */
  function PatientIdsOf(st: Store, userId: int): set<int> {
    set k | k in st.pacientes && st.pacientes[k].idUsuario == userId
  }

  /**
   * The first patient attached to `userId` (the one with the smallest id),
   * or null when there is none.
   */
  function GetPatientByUserId(st: Store, userId: int): (r: Option<Paciente>)
    ensures r.Some? ==> r.value.idUsuario == userId
    ensures r.Some? ==> exists k :: k in st.pacientes && st.pacientes[k] == r.value
    ensures r.None? <==> forall k | k in st.pacientes :: st.pacientes[k].idUsuario != userId
  {
    var ids := PatientIdsOf(st, userId);
    if ids == {} then
      assert forall k | k in st.pacientes && st.pacientes[k].idUsuario == userId :: k in ids;
      None
    else
      Some(st.pacientes[Keys.Smallest(ids)])
  }

  /** Every write keeps each record under its own id. */
  lemma WritesKeepKeys(st: Store, data: Option<Paciente>, now: Time, fault: Option<string>)
    requires WellKeyed(st)
    ensures CreatePatient(st, data, now, fault).Done? ==> WellKeyed(CreatePatient(st, data, now, fault).store)
  {
  }
}
