/** The doctor table's repository (`DoctorRepository`). */
module DoctorRepository {
  import opened Wrappers
  import opened Entities
  import Keys

  const NoDataToCreate := "Você precisa informar os dados do médico para cadastro."

  /** A doctor with its user loaded (`Include(d => d.Usuario)`). */
  datatype DoctorWithUser = DoctorWithUser(medico: Medico, usuario: Usuario)

  /** Inserts a new doctor stamped with `now` under a fresh id, keeping user id, CRM, specialty and fee. */
  function CreateDoctor(st: Store, data: Option<Medico>, now: Time, fault: Option<string>)
    : (o: Outcome<Medico>)
    ensures data.None? ==> o == Threw(ArgumentException(NoDataToCreate))
    ensures data.Some? && fault.Some? ==> o == Threw(DbUpdateException(fault.value))
    ensures data.Some? && fault.None? ==>
      && o.Done?
      && o.value.id !in st.medicos
      && o.value.idUsuario == data.value.idUsuario
      && o.value.numeroCrm == data.value.numeroCrm
      && o.value.especialidade == data.value.especialidade
      && o.value.valorConsulta == data.value.valorConsulta
      && o.value.dataCriacao == now && o.value.dataModificacao == now
      && o.store.medicos == st.medicos[o.value.id := o.value]
      && o.store == st.(medicos := o.store.medicos)
  {
    if data.None? then Threw(ArgumentException(NoDataToCreate))
    else if fault.Some? then Threw(DbUpdateException(fault.value))
    else
      var id := Keys.NextId(st.medicos.Keys);
      var d := data.value.(id := id, dataCriacao := now, dataModificacao := now);
      Done(d, st.(medicos := st.medicos[id := d]))
  }

  /** The first doctor attached to `userId` (smallest id), or null when there is none. */
  function GetDoctorByUserId(st: Store, userId: int): (r: Option<Medico>)
    ensures r.Some? ==> r.value.idUsuario == userId
    ensures r.Some? ==> exists k :: k in st.medicos && st.medicos[k] == r.value
    ensures r.None? <==> forall k | k in st.medicos :: st.medicos[k].idUsuario != userId
  {
    var ids := set k | k in st.medicos && st.medicos[k].idUsuario == userId;
    if ids == {} then
      assert forall k | k in st.medicos && st.medicos[k].idUsuario == userId :: k in ids;
      None
    else
      Some(st.medicos[Keys.Smallest(ids)])
  }

  /**
   * Every stored doctor, each with its user loaded. The link to the user is
   * a required foreign key, so `Include` loads through an inner join: a
   * doctor whose user is missing is left out rather than loaded with null.
   */
  function GetAllDoctors(st: Store): (r: map<int, DoctorWithUser>)
    ensures forall k :: k in r <==> k in st.medicos && st.medicos[k].idUsuario in st.usuarios
    ensures forall k | k in r :: r[k].medico == st.medicos[k] && r[k].usuario == st.usuarios[st.medicos[k].idUsuario]
  {
    map k | k in st.medicos && st.medicos[k].idUsuario in st.usuarios ::
      DoctorWithUser(st.medicos[k], st.usuarios[st.medicos[k].idUsuario])
  }

  /** Every write keeps each record under its own id. */
  lemma WritesKeepKeys(st: Store, data: Option<Medico>, now: Time, fault: Option<string>)
    requires WellKeyed(st)
    ensures CreateDoctor(st, data, now, fault).Done? ==> WellKeyed(CreateDoctor(st, data, now, fault).store)
  {
  }
}
