/** The user table's repository (`UserRepository`). */
module UserRepository {
  import opened Wrappers
  import opened Entities
  import Keys

  const NoDataToCreate := "Você precisa informar os dados do usuário para cadastro."
  const NoDataToUpdate := "Você precisa informar os dados do usuário para atualização"
  const UnknownUser := "Usuário não encontrado"

  /** The row `ListUsers` yields per user. */
  datatype UserDTO = UserDTO(
    id: int,
    nome: Option<string>,
    cpf: Option<string>,
    email: Option<string>,
    senha: Option<string>,
    tipoUsuario: Option<string>,
    dataCriacao: Time,
    dataModificacao: Time)

  function ToDTO(u: Usuario): UserDTO {
    UserDTO(u.id, u.nome, u.cpf, u.email, u.senha, u.tipoUsuario, u.dataCriacao, u.dataModificacao)
  }

  /** Inserts a new user stamped with `now` under a fresh id; its fields are stored as given. */
  function CreateUser(st: Store, data: Option<Usuario>, now: Time, fault: Option<string>)
    : (o: Outcome<Usuario>)
    ensures data.None? ==> o == Threw(ArgumentException(NoDataToCreate))
    ensures data.Some? && fault.Some? ==> o == Threw(DbUpdateException(fault.value))
    ensures data.Some? && fault.None? ==>
      && o.Done?
      && o.value.id !in st.usuarios
      && o.value.dataCriacao == now && o.value.dataModificacao == now
      && o.value.nome == data.value.nome && o.value.cpf == data.value.cpf
      && o.value.email == data.value.email && o.value.senha == data.value.senha
      && o.value.tipoUsuario == data.value.tipoUsuario
      && o.store.usuarios == st.usuarios[o.value.id := o.value]
      && o.store == st.(usuarios := o.store.usuarios)
  {
    if data.None? then Threw(ArgumentException(NoDataToCreate))
    else if fault.Some? then Threw(DbUpdateException(fault.value))
    else
      var id := Keys.NextId(st.usuarios.Keys);
      var u := data.value.(id := id, dataCriacao := now, dataModificacao := now);
      Done(u, st.(usuarios := st.usuarios[id := u]))
  }

  /** Removes the user stored under `id`; an unknown id throws. */
  function DeleteUser(st: Store, id: int, fault: Option<string>): (o: Outcome<()>)
    ensures id !in st.usuarios ==> o == Threw(NotImplementedException)
    ensures id in st.usuarios && fault.Some? ==> o == Threw(DbUpdateException(fault.value))
    ensures id in st.usuarios && fault.None? ==>
      && o.Done?
      && o.store.usuarios.Keys == st.usuarios.Keys - {id}
      && (forall k | k in o.store.usuarios :: o.store.usuarios[k] == st.usuarios[k])
      && o.store == st.(usuarios := o.store.usuarios)
  {
    if id !in st.usuarios then Threw(NotImplementedException)
    else if fault.Some? then Threw(DbUpdateException(fault.value))
    else Done((), st.(usuarios := st.usuarios - {id}))
  }

  /** One row per stored user, carrying its fields. */
  function ListUsers(st: Store): (rows: map<int, UserDTO>)
    ensures rows.Keys == st.usuarios.Keys
    ensures forall k | k in rows ::
      && rows[k].id == st.usuarios[k].id
      && rows[k].nome == st.usuarios[k].nome && rows[k].cpf == st.usuarios[k].cpf
      && rows[k].email == st.usuarios[k].email && rows[k].senha == st.usuarios[k].senha
      && rows[k].tipoUsuario == st.usuarios[k].tipoUsuario
      && rows[k].dataCriacao == st.usuarios[k].dataCriacao
      && rows[k].dataModificacao == st.usuarios[k].dataModificacao
  {
    map k | k in st.usuarios :: ToDTO(st.usuarios[k])
  }

  /** A field of the patch replaces the stored one only when it is not null. */
  function Overwrite(incoming: Option<string>, stored: Option<string>): (r: Option<string>)
    ensures incoming.Some? ==> r == incoming
    ensures incoming.None? ==> r == stored
  {
    if incoming.Some? then incoming else stored
  }

  /**
   * The merge of `UpdateUser`: each of name, CPF, e-mail, password and type
   * is overwritten only by a non-null value; the creation time is kept and
   * the modification time becomes `now`.
   */
  function MergeUsuario(existing: Usuario, patch: Usuario, now: Time): (r: Usuario)
    ensures r.id == existing.id && r.dataCriacao == existing.dataCriacao && r.dataModificacao == now
    ensures r.nome == Overwrite(patch.nome, existing.nome)
    ensures r.cpf == Overwrite(patch.cpf, existing.cpf)
    ensures r.email == Overwrite(patch.email, existing.email)
    ensures r.senha == Overwrite(patch.senha, existing.senha)
    ensures r.tipoUsuario == Overwrite(patch.tipoUsuario, existing.tipoUsuario)
  {
    existing.(
      dataModificacao := now,
      nome := Overwrite(patch.nome, existing.nome),
      cpf := Overwrite(patch.cpf, existing.cpf),
      email := Overwrite(patch.email, existing.email),
      senha := Overwrite(patch.senha, existing.senha),
      tipoUsuario := Overwrite(patch.tipoUsuario, existing.tipoUsuario))
  }

  /** Applies `MergeUsuario` to the user whose id the patch names. */
  function UpdateUser(st: Store, data: Option<Usuario>, now: Time, fault: Option<string>): (o: Outcome<()>)
    ensures data.None? ==> o == Threw(ArgumentException(NoDataToUpdate))
    ensures data.Some? && data.value.id !in st.usuarios ==> o == Threw(ArgumentException(UnknownUser))
    ensures data.Some? && data.value.id in st.usuarios && fault.Some? ==>
      o == Threw(DbUpdateException(fault.value))
    ensures data.Some? && data.value.id in st.usuarios && fault.None? ==>
      && o.Done?
      && o.store.usuarios.Keys == st.usuarios.Keys
      && o.store.usuarios[data.value.id] == MergeUsuario(st.usuarios[data.value.id], data.value, now)
      && (forall k | k in st.usuarios && k != data.value.id :: o.store.usuarios[k] == st.usuarios[k])
      && o.store == st.(usuarios := o.store.usuarios)
  {
    if data.None? then Threw(ArgumentException(NoDataToUpdate))
    else if data.value.id !in st.usuarios then Threw(ArgumentException(UnknownUser))
    else if fault.Some? then Threw(DbUpdateException(fault.value))
    else
      var id := data.value.id;
      Done((), st.(usuarios := st.usuarios[id := MergeUsuario(st.usuarios[id], data.value, now)]))
  }

  /** A patch with every field null changes nothing but the modification time. */
  lemma NullPatchKeepsUser(existing: Usuario, patch: Usuario, now: Time)
    requires patch.nome.None? && patch.cpf.None? && patch.email.None?
    requires patch.senha.None? && patch.tipoUsuario.None?
    ensures MergeUsuario(existing, patch, now) == existing.(dataModificacao := now)
  {
  }

  /** Applying the same patch twice is applying it once. */
  lemma MergeIdempotent(existing: Usuario, patch: Usuario, now: Time, later: Time)
    ensures MergeUsuario(MergeUsuario(existing, patch, now), patch, later) == MergeUsuario(existing, patch, later)
  {
  }

  /** Every write keeps each record under its own id. */
  lemma WritesKeepKeys(st: Store, data: Option<Usuario>, id: int, now: Time, fault: Option<string>)
    requires WellKeyed(st)
    ensures CreateUser(st, data, now, fault).Done? ==> WellKeyed(CreateUser(st, data, now, fault).store)
    ensures UpdateUser(st, data, now, fault).Done? ==> WellKeyed(UpdateUser(st, data, now, fault).store)
    ensures DeleteUser(st, id, fault).Done? ==> WellKeyed(DeleteUser(st, id, fault).store)
  {
  }

  /**
   * After a successful insert the listing gains exactly the new key, whose
   * row carries the given fields stamped with `now`; every other row is
   * listed as before.
   */
  lemma ListingAfterCreate(st: Store, data: Option<Usuario>, now: Time, fault: Option<string>)
    ensures CreateUser(st, data, now, fault).Done? ==>
      var id, before, after := CreateUser(st, data, now, fault).value.id,
                               ListUsers(st), ListUsers(CreateUser(st, data, now, fault).store);
      && id !in before
      && after.Keys == before.Keys + {id}
      && after[id] == UserDTO(id, data.value.nome, data.value.cpf, data.value.email, data.value.senha,
                              data.value.tipoUsuario, now, now)
      && (forall k | k in before :: after[k] == before[k])
  {
  }

  /** After a successful delete the listing loses exactly that key, and every other row is unchanged. */
  lemma ListingAfterDelete(st: Store, id: int, fault: Option<string>)
    ensures DeleteUser(st, id, fault).Done? ==>
      var before, after := ListUsers(st), ListUsers(DeleteUser(st, id, fault).store);
      && id in before
      && after.Keys == before.Keys - {id}
      && (forall k | k in after :: after[k] == before[k])
  {
  }
}
