/**
 * User provisioning (`UserController`, administrator only). Creating a
 * user of type "médico" or "paciente" also creates the matching doctor or
 * patient record, and the doctor fields are checked only after the user
 * has been stored.
 */
module UserController {
  import opened Wrappers
  import opened Entities
  import opened Text
  import UR = UserRepository
  import DR = DoctorRepository
  import PR = PatientRepository

  /** The request body of user creation and update. */
  datatype UserModel = UserModel(
    nome: Option<string>,
    cpf: Option<string>,
    senha: Option<string>,
    email: Option<string>,
    tipoUsuario: Option<string>,
    valorConsulta: Option<Fee>,
    especialidade: Option<string>,
    numeroCrm: Option<string>)

  const Created := "Usuário criado com sucesso!"
  const Updated := "Usuário atualizado com sucesso!"
  const Deleted := "Usuário excluído com sucesso!"
  const UserNotFound := "Usuário não encontrado"
  const MissingDoctorFields := "Campos adicionais (NumeroCrm, Especialidade e ValorConsulta) são obrigatórios para médicos."
  const InternalError := "Internal server error: "

  /** The type names a doctor, in any letter case. */
  predicate IsDoctorType(tipo: Option<string>) {
    tipo.Some? && Lower(tipo.value) == "médico"
  }

  /** The type names a patient, in any letter case. */
  predicate IsPatientType(tipo: Option<string>) {
    tipo.Some? && Lower(tipo.value) == "paciente"
  }

  /** CRM and specialty are non-empty and the fee is given. */
  predicate HasDoctorFields(input: UserModel) {
    !IsNullOrEmpty(input.numeroCrm) && !IsNullOrEmpty(input.especialidade) && input.valorConsulta.Some?
  }

  /** The user record the request describes, as stored under `id` at `now`. */
  function NewUser(id: int, input: UserModel, now: Time): Usuario {
    Usuario(id, input.nome, input.cpf, input.email, input.senha, input.tipoUsuario, now, now)
  }

  /** `st` with the new user added under the fresh id `uid`. */
  function WithUser(st: Store, uid: int, input: UserModel, now: Time): Store {
    st.(usuarios := st.usuarios[uid := NewUser(uid, input, now)])
  }

  /** `GetUser`: one row per stored user. */
  function GetUser(st: Store): (r: Response<map<int, UR.UserDTO>>)
    ensures r.Ok? && r.value.Keys == st.usuarios.Keys
    ensures forall k | k in r.value :: r.value[k] == UR.ToDTO(st.usuarios[k])
  {
    Ok(UR.ListUsers(st))
  }

  /** `CreateUser`: the user first, then the doctor or patient record its type asks for. */
  function CreateUser(st: Store, input: UserModel, env: Env): (r: Reply<string>)
    ensures env.Fault(0).Some? ==> r == Reply(ServerError(InternalError + env.Fault(0).value), st)
    ensures env.Fault(0).None? && IsDoctorType(input.tipoUsuario) && !HasDoctorFields(input) ==>
      exists uid :: uid !in st.usuarios && r == Reply(BadRequest(MissingDoctorFields), WithUser(st, uid, input, env.now))
    ensures env.Fault(0).None? && IsDoctorType(input.tipoUsuario) && HasDoctorFields(input) && env.Fault(1).Some? ==>
      exists uid :: uid !in st.usuarios
        && r == Reply(ServerError(InternalError + env.Fault(1).value), WithUser(st, uid, input, env.now))
    ensures env.Fault(0).None? && IsDoctorType(input.tipoUsuario) && HasDoctorFields(input) && env.Fault(1).None? ==>
      && r.response == Ok(Created)
      && exists uid, mid ::
           && uid !in st.usuarios && mid !in st.medicos
           && r.store == WithUser(st, uid, input, env.now).(medicos := st.medicos[mid :=
                Medico(mid, input.numeroCrm.value, input.especialidade, input.valorConsulta, env.now, env.now, uid)])
    ensures env.Fault(0).None? && IsPatientType(input.tipoUsuario) && env.Fault(1).Some? ==>
      exists uid :: uid !in st.usuarios
        && r == Reply(ServerError(InternalError + env.Fault(1).value), WithUser(st, uid, input, env.now))
    ensures env.Fault(0).None? && IsPatientType(input.tipoUsuario) && env.Fault(1).None? ==>
      && r.response == Ok(Created)
      && exists uid, pid ::
           && uid !in st.usuarios && pid !in st.pacientes
           && r.store == WithUser(st, uid, input, env.now).(pacientes := st.pacientes[pid :=
                Paciente(pid, env.now, env.now, uid)])
    ensures env.Fault(0).None? && !IsDoctorType(input.tipoUsuario) && !IsPatientType(input.tipoUsuario) ==>
      exists uid :: uid !in st.usuarios && r == Reply(Ok(Created), WithUser(st, uid, input, env.now))
  {
    var usuario := Usuario(0, input.nome, input.cpf, input.email, input.senha, input.tipoUsuario, env.now, env.now);
    match UR.CreateUser(st, Some(usuario), env.now, env.Fault(0))
    case Threw(e) => Reply(ServerError(InternalError + e.Message()), st)
    case Done(created, st1) =>
      assert st1 == WithUser(st, created.id, input, env.now);
      if IsDoctorType(input.tipoUsuario) then
        if !HasDoctorFields(input) then
          Reply(BadRequest(MissingDoctorFields), st1)
        else
          var medico := Medico(0, input.numeroCrm.value, input.especialidade, input.valorConsulta,
                               env.now, env.now, created.id);
          match DR.CreateDoctor(st1, Some(medico), env.now, env.Fault(1))
          case Threw(e) => Reply(ServerError(InternalError + e.Message()), st1)
          case Done(_, st2) => Reply(Ok(Created), st2)
      else if IsPatientType(input.tipoUsuario) then
        match PR.CreatePatient(st1, Some(Paciente(0, env.now, env.now, created.id)), env.now, env.Fault(1))
        case Threw(e) => Reply(ServerError(InternalError + e.Message()), st1)
        case Done(_, st2) => Reply(Ok(Created), st2)
      else
        Reply(Ok(Created), st1)
  }

  /**
   * `UpdateUser`: the five fields of the body merged into the user, each
   * one kept when the body leaves it null.
   */
  function UpdateUser(st: Store, id: int, input: UserModel, env: Env): (r: Reply<string>)
    ensures id !in st.usuarios ==> r == Reply(NotFound(UserNotFound), st)
    ensures id in st.usuarios && env.Fault(0).Some? ==>
      r == Reply(ServerError(InternalError + env.Fault(0).value), st)
    ensures id in st.usuarios && env.Fault(0).None? ==>
      && r.response == Ok(Updated)
      && r.store == st.(usuarios := r.store.usuarios)
      && r.store.usuarios.Keys == st.usuarios.Keys
      && (forall k | k in st.usuarios && k != id :: r.store.usuarios[k] == st.usuarios[k])
      && var before, after := st.usuarios[id], r.store.usuarios[id];
         && after.id == before.id
         && after.dataCriacao == before.dataCriacao && after.dataModificacao == env.now
         && (input.nome.Some? ==> after.nome == input.nome) && (input.nome.None? ==> after.nome == before.nome)
         && (input.cpf.Some? ==> after.cpf == input.cpf) && (input.cpf.None? ==> after.cpf == before.cpf)
         && (input.email.Some? ==> after.email == input.email) && (input.email.None? ==> after.email == before.email)
         && (input.senha.Some? ==> after.senha == input.senha) && (input.senha.None? ==> after.senha == before.senha)
         && (input.tipoUsuario.Some? ==> after.tipoUsuario == input.tipoUsuario)
         && (input.tipoUsuario.None? ==> after.tipoUsuario == before.tipoUsuario)
  {
    if id !in UR.ListUsers(st) then
      Reply(NotFound(UserNotFound), st)
    else
      var patch := Usuario(id, input.nome, input.cpf, input.email, input.senha, input.tipoUsuario, DefaultTime, DefaultTime);
      match UR.UpdateUser(st, Some(patch), env.now, env.Fault(0))
      case Threw(e) => Reply(ServerError(InternalError + e.Message()), st)
      case Done(_, st') => Reply(Ok(Updated), st')
  }

  /** `DeleteUser`: removes exactly that user from the store (the database's cascades are not modelled). */
  function DeleteUser(st: Store, id: int, env: Env): (r: Reply<string>)
    ensures id !in st.usuarios ==> r == Reply(NotFound(UserNotFound), st)
    ensures id in st.usuarios && env.Fault(0).Some? ==>
      r == Reply(ServerError(InternalError + env.Fault(0).value), st)
    ensures id in st.usuarios && env.Fault(0).None? ==>
      r == Reply(Ok(Deleted), st.(usuarios := st.usuarios - {id}))
  {
    if id !in UR.ListUsers(st) then
      Reply(NotFound(UserNotFound), st)
    else
      match UR.DeleteUser(st, id, env.Fault(0))
      case Threw(e) => Reply(ServerError(InternalError + e.Message()), st)
      case Done(_, st') => Reply(Ok(Deleted), st')
  }

  /** No type names both a doctor and a patient. */
  lemma TypesExclusive(tipo: Option<string>)
    ensures !(IsDoctorType(tipo) && IsPatientType(tipo))
  {
  }

  /**
   * Provisioning without database failures adds exactly one user, and one
   * doctor or one patient exactly as the type (and, for a doctor, the
   * extra fields) asks.
   */
  lemma ProvisioningCounts(st: Store, input: UserModel, env: Env)
    requires env.Fault(0).None? && env.Fault(1).None?
    ensures |CreateUser(st, input, env).store.usuarios| == |st.usuarios| + 1
    ensures |CreateUser(st, input, env).store.medicos| ==
      |st.medicos| + (if IsDoctorType(input.tipoUsuario) && HasDoctorFields(input) then 1 else 0)
    ensures |CreateUser(st, input, env).store.pacientes| ==
      |st.pacientes| + (if IsPatientType(input.tipoUsuario) then 1 else 0)
    ensures CreateUser(st, input, env).store.agendas == st.agendas
    ensures CreateUser(st, input, env).store.agendamentos == st.agendamentos
  {
    TypesExclusive(input.tipoUsuario);
  }

  /**
   * A doctor missing CRM, specialty or fee is refused, but the user record
   * has already been stored and stays.
   */
  lemma RefusedDoctorKeepsUser(st: Store, input: UserModel, env: Env)
    requires env.Fault(0).None? && IsDoctorType(input.tipoUsuario) && !HasDoctorFields(input)
    ensures CreateUser(st, input, env).response == BadRequest(MissingDoctorFields)
    ensures |CreateUser(st, input, env).store.usuarios| == |st.usuarios| + 1
    ensures CreateUser(st, input, env).store.medicos == st.medicos
  {
  }

  /** The user row is stored under a fresh id once the first write succeeds, whatever follows it. */
  lemma UserRowStored(st: Store, input: UserModel, env: Env)
    ensures env.Fault(0).None? ==>
      exists uid :: uid !in st.usuarios && CreateUser(st, input, env).store.usuarios == WithUser(st, uid, input, env.now).usuarios
  {
    if env.Fault(0).None? {
      var usuario := Usuario(0, input.nome, input.cpf, input.email, input.senha, input.tipoUsuario, env.now, env.now);
      var first := UR.CreateUser(st, Some(usuario), env.now, env.Fault(0));
      assert first.store.usuarios == WithUser(st, first.value.id, input, env.now).usuarios;
      assert CreateUser(st, input, env).store.usuarios == first.store.usuarios;
    }
  }

  /**
   * Once the user row is stored, whatever happens to the doctor or patient
   * record, `GetUser` lists exactly one new user, with the fields of the
   * request stamped with `now`, and every earlier user as before.
   */
  lemma GetUserAfterCreate(st: Store, input: UserModel, env: Env)
    ensures env.Fault(0).None? ==>
      var before, after := GetUser(st).value, GetUser(CreateUser(st, input, env).store).value;
      exists uid ::
        && uid !in before
        && after.Keys == before.Keys + {uid}
        && after[uid] == UR.ToDTO(NewUser(uid, input, env.now))
        && (forall k | k in before :: after[k] == before[k])
    ensures env.Fault(0).Some? ==> GetUser(CreateUser(st, input, env).store) == GetUser(st)
  {
    if env.Fault(0).None? {
      var st2 := CreateUser(st, input, env).store;
      UserRowStored(st, input, env);
      var uid :| uid !in st.usuarios && st2.usuarios == WithUser(st, uid, input, env.now).usuarios;
      ListingWithUser(st, st2, uid, input, env.now);
    }
  }

  /** Listing a store whose users are those of `st` plus one new user. */
  lemma ListingWithUser(st: Store, st2: Store, uid: int, input: UserModel, now: Time)
    requires uid !in st.usuarios && st2.usuarios == WithUser(st, uid, input, now).usuarios
    ensures var before, after := GetUser(st).value, GetUser(st2).value;
      && uid !in before
      && after.Keys == before.Keys + {uid}
      && after[uid] == UR.ToDTO(NewUser(uid, input, now))
      && (forall k | k in before :: after[k] == before[k])
  {
  }
}
