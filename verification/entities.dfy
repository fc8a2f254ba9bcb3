/**
 * The records of the scheduling backend, the in-memory store that stands
 * for the database, and the result shapes shared by repositories and
 * controllers.
 *
 * Every `DateTime` is a `Time`: a tick count from an injected clock, where
 * 0 plays the part of `default(DateTime)`. Nullable strings are
 * `Option<string>`. Ids are unbounded integers.
 */
module Entities {
  import opened Wrappers

  type Time = nat

  /** `default(DateTime)`, the value the sparse merges treat as "not given". */
  const DefaultTime: Time := 0

  /** A user account (`Usuario`); `tipoUsuario` doubles as the role claim. */
  datatype Usuario = Usuario(
    id: int,
    nome: Option<string>,
    cpf: Option<string>,
    email: Option<string>,
    senha: Option<string>,
    tipoUsuario: Option<string>,
    dataCriacao: Time,
    dataModificacao: Time)

  /** Consultation fee (`decimal?`), only ever null-checked. */
  type Fee = real

  /** A doctor (`Medico`), attached to its user by `idUsuario`. */
  datatype Medico = Medico(
    id: int,
    numeroCrm: string,
    especialidade: Option<string>,
    valorConsulta: Option<Fee>,
    dataCriacao: Time,
    dataModificacao: Time,
    idUsuario: int)

  /** A patient (`Paciente`), attached to its user by `idUsuario`. */
  datatype Paciente = Paciente(
    id: int,
    dataCriacao: Time,
    dataModificacao: Time,
    idUsuario: int)

  /** A bookable slot of a doctor's calendar (`Agenda`). */
  datatype Agenda = Agenda(
    id: int,
    isBloqueado: bool,
    horarioInicio: Time,
    horarioFim: Time,
    dataCriacao: Time,
    dataModificacao: Time,
    idMedico: int)

  /** An appointment (`Agendamento`) of a patient with a doctor in a slot. */
  datatype Agendamento = Agendamento(
    id: int,
    statusAgendamento: Option<string>,
    motivoCancelamento: Option<string>,
    dataCriacao: Time,
    dataModificacao: Time,
    idPaciente: int,
    idMedico: int,
    idAgenda: int)

  /** The status strings the controllers and the repository write. */
  const Pendente := "Pendente"
  const Agendado := "Agendado"
  const Cancelado := "Cancelado"
  const Recusado := "Recusado"

  /** An entity with every field at its C# default, as `new Agendamento()` builds it. */
  function BlankAgendamento(): Agendamento {
    Agendamento(0, None, None, DefaultTime, DefaultTime, 0, 0, 0)
  }

  /** `new Agenda()`: unlocked, default times, no doctor. */
  function BlankAgenda(): Agenda {
    Agenda(0, false, DefaultTime, DefaultTime, DefaultTime, DefaultTime, 0)
  }

  /** The database: one table per entity, each keyed by record id. */
  datatype Store = Store(
    usuarios: map<int, Usuario>,
    medicos: map<int, Medico>,
    pacientes: map<int, Paciente>,
    agendas: map<int, Agenda>,
    agendamentos: map<int, Agendamento>)

  /**
   * Every record is stored under its own id, so looking a key up is the
   * source's `FirstOrDefault(x => x.Id == id)`.
   */
  predicate WellKeyed(st: Store) {
    && (forall k | k in st.usuarios :: st.usuarios[k].id == k)
    && (forall k | k in st.medicos :: st.medicos[k].id == k)
    && (forall k | k in st.pacientes :: st.pacientes[k].id == k)
    && (forall k | k in st.agendas :: st.agendas[k].id == k)
    && (forall k | k in st.agendamentos :: st.agendamentos[k].id == k)
  }

  /**
   * Every doctor's user exists. The database guarantees it with a foreign
   * key and cascade delete; the model's store does not, so the paths that
   * dereference a doctor's user state it where they need it.
   */
  predicate DoctorsHaveUsers(st: Store) {
    forall k | k in st.medicos :: st.medicos[k].idUsuario in st.usuarios
  }

  /** The exceptions the repositories, controllers and the authentication handler raise. */
  datatype Exception =
    | ArgumentException(text: string)
    | NotImplementedException
    | NullReferenceException
      /** A claim built with a null value. */
    | ArgumentNullException
      /** `SaveChanges` rejected the write (a constraint, a lost connection). */
    | DbUpdateException(text: string)
  {
    /** `ex.Message`. */
    function Message(): string {
      match this
      case ArgumentException(t) => t
      case NotImplementedException => "The method or operation is not implemented."
      case NullReferenceException => "Object reference not set to an instance of an object."
      case ArgumentNullException => "Value cannot be null. (Parameter 'value')"
      case DbUpdateException(t) => t
    }
  }

  /** A repository call either returns (with the new store) or throws (changing nothing). */
  datatype Outcome<+T> = Done(value: T, store: Store) | Threw(error: Exception)

  /** The controller's `IActionResult`: 200, 404, 400, 500, or 403 from the role check. */
  datatype Response<+T> =
    | Ok(value: T)
    | NotFound(message: string)
    | BadRequest(message: string)
    | ServerError(message: string)
    | Forbidden

  /** What an endpoint answers, and the store it leaves behind. */
  datatype Reply<+T> = Reply(response: Response<T>, store: Store)

  /**
   * The request's surroundings: the clock reading, and which of the
   * request's `SaveChanges` calls (numbered from 0 in program order) the
   * database rejects, with the message it rejects them with.
   */
  datatype Env = Env(now: Time, faults: map<nat, string>) {
    function Fault(write: nat): Option<string> {
      if write in faults then Some(faults[write]) else None
    }
  }

  /** The authenticated caller: the claims the authentication handler issues. */
  datatype Principal = Principal(name: string, userId: int, email: string, role: string)

  /** The three role names `TipoUsuario` holds and `[Authorize]` compares against. */
  const Administrador := "Administrador"
  const MedicoRole := "Médico"
  const PacienteRole := "Paciente"
}
