/**
 * Doctor search (`DoctorController`): optional filters on name, specialty,
 * CRM and id, and the variant that keeps only doctors with an open slot
 * in the future.
 *
 * The doctor list is materialised with each doctor's user loaded through
 * an inner join, and the filters then run in memory in the order name,
 * specialty, CRM, id, followed by the projection that reads the user's
 * name and e-mail. Since the join leaves out doctors whose user is
 * missing, neither the name filter nor the projection meets a null user,
 * and both searches always answer 200.
 */
module DoctorController {
  import opened Wrappers
  import opened Entities
  import opened Text
  import DR = DoctorRepository
  import SR = ScheduleRepository

  /** The optional query parameters; an empty string counts as absent for the text filters. */
  datatype DoctorFilter = DoctorFilter(
    nome: Option<string>,
    especialidade: Option<string>,
    numeroCrm: Option<string>,
    id: Option<int>)

  /** A filter that asks for nothing. */
  function NoFilter(): DoctorFilter {
    DoctorFilter(None, None, None, None)
  }

  /** One row of the plain search. */
  datatype DoctorRow = DoctorRow(
    id: int,
    nome: Option<string>,
    email: Option<string>,
    numeroCrm: string,
    especialidade: Option<string>,
    valorConsulta: Option<Fee>,
    dataCriacao: Time,
    dataModificacao: Time)

  /** One open slot listed under a doctor. */
  datatype SlotRow = SlotRow(id: int, horarioInicio: Time, horarioFim: Time, dataCriacao: Time, dataModificacao: Time)

  /** One row of the future-schedules search: the doctor and their open future slots. */
  datatype DoctorWithSlots = DoctorWithSlots(
    id: int,
    nome: Option<string>,
    email: Option<string>,
    numeroCrm: string,
    especialidade: Option<string>,
    valorConsulta: Option<Fee>,
    agendasFuturas: map<int, SlotRow>)

  /** The name filter accepts this user. */
  predicate NameMatches(u: Usuario, f: DoctorFilter) {
    IsNullOrEmpty(f.nome) || (u.nome.Some? && ContainsIgnoreCase(u.nome.value, f.nome.value))
  }

  /** The specialty, CRM and id filters accept this doctor. */
  predicate RecordMatches(d: Medico, f: DoctorFilter) {
    && (IsNullOrEmpty(f.especialidade)
        || (d.especialidade.Some? && ContainsIgnoreCase(d.especialidade.value, f.especialidade.value)))
    && (IsNullOrEmpty(f.numeroCrm) || ContainsIgnoreCase(d.numeroCrm, f.numeroCrm.value))
    && (f.id.None? || d.id == f.id.value)
  }

  /** The doctor stored under `k` is listed by a search with `f`. */
  predicate Listed(st: Store, k: int, f: DoctorFilter)
    requires k in st.medicos
  {
    var d := st.medicos[k];
    d.idUsuario in st.usuarios && NameMatches(st.usuarios[d.idUsuario], f) && RecordMatches(d, f)
  }

  function RowOf(d: Medico, u: Usuario): DoctorRow {
    DoctorRow(d.id, u.nome, u.email, d.numeroCrm, d.especialidade, d.valorConsulta, d.dataCriacao, d.dataModificacao)
  }

  /** The slot is open for booking after `now`. */
  predicate FutureAvailable(a: Agenda, now: Time) {
    a.horarioInicio > now && !a.isBloqueado
  }

  /** The keys of the joined doctors that pass the four filters. */
  function Selected(st: Store, f: DoctorFilter): (r: set<int>)
    ensures forall k :: k in r <==> (k in st.medicos && Listed(st, k, f))
  {
    var all := DR.GetAllDoctors(st);
    set k | k in all && NameMatches(all[k].usuario, f) && RecordMatches(all[k].medico, f)
  }

  /** `GetDoctors`: every doctor with a user that every filter accepts. */
  function GetDoctors(st: Store, f: DoctorFilter): (r: Response<map<int, DoctorRow>>)
    ensures r.Ok?
    ensures forall k :: k in r.value <==> (k in st.medicos && Listed(st, k, f))
    ensures forall k | k in r.value ::
      && k in st.medicos && st.medicos[k].idUsuario in st.usuarios
      && r.value[k] == RowOf(st.medicos[k], st.usuarios[st.medicos[k].idUsuario])
  {
    var keys := Selected(st, f);
    Ok(map k | k in keys :: RowOf(st.medicos[k], st.usuarios[st.medicos[k].idUsuario]))
  }

  /** The open future slots of the doctor whose id field is `idMedico`. */
  function FutureSlotsOf(st: Store, idMedico: int, now: Time): (r: map<int, SlotRow>)
    ensures forall s :: s in r <==> (s in st.agendas && st.agendas[s].idMedico == idMedico && FutureAvailable(st.agendas[s], now))
    ensures forall s | s in r ::
      && r[s].id == s
      && r[s].horarioInicio == st.agendas[s].horarioInicio
      && r[s].horarioFim == st.agendas[s].horarioFim
      && r[s].dataCriacao == st.agendas[s].dataCriacao
      && r[s].dataModificacao == st.agendas[s].dataModificacao
  {
    var slots := SR.ListDoctorsSchedule(st);
    map s | s in slots && slots[s].horarioInicio > now && !slots[s].isBloqueado && slots[s].idMedico == idMedico ::
      SlotRow(s, slots[s].horarioInicio, slots[s].horarioFim, slots[s].dataCriacao, slots[s].dataModificacao)
  }

  /** The doctor stored under `k` has an open slot after `now`. */
  predicate HasFutureSlot(st: Store, k: int, now: Time)
    requires k in st.medicos
  {
    exists s :: s in st.agendas && st.agendas[s].idMedico == st.medicos[k].id && FutureAvailable(st.agendas[s], now)
  }

  function WithSlots(d: Medico, u: Usuario, slots: map<int, SlotRow>): DoctorWithSlots {
    DoctorWithSlots(d.id, u.nome, u.email, d.numeroCrm, d.especialidade, d.valorConsulta, slots)
  }

  /** `GetDoctorsWithFutureSchedules`: the search above, restricted to doctors with an open future slot. */
  function GetDoctorsWithFutureSchedules(st: Store, f: DoctorFilter, now: Time)
    : (r: Response<map<int, DoctorWithSlots>>)
    ensures r.Ok?
    ensures forall k :: k in r.value <==> (k in st.medicos && Listed(st, k, f) && HasFutureSlot(st, k, now))
    ensures forall k | k in r.value ::
      && k in st.medicos && st.medicos[k].idUsuario in st.usuarios
      && r.value[k] == WithSlots(st.medicos[k], st.usuarios[st.medicos[k].idUsuario],
                                 FutureSlotsOf(st, st.medicos[k].id, now))
  {
    var keys := Selected(st, f);
    var rows := map k | k in keys ::
      WithSlots(st.medicos[k], st.usuarios[st.medicos[k].idUsuario], FutureSlotsOf(st, st.medicos[k].id, now));
    assert forall k | k in keys :: (rows[k].agendasFuturas != map[] <==> HasFutureSlot(st, k, now)) by {
      forall k | k in keys ensures rows[k].agendasFuturas != map[] <==> HasFutureSlot(st, k, now) {
        var slots := rows[k].agendasFuturas;
        if slots != map[] {
          var s :| s in slots;
        }
      }
    }
    Ok(map k | k in rows && rows[k].agendasFuturas != map[] :: rows[k])
  }

  /**
   * Without filters, the search lists every doctor that has a user, and so
   * every doctor when no user is missing.
   */
  lemma NoFilterListsEveryDoctor(st: Store)
    ensures forall k :: k in GetDoctors(st, NoFilter()).value <==> (k in st.medicos && st.medicos[k].idUsuario in st.usuarios)
    ensures DoctorsHaveUsers(st) ==> GetDoctors(st, NoFilter()).value.Keys == st.medicos.Keys
  {
    var r := GetDoctors(st, NoFilter());
    forall k ensures k in r.value <==> (k in st.medicos && st.medicos[k].idUsuario in st.usuarios) {
      if k in st.medicos && st.medicos[k].idUsuario in st.usuarios {
        assert Listed(st, k, NoFilter());
      }
    }
    if DoctorsHaveUsers(st) {
      assert forall k :: k in r.value <==> k in st.medicos;
    }
  }

  /** An empty text filter is no filter. */
  lemma EmptyFiltersAreIgnored(st: Store, f: DoctorFilter)
    requires f.nome == Some("") && f.especialidade == Some("") && f.numeroCrm == Some("")
    ensures GetDoctors(st, f) == GetDoctors(st, f.(nome := None, especialidade := None, numeroCrm := None))
  {
    var g := f.(nome := None, especialidade := None, numeroCrm := None);
    forall k ensures k in GetDoctors(st, f).value <==> k in GetDoctors(st, g).value {
      if k in st.medicos {
        assert Listed(st, k, f) == Listed(st, k, g);
      }
    }
    var a, b := GetDoctors(st, f).value, GetDoctors(st, g).value;
    assert a.Keys == b.Keys;
    assert a == b;
  }

  /** The filter that keeps only one of the four conditions of `f`. */
  function OnlyName(f: DoctorFilter): DoctorFilter { NoFilter().(nome := f.nome) }
  function OnlySpecialty(f: DoctorFilter): DoctorFilter { NoFilter().(especialidade := f.especialidade) }
  function OnlyCrm(f: DoctorFilter): DoctorFilter { NoFilter().(numeroCrm := f.numeroCrm) }
  function OnlyId(f: DoctorFilter): DoctorFilter { NoFilter().(id := f.id) }

  /** The filters are conjunctive: a doctor is listed iff each filter alone would list it. */
  lemma FiltersAreConjunctive(st: Store, f: DoctorFilter, k: int)
    ensures k in GetDoctors(st, f).value <==>
      && k in GetDoctors(st, OnlyName(f)).value
      && k in GetDoctors(st, OnlySpecialty(f)).value
      && k in GetDoctors(st, OnlyCrm(f)).value
      && k in GetDoctors(st, OnlyId(f)).value
  {
  }

  /**
   * Both endpoints screen doctors alike: the future search lists a subset
   * of the plain search, and the shared columns agree.
   */
  lemma SearchesAgree(st: Store, f: DoctorFilter, now: Time)
    ensures forall k | k in GetDoctorsWithFutureSchedules(st, f, now).value ::
        && k in GetDoctors(st, f).value
        && var full, row := GetDoctors(st, f).value[k], GetDoctorsWithFutureSchedules(st, f, now).value[k];
           && row.id == full.id && row.nome == full.nome && row.email == full.email
           && row.numeroCrm == full.numeroCrm && row.especialidade == full.especialidade
           && row.valorConsulta == full.valorConsulta
  {
  }
}
