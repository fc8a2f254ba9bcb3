/**
 * The Basic authentication handler (`BasicAuthenticationHandler`), from
 * the request path and the already decoded header down to the claims it
 * issues.
 *
 * Parsing the header value and Base64/UTF-8 decoding are library calls:
 * the request carries their results (`scheme`, `parameter`, `credentials`).
 * The user and doctor lists are scanned in ascending key order, the order
 * the model gives every `FirstOrDefault` with a predicate.
 */
module Authentication {
  import opened Wrappers
  import opened Entities
  import opened Text
  import Keys

  /** What the handler sees of a request. */
  datatype AuthRequest = AuthRequest(
    path: string,
      /** The Authorization header's first value; None when the header is absent. */
    header: Option<string>,
    scheme: string,
    parameter: Option<string>,
      /** The parameter, Base64- and UTF-8-decoded. */
    credentials: string)

  /** `AuthenticateResult`: success without identity, success with claims, or failure. */
  datatype AuthResult = Anonymous | Authenticated(principal: Principal) | Failed(reason: string)

  const MissingHeader := "Cabeçalho de autorização ausente"
  const EmptyHeader := "Cabeçalho de autorização vazio"
  const BadScheme := "Esquema de autorização inválido"
  const MissingParameter := "Parâmetro de autorização ausente"
  const BadCredentials := "Credenciais no formato inválido"
  const BadEmail := "E-mail ou senha inválidos"
  const BadCpf := "CPF ou senha inválidos"
  const BadCrm := "CRM ou senha inválidos"
  const HeaderError := "Erro no cabeçalho de autorização: "

  /** The paths served without credentials. */
  const AnonymousPaths: seq<string> := ["/metrics", "/api/live/ws", "/readiness", "/health"]

  /** `PathString.StartsWithSegments`: equal to `seg`, or `seg` followed by '/', ignoring case. */
  predicate StartsWithSegments(path: string, seg: string) {
    || EqualsIgnoreCase(path, seg)
    || (|path| > |seg| && EqualsIgnoreCase(path[..|seg|], seg) && path[|seg|] == '/')
  }

  predicate IsAnonymousPath(path: string) {
    exists i :: 0 <= i < |AnonymousPaths| && StartsWithSegments(path, AnonymousPaths[i])
  }

  /** The position of the first `c` in `s`. */
  function IndexOf(s: string, c: char): (r: Option<nat>)
    ensures r.None? <==> c !in s
    ensures r.Some? ==> r.value < |s| && s[r.value] == c && c !in s[..r.value]
  {
    if |s| == 0 then None
    else if s[0] == c then Some(0)
    else
      match IndexOf(s[1..], c)
      case None => None
      case Some(i) =>
        assert s[..i + 1] == [s[0]] + s[1..][..i];
        Some(i + 1)
  }

  /** `Split(':', 2)` with exactly two parts: identifier and password, or None without a ':'. */
  function SplitFirst(s: string): (r: Option<(string, string)>)
    ensures r.None? <==> ':' !in s
    ensures r.Some? ==> ':' !in r.value.0 && r.value.0 + ":" + r.value.1 == s
  {
    match IndexOf(s, ':')
    case None => None
    case Some(i) =>
      assert s == s[..i] + ":" + s[i + 1..];
      Some((s[..i], s[i + 1..]))
  }

  /** Splitting undoes joining at the first ':', so the password may itself contain ':'. */
  lemma SplitJoin(identifier: string, password: string)
    requires ':' !in identifier
    ensures SplitFirst(identifier + ":" + password) == Some((identifier, password))
  {
    var s := identifier + ":" + password;
    assert s[|identifier|] == ':';
    var i := IndexOf(s, ':').value;
    assert s[..i] == identifier;
    assert s[i + 1..] == password;
  }

  /** `IsCpf`: eleven characters, all of them digits. */
  predicate IsCpf(identifier: string) {
    |identifier| == 11 && forall i | 0 <= i < |identifier| :: IsDigit(identifier[i])
  }

  /** How the handler reads an identifier. */
  datatype IdentifierKind = ByEmail | ByCpf | ByCrm

  function Classify(identifier: string): (k: IdentifierKind)
    ensures k == ByEmail <==> '@' in identifier
    ensures k == ByCpf <==> '@' !in identifier && IsCpf(identifier)
    ensures k == ByCrm <==> '@' !in identifier && !IsCpf(identifier)
  {
    if '@' in identifier then ByEmail
    else if IsCpf(identifier) then ByCpf
    else ByCrm
  }

  /** An identifier of eleven digits never contains '@', so it is always read as a CPF. */
  lemma CpfShapedIsCpf(identifier: string)
    requires IsCpf(identifier)
    ensures Classify(identifier) == ByCpf
  {
  }

  /** The result of a `FirstOrDefault` scan whose predicate may throw on the record it stops at. */
  datatype Scan = NoMatch | Match(key: int) | ScanThrows(key: int)

  /**
   * Scanning keys in ascending order, stop at the first key of `stops`;
   * the scan throws if that key is in `throws`.
   */
  function FirstStop(stops: set<int>, throws: set<int>): (r: Scan)
    ensures r.NoMatch? <==> stops == {}
    ensures !r.NoMatch? ==> r.key in stops && forall k | k in stops :: r.key <= k
    ensures r.ScanThrows? <==> (stops != {} && r.key in throws)
  {
    if stops == {} then NoMatch
    else
      var k := Keys.Smallest(stops);
      if k in throws then ScanThrows(k) else Match(k)
  }

  /** E-mail (ignoring case) and password both match. */
  predicate EmailMatches(u: Usuario, identifier: string, password: string) {
    u.email.Some? && EqualsIgnoreCase(u.email.value, identifier) && u.senha == Some(password)
  }

  /** CPF and password both match exactly. */
  predicate CpfMatches(u: Usuario, identifier: string, password: string) {
    u.cpf == Some(identifier) && u.senha == Some(password)
  }

  /** The CRM matches ignoring case, and the doctor's user has that password. */
  predicate CrmMatches(st: Store, d: Medico, identifier: string, password: string) {
    EqualsIgnoreCase(d.numeroCrm, identifier) && d.idUsuario in st.usuarios
    && st.usuarios[d.idUsuario].senha == Some(password)
  }

  /** Users the e-mail scan stops at: a match, or a null e-mail it dereferences. */
  function EmailScan(st: Store, identifier: string, password: string): Scan {
    FirstStop(
      set k | k in st.usuarios && (st.usuarios[k].email.None? || EmailMatches(st.usuarios[k], identifier, password)),
      set k | k in st.usuarios && st.usuarios[k].email.None?)
  }

  /** Users the CPF scan stops at: a match, or a null CPF it dereferences. */
  function CpfScan(st: Store, identifier: string, password: string): Scan {
    FirstStop(
      set k | k in st.usuarios && (st.usuarios[k].cpf.None? || CpfMatches(st.usuarios[k], identifier, password)),
      set k | k in st.usuarios && st.usuarios[k].cpf.None?)
  }

  /**
   * The CRM scan runs over `GetAllDoctors`, which loads only doctors whose
   * user exists, so it never dereferences a missing user: it yields the
   * first (smallest-key) doctor whose CRM and user password match.
   */
  function CrmScan(st: Store, identifier: string, password: string): (r: Option<int>)
    ensures r.None? <==> forall k | k in st.medicos :: !CrmMatches(st, st.medicos[k], identifier, password)
    ensures r.Some? ==> r.value in st.medicos && CrmMatches(st, st.medicos[r.value], identifier, password)
    ensures r.Some? ==> forall k | k in st.medicos && CrmMatches(st, st.medicos[k], identifier, password) :: r.value <= k
  {
    var matches := set k | k in st.medicos && CrmMatches(st, st.medicos[k], identifier, password);
    assert forall k | k in st.medicos && CrmMatches(st, st.medicos[k], identifier, password) :: k in matches;
    if matches == {} then
      None
    else
      Some(Keys.Smallest(matches))
  }

  /**
   * The claims of a user found by e-mail or CPF; None when a claim value
   * would be null, which makes the `Claim` constructor throw.
   */
  function UserClaims(u: Usuario): (r: Option<Principal>)
    ensures r.Some? <==> u.nome.Some? && u.email.Some? && u.tipoUsuario.Some?
    ensures r.Some? ==> r.value == Principal(u.nome.value, u.id, u.email.value, u.tipoUsuario.value)
  {
    if u.nome.None? || u.email.None? || u.tipoUsuario.None? then None
    else Some(Principal(u.nome.value, u.id, u.email.value, u.tipoUsuario.value))
  }

  /** The claims of a doctor's user; null fields become empty strings. */
  function DoctorClaims(u: Usuario): Principal {
    Principal(u.nome.GetOr(""), u.id, u.email.GetOr(""), u.tipoUsuario.GetOr(""))
  }

  /** Turns a thrown exception into the handler's failure. */
  function Caught(e: Exception): AuthResult {
    Failed(HeaderError + e.Message())
  }

  /** The identifier/password check, once the credentials are split. */
  function Login(st: Store, identifier: string, password: string): (r: AuthResult)
    ensures r != Anonymous
  {
    match Classify(identifier)
    case ByEmail =>
      (match EmailScan(st, identifier, password)
       case NoMatch => Failed(BadEmail)
       case ScanThrows(_) => Caught(NullReferenceException)
       case Match(k) =>
         match UserClaims(st.usuarios[k])
         case None => Caught(ArgumentNullException)
         case Some(p) => Authenticated(p))
    case ByCpf =>
      (match CpfScan(st, identifier, password)
       case NoMatch => Failed(BadCpf)
       case ScanThrows(_) => Caught(NullReferenceException)
       case Match(k) =>
         match UserClaims(st.usuarios[k])
         case None => Caught(ArgumentNullException)
         case Some(p) => Authenticated(p))
    case ByCrm =>
      match CrmScan(st, identifier, password)
      case None => Failed(BadCrm)
      case Some(k) => Authenticated(DoctorClaims(st.usuarios[st.medicos[k].idUsuario]))
  }

  /** The request needs credentials and carries a non-empty Basic header. */
  predicate HeaderAccepted(req: AuthRequest) {
    && !IsAnonymousPath(req.path)
    && !IsNullOrEmpty(req.header)
    && EqualsIgnoreCase(req.scheme, "Basic")
    && !IsNullOrEmpty(req.parameter)
  }

  /** `HandleAuthenticateAsync`. */
  function Authenticate(st: Store, req: AuthRequest): (r: AuthResult)
    ensures IsAnonymousPath(req.path) ==> r == Anonymous
    ensures !IsAnonymousPath(req.path) && req.header.None? ==> r == Failed(MissingHeader)
    ensures !IsAnonymousPath(req.path) && req.header == Some("") ==> r == Failed(EmptyHeader)
    ensures !IsAnonymousPath(req.path) && !IsNullOrEmpty(req.header) && !EqualsIgnoreCase(req.scheme, "Basic") ==>
      r == Failed(BadScheme)
    ensures (!IsAnonymousPath(req.path) && !IsNullOrEmpty(req.header) && EqualsIgnoreCase(req.scheme, "Basic")
             && IsNullOrEmpty(req.parameter)) ==> r == Failed(MissingParameter)
    ensures HeaderAccepted(req) && ':' !in req.credentials ==> r == Failed(BadCredentials)
    ensures HeaderAccepted(req) && ':' in req.credentials ==>
      exists identifier, password ::
        && ':' !in identifier && identifier + ":" + password == req.credentials
        && r == Login(st, identifier, password)
    ensures r.Authenticated? ==> HeaderAccepted(req) && ':' in req.credentials
  {
    if IsAnonymousPath(req.path) then Anonymous
    else if req.header.None? then Failed(MissingHeader)
    else if IsNullOrEmpty(req.header) then Failed(EmptyHeader)
    else if !EqualsIgnoreCase(req.scheme, "Basic") then Failed(BadScheme)
    else if IsNullOrEmpty(req.parameter) then Failed(MissingParameter)
    else
      match SplitFirst(req.credentials)
      case None => Failed(BadCredentials)
      case Some((identifier, password)) => Login(st, identifier, password)
  }

  /** No user has a null name, e-mail, CPF or type. */
  predicate UsersComplete(st: Store) {
    forall k | k in st.usuarios ::
      st.usuarios[k].nome.Some? && st.usuarios[k].email.Some? && st.usuarios[k].cpf.Some? && st.usuarios[k].tipoUsuario.Some?
  }

  /**
   * With complete user records, an identifier containing '@' logs in
   * exactly when some user has that e-mail (ignoring case) and that
   * password, as that user and with their type as role.
   */
  lemma EmailLogin(st: Store, identifier: string, password: string)
    requires '@' in identifier
    requires UsersComplete(st)
    ensures Login(st, identifier, password).Authenticated? <==>
      exists k :: k in st.usuarios && EmailMatches(st.usuarios[k], identifier, password)
    ensures !Login(st, identifier, password).Authenticated? ==> Login(st, identifier, password) == Failed(BadEmail)
    ensures Login(st, identifier, password).Authenticated? ==>
      exists k :: k in st.usuarios && EmailMatches(st.usuarios[k], identifier, password)
        && Login(st, identifier, password).principal.userId == st.usuarios[k].id
        && Login(st, identifier, password).principal.role == st.usuarios[k].tipoUsuario.value
  {
    var stops := set k | k in st.usuarios && (st.usuarios[k].email.None? || EmailMatches(st.usuarios[k], identifier, password));
    if exists k :: k in st.usuarios && EmailMatches(st.usuarios[k], identifier, password) {
      var k :| k in st.usuarios && EmailMatches(st.usuarios[k], identifier, password);
      assert k in stops;
    }
  }

  /**
   * With complete user records, an eleven-digit identifier logs in exactly
   * when some user has that CPF and that password.
   */
  lemma CpfLogin(st: Store, identifier: string, password: string)
    requires IsCpf(identifier)
    requires UsersComplete(st)
    ensures Login(st, identifier, password).Authenticated? <==>
      exists k :: k in st.usuarios && CpfMatches(st.usuarios[k], identifier, password)
    ensures !Login(st, identifier, password).Authenticated? ==> Login(st, identifier, password) == Failed(BadCpf)
    ensures Login(st, identifier, password).Authenticated? ==>
      exists k :: k in st.usuarios && CpfMatches(st.usuarios[k], identifier, password)
        && Login(st, identifier, password).principal.userId == st.usuarios[k].id
        && Login(st, identifier, password).principal.role == st.usuarios[k].tipoUsuario.value
  {
    CpfShapedIsCpf(identifier);
    var stops := set k | k in st.usuarios && (st.usuarios[k].cpf.None? || CpfMatches(st.usuarios[k], identifier, password));
    if exists k :: k in st.usuarios && CpfMatches(st.usuarios[k], identifier, password) {
      var k :| k in st.usuarios && CpfMatches(st.usuarios[k], identifier, password);
      assert k in stops;
    }
  }

  /**
   * A CRM identifier (neither '@' nor eleven digits) logs in exactly when
   * some doctor has that CRM (ignoring case) and their user that password.
   * The principal is the doctor's user, not the doctor, with null name,
   * e-mail and type claimed as empty strings.
   */
  lemma CrmLogin(st: Store, identifier: string, password: string)
    requires '@' !in identifier && !IsCpf(identifier)
    ensures Login(st, identifier, password).Authenticated? <==>
      exists k :: k in st.medicos && CrmMatches(st, st.medicos[k], identifier, password)
    ensures !Login(st, identifier, password).Authenticated? ==> Login(st, identifier, password) == Failed(BadCrm)
    ensures Login(st, identifier, password).Authenticated? ==>
      exists k :: k in st.medicos && CrmMatches(st, st.medicos[k], identifier, password)
        && var u, p := st.usuarios[st.medicos[k].idUsuario], Login(st, identifier, password).principal;
           && p.userId == u.id
           && p.role == u.tipoUsuario.GetOr("")
           && p.name == u.nome.GetOr("")
           && p.email == u.email.GetOr("")
  {
  }
}
