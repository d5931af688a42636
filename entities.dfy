/**
  The records kept in the four Firestore collections (`bicicletas`, `catracas`, `alugueis`,
  `usuarios`), the fixed enumerations the routes validate against, and the refusals the routes
  answer with. Field names follow the stored documents; each is noted next to its record.
 */
module Entities {
  import opened Wrappers

  /** Document ids, user names, passwords and tokens are opaque strings. */
  type Id = string

  /** The role `index.js` derives from the API key. Only the first two ever reach a route;
      the handlers still answer 403 for anything else, which `Unrecognized` stands for. */
  datatype Role = Developer | Client | Unrecognized

  /** JavaScript truthiness of an optional string field: absent, `null` and `""` are all falsy. */
  predicate Present(o: Option<string>)
  {
    o.Some? && o.value != ""
  }

  // ---------------------------------------------------------------------------------------
  // Enumerations (routes/bicicletas.js:9-11 and :112, and the literals of routes/alugueis.js)
  // ---------------------------------------------------------------------------------------

  /** `quilometragem_carga` must be one of these three tiers. */
  predicate ValidCharge(q: int)
  {
    q == 10 || q == 15 || q == 20
  }

  /** `!q || !validKilometragemCarga.includes(q)` negated: a charge was sent and is a tier. */
  predicate ChargeGiven(q: Option<int>)
  {
    q.Some? && ValidCharge(q.value)
  }

  /** The four stations (`baia`). */
  const Stations: seq<string> :=
    ["Estação Centro Histórico", "Estação Orla do Guaíba", "Estação Bairro Menino-Deus", "Estação do Gasômetro"]

  predicate ValidStation(b: string)
  {
    b in Stations
  }

  /** `status` of a bicycle. */
  datatype BikeStatus = Available | Rented | Unavailable

  function BikeStatusName(s: BikeStatus): string
  {
    match s
    case Available => "disponível"
    case Rented => "alugada"
    case Unavailable => "indisponível"
  }

  /** Membership test of the PUT route's status list: a string is accepted exactly when it is
      the stored spelling of one of the three statuses. */
  function ParseBikeStatus(t: string): (r: Option<BikeStatus>)
    ensures r.Some? ==> BikeStatusName(r.value) == t
    ensures r.None? ==> forall s: BikeStatus :: BikeStatusName(s) != t
  {
    if t == "disponível" then Some(Available)
    else if t == "alugada" then Some(Rented)
    else if t == "indisponível" then Some(Unavailable)
    else None
  }

  /** `turnstile_status` of a bicycle. */
  datatype TurnstileStatus = Docked | Undocked | UnavailableDock

  function TurnstileName(s: TurnstileStatus): string
  {
    match s
    case Docked => "docked"
    case Undocked => "undocked"
    case UnavailableDock => "unavailable_dock"
  }

  /** Membership test against `validTurnstileStatuses`. */
  function ParseTurnstile(t: string): (r: Option<TurnstileStatus>)
    ensures r.Some? ==> TurnstileName(r.value) == t
    ensures r.None? ==> forall s: TurnstileStatus :: TurnstileName(s) != t
  {
    if t == "docked" then Some(Docked)
    else if t == "undocked" then Some(Undocked)
    else if t == "unavailable_dock" then Some(UnavailableDock)
    else None
  }

  /** `status` of a docking point (`catraca`): `'livre'` or `'ocupada'`. No route creates or
      edits docking points other than through a rental, and those write only these two. */
  datatype DockStatus = Free | Occupied

  /** `status` of a rental: `'ativo'` or `'finalizado'`. */
  datatype RentalStatus = Active | Finished

  function RentalStatusName(s: RentalStatus): string
  {
    match s
    case Active => "ativo"
    case Finished => "finalizado"
  }

  // ---------------------------------------------------------------------------------------
  // Records
  // ---------------------------------------------------------------------------------------

  /** A document of `bicicletas`: id, modelo, quilometragem_carga, status, baia, img,
      turnstile_status and catraca_id (absent or `null` is `None`). */
  datatype Bicycle = Bicycle(
    id: Id,
    model: string,
    charge: int,
    status: BikeStatus,
    station: string,
    img: string,
    turnstile: TurnstileStatus,
    dock: Option<Id>)

  /** A document of `catracas`: status and bicicleta_id_acoplada. */
  datatype Dock = Dock(status: DockStatus, attached: Option<Id>)

  /** A document of `alugueis`: id, bicicleta_id, tempo_alugado_minutos, preco, data_inicio,
      data_fim, status, catraca_id_origem and user_id. Dates are milliseconds since the epoch
      (the ISO strings the source stores carry exactly that much). A stored `user_id` is always
      a string: Firestore refuses to write a document with an `undefined` field. */
  datatype Rental = Rental(
    id: Id,
    bike: Id,
    minutes: int,
    price: Option<int>,
    startedAt: int,
    endedAt: Option<int>,
    status: RentalStatus,
    originDock: Id,
    user: string)

  /** A document of `usuarios`. */
  datatype User = User(
    id: Id,
    username: string,
    password: string,
    token: string,
    name: string,
    email: string,
    phone: string,
    address: string,
    img: string,
    kms: int,
    emissao: int)

  /** What the user routes send back: a user without `password` and `token`. */
  datatype Profile = Profile(
    id: Id,
    username: string,
    name: string,
    email: string,
    phone: string,
    address: string,
    img: string,
    kms: int,
    emissao: int)

  /** The whole database, keyed by document id. */
  datatype State = State(
    bikes: map<Id, Bicycle>,
    docks: map<Id, Dock>,
    rentals: map<Id, Rental>,
    users: map<Id, User>)

  // ---------------------------------------------------------------------------------------
  // Refusals
  // ---------------------------------------------------------------------------------------

  /** Every refusal of the three route files, one constructor per kind of refusal (the same
      kind may be answered from several routes, with different wording). */
  datatype Error =
    | ClientsOnly             // start or finish by a non-client
    | DevelopersOnly          // bicycle create, update or delete by a non-developer
    | KeyNotAuthorized        // a read route called with a role it does not know
    | InvalidDuration         // requested minutes not in the tariff
    | BicycleNotFound
    | BicycleNotAvailable
    | OriginDockRequired
    | OriginDockNotFound
    | NotAttachedAtOrigin
    | ReturnDockRequired
    | InvalidCharge
    | RentalNotFound
    | RentalNotActive
    | ReturnDockNotFound
    | ReturnDockUnavailable
    | TokenRequired
    | InvalidToken
    | NotOwner
    | InvalidStation
    | InvalidTurnstile
    | InvalidBikeStatus
    | NothingToUpdate
    | BicycleIsRented
    | CredentialsRequired
    | UsernameTaken
    | InvalidCredentials
    | UserNotFound
    | WriteRejected           // Firestore refused the write (an `undefined` field); answered 500

  /** The HTTP status each refusal is sent with. */
  function HttpStatus(e: Error): (code: int)
    ensures code in {400, 401, 403, 404, 409, 500}
    ensures code == 403 <==> e in {ClientsOnly, DevelopersOnly, KeyNotAuthorized, InvalidToken, NotOwner}
    ensures code == 401 <==> e in {TokenRequired, InvalidCredentials}
    ensures code == 404 <==> e in {BicycleNotFound, OriginDockNotFound, RentalNotFound, ReturnDockNotFound, UserNotFound}
    ensures code == 409 <==> e == UsernameTaken
    ensures code == 500 <==> e == WriteRejected
  {
    match e
    case ClientsOnly | DevelopersOnly | KeyNotAuthorized | InvalidToken | NotOwner => 403
    case TokenRequired | InvalidCredentials => 401
    case BicycleNotFound | OriginDockNotFound | RentalNotFound | ReturnDockNotFound | UserNotFound => 404
    case UsernameTaken => 409
    case WriteRejected => 500
    case _ => 400
  }
}
