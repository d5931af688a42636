# E-bike rental API: rental lifecycle and docking consistency

This Dafny project models the core of an Express + Firestore service for an electric-bicycle
sharing network. Bicycles (`bicicletas`) stand at docking points (`catracas`) in one of
four stations (`baias`). A client rents a bicycle from the docking point holding it and
returns it to a free one. Each return records the elapsed time and recomputes the price from
a fixed tariff. Developers administer the bicycles. Users register, log in and read their
own profile.

The Firestore database is one object, the `Db` class in `store.dfy`, with four maps keyed
by document id. Each route module receives that object, as the source's
`module.exports = (db) => ...` does. Each route handler is one method on it:

- `HandleStart`, `HandleFinish`, `HandleCreate`, `HandleUpdate`, `HandleDelete` and
  `HandleRegister` change the store. Each is proved equal to a specification function from
  the old store to the answer and the new store (`StartRental`, `FinishRental`,
  `CreateBicycle`, `UpdateBicycle`, `DeleteBicycle`, `Register`).
- Every check comes before the first write. So a refusal leaves the store unchanged, and a
  success applies all its writes as one unit, as the Firestore transaction does.
- The lemmas state the properties of the specification functions: check order, exact writes,
  invariant preservation, round trips.
- The read handlers (`HandleList`, `HandleGet`, `HandleLogin`, `HandleProfile`) change
  nothing. Their own contracts say what they return.

Two cross-collection invariants are stated in `consistency.dfy`:

- `RentalInv`: a rental has a `data_fim` exactly when it is `finalizado`; a bicycle is
  `alugada` exactly when one `ativo` rental holds it; and no bicycle is held by two active
  rentals.
- `DockingInv`: a bicycle's `catraca_id` and a docking point's `bicicleta_id_acoplada` point
  at each other; a docking point is `ocupada` exactly when something is attached to it; and a
  rented bicycle is attached nowhere.

Starting and finishing a rental preserve both invariants. Creating a bicycle preserves both,
and deleting one preserves `RentalInv`. Concrete counterexamples prove that the administrative
update can break `RentalInv` and that delete can break `DockingInv`: neither route looks at
docking points or rentals.

Inputs that the source takes from the environment are parameters of the handlers:

- the caller's role (an enum: `index.js` maps the API key to `developer` or `client`; a third
  value stands for any other role, which the read handlers refuse);
- the bearer token, already extracted from the `Authorization` header;
- the current time, in integer milliseconds;
- fresh ids and tokens (`crypto.randomUUID`);
- the placeholder image URL.

Freshness of ids and tokens is a precondition only of the lemmas that need it.

Source behaviours kept as written:

- A start stores the bearer token as the rental's `user_id` (routes/alugueis.js:75). The
  client paths of the list and fetch compare `user_id` with the `id` of the user owning the
  token. So a client whose id differs from their token never sees their own rentals
  (`StarterCannotSeeOwnRental`).
- A start without a bearer token passes every check of the route. But its document then
  carries `user_id: undefined`, which Firestore refuses inside the transaction (the client is
  created in `index.js` without `ignoreUndefinedProperties`). The route answers 500 and writes
  nothing. The model refuses such a start with `WriteRejected`, after all the other checks,
  with the store unchanged.
- The final price is recomputed from the elapsed minutes rounded up. It is `null` unless they
  are exactly 30, 60 or 120 (`LateReturnHasNoPrice`). A return exactly on time keeps the
  requested price (`StartThenFinishOnTime`).
- A created bicycle has no `catraca_id` and yet defaults to `turnstile_status 'docked'`. So
  the invariant "`catraca_id` is set exactly when the bicycle is not rented" does not hold for
  created bicycles. The model proves only its "rented ⇒ no `catraca_id`" half, inside
  `DockingInv`.
- A status filter, a station filter or an optional field sent as `""` counts as not sent
  (JavaScript truthiness, `Entities.Present`). The update route instead compares each field with `undefined` only, so
  an empty string sent there counts as supplied.
- When several users share a token, or a username and password, the route takes the first
  document found. The model lets the handler pick any one of them. With unique tokens the
  choice is forced (`TokenOwnerUnique`), and registration keeps usernames unique.

## Model

| member | source | states |
|---|---|---|
| `Entities.ParseBikeStatus` | routes/bicicletas.js:111-116 | a status string is accepted exactly when it is the stored spelling of one of `disponível`, `alugada`, `indisponível`, and it parses to that status |
| `Entities.ParseTurnstile` | routes/bicicletas.js:11 | a turnstile string is accepted exactly when it is one of `docked`, `undocked`, `unavailable_dock`, and it parses to that value |
| `Entities.HttpStatus` | routes/alugueis.js:24-62 | every refusal is 400, 401, 403, 404, 409 or 500; 403 exactly for the role, unknown-token and not-owner refusals, 401 exactly for a missing user token and bad login credentials, 404 exactly for the missing-record cases, 409 exactly for a taken username, 500 exactly for the write Firestore rejects; every other refusal is 400 |
| `Pricing.Price` | routes/alugueis.js:10-20 | a price exists exactly for 30, 60 and 120 minutes, and it is 15, 25 and 35 respectively |
| `Pricing.ElapsedMinutes` | routes/alugueis.js:158-160 | the result is the least whole number of minutes covering the elapsed milliseconds (integer ceiling) |
| `Pricing.ExactReturnKeepsPrice` | routes/alugueis.js:158-162 | finishing exactly n minutes after the start gives n minutes and the tariff price of n |
| `Pricing.LateReturnHasNoPrice` | routes/alugueis.js:160-169 | a 30-minute rental finished one millisecond late yields 31 minutes and a `null` price |
| `Consistency.RentedIffActiveRental` | routes/alugueis.js:43-88 | under the rental invariant a stored bicycle is `alugada` exactly when an active rental holds it, and then that rental is the only active one holding it and has no end date |
| `Store.Where` | routes/bicicletas.js:20-25 | a narrowed query holds exactly the documents of the query that satisfy the condition, unchanged |
| `Rentals.StartRefusals` | routes/alugueis.js:24-81 | a start is refused, with the store unchanged, for a non-client, then a duration outside the tariff, a missing bicycle, a bicycle not `disponível`, a missing origin dock id, an unknown origin dock, an origin dock not `ocupada` by this bicycle, and finally a missing bearer token (the write Firestore rejects), in that order |
| `Rentals.StartSucceedsIff` | routes/alugueis.js:24-81 | a start succeeds exactly when every one of those checks passes and a bearer token was sent |
| `Rentals.StartWrites` | routes/alugueis.js:65-95 | a successful start inserts exactly one new rental (`ativo`, no end date, the requested minutes and their price, the origin dock, `user_id` = the token), sets the bicycle to `alugada`, no dock, `undocked`, frees the origin dock, and changes no other record |
| `Rentals.StartPreservesConsistency` | routes/alugueis.js:43-95 | from a consistent store with a fresh rental id, a start leaves the store consistent (both invariants) |
| `Rentals.FinishRefusals` | routes/alugueis.js:107-155 | a finish is refused, with the store unchanged, for a non-client, then a missing return dock id, a charge outside {10,15,20}, an unknown rental, a rental not `ativo`, a missing bicycle, an unknown return dock, and a return dock not `livre` and empty, in that order |
| `Rentals.FinishWrites` | routes/alugueis.js:158-189 | a successful finish keeps every other field of the rental and sets the end date to now, the status to `finalizado`, the minutes to the ceiling of the elapsed time and the price to that duration's tariff (null off the tariff); the bicycle becomes `disponível` with the new charge, docked at the return dock; that dock becomes `ocupada` holding it; nothing else changes |
| `Rentals.FinishOnlyOnce` | routes/alugueis.js:132-134 | after a successful finish, any second finish of the same rental is refused and changes nothing, with `RentalNotActive` once its input checks pass |
| `Rentals.FinishPreservesConsistency` | routes/alugueis.js:132-189 | from a consistent store, a finish leaves the store consistent (both invariants) |
| `Rentals.StartThenFinishOnTime` | routes/alugueis.js:65-189 | a rental finished exactly its requested duration after its start, at a free dock (or its origin), succeeds with the requested minutes and price and leaves the bicycle available, with the new charge, docked there |
| `Rentals.NarrowedQueryIsListed` | routes/alugueis.js:203-232 | narrowing the rentals query by the optional status filter and then by user id yields exactly the rentals matching both |
| `Rentals.StarterCannotSeeOwnRental` | routes/alugueis.js:226-232 | a rental started with token t is not in the list of the user owning t when that user's id differs from t (its `user_id`, set at line 75, is the token) |
| `Rentals.HandleStart` | routes/alugueis.js:23-103 | the handler's answer and the store it leaves are those of `StartRental` |
| `Rentals.HandleFinish` | routes/alugueis.js:106-197 | the handler's answer and the store it leaves are those of `FinishRental` |
| `Rentals.HandleList` | routes/alugueis.js:200-243 | a developer gets every rental the status filter keeps; a client with no token gets 401, with an unknown token 403, and otherwise exactly the filtered rentals whose `user_id` is the id of the user owning the token; any other role gets 403 |
| `Rentals.HandleGet` | routes/alugueis.js:246-288 | an unknown id is 404 for every role; a developer gets the rental; a client gets 401 without a token, 403 for an unknown token, and otherwise the rental when its `user_id` is the token owner's id, else 403; any other role gets 403 |
| `Bicycles.CreateRefusals` | routes/bicicletas.js:57-73 | a create is refused, with the store unchanged, for a non-developer, then a charge not in {10,15,20}, then a station not among the four, then a non-empty turnstile status outside the three values |
| `Bicycles.CreateWrites` | routes/bicicletas.js:75-86 | a created bicycle has the fresh id, model `elétrica`, status `disponível`, the given charge and station, the given image or the placeholder, the given turnstile status or `docked`, and no dock; it is the only record written |
| `Bicycles.CreatePreservesConsistency` | routes/bicicletas.js:75-86 | creating a bicycle under a fresh id leaves a consistent store consistent |
| `Bicycles.UpdateRefusals` | routes/bicicletas.js:97-143 | an update is refused, with the store unchanged, for a non-developer, then an unknown id, then an invalid status; it succeeds exactly when every supplied field is valid and at least one is supplied; an empty update is refused |
| `Bicycles.UpdateChangesOnlySuppliedFields` | routes/bicicletas.js:110-147 | a successful update writes only that bicycle, sets each supplied field to the value sent and keeps every other field, including id, model and dock |
| `Bicycles.DeleteRemovesExactly` | routes/bicicletas.js:157-174 | a delete by a non-developer is 403, then an unknown id is 404, then a rented bicycle is refused; it succeeds exactly otherwise and removes that bicycle and nothing else; every refusal changes nothing |
| `Bicycles.DeletePreservesRentalInv` | routes/bicicletas.js:169-174 | deleting keeps the rental invariant |
| `Bicycles.UpdateCanBreakRentalInv` | routes/bicicletas.js:110-145 | from a consistent store, setting a docked bicycle's status to `alugada` succeeds and breaks the rental invariant |
| `Bicycles.DeleteCanBreakDocking` | routes/bicicletas.js:163-174 | from a consistent store, deleting a docked bicycle succeeds and leaves its docking point attached to a missing bicycle |
| `Bicycles.HandleList` | routes/bicicletas.js:14-35 | the listing holds exactly the bicycles matching the status filter and the station filter, each applied only when sent |
| `Bicycles.HandleGet` | routes/bicicletas.js:38-53 | a stored bicycle is returned as stored; an unknown id is 404 |
| `Bicycles.HandleCreate` | routes/bicicletas.js:56-93 | the handler's answer and the store it leaves are those of `CreateBicycle` |
| `Bicycles.HandleUpdate` | routes/bicicletas.js:96-153 | the handler, building the patch field by field, answers and leaves the store as `UpdateBicycle` |
| `Bicycles.HandleDelete` | routes/bicicletas.js:156-181 | the handler's answer and the store it leaves are those of `DeleteBicycle` |
| `Users.OrEmpty` | routes/usuarios.js:47-51 | a profile field defaults to `''` when it is left out or empty |
| `Users.OrZero` | routes/usuarios.js:52-53 | `kms` and `emissao` keep the value sent, 0 included (the falsy 0 falls back to 0 itself), and default to 0 when left out |
| `Users.StripHidesOnlySecrets` | routes/usuarios.js:60 | two users give the same response exactly when they differ at most in password and token |
| `Users.TokenOwnerUnique` | routes/usuarios.js:128-133 | with unique tokens, the users found by a token are at most one |
| `Users.RegisterRefusals` | routes/usuarios.js:28-39 | a registration without a non-empty username and password is 400, one with a taken username is 409, both with the store unchanged; it succeeds exactly when both are present and the username is unused |
| `Users.RegisterWrites` | routes/usuarios.js:41-60 | the stored user has the fresh id and token, the username and password sent, each profile field sent or its default, and only that record is written; the response is that user without password and token |
| `Users.RegisterPreservesUniqueness` | routes/usuarios.js:35-57 | registration keeps usernames unique, and tokens unique when the new token is fresh |
| `Users.RegisterThenLogin` | routes/usuarios.js:41-95 | after a registration, the only credentials for that username and password are the new token and id |
| `Users.HandleRegister` | routes/usuarios.js:15-67 | the handler's answer and the store it leaves are those of `Register` |
| `Users.HandleLogin` | routes/usuarios.js:70-101 | without a non-empty username and password the answer is 400; otherwise login succeeds exactly when some user has both, answering with such a user's token and id, else 401 |
| `Users.HandleProfile` | routes/usuarios.js:104-148 | a developer gets any stored user without secrets, or 404; a client gets 401 without a token, 403 for an unknown token, and otherwise the token owner's profile without secrets when its id is the requested one, else 403; any other role gets 403 |

## Left out

- `index.js`: the Express setup, Firebase start-up and `listen`, the API-key-to-role check (the role is an input) and the rate limiter (a time-window library). None of these is part of this model.
- `naousado/migrateDataToFirestore.js.js`: a one-off import script, pure I/O.
- Firestore transaction conflicts and concurrent requests: each handler is one sequential, atomic method.
- Every `catch` branch answering 500 other than the rejected tokenless start, including the one for a missing `bicicleta_id` in a start, where Firestore's `doc(undefined)` throws.
- Extraction of the token from the `Authorization` header (`split(' ')[1]`): the handlers take the extracted token.
- `crypto.randomUUID`, the clock and ISO date strings: fresh ids, fresh tokens and millisecond timestamps are inputs. The ceiling of a floating-point division of whole milliseconds is modelled as the integer ceiling.
- The placeholder image URL built from the new id: it is an input of the create.
- Request payloads typed other than the model's types. Charges, minutes and `kms`/`emissao` are integers, and the other fields are strings. A field stored as `null` on update (`img: null`) is not modelled.
- Response bodies beyond the returned record or error kind; console logging.
- Docking points are only ever read and written by the rental routes. No route creates them, and their `status` is modelled as the two values those routes write.
- Password hashing and token security: the source has none; both are opaque strings.
