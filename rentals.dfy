/**
  routes/alugueis.js: starting and finishing a rental, and the role- and owner-scoped reads.

  Starting and finishing are specified by `StartRental` and `FinishRental`, functions from the
  database before the request to the answer and the database after it; the handlers
  `HandleStart` and `HandleFinish` perform the same checks and writes on the `Db` object and are
  proved equal to them. The transaction of the source is the single sequence of writes at the
  end of each handler: nothing is written before every check has passed.
 */
module Rentals {
  import opened Wrappers
  import opened Entities
  import opened Pricing
  import opened Consistency
  import opened Store
  import opened Users

  // ---------------------------------------------------------------------------------------
  // Specification of POST / (start)
  // ---------------------------------------------------------------------------------------

  /** The rental document written by a successful start. `user_id` is the bearer token as it
      appears in the `Authorization` header, not the id of the user owning it (the source
      assumes the two coincide). */
  function NewRental(newId: Id, bikeId: Id, minutes: int, originDock: Id, token: string, now: int): (r: Rental)
  {
    Rental(newId, bikeId, minutes, Price(minutes), now, None, Active, originDock, token)
  }

  /** POST /alugueis: the answer and the database afterwards. With no bearer token the
      document's `user_id` is `undefined`, which Firestore refuses inside the transaction: the
      route then answers 500 and nothing is written. */
  function StartRental(
    st: State, role: Role, bikeId: Id, minutes: int, origin: Option<string>, token: Option<string>,
    newId: Id, now: int): (out: (Result<Rental, Error>, State))
    ensures out.0.Err? ==> out.1 == st
  {
    if role != Client then (Err(ClientsOnly), st)
    else if Price(minutes).None? then (Err(InvalidDuration), st)
    else if bikeId !in st.bikes then (Err(BicycleNotFound), st)
    else if st.bikes[bikeId].status != Available then (Err(BicycleNotAvailable), st)
    else if !Present(origin) then (Err(OriginDockRequired), st)
    else if origin.value !in st.docks then (Err(OriginDockNotFound), st)
    else if st.docks[origin.value] != Dock(Occupied, Some(bikeId)) then (Err(NotAttachedAtOrigin), st)
    else if token.None? then (Err(WriteRejected), st)
    else
      var rental := NewRental(newId, bikeId, minutes, origin.value, token.value, now);
      var bike := st.bikes[bikeId].(status := Rented, dock := None, turnstile := Undocked);
      (Ok(rental), st.(rentals := st.rentals[newId := rental],
                      bikes := st.bikes[bikeId := bike],
                      docks := st.docks[origin.value := Dock(Free, None)]))
  }

  /** The checks of a start, in the order the route makes them; each refusal leaves the
      database as it was. */
  lemma StartRefusals(
    st: State, role: Role, bikeId: Id, minutes: int, origin: Option<string>, token: Option<string>,
    newId: Id, now: int)
    ensures var out := StartRental(st, role, bikeId, minutes, origin, token, newId, now);
      && (role != Client ==> out == (Err(ClientsOnly), st))
      && (role == Client && Price(minutes).None? ==> out == (Err(InvalidDuration), st))
      && (role == Client && Price(minutes).Some? && bikeId !in st.bikes ==> out == (Err(BicycleNotFound), st))
      && (role == Client && Price(minutes).Some? && bikeId in st.bikes && st.bikes[bikeId].status != Available ==>
            out == (Err(BicycleNotAvailable), st))
      && ((role == Client && Price(minutes).Some? && bikeId in st.bikes && st.bikes[bikeId].status == Available &&
           !Present(origin)) ==> out == (Err(OriginDockRequired), st))
      && ((role == Client && Price(minutes).Some? && bikeId in st.bikes && st.bikes[bikeId].status == Available &&
           Present(origin) && origin.value !in st.docks) ==> out == (Err(OriginDockNotFound), st))
      && ((role == Client && Price(minutes).Some? && bikeId in st.bikes && st.bikes[bikeId].status == Available &&
           Present(origin) && origin.value in st.docks && st.docks[origin.value] != Dock(Occupied, Some(bikeId))) ==>
            out == (Err(NotAttachedAtOrigin), st))
      && ((role == Client && Price(minutes).Some? && bikeId in st.bikes && st.bikes[bikeId].status == Available &&
           Present(origin) && origin.value in st.docks && st.docks[origin.value] == Dock(Occupied, Some(bikeId)) &&
           token.None?) ==> out == (Err(WriteRejected), st))
      && (out.0.Err? ==> out.1 == st)
  {
  }

  /** A start succeeds exactly when the caller is a client, the duration is in the tariff, the
      bicycle exists and is available, the named origin dock is occupied by that bicycle, and a
      bearer token was sent. */
  lemma StartSucceedsIff(
    st: State, role: Role, bikeId: Id, minutes: int, origin: Option<string>, token: Option<string>,
    newId: Id, now: int)
    ensures StartRental(st, role, bikeId, minutes, origin, token, newId, now).0.Ok? <==>
      && role == Client
      && minutes in {30, 60, 120}
      && bikeId in st.bikes && st.bikes[bikeId].status == Available
      && Present(origin) && origin.value in st.docks
      && st.docks[origin.value].status == Occupied && st.docks[origin.value].attached == Some(bikeId)
      && token.Some?
  {
  }

  /** What a successful start writes: one new active rental priced from the requested
      duration, the bicycle rented and undocked, the origin dock freed, and nothing else. */
  lemma StartWrites(
    st: State, role: Role, bikeId: Id, minutes: int, origin: Option<string>, token: Option<string>,
    newId: Id, now: int)
    requires newId !in st.rentals
    requires StartRental(st, role, bikeId, minutes, origin, token, newId, now).0.Ok?
    ensures var out := StartRental(st, role, bikeId, minutes, origin, token, newId, now);
      var r := out.0.value; var st' := out.1;
      && r.id == newId && r.bike == bikeId && r.minutes == minutes && r.status == Active
      && r.endedAt == None && r.startedAt == now && r.price == Price(minutes) && r.price.Some?
      && r.originDock == origin.value && token.Some? && r.user == token.value
      && st'.rentals.Keys == st.rentals.Keys + {newId} && |st'.rentals| == |st.rentals| + 1
      && st'.rentals[newId] == r
      && (forall k :: k in st.rentals ==> st'.rentals[k] == st.rentals[k])
      && st'.bikes.Keys == st.bikes.Keys
      && st'.bikes[bikeId] == st.bikes[bikeId].(status := Rented, dock := None, turnstile := Undocked)
      && (forall k :: k in st.bikes && k != bikeId ==> st'.bikes[k] == st.bikes[k])
      && st'.docks.Keys == st.docks.Keys
      && st'.docks[origin.value] == Dock(Free, None)
      && (forall k :: k in st.docks && k != origin.value ==> st'.docks[k] == st.docks[k])
      && st'.users == st.users
  {
    var out := StartRental(st, role, bikeId, minutes, origin, token, newId, now);
    assert role == Client && Price(minutes).Some? && bikeId in st.bikes && Present(origin) && origin.value in st.docks;
    assert token.Some?;
    var rental := NewRental(newId, bikeId, minutes, origin.value, token.value, now);
    var bike := st.bikes[bikeId].(status := Rented, dock := None, turnstile := Undocked);
    var st' := st.(rentals := st.rentals[newId := rental],
                   bikes := st.bikes[bikeId := bike],
                   docks := st.docks[origin.value := Dock(Free, None)]);
    assert out == (Ok(rental), st');
    InsertKeepsOthers(st.rentals, newId, rental);
  }

  /** Writing a document under a fresh id adds exactly that key and keeps every other
      document. */
  lemma InsertKeepsOthers(rentals: map<Id, Rental>, newId: Id, rental: Rental)
    requires newId !in rentals
    ensures rentals[newId := rental].Keys == rentals.Keys + {newId}
    ensures |rentals[newId := rental]| == |rentals| + 1
    ensures forall k :: k in rentals ==> rentals[newId := rental][k] == rentals[k]
  {
  }

  /** A start keeps the store consistent: the bicycle it rents had no active rental and gets
      exactly one, and the pairing it breaks on both sides at once. */
  lemma StartPreservesConsistency(
    st: State, role: Role, bikeId: Id, minutes: int, origin: Option<string>, token: Option<string>,
    newId: Id, now: int)
    requires Consistent(st) && newId !in st.rentals
    ensures Consistent(StartRental(st, role, bikeId, minutes, origin, token, newId, now).1)
  {
    var out := StartRental(st, role, bikeId, minutes, origin, token, newId, now);
    if out.0.Ok? {
      var st' := out.1;
      var d := origin.value;
      // Before the start no active rental holds the bicycle: it is available.
      forall r | r in st.rentals && st.rentals[r].status == Active
        ensures st.rentals[r].bike != bikeId
      {
      }
      // Rental side.
      forall b | b in st'.bikes && st'.bikes[b].status == Rented
        ensures HasActiveRental(st'.rentals, b)
      {
        if b == bikeId {
          assert st'.rentals[newId].status == Active && st'.rentals[newId].bike == b;
        } else {
          var r :| r in st.rentals && st.rentals[r].status == Active && st.rentals[r].bike == b;
          assert st'.rentals[r] == st.rentals[r];
        }
      }
      assert RentalInv(st');
      // Docking side: the dock held this bicycle, so this bicycle was docked there and nowhere else.
      assert st.bikes[bikeId].dock == Some(d);
      forall b | b in st'.bikes && st'.bikes[b].dock.Some?
        ensures st'.bikes[b].dock.value in st'.docks && st'.docks[st'.bikes[b].dock.value] == Dock(Occupied, Some(b))
      {
        assert b != bikeId;
        assert st.bikes[b].dock.value != d;
      }
      forall e | e in st'.docks && st'.docks[e].attached.Some?
        ensures st'.docks[e].attached.value in st'.bikes && st'.bikes[st'.docks[e].attached.value].dock == Some(e)
      {
        assert e != d;
        assert st.docks[e].attached.value != bikeId;
      }
      assert DockingInv(st');
    }
  }

  // ---------------------------------------------------------------------------------------
  // Specification of PUT /:id/finalizar (finish)
  // ---------------------------------------------------------------------------------------

  /** The rental document after a finish: every field kept (the spread of the stored document)
      except the end date, the status, the minutes, which become the elapsed minutes rounded
      up, and the price, recomputed from them and `null` unless they are exactly 30, 60 or 120. */
  function FinishedRental(r: Rental, now: int): (f: Rental)
  {
    var elapsed := ElapsedMinutes(r.startedAt, now);
    r.(endedAt := Some(now), status := Finished, minutes := elapsed, price := Price(elapsed))
  }

  /** PUT /alugueis/:id/finalizar: the answer and the database afterwards. */
  function FinishRental(
    st: State, role: Role, rentalId: Id, returnDock: Option<string>, charge: Option<int>, now: int)
    : (out: (Result<Rental, Error>, State))
    ensures out.0.Err? ==> out.1 == st
  {
    if role != Client then (Err(ClientsOnly), st)
    else if !Present(returnDock) then (Err(ReturnDockRequired), st)
    else if !ChargeGiven(charge) then (Err(InvalidCharge), st)
    else if rentalId !in st.rentals then (Err(RentalNotFound), st)
    else if st.rentals[rentalId].status != Active then (Err(RentalNotActive), st)
    else if st.rentals[rentalId].bike !in st.bikes then (Err(BicycleNotFound), st)
    else if returnDock.value !in st.docks then (Err(ReturnDockNotFound), st)
    else if st.docks[returnDock.value] != Dock(Free, None) then (Err(ReturnDockUnavailable), st)
    else
      var rental := st.rentals[rentalId];
      var updated := FinishedRental(rental, now);
      var bike := st.bikes[rental.bike].(status := Available, charge := charge.value,
                                         dock := Some(returnDock.value), turnstile := Docked);
      (Ok(updated), st.(rentals := st.rentals[rentalId := updated],
                       bikes := st.bikes[rental.bike := bike],
                       docks := st.docks[returnDock.value := Dock(Occupied, Some(rental.bike))]))
  }

  /** The checks of a finish, in the order the route makes them; each refusal leaves the
      database as it was. */
  lemma FinishRefusals(
    st: State, role: Role, rentalId: Id, returnDock: Option<string>, charge: Option<int>, now: int)
    ensures var out := FinishRental(st, role, rentalId, returnDock, charge, now);
      && (role != Client ==> out == (Err(ClientsOnly), st))
      && (role == Client && !Present(returnDock) ==> out == (Err(ReturnDockRequired), st))
      && (role == Client && Present(returnDock) && !ChargeGiven(charge) ==> out == (Err(InvalidCharge), st))
      && (role == Client && Present(returnDock) && ChargeGiven(charge) && rentalId !in st.rentals ==>
            out == (Err(RentalNotFound), st))
      && ((role == Client && Present(returnDock) && ChargeGiven(charge) && rentalId in st.rentals &&
           st.rentals[rentalId].status != Active) ==> out == (Err(RentalNotActive), st))
      && ((role == Client && Present(returnDock) && ChargeGiven(charge) && rentalId in st.rentals &&
           st.rentals[rentalId].status == Active && st.rentals[rentalId].bike !in st.bikes) ==>
            out == (Err(BicycleNotFound), st))
      && ((role == Client && Present(returnDock) && ChargeGiven(charge) && rentalId in st.rentals &&
           st.rentals[rentalId].status == Active && st.rentals[rentalId].bike in st.bikes &&
           returnDock.value !in st.docks) ==> out == (Err(ReturnDockNotFound), st))
      && ((role == Client && Present(returnDock) && ChargeGiven(charge) && rentalId in st.rentals &&
           st.rentals[rentalId].status == Active && st.rentals[rentalId].bike in st.bikes &&
           returnDock.value in st.docks && st.docks[returnDock.value] != Dock(Free, None)) ==>
            out == (Err(ReturnDockUnavailable), st))
      && (out.0.Err? ==> out.1 == st)
  {
  }

  /** What a successful finish writes: the rental finished at `now` with the elapsed minutes
      and their price, the bicycle available at the return dock with the new charge, the return
      dock occupied by it, and nothing else. */
  lemma FinishWrites(
    st: State, role: Role, rentalId: Id, returnDock: Option<string>, charge: Option<int>, now: int)
    requires FinishRental(st, role, rentalId, returnDock, charge, now).0.Ok?
    ensures var out := FinishRental(st, role, rentalId, returnDock, charge, now);
      var old_r := st.rentals[rentalId]; var r := out.0.value; var st' := out.1; var b := old_r.bike;
      var elapsed := r.minutes;
      && (elapsed - 1) * MinuteMs < now - old_r.startedAt <= elapsed * MinuteMs
      && r == old_r.(endedAt := Some(now), status := Finished, minutes := elapsed, price := Price(elapsed))
      && (r.price.Some? <==> elapsed in {30, 60, 120})
      && st'.rentals == st.rentals[rentalId := r]
      && b in st.bikes && st'.bikes.Keys == st.bikes.Keys
      && st'.bikes[b] == st.bikes[b].(status := Available, charge := charge.value, dock := returnDock, turnstile := Docked)
      && ValidCharge(st'.bikes[b].charge)
      && (forall k :: k in st.bikes && k != b ==> st'.bikes[k] == st.bikes[k])
      && st'.docks == st.docks[returnDock.value := Dock(Occupied, Some(b))]
      && st.docks[returnDock.value] == Dock(Free, None)
      && st'.users == st.users
  {
  }

  /** A finished rental is never finished a second time: whatever the second request carries,
      it is refused and changes nothing, and once it gets past the input checks the refusal is
      that the rental is not active. */
  lemma FinishOnlyOnce(
    st: State, role: Role, rentalId: Id, returnDock: Option<string>, charge: Option<int>, now: int,
    role2: Role, returnDock2: Option<string>, charge2: Option<int>, now2: int)
    requires FinishRental(st, role, rentalId, returnDock, charge, now).0.Ok?
    ensures var st' := FinishRental(st, role, rentalId, returnDock, charge, now).1;
      var again := FinishRental(st', role2, rentalId, returnDock2, charge2, now2);
      && again.0.Err? && again.1 == st'
      && (role2 == Client && Present(returnDock2) && ChargeGiven(charge2) ==> again.0 == Err(RentalNotActive))
  {
  }

  /** A finish keeps the store consistent: the rental it ends was the bicycle's only active
      one, and the bicycle, undocked while rented, is attached to a dock that held nothing. */
  lemma FinishPreservesConsistency(
    st: State, role: Role, rentalId: Id, returnDock: Option<string>, charge: Option<int>, now: int)
    requires Consistent(st)
    ensures Consistent(FinishRental(st, role, rentalId, returnDock, charge, now).1)
  {
    var out := FinishRental(st, role, rentalId, returnDock, charge, now);
    if out.0.Ok? {
      var st' := out.1;
      var b := st.rentals[rentalId].bike;
      var d := returnDock.value;
      assert st.bikes[b].status == Rented;
      assert st.bikes[b].dock == None;
      // Rental side: no other active rental holds b.
      forall r | r in st'.rentals && st'.rentals[r].status == Active
        ensures st'.rentals[r].bike in st'.bikes && st'.bikes[st'.rentals[r].bike].status == Rented
      {
        assert r != rentalId;
        assert st.rentals[r].bike != b;
      }
      forall c | c in st'.bikes && st'.bikes[c].status == Rented
        ensures HasActiveRental(st'.rentals, c)
      {
        assert c != b;
        var r :| r in st.rentals && st.rentals[r].status == Active && st.rentals[r].bike == c;
        assert r != rentalId;
        assert st'.rentals[r] == st.rentals[r];
      }
      assert RentalInv(st');
      // Docking side: nothing pointed at b or at d before.
      forall c | c in st'.bikes && st'.bikes[c].dock.Some?
        ensures st'.bikes[c].dock.value in st'.docks && st'.docks[st'.bikes[c].dock.value] == Dock(Occupied, Some(c))
      {
        if c != b {
          assert st.bikes[c].dock.value != d;
        }
      }
      forall e | e in st'.docks && st'.docks[e].attached.Some?
        ensures st'.docks[e].attached.value in st'.bikes && st'.bikes[st'.docks[e].attached.value].dock == Some(e)
      {
        if e != d {
          assert st.docks[e].attached.value != b;
        }
      }
      assert DockingInv(st');
    }
  }

  /** A rental started and then finished exactly its requested duration later, at a free
      dock (the origin dock, freed by the start, is one), is finished with the requested
      duration and its price, and leaves the bicycle available and docked there. */
  lemma StartThenFinishOnTime(
    st: State, bikeId: Id, minutes: int, origin: Option<string>, token: Option<string>, newId: Id, now: int,
    returnDock: Id, charge: int)
    requires StartRental(st, Client, bikeId, minutes, origin, token, newId, now).0.Ok?
    requires returnDock != "" && ValidCharge(charge)
    requires returnDock == origin.value || (returnDock in st.docks && st.docks[returnDock] == Dock(Free, None))
    ensures var st1 := StartRental(st, Client, bikeId, minutes, origin, token, newId, now).1;
      var fin := FinishRental(st1, Client, newId, Some(returnDock), Some(charge), now + minutes * MinuteMs);
      && fin.0.Ok?
      && fin.0.value.status == Finished && fin.0.value.endedAt == Some(now + minutes * MinuteMs)
      && fin.0.value.minutes == minutes && fin.0.value.price == Price(minutes) && fin.0.value.price.Some?
      && fin.1.bikes[bikeId] == st.bikes[bikeId].(charge := charge, dock := Some(returnDock), turnstile := Docked)
      && fin.1.docks[returnDock] == Dock(Occupied, Some(bikeId))
  {
    ExactReturnKeepsPrice(now, minutes);
    var st1 := StartRental(st, Client, bikeId, minutes, origin, token, newId, now).1;
    assert st1.rentals[newId] == NewRental(newId, bikeId, minutes, origin.value, token.value, now);
    assert st1.docks[returnDock] == Dock(Free, None);
    assert bikeId in st1.bikes;
  }

  // ---------------------------------------------------------------------------------------
  // Reads: GET / and GET /:id
  // ---------------------------------------------------------------------------------------

  /** The rentals a listing returns: those whose status has the filter's spelling (when a
      filter is sent) and, when `owner` is given, whose `user_id` is that user id. */
  ghost function Listed(rentals: map<Id, Rental>, statusFilter: Option<string>, owner: Option<Id>): map<Id, Rental>
  {
    map k | k in rentals
      && (Present(statusFilter) ==> RentalStatusName(rentals[k].status) == statusFilter.value)
      && (owner.Some? ==> rentals[k].user == owner.value)
      :: rentals[k]
  }

  /** The owner check of the client paths compares `user_id`, which a start sets to the
      token, with the id of the user owning the token. So a client whose id differs from its
      token never sees a rental it started, in the listing or by id. */
  lemma StarterCannotSeeOwnRental(
    st: State, bikeId: Id, minutes: int, origin: Option<string>, token: string, newId: Id, now: int,
    u: Id, statusFilter: Option<string>)
    requires StartRental(st, Client, bikeId, minutes, origin, Some(token), newId, now).0.Ok?
    requires u in st.users && st.users[u].token == token && st.users[u].id != token
    ensures var st' := StartRental(st, Client, bikeId, minutes, origin, Some(token), newId, now).1;
      && newId in st'.rentals
      && newId !in Listed(st'.rentals, statusFilter, Some(st'.users[u].id))
      && st'.rentals[newId].user != st'.users[u].id
  {
  }

  // ---------------------------------------------------------------------------------------
  // Handlers on the database
  // ---------------------------------------------------------------------------------------

  /** POST /alugueis. Fresh id and the clock are inputs. */
  method HandleStart(
    db: Db, role: Role, bikeId: Id, minutes: int, origin: Option<string>, token: Option<string>,
    newId: Id, now: int) returns (res: Result<Rental, Error>)
    modifies db
    ensures (res, db.Snapshot()) == StartRental(old(db.Snapshot()), role, bikeId, minutes, origin, token, newId, now)
  {
    if role != Client {
      return Err(ClientsOnly);
    }
    var price := Price(minutes);
    if price.None? {
      return Err(InvalidDuration);
    }
    if bikeId !in db.bikes {
      return Err(BicycleNotFound);
    }
    var bike := db.bikes[bikeId];
    if bike.status != Available {
      return Err(BicycleNotAvailable);
    }
    if !Present(origin) {
      return Err(OriginDockRequired);
    }
    var originId := origin.value;
    if originId !in db.docks {
      return Err(OriginDockNotFound);
    }
    var dock := db.docks[originId];
    if dock.status != Occupied || dock.attached != Some(bikeId) {
      return Err(NotAttachedAtOrigin);
    }
    if token.None? {
      // Firestore rejects the `undefined` user_id and the transaction writes nothing.
      return Err(WriteRejected);
    }
    var rental := NewRental(newId, bikeId, minutes, originId, token.value, now);
    // The transaction: the three writes commit together.
    db.rentals := db.rentals[newId := rental];
    db.bikes := db.bikes[bikeId := bike.(status := Rented, dock := None, turnstile := Undocked)];
    db.docks := db.docks[originId := Dock(Free, None)];
    res := Ok(rental);
  }

  /** PUT /alugueis/:id/finalizar. The clock is an input. */
  method HandleFinish(
    db: Db, role: Role, rentalId: Id, returnDock: Option<string>, charge: Option<int>, now: int)
    returns (res: Result<Rental, Error>)
    modifies db
    ensures (res, db.Snapshot()) == FinishRental(old(db.Snapshot()), role, rentalId, returnDock, charge, now)
  {
    if role != Client {
      return Err(ClientsOnly);
    }
    if !Present(returnDock) {
      return Err(ReturnDockRequired);
    }
    var returnId := returnDock.value;
    if charge.None? || !ValidCharge(charge.value) {
      return Err(InvalidCharge);
    }
    if rentalId !in db.rentals {
      return Err(RentalNotFound);
    }
    var rental := db.rentals[rentalId];
    if rental.status != Active {
      return Err(RentalNotActive);
    }
    if rental.bike !in db.bikes {
      return Err(BicycleNotFound);
    }
    var bike := db.bikes[rental.bike];
    if returnId !in db.docks {
      return Err(ReturnDockNotFound);
    }
    var dock := db.docks[returnId];
    if dock.status != Free || dock.attached != None {
      return Err(ReturnDockUnavailable);
    }
    var updated := FinishedRental(rental, now);
    // The transaction: the three writes commit together.
    db.rentals := db.rentals[rentalId := updated];
    db.bikes := db.bikes[rental.bike := bike.(status := Available, charge := charge.value,
                                              dock := Some(returnId), turnstile := Docked)];
    db.docks := db.docks[returnId := Dock(Occupied, Some(rental.bike))];
    res := Ok(updated);
  }

  /** The query of GET /alugueis narrowed step by step is the listing it stands for. */
  lemma NarrowedQueryIsListed(rentals: map<Id, Rental>, statusFilter: Option<string>, owner: Option<Id>)
    ensures var byStatus := if Present(statusFilter)
                            then Where(rentals, (r: Rental) => RentalStatusName(r.status) == statusFilter.value)
                            else rentals;
      && byStatus == Listed(rentals, statusFilter, None)
      && (owner.Some? ==> Where(byStatus, (r: Rental) => r.user == owner.value) == Listed(rentals, statusFilter, owner))
  {
    var byStatus := if Present(statusFilter)
                    then Where(rentals, (r: Rental) => RentalStatusName(r.status) == statusFilter.value)
                    else rentals;
    assert byStatus.Keys == Listed(rentals, statusFilter, None).Keys;
    if owner.Some? {
      var mine := Where(byStatus, (r: Rental) => r.user == owner.value);
      assert mine.Keys == Listed(rentals, statusFilter, owner).Keys;
    }
  }

  /** GET /alugueis: developers get every rental the status filter keeps; clients get only
      those whose `user_id` is the id of the user owning their token. When several users
      share a token the route takes the first one found, here any one of them. */
  method HandleList(db: Db, role: Role, token: Option<string>, statusFilter: Option<string>)
    returns (res: Result<map<Id, Rental>, Error>)
    ensures role == Developer ==> res == Ok(Listed(db.rentals, statusFilter, None))
    ensures role == Client && !Present(token) ==> res == Err(TokenRequired)
    ensures role == Client && Present(token) && TokenOwners(db.users, token.value) == {} ==> res == Err(InvalidToken)
    ensures role == Client && Present(token) && TokenOwners(db.users, token.value) != {} ==>
      exists u :: u in TokenOwners(db.users, token.value) && res == Ok(Listed(db.rentals, statusFilter, Some(db.users[u].id)))
    ensures role == Unrecognized ==> res == Err(KeyNotAuthorized)
  {
    var query := db.rentals;
    if Present(statusFilter) {
      query := Where(query, (r: Rental) => RentalStatusName(r.status) == statusFilter.value);
    }
    if role == Developer {
      NarrowedQueryIsListed(db.rentals, statusFilter, None);
      res := Ok(query);
    } else if role == Client {
      if !Present(token) {
        return Err(TokenRequired);
      }
      if !exists k :: k in db.users && db.users[k].token == token.value {
        assert TokenOwners(db.users, token.value) == {};
        return Err(InvalidToken);
      }
      var k :| k in db.users && db.users[k].token == token.value;
      var userId := db.users[k].id;
      query := Where(query, (r: Rental) => r.user == userId);
      NarrowedQueryIsListed(db.rentals, statusFilter, Some(userId));
      res := Ok(query);
      assert k in TokenOwners(db.users, token.value);
    } else {
      res := Err(KeyNotAuthorized);
    }
  }

  /** GET /alugueis/:id: an unknown id is 404 whatever the role; a developer gets the rental; a
      client gets it only when its `user_id` is the id of the user owning the token. */
  method HandleGet(db: Db, rentalId: Id, role: Role, token: Option<string>) returns (res: Result<Rental, Error>)
    ensures rentalId !in db.rentals ==> res == Err(RentalNotFound)
    ensures rentalId in db.rentals && role == Developer ==> res == Ok(db.rentals[rentalId])
    ensures rentalId in db.rentals && role == Client && !Present(token) ==> res == Err(TokenRequired)
    ensures rentalId in db.rentals && role == Client && Present(token) && TokenOwners(db.users, token.value) == {} ==>
      res == Err(InvalidToken)
    ensures rentalId in db.rentals && role == Client && Present(token) && TokenOwners(db.users, token.value) != {} ==>
      exists u :: u in TokenOwners(db.users, token.value) &&
        res == (if db.rentals[rentalId].user == db.users[u].id then Ok(db.rentals[rentalId]) else Err(NotOwner))
    ensures rentalId in db.rentals && role == Unrecognized ==> res == Err(KeyNotAuthorized)
  {
    if rentalId !in db.rentals {
      return Err(RentalNotFound);
    }
    var rental := db.rentals[rentalId];
    if role == Developer {
      res := Ok(rental);
    } else if role == Client {
      if !Present(token) {
        return Err(TokenRequired);
      }
      if !exists k :: k in db.users && db.users[k].token == token.value {
        assert TokenOwners(db.users, token.value) == {};
        return Err(InvalidToken);
      }
      var k :| k in db.users && db.users[k].token == token.value;
      var userId := db.users[k].id;
      assert k in TokenOwners(db.users, token.value);
      if rental.user == userId {
        res := Ok(rental);
      } else {
        res := Err(NotOwner);
      }
    } else {
      res := Err(KeyNotAuthorized);
    }
  }
}
