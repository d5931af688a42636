/**
  routes/bicicletas.js: the administrative routes over `bicicletas`. Listing and fetching are
  open to every role; creating, updating and deleting are for developers only. None of these
  routes looks at docking points or rentals, which is why updating and deleting can leave the
  store inconsistent (see `UpdateCanBreakRentalInv` and `DeleteCanBreakDocking`).
 */
module Bicycles {
  import opened Wrappers
  import opened Entities
  import opened Consistency
  import opened Store

  // ---------------------------------------------------------------------------------------
  // POST /
  // ---------------------------------------------------------------------------------------

  /** The body of POST /bicicletas; `None` is a field left out. */
  datatype CreateRequest = CreateRequest(
    charge: Option<int>, station: Option<string>, img: Option<string>, turnstile: Option<string>)

  /** POST /bicicletas. The fresh id and the placeholder image the route derives from it are
      inputs. */
  function CreateBicycle(st: State, role: Role, req: CreateRequest, newId: Id, placeholderImg: string)
    : (out: (Result<Bicycle, Error>, State))
    ensures out.0.Err? ==> out.1 == st
  {
    if role != Developer then (Err(DevelopersOnly), st)
    else if !ChargeGiven(req.charge) then (Err(InvalidCharge), st)
    else if !(Present(req.station) && ValidStation(req.station.value)) then (Err(InvalidStation), st)
    else if Present(req.turnstile) && ParseTurnstile(req.turnstile.value).None? then (Err(InvalidTurnstile), st)
    else
      var bike := Bicycle(
        newId, "elétrica", req.charge.value, Available, req.station.value,
        if Present(req.img) then req.img.value else placeholderImg,
        if Present(req.turnstile) then ParseTurnstile(req.turnstile.value).value else Docked,
        None);
      (Ok(bike), st.(bikes := st.bikes[newId := bike]))
  }

  /** The checks of a create, in the route's order, each leaving the database as it was. A
      turnstile status sent as `""` counts as not sent. */
  lemma CreateRefusals(st: State, role: Role, req: CreateRequest, newId: Id, placeholderImg: string)
    ensures var out := CreateBicycle(st, role, req, newId, placeholderImg);
      && (role != Developer ==> out == (Err(DevelopersOnly), st))
      && (role == Developer && (req.charge.None? || req.charge.value !in {10, 15, 20}) ==>
            out == (Err(InvalidCharge), st))
      && ((role == Developer && ChargeGiven(req.charge) &&
           (req.station.None? || req.station.value !in Stations)) ==> out == (Err(InvalidStation), st))
      && ((role == Developer && ChargeGiven(req.charge) && req.station.Some? && req.station.value in Stations &&
           req.turnstile.Some? && req.turnstile.value !in ["", "docked", "undocked", "unavailable_dock"]) ==>
            out == (Err(InvalidTurnstile), st))
      && (out.0.Err? ==> out.1 == st)
  {
  }

  /** A created bicycle: the fresh id, model `'elétrica'`, available, the given charge and
      station, the given image or the placeholder, the given turnstile status or `'docked'`; it
      is the only record written. */
  lemma CreateWrites(st: State, role: Role, req: CreateRequest, newId: Id, placeholderImg: string)
    requires CreateBicycle(st, role, req, newId, placeholderImg).0.Ok?
    ensures var out := CreateBicycle(st, role, req, newId, placeholderImg); var b := out.0.value;
      && b.id == newId && b.model == "elétrica" && b.status == Available
      && Some(b.charge) == req.charge && ValidCharge(b.charge)
      && Some(b.station) == req.station && ValidStation(b.station)
      && b.img == (if Present(req.img) then req.img.value else placeholderImg)
      && (Present(req.turnstile) ==> TurnstileName(b.turnstile) == req.turnstile.value)
      && (!Present(req.turnstile) ==> b.turnstile == Docked)
      && b.dock == None
      && out.1 == st.(bikes := st.bikes[newId := b])
  {
  }

  /** Creating a bicycle under a fresh id keeps the store consistent: nothing refers to a
      bicycle that did not exist, and the new one is neither rented nor docked. */
  lemma CreatePreservesConsistency(st: State, role: Role, req: CreateRequest, newId: Id, placeholderImg: string)
    requires Consistent(st) && newId !in st.bikes
    ensures Consistent(CreateBicycle(st, role, req, newId, placeholderImg).1)
  {
    var out := CreateBicycle(st, role, req, newId, placeholderImg);
    if out.0.Ok? {
      var st' := out.1;
      forall b | b in st'.bikes && st'.bikes[b].status == Rented
        ensures HasActiveRental(st'.rentals, b)
      {
        assert b in st.bikes;
      }
      forall d | d in st'.docks && st'.docks[d].attached.Some?
        ensures st'.docks[d].attached.value in st'.bikes && st'.bikes[st'.docks[d].attached.value].dock == Some(d)
      {
        assert st.docks[d].attached.value != newId;
      }
    }
  }

  // ---------------------------------------------------------------------------------------
  // PUT /:id
  // ---------------------------------------------------------------------------------------

  /** The body of PUT /bicicletas/:id; `None` is a field left out (`undefined`). */
  datatype UpdateRequest = UpdateRequest(
    status: Option<string>, charge: Option<int>, station: Option<string>, img: Option<string>,
    turnstile: Option<string>)

  /** `dadosAtualizados`: the validated fields to write. */
  datatype Patch = Patch(
    status: Option<BikeStatus>, charge: Option<int>, station: Option<string>, img: Option<string>,
    turnstile: Option<TurnstileStatus>)

  const EmptyPatch := Patch(None, None, None, None, None)

  /** Firestore's `update`: the fields in the patch overwrite, the others stay. */
  function ApplyPatch(b: Bicycle, p: Patch): (b': Bicycle)
  {
    b.(status := if p.status.Some? then p.status.value else b.status,
       charge := if p.charge.Some? then p.charge.value else b.charge,
       station := if p.station.Some? then p.station.value else b.station,
       img := if p.img.Some? then p.img.value else b.img,
       turnstile := if p.turnstile.Some? then p.turnstile.value else b.turnstile)
  }

  /** Every supplied field is valid. */
  predicate ValidUpdate(req: UpdateRequest)
  {
    && (req.status.Some? ==> ParseBikeStatus(req.status.value).Some?)
    && (req.charge.Some? ==> ValidCharge(req.charge.value))
    && (req.station.Some? ==> ValidStation(req.station.value))
    && (req.turnstile.Some? ==> ParseTurnstile(req.turnstile.value).Some?)
  }

  /** The validated fields of a valid request. */
  function PatchOf(req: UpdateRequest): Patch
    requires ValidUpdate(req)
  {
    Patch(
      if req.status.Some? then ParseBikeStatus(req.status.value) else None,
      req.charge, req.station, req.img,
      if req.turnstile.Some? then ParseTurnstile(req.turnstile.value) else None)
  }

  /** PUT /bicicletas/:id: the answer (the document as re-read after the update) and the
      database afterwards. */
  function UpdateBicycle(st: State, role: Role, id: Id, req: UpdateRequest): (out: (Result<Bicycle, Error>, State))
    ensures out.0.Err? ==> out.1 == st
  {
    if role != Developer then (Err(DevelopersOnly), st)
    else if id !in st.bikes then (Err(BicycleNotFound), st)
    else if req.status.Some? && ParseBikeStatus(req.status.value).None? then (Err(InvalidBikeStatus), st)
    else if req.charge.Some? && !ValidCharge(req.charge.value) then (Err(InvalidCharge), st)
    else if req.station.Some? && !ValidStation(req.station.value) then (Err(InvalidStation), st)
    else if req.turnstile.Some? && ParseTurnstile(req.turnstile.value).None? then (Err(InvalidTurnstile), st)
    else if PatchOf(req) == EmptyPatch then (Err(NothingToUpdate), st)
    else
      var updated := ApplyPatch(st.bikes[id], PatchOf(req));
      (Ok(updated), st.(bikes := st.bikes[id := updated]))
  }

  /** The checks of an update: role, then existence, then each supplied field against its
      enumeration, then that something was supplied; any refusal changes nothing. */
  lemma UpdateRefusals(st: State, role: Role, id: Id, req: UpdateRequest)
    ensures var out := UpdateBicycle(st, role, id, req);
      && (role != Developer ==> out == (Err(DevelopersOnly), st))
      && (role == Developer && id !in st.bikes ==> out == (Err(BicycleNotFound), st))
      && ((role == Developer && id in st.bikes && req.status.Some? &&
           req.status.value !in ["disponível", "alugada", "indisponível"]) ==> out == (Err(InvalidBikeStatus), st))
      && (out.0.Ok? <==> role == Developer && id in st.bikes && ValidUpdate(req) && req != UpdateRequest(None, None, None, None, None))
      && (role == Developer && id in st.bikes && ValidUpdate(req) && req == UpdateRequest(None, None, None, None, None) ==>
            out == (Err(NothingToUpdate), st))
      && (out.0.Err? ==> out.1 == st)
  {
  }

  /** A successful update changes exactly the supplied fields of that one bicycle, each to the
      value sent, and leaves every other field, every other bicycle and the other collections
      as they were. */
  lemma UpdateChangesOnlySuppliedFields(st: State, role: Role, id: Id, req: UpdateRequest)
    requires UpdateBicycle(st, role, id, req).0.Ok?
    ensures var out := UpdateBicycle(st, role, id, req); var old_b := st.bikes[id]; var b := out.0.value;
      && out.1 == st.(bikes := st.bikes[id := b])
      && b.id == old_b.id && b.model == old_b.model && b.dock == old_b.dock
      && (if req.status.Some? then BikeStatusName(b.status) == req.status.value else b.status == old_b.status)
      && (if req.charge.Some? then b.charge == req.charge.value else b.charge == old_b.charge)
      && (if req.station.Some? then b.station == req.station.value else b.station == old_b.station)
      && (if req.img.Some? then b.img == req.img.value else b.img == old_b.img)
      && (if req.turnstile.Some? then TurnstileName(b.turnstile) == req.turnstile.value else b.turnstile == old_b.turnstile)
  {
  }

  // ---------------------------------------------------------------------------------------
  // DELETE /:id
  // ---------------------------------------------------------------------------------------

  /** DELETE /bicicletas/:id. */
  function DeleteBicycle(st: State, role: Role, id: Id): (out: (Result<(), Error>, State))
    ensures out.0.Err? ==> out.1 == st
  {
    if role != Developer then (Err(DevelopersOnly), st)
    else if id !in st.bikes then (Err(BicycleNotFound), st)
    else if st.bikes[id].status == Rented then (Err(BicycleIsRented), st)
    else (Ok(()), st.(bikes := st.bikes - {id}))
  }

  /** A delete is refused for a non-developer, then for an unknown id, then for a rented
      bicycle; it succeeds exactly otherwise, and then removes that bicycle and nothing else. A
      refusal changes nothing. */
  lemma DeleteRemovesExactly(st: State, role: Role, id: Id)
    ensures var out := DeleteBicycle(st, role, id);
      && (out.0.Ok? <==> role == Developer && id in st.bikes && st.bikes[id].status != Rented)
      && (role != Developer ==> out == (Err(DevelopersOnly), st))
      && (role == Developer && id !in st.bikes ==> out == (Err(BicycleNotFound), st))
      && (role == Developer && id in st.bikes && st.bikes[id].status == Rented ==> out.0 == Err(BicycleIsRented))
      && (out.0.Ok? ==> out.1.bikes.Keys == st.bikes.Keys - {id} &&
                        (forall k :: k in out.1.bikes ==> out.1.bikes[k] == st.bikes[k]) &&
                        out.1.docks == st.docks && out.1.rentals == st.rentals && out.1.users == st.users)
      && (out.0.Err? ==> out.1 == st)
  {
  }

  /** Deleting keeps the rental side of consistency: a bicycle that is not rented has no
      active rental to be left dangling. */
  lemma DeletePreservesRentalInv(st: State, role: Role, id: Id)
    requires RentalInv(st)
    ensures RentalInv(DeleteBicycle(st, role, id).1)
  {
    var out := DeleteBicycle(st, role, id);
    if out.0.Ok? {
      forall r | r in out.1.rentals && out.1.rentals[r].status == Active
        ensures out.1.rentals[r].bike in out.1.bikes
      {
        assert st.rentals[r].bike != id;
      }
    }
  }

  // ---------------------------------------------------------------------------------------
  // What the administrative routes do not keep
  // ---------------------------------------------------------------------------------------

  /** One bicycle docked at one docking point, no rentals, no users. */
  function DockedStore(): State
  {
    State(
      map["b1" := Bicycle("b1", "elétrica", 10, Available, Stations[0], "", Docked, Some("c1"))],
      map["c1" := Dock(Occupied, Some("b1"))],
      map[], map[])
  }

  lemma DockedStoreIsConsistent()
    ensures Consistent(DockedStore())
  {
    var st := DockedStore();
    assert forall b :: b in st.bikes ==> b == "b1";
    assert forall d :: d in st.docks ==> d == "c1";
  }

  /** PUT may set `status` to `'alugada'` on a bicycle no rental holds. */
  lemma UpdateCanBreakRentalInv()
    ensures var out := UpdateBicycle(DockedStore(), Developer, "b1", UpdateRequest(Some("alugada"), None, None, None, None));
      Consistent(DockedStore()) && out.0.Ok? && !RentalInv(out.1)
  {
    DockedStoreIsConsistent();
    var out := UpdateBicycle(DockedStore(), Developer, "b1", UpdateRequest(Some("alugada"), None, None, None, None));
    assert out.1.bikes["b1"].status == Rented;
    assert !HasActiveRental(out.1.rentals, "b1");
  }

  /** DELETE removes a docked bicycle and leaves its docking point holding a missing one. */
  lemma DeleteCanBreakDocking()
    ensures var out := DeleteBicycle(DockedStore(), Developer, "b1");
      Consistent(DockedStore()) && out.0.Ok? && !DockingInv(out.1)
  {
    DockedStoreIsConsistent();
    var out := DeleteBicycle(DockedStore(), Developer, "b1");
    assert out.1.docks["c1"].attached == Some("b1") && "b1" !in out.1.bikes;
  }

  // ---------------------------------------------------------------------------------------
  // Handlers on the database
  // ---------------------------------------------------------------------------------------

  /** GET /bicicletas: the bicycles whose status has the spelling of the status filter and
      whose station is the station filter, each filter applying only when it is sent. */
  method HandleList(db: Db, statusFilter: Option<string>, stationFilter: Option<string>)
    returns (res: map<Id, Bicycle>)
    ensures forall k :: k in res <==>
      && k in db.bikes
      && (Present(statusFilter) ==> BikeStatusName(db.bikes[k].status) == statusFilter.value)
      && (Present(stationFilter) ==> db.bikes[k].station == stationFilter.value)
    ensures forall k :: k in res ==> res[k] == db.bikes[k]
  {
    var query := db.bikes;
    if Present(statusFilter) {
      query := Where(query, (b: Bicycle) => BikeStatusName(b.status) == statusFilter.value);
    }
    if Present(stationFilter) {
      query := Where(query, (b: Bicycle) => b.station == stationFilter.value);
    }
    res := query;
  }

  /** GET /bicicletas/:id. */
  method HandleGet(db: Db, id: Id) returns (res: Result<Bicycle, Error>)
    ensures id in db.bikes <==> res.Ok?
    ensures res.Ok? ==> res.value == db.bikes[id]
    ensures res.Err? ==> res.error == BicycleNotFound
  {
    if id !in db.bikes {
      return Err(BicycleNotFound);
    }
    res := Ok(db.bikes[id]);
  }

  /** POST /bicicletas. */
  method HandleCreate(db: Db, role: Role, req: CreateRequest, newId: Id, placeholderImg: string)
    returns (res: Result<Bicycle, Error>)
    modifies db
    ensures (res, db.Snapshot()) == CreateBicycle(old(db.Snapshot()), role, req, newId, placeholderImg)
  {
    if role != Developer {
      return Err(DevelopersOnly);
    }
    if req.charge.None? || !ValidCharge(req.charge.value) {
      return Err(InvalidCharge);
    }
    if !Present(req.station) || !ValidStation(req.station.value) {
      return Err(InvalidStation);
    }
    var turnstile := Docked;
    if Present(req.turnstile) {
      var parsed := ParseTurnstile(req.turnstile.value);
      if parsed.None? {
        return Err(InvalidTurnstile);
      }
      turnstile := parsed.value;
    }
    var img := if Present(req.img) then req.img.value else placeholderImg;
    var bike := Bicycle(newId, "elétrica", req.charge.value, Available, req.station.value, img, turnstile, None);
    db.bikes := db.bikes[newId := bike];
    res := Ok(bike);
  }

  /** PUT /bicicletas/:id: builds the patch field by field, refusing at the first invalid one,
      then writes it. */
  method HandleUpdate(db: Db, role: Role, id: Id, req: UpdateRequest) returns (res: Result<Bicycle, Error>)
    modifies db
    ensures (res, db.Snapshot()) == UpdateBicycle(old(db.Snapshot()), role, id, req)
  {
    if role != Developer {
      return Err(DevelopersOnly);
    }
    if id !in db.bikes {
      return Err(BicycleNotFound);
    }
    var patch := EmptyPatch;
    if req.status.Some? {
      var status := ParseBikeStatus(req.status.value);
      if status.None? {
        return Err(InvalidBikeStatus);
      }
      patch := patch.(status := status);
    }
    if req.charge.Some? {
      if !ValidCharge(req.charge.value) {
        return Err(InvalidCharge);
      }
      patch := patch.(charge := req.charge);
    }
    if req.station.Some? {
      if !ValidStation(req.station.value) {
        return Err(InvalidStation);
      }
      patch := patch.(station := req.station);
    }
    if req.img.Some? {
      patch := patch.(img := req.img);
    }
    if req.turnstile.Some? {
      var turnstile := ParseTurnstile(req.turnstile.value);
      if turnstile.None? {
        return Err(InvalidTurnstile);
      }
      patch := patch.(turnstile := turnstile);
    }
    assert patch == PatchOf(req);
    if patch == EmptyPatch {
      return Err(NothingToUpdate);
    }
    var updated := ApplyPatch(db.bikes[id], patch);
    db.bikes := db.bikes[id := updated];
    res := Ok(updated);
  }

  /** DELETE /bicicletas/:id. */
  method HandleDelete(db: Db, role: Role, id: Id) returns (res: Result<(), Error>)
    modifies db
    ensures (res, db.Snapshot()) == DeleteBicycle(old(db.Snapshot()), role, id)
  {
    if role != Developer {
      return Err(DevelopersOnly);
    }
    if id !in db.bikes {
      return Err(BicycleNotFound);
    }
    if db.bikes[id].status == Rented {
      return Err(BicycleIsRented);
    }
    db.bikes := db.bikes - {id};
    res := Ok(());
  }
}
