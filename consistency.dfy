/**
  The cross-collection invariants the rental routes are written to keep: a bicycle is
  `'alugada'` exactly when an `'ativo'` rental holds it, and a bicycle's `catraca_id` and a
  docking point's `bicicleta_id_acoplada` point at each other.
 */
module Consistency {
  import opened Wrappers
  import opened Entities

  /** Some active rental holds bicycle `b`. */
  ghost predicate HasActiveRental(rentals: map<Id, Rental>, b: Id)
  {
    exists r :: r in rentals && rentals[r].status == Active && rentals[r].bike == b
  }

  /** Rental side: a rental has an end date exactly when it is finished, every active rental
      holds an existing rented bicycle, every rented bicycle is held by an active rental, and
      no bicycle is held by two. */
  ghost predicate RentalInv(st: State)
  {
    && (forall r :: r in st.rentals ==> (st.rentals[r].endedAt.Some? <==> st.rentals[r].status == Finished))
    && (forall r :: r in st.rentals && st.rentals[r].status == Active ==>
          st.rentals[r].bike in st.bikes && st.bikes[st.rentals[r].bike].status == Rented)
    && (forall b :: b in st.bikes && st.bikes[b].status == Rented ==> HasActiveRental(st.rentals, b))
    && (forall r1, r2 ::
          (r1 in st.rentals && r2 in st.rentals &&
           st.rentals[r1].status == Active && st.rentals[r2].status == Active &&
           st.rentals[r1].bike == st.rentals[r2].bike) ==> r1 == r2)
  }

  /** Docking side: `catraca_id` and `bicicleta_id_acoplada` are mutual, a docking point is
      `'ocupada'` exactly when something is attached to it, and a rented bicycle is attached
      nowhere. */
  ghost predicate DockingInv(st: State)
  {
    && (forall b :: b in st.bikes && st.bikes[b].dock.Some? ==>
          st.bikes[b].dock.value in st.docks && st.docks[st.bikes[b].dock.value] == Dock(Occupied, Some(b)))
    && (forall d :: d in st.docks && st.docks[d].attached.Some? ==>
          st.docks[d].attached.value in st.bikes && st.bikes[st.docks[d].attached.value].dock == Some(d))
    && (forall d :: d in st.docks ==> (st.docks[d].status == Occupied <==> st.docks[d].attached.Some?))
    && (forall b :: b in st.bikes && st.bikes[b].status == Rented ==> st.bikes[b].dock == None)
  }

  ghost predicate Consistent(st: State)
  {
    RentalInv(st) && DockingInv(st)
  }

  /** Under the rental invariant a bicycle is rented exactly when it has an active rental,
      and then that rental is unique and has no end date. */
  lemma RentedIffActiveRental(st: State, b: Id)
    requires RentalInv(st) && b in st.bikes
    ensures st.bikes[b].status == Rented <==> HasActiveRental(st.rentals, b)
    ensures st.bikes[b].status == Rented ==>
      exists r :: r in st.rentals && st.rentals[r].bike == b && st.rentals[r].status == Active &&
        st.rentals[r].endedAt == None &&
        forall r2 :: r2 in st.rentals && st.rentals[r2].status == Active && st.rentals[r2].bike == b ==> r2 == r
  {
    if HasActiveRental(st.rentals, b) {
      var r :| r in st.rentals && st.rentals[r].status == Active && st.rentals[r].bike == b;
      assert st.rentals[r].endedAt == None;
    }
  }

  /** Usernames identify users (what registration keeps). */
  ghost predicate UniqueUsernames(users: map<Id, User>)
  {
    forall k1, k2 :: k1 in users && k2 in users && users[k1].username == users[k2].username ==> k1 == k2
  }

  /** Tokens identify users (what fresh tokens give). */
  ghost predicate UniqueTokens(users: map<Id, User>)
  {
    forall k1, k2 :: k1 in users && k2 in users && users[k1].token == users[k2].token ==> k1 == k2
  }
}
