/**
  The Firestore database every route module is built over (`module.exports = (db) => ...`):
  one object whose four collections the handlers read and write in place.
 */
module Store {
  import opened Entities

  /** `query.where(field, '==', value)`: the documents of `query` satisfying `keep`. */
  function Where<T>(query: map<Id, T>, keep: T -> bool): (m: map<Id, T>)
    ensures forall k :: k in m <==> k in query && keep(query[k])
    ensures forall k :: k in m ==> m[k] == query[k]
  {
    map k | k in query && keep(query[k]) :: query[k]
  }

  class Db {
    var bikes: map<Id, Bicycle>
    var docks: map<Id, Dock>
    var rentals: map<Id, Rental>
    var users: map<Id, User>

    /** The contents of the database as a value, for the specification functions. */
    function Snapshot(): (s: State)
      reads this
      ensures s.bikes == bikes && s.docks == docks && s.rentals == rentals && s.users == users
    {
      State(bikes, docks, rentals, users)
    }

    constructor (initial: State)
      ensures Snapshot() == initial
    {
      bikes := initial.bikes;
      docks := initial.docks;
      rentals := initial.rentals;
      users := initial.users;
    }
  }
}
