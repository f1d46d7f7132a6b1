/** The in-memory store `MemStorage`: three tables (users, trains, bookings) keyed by
    number, and one counter from which every new record of any table takes its id.

    Each asynchronous method is a function from the store before the call to the store
    after it; the calls never interleave, so `await` is plain sequencing. An operation
    that throws yields `Err` with the store as the throw leaves it. */
module Storage {
  import opened Results
  import opened Schema
  import OrderedMaps
  import Seqs
  import Text

  datatype Store = Store(
    users: map<int, User>,
    trains: map<int, Train>,
    bookings: map<int, Booking>,
    currentId: int)

  /** What an operation returns, together with the store it leaves behind. */
  datatype Step<T> = Step(store: Store, value: T)

  /** The three empty tables and the counter at 1, before the constructor adds the administrator. */
  const Empty := Store(map[], map[], map[], 1)

  /** What every store the operations build keeps: every key was drawn from the counter,
      so it lies below the counter, no key is used in two tables, and every user carries
      the key it is stored under (users are never updated). */
  predicate Valid(s: Store) {
    && s.currentId >= 1
    && (forall k :: k in s.users ==> s.users[k].id == k)
    && (forall k :: k in s.users ==> 1 <= k < s.currentId)
    && (forall k :: k in s.trains ==> 1 <= k < s.currentId)
    && (forall k :: k in s.bookings ==> 1 <= k < s.currentId)
    && s.users.Keys !! s.trains.Keys
    && s.users.Keys !! s.bookings.Keys
    && s.trains.Keys !! s.bookings.Keys
  }

  /** Every train record carries the key it is stored under. Creating keeps this; an update
      whose patch sets a different `id` breaks it. */
  predicate TrainsKeyed(s: Store) {
    forall k :: k in s.trains ==> s.trains[k].id == k
  }

  /** The constructor: empty tables, then the built-in administrator created like any user. */
  function Init(): (s: Store)
    ensures s.users == map[1 := User(1, "admin", "admin123", Some(true))]
    ensures s.trains == map[] && s.bookings == map[]
    ensures s.currentId == 2
  {
    CreateUser(Empty, NewUser("admin", "admin123", Some(true))).store
  }

  // ---------------------------------------------------------------- users

  function GetUser(s: Store, id: int): (r: Option<User>)
    ensures r.Some? <==> id in s.users
    ensures r.Some? ==> r.value == s.users[id]
  {
    if id in s.users then Some(s.users[id]) else None
  }

  /** The users in the order the table iterates them: ascending key order. */
  function AllUsers(s: Store): (r: seq<User>)
    ensures |r| == |s.users|
    ensures forall u :: u in r <==> u in s.users.Values
    ensures forall i :: 0 <= i < |r| ==>
      OrderedMaps.Sorted(s.users.Keys)[i] in s.users && r[i] == s.users[OrderedMaps.Sorted(s.users.Keys)[i]]
  {
    OrderedMaps.ValuesComplete(s.users);
    OrderedMaps.Values(s.users)
  }

  /** The first user, in iteration order, whose username is exactly `username`. Usernames
      are not checked for uniqueness on creation, so there may be several; iteration order
      is ascending key order, so the one found is the one with the smallest key. */
  function GetUserByUsername(s: Store, username: string): (r: Option<User>)
    ensures r.None? <==> forall k :: k in s.users ==> s.users[k].username != username
    ensures r.Some? ==> r.value.username == username
    ensures r.Some? ==> exists k :: && k in s.users && s.users[k] == r.value
                                    && forall j :: j in s.users && j < k ==> s.users[j].username != username
  {
    var us := AllUsers(s);
    match Seqs.FindFirst(us, (u: User) => u.username == username)
    case None =>
      assert forall k :: k in s.users ==> s.users[k] in us;
      None
    case Some(i) =>
      FoundFirst(s, username, i);
      Some(us[i])
  }

  /** The user at the first matching position has the smallest matching key. */
  lemma FoundFirst(s: Store, username: string, i: nat)
    requires i < |s.users|
    requires OrderedMaps.Values(s.users)[i].username == username
    requires forall i' :: 0 <= i' < i ==> OrderedMaps.Values(s.users)[i'].username != username
    ensures exists k :: && k in s.users && s.users[k] == OrderedMaps.Values(s.users)[i]
                        && forall j :: j in s.users && j < k ==> s.users[j].username != username
  {
    var k := OrderedMaps.Sorted(s.users.Keys)[i];
    forall j | j in s.users && j < k ensures s.users[j].username != username {
      var i' := OrderedMaps.SmallerKeyBefore(s.users, i, j);
    }
  }

  /** `{ ...user, id }` stored under the next id. */
  function CreateUser(s: Store, user: NewUser): (r: Step<User>)
    ensures r.value.id == s.currentId
    ensures r.value.username == user.username && r.value.password == user.password
    ensures r.value.isAdmin == user.isAdmin
    ensures r.store.currentId == s.currentId + 1
    ensures r.store.users == s.users[s.currentId := r.value]
    ensures r.store.trains == s.trains && r.store.bookings == s.bookings
  {
    var id := s.currentId;
    var created := User(id, user.username, user.password, user.isAdmin);
    Step(s.(users := s.users[id := created], currentId := id + 1), created)
  }

  // ---------------------------------------------------------------- trains

  /** `{ ...train, id }` stored under the next id. */
  function CreateTrain(s: Store, train: NewTrain): (r: Step<Train>)
    ensures r.value.id == s.currentId
    ensures r.value.name == train.name && r.value.from == train.from && r.value.to == train.to
    ensures r.value.departureTime == train.departureTime && r.value.arrivalTime == train.arrivalTime
    ensures r.value.totalSeats == train.totalSeats && r.value.availableSeats == train.availableSeats
    ensures r.value.price == train.price
    ensures r.store.currentId == s.currentId + 1
    ensures r.store.trains == s.trains[s.currentId := r.value]
    ensures r.store.users == s.users && r.store.bookings == s.bookings
  {
    var id := s.currentId;
    var created := Train(id, train.name, train.from, train.to, train.departureTime,
                         train.arrivalTime, train.totalSeats, train.availableSeats, train.price);
    Step(s.(trains := s.trains[id := created], currentId := id + 1), created)
  }

  /** Merges the patch into the train stored under `id`; throws "Train not found" if there is none. */
  function UpdateTrain(s: Store, id: int, patch: TrainPatch): (r: Step<Result<Train, Error>>)
    ensures r.value.Err? <==> id !in s.trains
    ensures r.value.Err? ==> r.value.error == TrainNotFound && r.store == s
    ensures r.value.Ok? ==> forall f :: r.value.value.Get(f) == Overlay(patch.Get(f), s.trains[id].Get(f))
    ensures r.value.Ok? ==> r.store.trains.Keys == s.trains.Keys && r.store.trains[id] == r.value.value
    ensures forall k :: k in s.trains && k != id ==> k in r.store.trains && r.store.trains[k] == s.trains[k]
    ensures r.store.users == s.users && r.store.bookings == s.bookings
    ensures r.store.currentId == s.currentId
  {
    match GetTrain(s, id)
    case None => Step(s, Err(TrainNotFound))
    case Some(train) =>
      var updated := train.Merge(patch);
      Step(s.(trains := s.trains[id := updated]), Ok(updated))
  }

  /** Removes the train stored under `id`, if any. Bookings that refer to it stay. */
  function DeleteTrain(s: Store, id: int): (r: Store)
    ensures r.trains.Keys == s.trains.Keys - {id}
    ensures forall k :: k in r.trains ==> r.trains[k] == s.trains[k]
    ensures r.users == s.users && r.bookings == s.bookings && r.currentId == s.currentId
    ensures id !in s.trains ==> r == s
  {
    s.(trains := s.trains - {id})
  }

  function GetTrain(s: Store, id: int): (r: Option<Train>)
    ensures r.Some? <==> id in s.trains
    ensures r.Some? ==> r.value == s.trains[id]
  {
    if id in s.trains then Some(s.trains[id]) else None
  }

  /** Every train, in the order the table iterates them: ascending key order. */
  function AllTrains(s: Store): (r: seq<Train>)
    ensures |r| == |s.trains|
    ensures forall t :: t in r <==> t in s.trains.Values
    ensures forall i :: 0 <= i < |r| ==>
      OrderedMaps.Sorted(s.trains.Keys)[i] in s.trains && r[i] == s.trains[OrderedMaps.Sorted(s.trains.Keys)[i]]
  {
    OrderedMaps.ValuesComplete(s.trains);
    OrderedMaps.Values(s.trains)
  }

  /** Whether a train runs between the two places, compared without regard to case, and
      departs on the same calendar day as `date`. `dayOf` maps an instant to its calendar
      day in the server's time zone. */
  predicate Runs(t: Train, from: string, to: string, date: Instant, dayOf: Instant -> int) {
    && Text.Lower(t.from) == Text.Lower(from)
    && Text.Lower(t.to) == Text.Lower(to)
    && dayOf(t.departureTime) == dayOf(date)
  }

  /** The trains that run from `from` to `to` on the day of `date`, in iteration order. */
  function SearchTrains(s: Store, from: string, to: string, date: Instant, dayOf: Instant -> int): (r: seq<Train>)
    ensures forall t :: t in r <==> t in s.trains.Values && Runs(t, from, to, date, dayOf)
    ensures Seqs.IsSubsequence(r, AllTrains(s))
    ensures forall t :: multiset(r)[t] == if Runs(t, from, to, date, dayOf) then multiset(AllTrains(s))[t] else 0
  {
    var runs := (t: Train) => Runs(t, from, to, date, dayOf);
    Seqs.FilterCounts(AllTrains(s), runs);
    Seqs.Filter(AllTrains(s), runs)
  }

  // ---------------------------------------------------------------- bookings

  /** The record `{ ...booking, id, createdAt }` the booking operation stores. */
  function NewRecord(booking: NewBooking, id: int, createdAt: Instant): (b: Booking)
    ensures b.id == id && b.createdAt == createdAt
    ensures b.userId == booking.userId && b.trainId == booking.trainId
    ensures b.seatCount == booking.seatCount && b.totalPrice == booking.totalPrice
    ensures b.status == booking.status
  {
    Booking(id, booking.userId, booking.trainId, booking.seatCount, booking.totalPrice, booking.status, createdAt)
  }

  /** Stores the booking under the next id, stamped with `now`, then looks up the train it
      names and, if there is one, stores `availableSeats - seatCount` as its seat count by
      updating the train whose key is the looked-up record's own `id`. There is no check
      that enough seats are left. The update throws when no train is stored under that
      record's `id`; the booking is stored and the counter advanced all the same. */
  function CreateBooking(s: Store, booking: NewBooking, now: Instant): (r: Step<Result<Booking, Error>>)
    ensures r.store.currentId == s.currentId + 1
    ensures r.store.bookings == s.bookings[s.currentId := NewRecord(booking, s.currentId, now)]
    ensures r.store.users == s.users
    ensures r.value.Ok? ==> r.value.value == NewRecord(booking, s.currentId, now)
    ensures booking.trainId !in s.trains ==> r.value.Ok? && r.store.trains == s.trains
    ensures booking.trainId in s.trains ==>
      var t := s.trains[booking.trainId];
      if t.id in s.trains then
        && r.value.Ok?
        && r.store.trains == s.trains[t.id := s.trains[t.id].(availableSeats := t.availableSeats - booking.seatCount)]
      else
        && r.value == Err(TrainNotFound)
        && r.store.trains == s.trains
  {
    var id := s.currentId;
    var created := NewRecord(booking, id, now);
    var stored := s.(bookings := s.bookings[id := created], currentId := id + 1);
    match GetTrain(stored, booking.trainId)
    case None => Step(stored, Ok(created))
    case Some(train) =>
      var update := UpdateTrain(stored, train.id, SeatsPatch(train.availableSeats - booking.seatCount));
      assert update.value.Ok? ==> update.value.value == stored.trains[train.id].(availableSeats := train.availableSeats - booking.seatCount) by {
        if update.value.Ok? {
          TrainByFields(update.value.value, stored.trains[train.id].(availableSeats := train.availableSeats - booking.seatCount));
        }
      }
      match update.value
      case Err(e) => Step(update.store, Err(e))
      case Ok(_) => Step(update.store, Ok(created))
  }

  function GetBooking(s: Store, id: int): (r: Option<Booking>)
    ensures r.Some? <==> id in s.bookings
    ensures r.Some? ==> r.value == s.bookings[id]
  {
    if id in s.bookings then Some(s.bookings[id]) else None
  }

  /** Every booking, in the order the table iterates them: ascending key order. */
  function AllBookings(s: Store): (r: seq<Booking>)
    ensures |r| == |s.bookings|
    ensures forall b :: b in r <==> b in s.bookings.Values
    ensures forall i :: 0 <= i < |r| ==>
      OrderedMaps.Sorted(s.bookings.Keys)[i] in s.bookings && r[i] == s.bookings[OrderedMaps.Sorted(s.bookings.Keys)[i]]
  {
    OrderedMaps.ValuesComplete(s.bookings);
    OrderedMaps.Values(s.bookings)
  }

  /** The bookings made by `userId`, in iteration order. */
  function UserBookings(s: Store, userId: int): (r: seq<Booking>)
    ensures forall b :: b in r <==> b in s.bookings.Values && b.userId == userId
    ensures Seqs.IsSubsequence(r, AllBookings(s))
    ensures forall b :: multiset(r)[b] == if b.userId == userId then multiset(AllBookings(s))[b] else 0
  {
    var mine := (b: Booking) => b.userId == userId;
    Seqs.FilterCounts(AllBookings(s), mine);
    Seqs.Filter(AllBookings(s), mine)
  }

  /** Merges the patch into the booking stored under `id`; throws "Booking not found" if
      there is none. Nothing else changes: in particular a change of status to "cancelled"
      gives no seats back to the train. */
  function UpdateBooking(s: Store, id: int, patch: BookingPatch): (r: Step<Result<Booking, Error>>)
    ensures r.value.Err? <==> id !in s.bookings
    ensures r.value.Err? ==> r.value.error == BookingNotFound && r.store == s
    ensures r.value.Ok? ==> forall f :: r.value.value.Get(f) == Overlay(patch.Get(f), s.bookings[id].Get(f))
    ensures r.value.Ok? ==> r.store.bookings.Keys == s.bookings.Keys && r.store.bookings[id] == r.value.value
    ensures forall k :: k in s.bookings && k != id ==> k in r.store.bookings && r.store.bookings[k] == s.bookings[k]
    ensures r.store.users == s.users && r.store.trains == s.trains
    ensures r.store.currentId == s.currentId
  {
    match GetBooking(s, id)
    case None => Step(s, Err(BookingNotFound))
    case Some(booking) =>
      var updated := booking.Merge(patch);
      Step(s.(bookings := s.bookings[id := updated]), Ok(updated))
  }
}
