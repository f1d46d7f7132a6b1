/** Properties of the store that relate several calls or several states: the shared id
    counter hands out fresh keys, the tables iterate in creation order, patches compose,
    and the seat arithmetic of a booking, including that nothing stops it going negative. */
module StorageProofs {
  import opened Results
  import opened Schema
  import opened Storage
  import OrderedMaps
  import Seqs
  import Text

  // ---------------------------------------------------------------- the shared counter

  /** The constructed store keeps the invariant. */
  lemma InitValid()
    ensures Valid(Init()) && TrainsKeyed(Init())
  {
  }

  /** In a valid store the counter's value is a key of none of the three tables. */
  lemma CounterIsFresh(s: Store)
    requires Valid(s)
    ensures s.currentId !in s.users && s.currentId !in s.trains && s.currentId !in s.bookings
  {
  }

  /** Creating a user keeps the invariant, and the new id was in no table before. */
  lemma CreateUserValid(s: Store, user: NewUser)
    requires Valid(s)
    ensures var r := CreateUser(s, user);
      && Valid(r.store)
      && r.value.id !in s.users && r.value.id !in s.trains && r.value.id !in s.bookings
  {
  }

  /** Creating a train keeps the invariant and the keyed records, and the new id was in no table before. */
  lemma CreateTrainValid(s: Store, train: NewTrain)
    requires Valid(s)
    ensures var r := CreateTrain(s, train);
      && Valid(r.store)
      && (TrainsKeyed(s) ==> TrainsKeyed(r.store))
      && r.value.id !in s.users && r.value.id !in s.trains && r.value.id !in s.bookings
  {
  }

  /** Booking keeps the invariant and the keyed records, and the new id was in no table before. */
  lemma CreateBookingValid(s: Store, booking: NewBooking, now: Instant)
    requires Valid(s)
    ensures var r := CreateBooking(s, booking, now);
      && Valid(r.store)
      && (TrainsKeyed(s) ==> TrainsKeyed(r.store))
      && s.currentId !in s.users && s.currentId !in s.trains && s.currentId !in s.bookings
  {
  }

  /** Updating a train keeps the invariant; it keeps the keyed records unless the patch sets another id. */
  lemma UpdateTrainValid(s: Store, id: int, patch: TrainPatch)
    requires Valid(s)
    ensures Valid(UpdateTrain(s, id, patch).store)
    ensures TrainsKeyed(s) && (patch.id.None? || patch.id == Some(id)) ==> TrainsKeyed(UpdateTrain(s, id, patch).store)
  {
    var r := UpdateTrain(s, id, patch);
    if TrainsKeyed(s) && (patch.id.None? || patch.id == Some(id)) && r.value.Ok? {
      assert r.value.value.Get(TrainId) == Overlay(patch.Get(TrainId), s.trains[id].Get(TrainId));
    }
  }

  /** Deleting a train keeps the invariant and the keyed records. */
  lemma DeleteTrainValid(s: Store, id: int)
    requires Valid(s)
    ensures Valid(DeleteTrain(s, id))
    ensures TrainsKeyed(s) ==> TrainsKeyed(DeleteTrain(s, id))
  {
  }

  /** Updating a booking keeps the invariant. */
  lemma UpdateBookingValid(s: Store, id: int, patch: BookingPatch)
    requires Valid(s)
    ensures Valid(UpdateBooking(s, id, patch).store)
  {
  }

  // ---------------------------------------------------------------- reading back

  /** A created user is found under the id it was given; every other id reads as before. */
  lemma GetUserAfterCreate(s: Store, user: NewUser, k: int)
    ensures GetUser(CreateUser(s, user).store, s.currentId) == Some(CreateUser(s, user).value)
    ensures k != s.currentId ==> GetUser(CreateUser(s, user).store, k) == GetUser(s, k)
  {
  }

  /** A created train is found under the id it was given; every other id reads as before. */
  lemma GetTrainAfterCreate(s: Store, train: NewTrain, k: int)
    ensures GetTrain(CreateTrain(s, train).store, s.currentId) == Some(CreateTrain(s, train).value)
    ensures k != s.currentId ==> GetTrain(CreateTrain(s, train).store, k) == GetTrain(s, k)
  {
  }

  /** A booking is found under the id it was given, as the stored record, whatever happened
      to the train afterwards; every other booking id reads as before. */
  lemma GetBookingAfterCreate(s: Store, booking: NewBooking, now: Instant, k: int)
    ensures GetBooking(CreateBooking(s, booking, now).store, s.currentId) == Some(NewRecord(booking, s.currentId, now))
    ensures k != s.currentId ==> GetBooking(CreateBooking(s, booking, now).store, k) == GetBooking(s, k)
  {
  }

  /** After a successful update the train reads back as the old one with the patch merged in;
      every other id reads as before. */
  lemma GetTrainAfterUpdate(s: Store, id: int, patch: TrainPatch, k: int)
    ensures UpdateTrain(s, id, patch).value.Ok? ==>
      GetTrain(UpdateTrain(s, id, patch).store, id) == Some(s.trains[id].Merge(patch))
    ensures k != id ==> GetTrain(UpdateTrain(s, id, patch).store, k) == GetTrain(s, k)
  {
    if id in s.trains {
      TrainByFields(UpdateTrain(s, id, patch).value.value, s.trains[id].Merge(patch));
    }
  }

  /** After a successful update the booking reads back as the old one with the patch merged in;
      every other id reads as before. */
  lemma GetBookingAfterUpdate(s: Store, id: int, patch: BookingPatch, k: int)
    ensures UpdateBooking(s, id, patch).value.Ok? ==>
      GetBooking(UpdateBooking(s, id, patch).store, id) == Some(s.bookings[id].Merge(patch))
    ensures k != id ==> GetBooking(UpdateBooking(s, id, patch).store, k) == GetBooking(s, k)
  {
    if id in s.bookings {
      BookingByFields(UpdateBooking(s, id, patch).value.value, s.bookings[id].Merge(patch));
    }
  }

  /** A deleted train is no longer found; every other id reads as before. */
  lemma GetTrainAfterDelete(s: Store, id: int, k: int)
    ensures GetTrain(DeleteTrain(s, id), id) == None
    ensures k != id ==> GetTrain(DeleteTrain(s, id), k) == GetTrain(s, k)
  {
  }

  // ---------------------------------------------------------------- iteration order

  /** A new user is listed after every existing one. */
  lemma CreateUserAppends(s: Store, user: NewUser)
    requires Valid(s)
    ensures AllUsers(CreateUser(s, user).store) == AllUsers(s) + [CreateUser(s, user).value]
  {
    OrderedMaps.ValuesInsertLargest(s.users, s.currentId, CreateUser(s, user).value);
  }

  /** A new train is listed after every existing one. */
  lemma CreateTrainAppends(s: Store, train: NewTrain)
    requires Valid(s)
    ensures AllTrains(CreateTrain(s, train).store) == AllTrains(s) + [CreateTrain(s, train).value]
  {
    OrderedMaps.ValuesInsertLargest(s.trains, s.currentId, CreateTrain(s, train).value);
  }

  /** A new booking is listed after every existing one, and after every earlier booking of the same user. */
  lemma CreateBookingAppends(s: Store, booking: NewBooking, now: Instant)
    requires Valid(s)
    ensures AllBookings(CreateBooking(s, booking, now).store) == AllBookings(s) + [NewRecord(booking, s.currentId, now)]
    ensures UserBookings(CreateBooking(s, booking, now).store, booking.userId)
         == UserBookings(s, booking.userId) + [NewRecord(booking, s.currentId, now)]
  {
    var b := NewRecord(booking, s.currentId, now);
    OrderedMaps.ValuesInsertLargest(s.bookings, s.currentId, b);
    Seqs.FilterAppend(AllBookings(s), b, (x: Booking) => x.userId == booking.userId);
  }

  /** An updated train keeps its place in the listing; every other train keeps its place and value. */
  lemma UpdateTrainKeepsPlace(s: Store, id: int, patch: TrainPatch, i: int)
    requires id in s.trains && 0 <= i < |s.trains|
    ensures |AllTrains(UpdateTrain(s, id, patch).store)| == |AllTrains(s)|
    ensures AllTrains(UpdateTrain(s, id, patch).store)[i]
         == if OrderedMaps.Sorted(s.trains.Keys)[i] == id
            then UpdateTrain(s, id, patch).value.value
            else AllTrains(s)[i]
  {
    var updated := s.trains[id].Merge(patch);
    OrderedMaps.ValuesReplace(s.trains, id, updated);
    assert UpdateTrain(s, id, patch).store.trains == s.trains[id := updated];
  }

  /** Deleting a train leaves the other trains listed in the order they had. */
  lemma DeleteTrainKeepsOrder(s: Store, id: int)
    ensures Seqs.IsSubsequence(AllTrains(DeleteTrain(s, id)), AllTrains(s))
  {
    OrderedMaps.ValuesRemove(s.trains, id);
  }

  /** A user created under a username that is already taken is not what the lookup finds. */
  lemma DuplicateUsernameShadowed(s: Store, user: NewUser)
    requires Valid(s)
    requires exists k :: k in s.users && s.users[k].username == user.username
    ensures GetUserByUsername(CreateUser(s, user).store, user.username) == GetUserByUsername(s, user.username)
    ensures GetUserByUsername(CreateUser(s, user).store, user.username) != Some(CreateUser(s, user).value)
  {
    var r := CreateUser(s, user);
    var p := (u: User) => u.username == user.username;
    var us, us' := AllUsers(s), AllUsers(r.store);
    CreateUserAppends(s, user);
    var k :| k in s.users && s.users[k].username == user.username;
    assert s.users[k] in us;
    var i := Seqs.FindFirst(us, p).value;
    Seqs.FindFirstAppend(us, r.value, p);
    assert GetUserByUsername(s, user.username) == Some(us[i]);
    assert us'[i] == us[i];
    assert us[i] in s.users.Values;
  }

  // ---------------------------------------------------------------- patches

  /** Two successive updates of one train are one update with the combined patch. */
  lemma UpdateTrainTwice(s: Store, id: int, p: TrainPatch, q: TrainPatch)
    ensures UpdateTrain(UpdateTrain(s, id, p).store, id, q) == UpdateTrain(s, id, p.Then(q))
  {
    if id in s.trains {
      MergeTwice(s.trains[id], p, q);
    }
  }

  /** An update with the empty patch leaves the store as it was. */
  lemma UpdateTrainNothing(s: Store, id: int)
    ensures UpdateTrain(s, id, NoTrainChange).store == s
  {
    if id in s.trains {
      MergeNothing(s.trains[id]);
      assert s.trains[id := s.trains[id]] == s.trains;
    }
  }

  /** Repeating a booking update changes nothing more. */
  lemma UpdateBookingIdempotent(s: Store, id: int, patch: BookingPatch)
    ensures UpdateBooking(UpdateBooking(s, id, patch).store, id, patch).store == UpdateBooking(s, id, patch).store
  {
    if id in s.bookings {
      BookingMergeIdempotent(s.bookings[id], patch);
    }
  }

  // ---------------------------------------------------------------- seats

  /** Booking against a train stored under its own id: the booking succeeds whatever the
      seat count, the train's seat count drops by exactly the seats booked, and nothing
      else about any train changes. */
  lemma BookingTakesSeats(s: Store, booking: NewBooking, now: Instant)
    requires booking.trainId in s.trains && s.trains[booking.trainId].id == booking.trainId
    ensures var r := CreateBooking(s, booking, now);
      && r.value.Ok?
      && r.store.trains.Keys == s.trains.Keys
      && r.store.trains[booking.trainId].availableSeats == s.trains[booking.trainId].availableSeats - booking.seatCount
      && (forall f :: f != AvailableSeats ==> r.store.trains[booking.trainId].Get(f) == s.trains[booking.trainId].Get(f))
      && (forall k :: k in s.trains && k != booking.trainId ==> r.store.trains[k] == s.trains[k])
  {
  }

  /** Nothing stops a booking from taking more seats than are left: from the constructed
      store, a train with one seat left, booked for two, ends with minus one. */
  lemma OverbookingAccepted()
    ensures var s1 := CreateTrain(Init(), NewTrain("Express", "Chennai", "Madurai", 0, 3600000, 1, 1, 500));
      var r := CreateBooking(s1.store, NewBooking(1, s1.value.id, 2, 1000, "confirmed"), 0);
      && r.value.Ok?
      && r.store.trains[s1.value.id].availableSeats == -1
  {
    var s1 := CreateTrain(Init(), NewTrain("Express", "Chennai", "Madurai", 0, 3600000, 1, 1, 500));
    BookingTakesSeats(s1.store, NewBooking(1, s1.value.id, 2, 1000, "confirmed"), 0);
  }

  /** The seats booked against a train: the seat counts of all bookings naming it, whatever their status. */
  function SeatsBooked(s: Store, trainId: int): int {
    Seqs.Sum(AllBookings(s), (b: Booking) => if b.trainId == trainId then b.seatCount else 0)
  }

  /** Booking moves seats from the train's count to the bookings: for every train stored
      under its own id, seats left plus seats booked is the same before and after. */
  lemma BookingConservesSeats(s: Store, booking: NewBooking, now: Instant, k: int)
    requires Valid(s) && TrainsKeyed(s) && k in s.trains
    ensures var r := CreateBooking(s, booking, now);
      k in r.store.trains &&
      r.store.trains[k].availableSeats + SeatsBooked(r.store, k) == s.trains[k].availableSeats + SeatsBooked(s, k)
  {
    var b := NewRecord(booking, s.currentId, now);
    CreateBookingAppends(s, booking, now);
    Seqs.SumAppend(AllBookings(s), b, (x: Booking) => if x.trainId == k then x.seatCount else 0);
    if booking.trainId in s.trains {
      BookingTakesSeats(s, booking, now);
    }
  }

  /** Changing a booking's status, to "cancelled" or anything else, gives no seats back. */
  lemma StatusChangeKeepsTrains(s: Store, id: int, status: string)
    ensures UpdateBooking(s, id, StatusPatch(status)).store.trains == s.trains
    ensures id in s.bookings ==> UpdateBooking(s, id, StatusPatch(status)).store.bookings[id].seatCount == s.bookings[id].seatCount
  {
    if id in s.bookings {
      var r := UpdateBooking(s, id, StatusPatch(status));
      assert r.value.value.Get(SeatCount) == s.bookings[id].Get(SeatCount);
    }
  }

  /** When a patch has moved a train's `id` away from its key, booking that train stores the
      booking and advances the counter, then throws "Train not found", and no seat count changes. */
  lemma BookingAfterIdChangeThrows(s: Store, key: int, newId: int, booking: NewBooking, now: Instant)
    requires key in s.trains && newId !in s.trains && booking.trainId == key
    ensures var moved := UpdateTrain(s, key, NoTrainChange.(id := Some(newId))).store;
      var r := CreateBooking(moved, booking, now);
      && r.value == Err(TrainNotFound)
      && r.store.trains == moved.trains
      && s.currentId in r.store.bookings
      && r.store.currentId == s.currentId + 1
  {
    var p := NoTrainChange.(id := Some(newId));
    var moved := UpdateTrain(s, key, p);
    assert moved.value.value.Get(TrainId) == Overlay(p.Get(TrainId), s.trains[key].Get(TrainId));
  }

  // ---------------------------------------------------------------- search

  /** The server search ignores case in the places it is given. */
  lemma SearchIgnoresCase(s: Store, from: string, to: string, date: Instant, dayOf: Instant -> int)
    ensures SearchTrains(s, Text.Lower(from), Text.Lower(to), date, dayOf) == SearchTrains(s, from, to, date, dayOf)
  {
    Text.LowerIdempotent(from);
    Text.LowerIdempotent(to);
    var p := (t: Train) => Runs(t, Text.Lower(from), Text.Lower(to), date, dayOf);
    var q := (t: Train) => Runs(t, from, to, date, dayOf);
    assert forall t :: p(t) == q(t);
    Seqs.FilterSamePredicate(AllTrains(s), p, q);
  }
}
