# Railway reservation store, modelled in Dafny

This project models the in-memory store `MemStorage` of a train-ticket reservation
application, and the client-side train search of its web front end.

The store has three tables keyed by number: users, trains and bookings. One counter,
`currentId`, hands out the id of every new record in any of the three tables. The
operations are:

- create, get and look up by username for users;
- create, update (merge a partial record), delete, get, list and search for trains;
- create, get, list per user, list all and update for bookings.

Creating a booking also lowers the booked train's `availableSeats` by the booking's
`seatCount`. Nothing checks that enough seats are left.

Each asynchronous method is modelled as a pure function. It takes the store before the
call and returns the store after it, together with the method's result. Calls never
interleave, so `await` is plain sequencing. A method that throws returns `Err` together
with the store as the throw leaves it:

- `updateTrain` and `updateBooking` leave the store unchanged when they throw;
- `createBooking` can throw after it has already stored the booking (see below).

Files:

- `results.dfy`: `Option` and `Result`.
- `text.dfy`: ASCII lower-casing and substring inclusion (`toLowerCase`, `includes`).
- `seqs.dfy`: order-preserving filter, find-first and sum over sequences.
- `ordered_maps.dfy`: a map's values listed in ascending key order.
- `schema.dfy`: the user, train and booking records; their insert shapes; partial
  records (patches) and how they merge; the errors.
- `storage.dfy`: the store and its operations.
- `storage_proofs.dfy`: properties that relate several calls.
- `train_search.dfy`: the client-side search filter.

Modelling choices:

- **Iteration order.** A JavaScript `Map` lists values in insertion order. Setting an
  existing key keeps that key's place. The store only ever inserts under `currentId`,
  which is above every key present. So, for every store the operations build, insertion
  order is ascending key order. The model lists values in ascending key order. The
  `Create*Appends` lemmas show that a new record is listed last.
  `UpdateTrainKeepsPlace` shows that an update keeps the record's place, and
  `DeleteTrainKeepsOrder` shows that a delete keeps the order of the rest.
- **Partial records.** A partial record (`Partial<Train>`, `Partial<Booking>`) has an
  `Option` per field. `{ ...record, ...patch }` overwrites exactly the fields that are
  present in the patch. A patch may include `id`.
- **The record's id versus its key.** An update whose patch sets a different `id` leaves
  the train under its old key with a new `id` field. `createBooking` then updates the
  train stored under the looked-up record's `id` field, not under the booking's
  `trainId`. If no train has that key, `createBooking` throws "Train not found". By then
  the booking is already stored and the counter has advanced.
- **Users and the admin flag.** A new user's insert shape carries an optional admin flag.
  The constructor passes `isAdmin: true` for the built-in administrator. A registration
  passes no flag, and the spread copies only the fields that are present.
- **No business rules beyond the arithmetic.** The store checks no seat limit and
  computes no total price: `createBooking` stores whatever `totalPrice` and `status` it
  is given. The bookings page cancels by sending the patch `{ status: "cancelled" }`
  (`client/src/pages/bookings.tsx:24-25`), and that status change gives no seats back.
  Nothing makes the check-and-decrement atomic either. The model follows the code, so
  seat counts can go negative (`OverbookingAccepted`).
- **Reads.** Read operations return a value and no new store, so they cannot change the
  store. Records are values here: what a getter returns is a copy, not the stored object
  (see "Left out").

## Model

| member | source | states |
|---|---|---|
| Storage.Init | server/storage.ts:37-52 | the constructed store holds exactly one user (id 1, "admin", admin flag set), no trains, no bookings, and the counter is 2 |
| Storage.GetUser | server/storage.ts:54-56 | a user is returned iff the id is a key of the users table, and it is the stored record |
| Storage.AllUsers | server/storage.ts:59 | lists every stored user exactly once and nothing else, in ascending key order (the table's iteration order) |
| Storage.GetUserByUsername | server/storage.ts:58-62 | nothing is found iff no user has that exact username; otherwise the result has that username and, among users with that username, the smallest key (the first in iteration order) |
| Storage.CreateUser | server/storage.ts:64-69 | the new user takes the counter's value as id and the given fields; the counter advances by one; only the users table gains that one entry |
| Storage.CreateTrain | server/storage.ts:71-76 | the new train takes the counter's value as id and every given field; the counter advances by one; only the trains table gains that one entry |
| Storage.UpdateTrain | server/storage.ts:78-85 | throws "Train not found" iff the id is absent, and then the store is unchanged; otherwise each patched field takes the patched value, every other field keeps its value, the key set is unchanged, and every other train and the rest of the store is unchanged |
| Storage.DeleteTrain | server/storage.ts:87-89 | removes exactly the given key and nothing else, so bookings that refer to the train stay; absent key means no change |
| Storage.GetTrain | server/storage.ts:91-93 | a train is returned iff the id is a key of the trains table, and it is the stored record |
| Storage.AllTrains | server/storage.ts:95-97 | lists every stored train exactly once and nothing else, in ascending key order |
| Storage.SearchTrains | server/storage.ts:99-105 | a train is in the result iff it is stored, its from and to equal the query's ignoring case, and it departs on the query's calendar day; the result keeps the listing's order, and each matching train occurs in it exactly as often as in the listing |
| Storage.NewRecord | server/storage.ts:109 | the stored booking record has the new id, the creation time, and every field of the insert shape unchanged |
| Storage.CreateBooking | server/storage.ts:107-121 | the booking is stored under the counter's value, stamped with the current time, and the counter advances, whatever else happens; an absent train leaves the trains untouched; otherwise the train keyed by the found record's id gets that record's seat count minus the seats booked, with no availability check; if that key is absent, "Train not found" is thrown and the trains are untouched |
| Storage.GetBooking | server/storage.ts:123-125 | a booking is returned iff the id is a key of the bookings table, and it is the stored record |
| Storage.AllBookings | server/storage.ts:133-135 | lists every stored booking exactly once and nothing else, in ascending key order |
| Storage.UserBookings | server/storage.ts:127-131 | a booking is in the result iff it is stored and its userId is the given one; the result keeps the listing's order, and each of the user's bookings occurs in it exactly as often as in the listing |
| Storage.UpdateBooking | server/storage.ts:137-144 | throws "Booking not found" iff the id is absent, and then the store is unchanged; otherwise a field-wise merge of that booking only, with trains, users and the counter unchanged |
| Schema.Train.Merge | server/storage.ts:82 | every field present in the patch takes the patch's value, and every absent field keeps the train's value |
| Schema.Booking.Merge | server/storage.ts:141 | every field present in the patch takes the patch's value, and every absent field keeps the booking's value |
| Schema.SeatsPatch | server/storage.ts:115-117 | the patch the booking applies has the seat count present and every other field absent |
| Schema.MergeNothing | server/storage.ts:82 | merging a patch with no fields present gives back the same train |
| Schema.MergeTwice | server/storage.ts:82 | merging two patches in turn equals merging once the patch in which the later one's fields win |
| Schema.MergeIdempotent | server/storage.ts:82 | merging the same train patch a second time changes nothing |
| Schema.BookingMergeIdempotent | server/storage.ts:141 | merging the same booking patch a second time changes nothing |
| StorageProofs.InitValid | server/storage.ts:37-52 | the constructed store satisfies the invariant: keys below the counter, no key in two tables, each user and train stored under its own id |
| StorageProofs.CounterIsFresh | server/storage.ts:30-34 | in a store satisfying the invariant, the counter's value is a key of none of the three tables |
| StorageProofs.CreateUserValid | server/storage.ts:64-69 | creating a user keeps the invariant, and the new id was a key of no table before |
| StorageProofs.CreateTrainValid | server/storage.ts:71-76 | creating a train keeps the invariant and trains stored under their own id, and the new id was a key of no table before |
| StorageProofs.CreateBookingValid | server/storage.ts:107-121 | booking keeps the invariant and trains stored under their own id, and the new id was a key of no table before |
| StorageProofs.UpdateTrainValid | server/storage.ts:78-85 | updating a train keeps the invariant, and keeps trains stored under their own id unless the patch sets a different id |
| StorageProofs.DeleteTrainValid | server/storage.ts:87-89 | deleting a train keeps the invariant |
| StorageProofs.UpdateBookingValid | server/storage.ts:137-144 | updating a booking keeps the invariant |
| StorageProofs.GetUserAfterCreate | server/storage.ts:54-69 | a created user reads back under its new id as the returned record; every other id reads as before |
| StorageProofs.GetTrainAfterCreate | server/storage.ts:71-76 | a created train reads back under its new id as the returned record; every other id reads as before |
| StorageProofs.GetBookingAfterCreate | server/storage.ts:107-110 | a booking reads back under its new id as the stored record, whatever the seat update did; every other booking id reads as before |
| StorageProofs.GetTrainAfterUpdate | server/storage.ts:78-85 | after a successful update the train reads back as the old train with the patch merged in; every other id reads as before |
| StorageProofs.GetBookingAfterUpdate | server/storage.ts:137-144 | after a successful update the booking reads back as the old booking with the patch merged in; every other id reads as before |
| StorageProofs.GetTrainAfterDelete | server/storage.ts:87-93 | a deleted train is no longer found; every other id reads as before |
| StorageProofs.CreateUserAppends | server/storage.ts:64-69 | a new user is listed after all existing users |
| StorageProofs.CreateTrainAppends | server/storage.ts:71-76 | a new train is listed after all existing trains |
| StorageProofs.CreateBookingAppends | server/storage.ts:107-110 | a new booking is listed after all existing bookings, and last among its user's bookings |
| StorageProofs.UpdateTrainKeepsPlace | server/storage.ts:82-83 | after an update every position of the train listing holds the same train as before, except the updated key's position, which holds the merged train |
| StorageProofs.DeleteTrainKeepsOrder | server/storage.ts:87-89 | after a delete the remaining trains are listed in the order they had before |
| StorageProofs.DuplicateUsernameShadowed | server/storage.ts:58-67 | creating a user under a username that is already taken does not change what the lookup by username returns, so the lookup does not return the new user |
| StorageProofs.UpdateTrainTwice | server/storage.ts:78-85 | two successive updates of one train equal one update with the combined patch |
| StorageProofs.UpdateTrainNothing | server/storage.ts:78-85 | an update with no field present leaves the store as it was |
| StorageProofs.UpdateBookingIdempotent | server/storage.ts:137-144 | repeating a booking update leaves the store as the first one left it |
| StorageProofs.BookingTakesSeats | server/storage.ts:112-118 | booking a train stored under its own id always succeeds; that train's seat count drops by exactly the seats booked, its other fields and all other trains are unchanged |
| StorageProofs.OverbookingAccepted | server/storage.ts:113-118 | from the constructed store, booking two seats on a train with one seat left succeeds and leaves minus one |
| StorageProofs.BookingConservesSeats | server/storage.ts:107-118 | in a store with trains stored under their own id, seats left plus seats booked (all bookings naming the train, any status) is the same before and after a booking, for every train |
| StorageProofs.StatusChangeKeepsTrains | server/storage.ts:137-144 | changing a booking's status, including to "cancelled", changes no train and keeps the booking's seat count |
| StorageProofs.BookingAfterIdChangeThrows | server/storage.ts:113-117 | after a patch moves a train's id field to an unused key, booking that train throws "Train not found" yet stores the booking and advances the counter, and no train changes |
| StorageProofs.SearchIgnoresCase | server/storage.ts:100-102 | searching with lower-cased places gives the same list, in the same order, as searching with the places as given |
| Text.Lower | server/storage.ts:101 | lower-casing keeps the length, maps each character to its lower-case form, and leaves no upper-case letter |
| Text.Includes | client/src/components/trains/train-search.tsx:26 | the needle is included iff it is a prefix of the haystack from some position on; the empty needle is included everywhere |
| Seqs.Filter | server/storage.ts:128-130 | the result holds exactly the elements that satisfy the predicate, as an order-preserving subsequence of the input |
| Seqs.FilterCounts | server/storage.ts:128-130 | each element satisfying the predicate occurs in the result as often as in the input, and every other element not at all |
| Seqs.FindFirst | server/storage.ts:59-61 | nothing is found iff no element satisfies the predicate; otherwise the position found satisfies it and no earlier one does |
| OrderedMaps.Values | server/storage.ts:96 | the listing has one entry per key, the value stored under the key at that position in ascending key order |
| OrderedMaps.ValuesInsertLargest | server/storage.ts:65-67 | storing under a key above all present keys appends the value at the end of the listing |
| OrderedMaps.ValuesRemove | server/storage.ts:88 | removing a key leaves the remaining values listed in their previous order |
| TrainSearch.Search | client/src/components/trains/train-search.tsx:22-30 | nothing cached gives the empty list; otherwise a train is kept iff it is cached and each non-empty field, lower-cased, occurs in the train's lower-cased origin or destination; the result is an order-preserving subsequence of the cache, and each kept train occurs in it as often as in the cache |
| TrainSearch.BlankKeepsAll | client/src/components/trains/train-search.tsx:26-28 | with both fields empty every cached train is kept, in order |
| TrainSearch.SearchIdempotent | client/src/components/trains/train-search.tsx:24-29 | searching the result again with the same text gives the same result |
| TrainSearch.SearchIgnoresCase | client/src/components/trains/train-search.tsx:26-28 | the result does not depend on the case of what was typed |
| TrainSearch.TypingNarrows | client/src/components/trains/train-search.tsx:26 | extending the origin text keeps an order-preserving part of what the shorter text kept |

## Left out

- The session store (`server/storage.ts:42-44`): it is an external library with its own
  expiry timer.
- The rest of the repository is left out: the HTTP routes, the database connection, the
  React pages and forms, and the query cache. The routes call store methods that
  `MemStorage` does not define (`getTrains`, `getReservationsByUser`,
  `createReservation`, `updateReservation`), so they cannot be tied to the model.
- Password hashing and authentication: the store keeps whatever password it is given.
- Storage.SearchTrains: only ASCII letters are lower-cased. Full Unicode `toLowerCase` is
  not modelled.
- Storage.SearchTrains: `toDateString` depends on the time zone. It is modelled as a
  calendar-day function `dayOf`, passed in as a parameter. Invalid dates are not modelled.
- Storage.CreateBooking: `new Date()` is modelled as a `now` parameter.
- JavaScript numbers are modelled as unbounded integers. There is no floating point, no
  `NaN` from `parseInt`, and no loss of precision above 2^53.
- Request bodies are untyped at run time. A patch whose field has the wrong type (a string
  for a seat count, say) is not modelled: patches here are well typed.
- Promises, the event loop and concurrency. The code offers no atomic check-and-decrement,
  and the model claims no overbooking guarantee.
- TrainSearch.Search: only ASCII letters are lower-cased, as in the server search.
- TrainSearch.Search: the client code reads `origin`, `destination` and `seats`. The
  shared schema names the train's places `from` and `to` (`shared/schema.ts`), and the
  admin dashboard creates trains of that shape (`client/src/pages/admin/dashboard.tsx:50`).
  On such a record `train.origin` is undefined, so a non-empty origin or destination
  makes the filter throw a `TypeError` (`client/src/components/trains/train-search.tsx:26-28`)
  instead of filtering. The filter is modelled over a record with the fields the client
  reads, so that failure is not modelled.
- Aliasing of returned records: the create and get operations return the table's own
  objects (`server/storage.ts:55`, `:68`, `:75`, `:92`, `:120`, `:124`), so a caller
  that mutates a returned record changes the store. Records here are immutable values,
  and that sharing is not modelled.
