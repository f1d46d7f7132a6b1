/** The records the store holds (the `users`, `trains` and `bookings` tables of the
    shared schema), the insert shapes its create operations take, the partial records
    its update operations merge in, and the errors it throws.

    Numbers are JavaScript numbers used as integers; the model takes them as unbounded
    integers. Timestamps are milliseconds since the epoch. */
module Schema {
  import opened Results

  /** A point in time, in milliseconds since the epoch. */
  type Instant = int

  datatype User = User(id: int, username: string, password: string, isAdmin: Option<bool>)

  /** The fields a new user is created from. The flag is optional: a registration carries
      only a username and a password, the built-in administrator also carries the flag. */
  datatype NewUser = NewUser(username: string, password: string, isAdmin: Option<bool>)

  datatype Train = Train(
    id: int,
    name: string,
    from: string,
    to: string,
    departureTime: Instant,
    arrivalTime: Instant,
    totalSeats: int,
    availableSeats: int,
    price: int)
  {
    /** The value of one field, read by name. */
    function Get(f: TrainField): FieldValue {
      match f
      case TrainId => Num(id)
      case Name => Str(name)
      case From => Str(from)
      case To => Str(to)
      case DepartureTime => Num(departureTime)
      case ArrivalTime => Num(arrivalTime)
      case TotalSeats => Num(totalSeats)
      case AvailableSeats => Num(availableSeats)
      case Price => Num(price)
    }

    /** `{ ...this, ...p }`: the fields present in the patch win, every other field is kept. */
    function Merge(p: TrainPatch): (r: Train)
      ensures forall f :: r.Get(f) == Overlay(p.Get(f), Get(f))
    {
      Train(
        Overlay(p.id, id),
        Overlay(p.name, name),
        Overlay(p.from, from),
        Overlay(p.to, to),
        Overlay(p.departureTime, departureTime),
        Overlay(p.arrivalTime, arrivalTime),
        Overlay(p.totalSeats, totalSeats),
        Overlay(p.availableSeats, availableSeats),
        Overlay(p.price, price))
    }
  }

  /** The fields a new train is created from: every field but the id. */
  datatype NewTrain = NewTrain(
    name: string,
    from: string,
    to: string,
    departureTime: Instant,
    arrivalTime: Instant,
    totalSeats: int,
    availableSeats: int,
    price: int)

  /** `Partial<Train>`: each field is either present or absent. */
  datatype TrainPatch = TrainPatch(
    id: Option<int>,
    name: Option<string>,
    from: Option<string>,
    to: Option<string>,
    departureTime: Option<Instant>,
    arrivalTime: Option<Instant>,
    totalSeats: Option<int>,
    availableSeats: Option<int>,
    price: Option<int>)
  {
    function Get(f: TrainField): Option<FieldValue> {
      match f
      case TrainId => NumOf(id)
      case Name => StrOf(name)
      case From => StrOf(from)
      case To => StrOf(to)
      case DepartureTime => NumOf(departureTime)
      case ArrivalTime => NumOf(arrivalTime)
      case TotalSeats => NumOf(totalSeats)
      case AvailableSeats => NumOf(availableSeats)
      case Price => NumOf(price)
    }

    /** `{ ...this, ...q }` on two patches: a field present in `q` wins, otherwise this one's. */
    function Then(q: TrainPatch): (r: TrainPatch)
      ensures forall f :: r.Get(f) == (if q.Get(f).Some? then q.Get(f) else Get(f))
    {
      TrainPatch(
        Either(q.id, id),
        Either(q.name, name),
        Either(q.from, from),
        Either(q.to, to),
        Either(q.departureTime, departureTime),
        Either(q.arrivalTime, arrivalTime),
        Either(q.totalSeats, totalSeats),
        Either(q.availableSeats, availableSeats),
        Either(q.price, price))
    }
  }

  /** The patch with no field present. */
  const NoTrainChange := TrainPatch(None, None, None, None, None, None, None, None, None)

  /** The patch `{ availableSeats: n }` that the booking operation applies. */
  function SeatsPatch(n: int): (p: TrainPatch)
    ensures forall f :: p.Get(f).Some? <==> f == AvailableSeats
    ensures p.Get(AvailableSeats) == Some(Num(n))
  {
    NoTrainChange.(availableSeats := Some(n))
  }

  datatype TrainField =
    TrainId | Name | From | To | DepartureTime | ArrivalTime | TotalSeats | AvailableSeats | Price

  datatype Booking = Booking(
    id: int,
    userId: int,
    trainId: int,
    seatCount: int,
    totalPrice: int,
    status: string,
    createdAt: Instant)
  {
    function Get(f: BookingField): FieldValue {
      match f
      case BookingId => Num(id)
      case UserId => Num(userId)
      case BookedTrain => Num(trainId)
      case SeatCount => Num(seatCount)
      case TotalPrice => Num(totalPrice)
      case Status => Str(status)
      case CreatedAt => Num(createdAt)
    }

    /** `{ ...this, ...p }` for bookings. */
    function Merge(p: BookingPatch): (r: Booking)
      ensures forall f :: r.Get(f) == Overlay(p.Get(f), Get(f))
    {
      Booking(
        Overlay(p.id, id),
        Overlay(p.userId, userId),
        Overlay(p.trainId, trainId),
        Overlay(p.seatCount, seatCount),
        Overlay(p.totalPrice, totalPrice),
        Overlay(p.status, status),
        Overlay(p.createdAt, createdAt))
    }
  }

  /** The fields a booking is created from: every field but the id and the creation time. */
  datatype NewBooking = NewBooking(
    userId: int,
    trainId: int,
    seatCount: int,
    totalPrice: int,
    status: string)

  /** `Partial<Booking>`. */
  datatype BookingPatch = BookingPatch(
    id: Option<int>,
    userId: Option<int>,
    trainId: Option<int>,
    seatCount: Option<int>,
    totalPrice: Option<int>,
    status: Option<string>,
    createdAt: Option<Instant>)
  {
    function Get(f: BookingField): Option<FieldValue> {
      match f
      case BookingId => NumOf(id)
      case UserId => NumOf(userId)
      case BookedTrain => NumOf(trainId)
      case SeatCount => NumOf(seatCount)
      case TotalPrice => NumOf(totalPrice)
      case Status => StrOf(status)
      case CreatedAt => NumOf(createdAt)
    }
  }

  /** The patch `{ status: s }`, as a status change sends it. */
  function StatusPatch(s: string): (p: BookingPatch)
    ensures forall f :: p.Get(f).Some? <==> f == Status
  {
    BookingPatch(None, None, None, None, None, Some(s), None)
  }

  datatype BookingField = BookingId | UserId | BookedTrain | SeatCount | TotalPrice | Status | CreatedAt

  /** A field's value, whichever record it belongs to. */
  datatype FieldValue = Num(n: int) | Str(s: string)

  /** The value in the option if there is one, else the fallback. */
  function Overlay<T>(o: Option<T>, fallback: T): T {
    match o
    case Some(v) => v
    case None => fallback
  }

  /** The first option if present, else the second. */
  function Either<T>(first: Option<T>, second: Option<T>): Option<T> {
    if first.Some? then first else second
  }

  function NumOf(o: Option<int>): Option<FieldValue> {
    match o
    case Some(n) => Some(Num(n))
    case None => None
  }

  function StrOf(o: Option<string>): Option<FieldValue> {
    match o
    case Some(s) => Some(Str(s))
    case None => None
  }

  /** What the store throws; the message is the text of the `Error` it raises. */
  datatype Error = TrainNotFound | BookingNotFound {
    function Message(): string {
      match this
      case TrainNotFound => "Train not found"
      case BookingNotFound => "Booking not found"
    }
  }

  /** A train is determined by its fields. */
  lemma TrainByFields(a: Train, b: Train)
    requires forall f :: a.Get(f) == b.Get(f)
    ensures a == b
  {
    assert a.Get(TrainId) == b.Get(TrainId) && a.Get(Name) == b.Get(Name);
    assert a.Get(From) == b.Get(From) && a.Get(To) == b.Get(To);
    assert a.Get(DepartureTime) == b.Get(DepartureTime) && a.Get(ArrivalTime) == b.Get(ArrivalTime);
    assert a.Get(TotalSeats) == b.Get(TotalSeats) && a.Get(AvailableSeats) == b.Get(AvailableSeats);
    assert a.Get(Price) == b.Get(Price);
  }

  /** A booking is determined by its fields. */
  lemma BookingByFields(a: Booking, b: Booking)
    requires forall f :: a.Get(f) == b.Get(f)
    ensures a == b
  {
    assert a.Get(BookingId) == b.Get(BookingId) && a.Get(UserId) == b.Get(UserId);
    assert a.Get(BookedTrain) == b.Get(BookedTrain) && a.Get(SeatCount) == b.Get(SeatCount);
    assert a.Get(TotalPrice) == b.Get(TotalPrice) && a.Get(Status) == b.Get(Status);
    assert a.Get(CreatedAt) == b.Get(CreatedAt);
  }

  /** Merging the empty patch changes nothing. */
  lemma MergeNothing(t: Train)
    ensures t.Merge(NoTrainChange) == t
  {
    TrainByFields(t.Merge(NoTrainChange), t);
  }

  /** Merging two patches one after the other is merging their combination once. */
  lemma MergeTwice(t: Train, p: TrainPatch, q: TrainPatch)
    ensures t.Merge(p).Merge(q) == t.Merge(p.Then(q))
  {
    TrainByFields(t.Merge(p).Merge(q), t.Merge(p.Then(q)));
  }

  /** Merging the same patch again changes nothing more. */
  lemma MergeIdempotent(t: Train, p: TrainPatch)
    ensures t.Merge(p).Merge(p) == t.Merge(p)
  {
    TrainByFields(t.Merge(p).Merge(p), t.Merge(p));
  }

  /** Merging a booking patch again changes nothing more. */
  lemma BookingMergeIdempotent(b: Booking, p: BookingPatch)
    ensures b.Merge(p).Merge(p) == b.Merge(p)
  {
    BookingByFields(b.Merge(p).Merge(p), b.Merge(p));
  }
}
