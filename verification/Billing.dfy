/**
 The billing event handlers. Repositories are the maps and the call log their
 traits promise; prices come from an arbitrary catalogue. Money is integer
 micro-credits. A handler that fails does so before its first write, so it
 leaves the books as they were.
 */
module Billing {
  import opened Basics

  type RentalId = string
  type UserId = string
  type PackageId = string
  type Money = int

  datatype RentalState = Pending | Active | Suspended | Terminating | Completed | Failed
  {
    predicate Ended() { Completed? || Failed? }
  }

  datatype Usage =
    Usage(gpuHours: real, cpuHours: real, memoryGbHours: real, storageGbHours: real, networkGb: real, diskIoGb: real)
  {
    function Plus(u: Usage): Usage {
      Usage(gpuHours + u.gpuHours, cpuHours + u.cpuHours, memoryGbHours + u.memoryGbHours,
            storageGbHours + u.storageGbHours, networkGb + u.networkGb, diskIoGb + u.diskIoGb)
    }
  }

  /** A telemetry report; anything in it may be missing. */
  datatype Report = Report(
    cpuPercent: Option<real>, memoryMb: Option<nat>, gpuPercent: Option<real>,
    received: Option<nat>, sent: Option<nat>, diskRead: Option<nat>, diskWritten: Option<nat>)

  /** Whole gigabytes of two byte counts, whose sum wraps around at 64 bits. */
  function Gigabytes(a: Option<nat>, b: Option<nat>): nat {
    (a.GetOr(0) + b.GetOr(0)) % 0x1_0000_0000_0000_0000 / 1_073_741_824
  }

  /** The usage a report stands for; a GPU that says nothing counts as fully used. */
  function UsageFrom(t: Report): Usage {
    Usage(if t.gpuPercent.Some? then t.gpuPercent.value / 100.0 else 1.0,
          t.cpuPercent.GetOr(0.0) / 100.0,
          t.memoryMb.GetOr(0) as real / 1024.0,
          0.0,
          Gigabytes(t.received, t.sent) as real,
          Gigabytes(t.diskRead, t.diskWritten) as real)
  }

  const NO_USAGE := Usage(0.0, 0.0, 0.0, 0.0, 0.0, 0.0)
  const ONE_GPU_HOUR := NO_USAGE.(gpuHours := 1.0)
  const DEFAULT_PACKAGE: PackageId := "h100"

  datatype Rental = Rental(
    user: UserId, packageId: PackageId, reservation: Option<nat>, state: RentalState,
    startedAt: Option<int>, endedAt: Option<int>, cost: Money)

  /** The packages on offer, what each charges for a usage, and which one serves a GPU model. */
  datatype Catalogue = Catalogue(packages: set<PackageId>, prices: (PackageId, Usage) -> Money, models: map<string, PackageId>)
  {
    function Price(p: PackageId, u: Usage): Money { prices(p, u) }
  }

  /** Calls made on the credit repository, each deduction tagged with the rental it was made for; a failure is ignored. */
  datatype Entry =
    | Reserve(rental: RentalId, user: UserId, amount: Money, id: nat)
    | Deduct(rental: RentalId, user: UserId, amount: Money, succeeded: bool)
    | Release(id: nat, succeeded: bool)

  /** What a handler meets: the time, and whether the credit repository does as it is asked. */
  datatype Env = Env(now: int, reserves: bool, deducts: bool, releases: bool)

  datatype Books = Books(
    rentals: map<RentalId, Rental>, usage: map<RentalId, Usage>, ledger: seq<Entry>, nextReservation: nat)
  {
    function UsageOf(r: RentalId): Usage {
      if r in usage then usage[r] else NO_USAGE
    }
  }

  /** Event payloads that do not parse are None; telemetry always parses. A resource update
      may lack resources, and they a GPU model. */
  datatype Event =
    | Telemetry(rental: RentalId, report: Report)
    | StatusChange(rental: RentalId, newStatus: Option<string>)
    | CostUpdate(rental: RentalId, total: Option<Money>)
    | RentalStart(rental: RentalId, user: UserId, package: Option<PackageId>)
    | RentalEnd(rental: RentalId, reason: Option<Option<string>>)
    | ResourceUpdate(rental: RentalId, model: Option<Option<string>>)

  datatype Error = ValidationError | RentalNotFound | PackageNotFound | ReservationRefused

  // ----- What each handler does to the books -----

  function ParseStatus(s: string): Option<RentalState> {
    if s == "pending" then Some(Pending)
    else if s == "active" then Some(Active)
    else if s == "completed" then Some(Completed)
    else if s == "failed" then Some(Failed)
    else None
  }

  function OnTelemetry(cat: Catalogue, b: Books, r: RentalId, used: Usage): Result<Books, Error> {
    if r !in b.rentals then Failure(RentalNotFound)
    else if !b.rentals[r].state.Active? then Success(b)
    else if b.rentals[r].packageId !in cat.packages then Failure(PackageNotFound)
    else Success(b.(usage := b.usage[r := b.UsageOf(r).Plus(used)]))
  }

  /** Charges the usage so far, releases the reservation and records the end. */
  function Settled(cat: Catalogue, b: Books, r: RentalId, state: RentalState, env: Env): Books
    requires r in b.rentals
  {
    var rental := b.rentals[r];
    var amount := cat.Price(rental.packageId, b.UsageOf(r));
    b.(rentals := b.rentals[r := rental.(state := state, endedAt := Some(env.now), cost := amount)],
       ledger := b.ledger + [Deduct(r, rental.user, amount, env.deducts)]
                 + if rental.reservation.Some? then [Release(rental.reservation.value, env.releases)] else [])
  }

  function OnStatusChange(cat: Catalogue, b: Books, r: RentalId, newStatus: Option<string>, env: Env): Result<Books, Error> {
    if newStatus.None? then Failure(ValidationError)
    else if r !in b.rentals then Failure(RentalNotFound)
    else
      var parsed := ParseStatus(newStatus.value);
      if parsed.None? then Success(b)
      else
        var rental := b.rentals[r];
        if rental.state.Active? && parsed.value.Ended() then
          if rental.packageId !in cat.packages then Failure(PackageNotFound)
          else Success(Settled(cat, b, r, parsed.value, env))
        else if rental.state.Pending? && parsed.value.Active? then
          Success(b.(rentals := b.rentals[r := rental.(state := Active, startedAt := Some(env.now))]))
        else Success(b.(rentals := b.rentals[r := rental.(state := parsed.value)]))
  }

  function OnCostUpdate(b: Books, r: RentalId, total: Option<Money>): Result<Books, Error> {
    if total.None? then Failure(ValidationError)
    else if r !in b.rentals then Failure(RentalNotFound)
    else Success(b.(rentals := b.rentals[r := b.rentals[r].(cost := total.value)]))
  }

  function OnRentalStart(cat: Catalogue, b: Books, r: RentalId, user: UserId, package: Option<PackageId>, env: Env)
    : Result<Books, Error>
  {
    var p := if package.Some? then package.value else DEFAULT_PACKAGE;
    if r in b.rentals then Success(b)
    else if p !in cat.packages then Failure(PackageNotFound)
    else if !env.reserves then Failure(ReservationRefused)
    else
      var id := b.nextReservation;
      Success(Books(
        b.rentals[r := Rental(user, p, Some(id), Active, Some(env.now), None, 0)],
        if r in b.usage then b.usage else b.usage[r := NO_USAGE],
        b.ledger + [Reserve(r, user, cat.Price(p, ONE_GPU_HOUR), id)],
        id + 1))
  }

  function OnRentalEnd(cat: Catalogue, b: Books, r: RentalId, reason: Option<Option<string>>, env: Env): Result<Books, Error> {
    if reason.None? then Failure(ValidationError)
    else if r !in b.rentals then Failure(RentalNotFound)
    else if b.rentals[r].state.Ended() then Success(b)
    else if b.rentals[r].packageId !in cat.packages then Failure(PackageNotFound)
    else Success(Settled(cat, b, r, if reason.value == Some("failed") then Failed else Completed, env))
  }

  function OnResourceUpdate(cat: Catalogue, b: Books, r: RentalId, model: Option<Option<string>>): Result<Books, Error> {
    if r !in b.rentals then Failure(RentalNotFound)
    else if model.None? || model.value.None? then Success(b)
    else if model.value.value !in cat.models then Failure(PackageNotFound)
    else Success(b.(rentals := b.rentals[r := b.rentals[r].(packageId := cat.models[model.value.value])]))
  }

  function Handle(cat: Catalogue, b: Books, e: Event, env: Env): Result<Books, Error> {
    match e
    case Telemetry(r, report) => OnTelemetry(cat, b, r, UsageFrom(report))
    case StatusChange(r, newStatus) => OnStatusChange(cat, b, r, newStatus, env)
    case CostUpdate(r, total) => OnCostUpdate(b, r, total)
    case RentalStart(r, user, package) => OnRentalStart(cat, b, r, user, package, env)
    case RentalEnd(r, reason) => OnRentalEnd(cat, b, r, reason, env)
    case ResourceUpdate(r, model) => OnResourceUpdate(cat, b, r, model)
  }

  function Apply(cat: Catalogue, b: Books, e: Event, env: Env): Books {
    var outcome := Handle(cat, b, e, env);
    if outcome.Success? then outcome.value else b
  }

  const EMPTY := Books(map[], map[], [], 0)

  /** A handler's error and the new books are those of the specification; after an error nothing has changed. */
  predicate Reports(spec: Result<Books, Error>, error: Option<Error>, before: Books, after: Books) {
    match spec
    case Success(b) => error.None? && after == b
    case Failure(e) => error == Some(e) && after == before
  }

  class BillingEventHandlers {
    const cat: Catalogue
    var rentals: map<RentalId, Rental>
    var usage: map<RentalId, Usage>
    var ledger: seq<Entry>
    var nextReservation: nat

    constructor (cat: Catalogue)
      ensures this.cat == cat && Contents() == EMPTY
    {
      this.cat := cat;
      rentals, usage, ledger, nextReservation := map[], map[], [], 0;
    }

    function Contents(): Books
      reads this
    {
      Books(rentals, usage, ledger, nextReservation)
    }

    method ProcessTelemetryEvent(r: RentalId, report: Report) returns (error: Option<Error>)
      modifies this
      ensures Reports(OnTelemetry(cat, old(Contents()), r, UsageFrom(report)), error, old(Contents()), Contents())
    {
      if r !in rentals {
        return Some(RentalNotFound);
      }
      if rentals[r].state != Active {
        return None;
      }
      if rentals[r].packageId !in cat.packages {
        return Some(PackageNotFound);
      }
      var before := if r in usage then usage[r] else NO_USAGE;
      usage := usage[r := before.Plus(UsageFrom(report))];
      return None;
    }

    /** Prices the usage, deducts, releases the reservation and stores the ended rental. */
    method Settle(r: RentalId, state: RentalState, env: Env) returns (error: Option<Error>)
      requires r in rentals
      modifies this
      ensures error == if old(rentals)[r].packageId in cat.packages then None else Some(PackageNotFound)
      ensures Contents() == if error.None? then Settled(cat, old(Contents()), r, state, env) else old(Contents())
    {
      var rental := rentals[r];
      var used := if r in usage then usage[r] else NO_USAGE;
      if rental.packageId !in cat.packages {
        return Some(PackageNotFound);
      }
      var amount := cat.Price(rental.packageId, used);
      rental := rental.(state := state, endedAt := Some(env.now), cost := amount);
      ledger := ledger + [Deduct(r, rental.user, amount, env.deducts)];
      if rental.reservation.Some? {
        ledger := ledger + [Release(rental.reservation.value, env.releases)];
      }
      rentals := rentals[r := rental];
      return None;
    }

    method ProcessStatusChange(r: RentalId, newStatus: Option<string>, env: Env) returns (error: Option<Error>)
      modifies this
      ensures Reports(OnStatusChange(cat, old(Contents()), r, newStatus, env), error, old(Contents()), Contents())
    {
      if newStatus.None? {
        return Some(ValidationError);
      }
      if r !in rentals {
        return Some(RentalNotFound);
      }
      var parsed := ParseStatus(newStatus.value);
      if parsed.None? {
        return None;
      }
      var rental := rentals[r];
      match (rental.state, parsed.value) {
        case (Pending, Active) =>
          rentals := rentals[r := rental.(state := Active, startedAt := Some(env.now))];
        case (Active, Completed) =>
          error := Settle(r, Completed, env);
          return;
        case (Active, Failed) =>
          error := Settle(r, Failed, env);
          return;
        case _ =>
          rentals := rentals[r := rental.(state := parsed.value)];
      }
      return None;
    }

    method ProcessCostUpdate(r: RentalId, total: Option<Money>) returns (error: Option<Error>)
      modifies this
      ensures Reports(OnCostUpdate(old(Contents()), r, total), error, old(Contents()), Contents())
    {
      if total.None? {
        return Some(ValidationError);
      }
      if r !in rentals {
        return Some(RentalNotFound);
      }
      rentals := rentals[r := rentals[r].(cost := total.value)];
      return None;
    }

    method ProcessRentalStart(r: RentalId, user: UserId, package: Option<PackageId>, env: Env) returns (error: Option<Error>)
      modifies this
      ensures Reports(OnRentalStart(cat, old(Contents()), r, user, package, env), error, old(Contents()), Contents())
    {
      if r in rentals {
        return None;
      }
      var p := if package.Some? then package.value else DEFAULT_PACKAGE;
      if p !in cat.packages {
        return Some(PackageNotFound);
      }
      if !env.reserves {
        return Some(ReservationRefused);
      }
      var id := nextReservation;
      nextReservation := id + 1;
      ledger := ledger + [Reserve(r, user, cat.Price(p, ONE_GPU_HOUR), id)];
      rentals := rentals[r := Rental(user, p, Some(id), Active, Some(env.now), None, 0)];
      if r !in usage {
        usage := usage[r := NO_USAGE];
      }
      return None;
    }

    method ProcessRentalEnd(r: RentalId, reason: Option<Option<string>>, env: Env) returns (error: Option<Error>)
      modifies this
      ensures Reports(OnRentalEnd(cat, old(Contents()), r, reason, env), error, old(Contents()), Contents())
    {
      if reason.None? {
        return Some(ValidationError);
      }
      if r !in rentals {
        return Some(RentalNotFound);
      }
      if rentals[r].state == Completed || rentals[r].state == Failed {
        return None;
      }
      error := Settle(r, if reason.value == Some("failed") then Failed else Completed, env);
    }

    method ProcessResourceUpdate(r: RentalId, model: Option<Option<string>>) returns (error: Option<Error>)
      modifies this
      ensures Reports(OnResourceUpdate(cat, old(Contents()), r, model), error, old(Contents()), Contents())
    {
      if r !in rentals {
        return Some(RentalNotFound);
      }
      if model.Some? && model.value.Some? {
        if model.value.value !in cat.models {
          return Some(PackageNotFound);
        }
        var p := cat.models[model.value.value];
        if p != rentals[r].packageId {
          rentals := rentals[r := rentals[r].(packageId := p)];
        }
      }
      return None;
    }
  }

  // ----- Exactly one settlement per ended rental -----

  datatype Key = DeductionFor(rental: RentalId) | ReleaseOf(id: nat) | ReservationFor(rental: RentalId)

  predicate Matches(e: Entry, k: Key) {
    match k
    case DeductionFor(r) => e.Deduct? && e.rental == r
    case ReleaseOf(id) => e.Release? && e.id == id
    case ReservationFor(r) => e.Reserve? && e.rental == r
  }

  function Tally(ledger: seq<Entry>, k: Key): nat {
    if ledger == [] then 0
    else Tally(ledger[..|ledger| - 1], k) + if Matches(ledger[|ledger| - 1], k) then 1 else 0
  }

  lemma TallySnoc(ledger: seq<Entry>, e: Entry, k: Key)
    ensures Tally(ledger + [e], k) == Tally(ledger, k) + if Matches(e, k) then 1 else 0
  {
    assert (ledger + [e])[..|ledger|] == ledger;
  }

  /** Charged and released once if ended, not at all otherwise; reserved once if it holds a reservation. */
  ghost predicate Balanced(b: Books, r: RentalId)
    requires r in b.rentals
  {
    var rental := b.rentals[r];
    var ends := if rental.state.Ended() then 1 else 0;
    && (rental.state.Ended() ==> rental.endedAt.Some?)
    && Tally(b.ledger, DeductionFor(r)) == ends
    && Tally(b.ledger, ReservationFor(r)) == (if rental.reservation.Some? then 1 else 0)
    && (rental.reservation.Some? ==>
          rental.reservation.value < b.nextReservation && Tally(b.ledger, ReleaseOf(rental.reservation.value)) == ends)
  }

  ghost predicate Inv(b: Books) {
    && (forall r :: r in b.rentals ==> Balanced(b, r))
    && (forall r :: r !in b.rentals ==>
          Tally(b.ledger, DeductionFor(r)) == 0 && Tally(b.ledger, ReservationFor(r)) == 0 && r !in b.usage)
    && (forall id :: id >= b.nextReservation ==> Tally(b.ledger, ReleaseOf(id)) == 0)
    && (forall r, q :: r in b.rentals && q in b.rentals && r != q && b.rentals[r].reservation.Some? ==>
          b.rentals[r].reservation != b.rentals[q].reservation)
  }

  /** No ended rental is reopened by a status change, and none but an active one is ended by it. */
  predicate Orderly(b: Books, e: Event) {
    e.StatusChange? && e.rental in b.rentals && e.newStatus.Some? && ParseStatus(e.newStatus.value).Some? ==>
      var (was, becomes) := (b.rentals[e.rental].state, ParseStatus(e.newStatus.value).value);
      && (was.Ended() ==> becomes.Ended())
      && (!was.Ended() && becomes.Ended() ==> was.Active?)
  }

  lemma SettledTallies(cat: Catalogue, b: Books, r: RentalId, state: RentalState, env: Env, k: Key)
    requires r in b.rentals
    ensures var rental := b.rentals[r];
            Tally(Settled(cat, b, r, state, env).ledger, k) ==
            Tally(b.ledger, k)
            + (if k == DeductionFor(r) then 1 else 0)
            + (if rental.reservation.Some? && k == ReleaseOf(rental.reservation.value) then 1 else 0)
  {
    hide Tally;
    var rental := b.rentals[r];
    var deduct := Deduct(r, rental.user, cat.Price(rental.packageId, b.UsageOf(r)), env.deducts);
    TallySnoc(b.ledger, deduct, k);
    if rental.reservation.Some? {
      TallySnoc(b.ledger + [deduct], Release(rental.reservation.value, env.releases), k);
    } else {
      assert b.ledger + [deduct] + [] == b.ledger + [deduct];
    }
  }

  lemma SettlingBalancesOne(cat: Catalogue, b: Books, r: RentalId, state: RentalState, env: Env, q: RentalId)
    requires Inv(b) && r in b.rentals && !b.rentals[r].state.Ended() && state.Ended() && q in b.rentals
    ensures Balanced(Settled(cat, b, r, state, env), q)
  {
    assert Balanced(b, q) && Balanced(b, r);
    SettledTallies(cat, b, r, state, env, DeductionFor(q));
    SettledTallies(cat, b, r, state, env, ReservationFor(q));
    if b.rentals[q].reservation.Some? {
      SettledTallies(cat, b, r, state, env, ReleaseOf(b.rentals[q].reservation.value));
    }
  }

  lemma SettlingBalances(cat: Catalogue, b: Books, r: RentalId, state: RentalState, env: Env)
    requires Inv(b) && r in b.rentals && !b.rentals[r].state.Ended() && state.Ended()
    ensures Inv(Settled(cat, b, r, state, env))
  {
    var b' := Settled(cat, b, r, state, env);
    forall q | q in b'.rentals
      ensures Balanced(b', q)
    {
      SettlingBalancesOne(cat, b, r, state, env, q);
    }
    forall q | q !in b'.rentals
      ensures Tally(b'.ledger, DeductionFor(q)) == 0 && Tally(b'.ledger, ReservationFor(q)) == 0
    {
      SettledTallies(cat, b, r, state, env, DeductionFor(q));
      SettledTallies(cat, b, r, state, env, ReservationFor(q));
    }
    forall id | id >= b'.nextReservation
      ensures Tally(b'.ledger, ReleaseOf(id)) == 0
    {
      assert Balanced(b, r);
      SettledTallies(cat, b, r, state, env, ReleaseOf(id));
    }
  }

  /** The books with one more rental and the call that reserved for it. */
  function Added(b: Books, r: RentalId, rental: Rental, e: Entry): Books {
    Books(b.rentals[r := rental], b.usage[r := NO_USAGE], b.ledger + [e], b.nextReservation + 1)
  }

  lemma AddingBalancesOne(b: Books, r: RentalId, rental: Rental, e: Entry, q: RentalId)
    requires Inv(b) && r !in b.rentals && (q == r || q in b.rentals)
    requires rental.reservation == Some(b.nextReservation) && !rental.state.Ended()
    requires e.Reserve? && e.rental == r
    ensures Balanced(Added(b, r, rental, e), q)
  {
    TallySnoc(b.ledger, e, DeductionFor(q));
    TallySnoc(b.ledger, e, ReservationFor(q));
    var reservation := if q == r then rental.reservation else b.rentals[q].reservation;
    if reservation.Some? {
      TallySnoc(b.ledger, e, ReleaseOf(reservation.value));
    }
    if q != r {
      assert Balanced(b, q);
    }
  }

  lemma AddingBalances(b: Books, r: RentalId, rental: Rental, e: Entry)
    requires Inv(b) && r !in b.rentals
    requires rental.reservation == Some(b.nextReservation) && !rental.state.Ended()
    requires e.Reserve? && e.rental == r
    ensures Inv(Added(b, r, rental, e))
  {
    var b' := Added(b, r, rental, e);
    forall q | q in b'.rentals
      ensures Balanced(b', q)
    {
      AddingBalancesOne(b, r, rental, e, q);
    }
    forall q | q !in b'.rentals
      ensures Tally(b'.ledger, DeductionFor(q)) == 0 && Tally(b'.ledger, ReservationFor(q)) == 0
    {
      TallySnoc(b.ledger, e, DeductionFor(q));
      TallySnoc(b.ledger, e, ReservationFor(q));
    }
    forall id | id >= b'.nextReservation
      ensures Tally(b'.ledger, ReleaseOf(id)) == 0
    {
      TallySnoc(b.ledger, e, ReleaseOf(id));
    }
    forall p, q | p in b'.rentals && q in b'.rentals && p != q && b'.rentals[p].reservation.Some?
      ensures b'.rentals[p].reservation != b'.rentals[q].reservation
    {
      assert p in b.rentals ==> Balanced(b, p);
      assert q in b.rentals ==> Balanced(b, q);
    }
  }

  lemma StartingBalances(cat: Catalogue, b: Books, r: RentalId, user: UserId, package: Option<PackageId>, env: Env)
    requires Inv(b)
    ensures Inv(Apply(cat, b, RentalStart(r, user, package), env))
  {
    var p := if package.Some? then package.value else DEFAULT_PACKAGE;
    if r !in b.rentals && p in cat.packages && env.reserves {
      var id := b.nextReservation;
      AddingBalances(b, r, Rental(user, p, Some(id), Active, Some(env.now), None, 0),
                     Reserve(r, user, cat.Price(p, ONE_GPU_HOUR), id));
    }
  }

  /** A new rental is active under a reservation no other has, for the price of one GPU hour. */
  lemma StartReservesOneHour(cat: Catalogue, b: Books, r: RentalId, user: UserId, package: Option<PackageId>, env: Env)
    requires Inv(b) && r !in b.rentals
    requires (if package.Some? then package.value else DEFAULT_PACKAGE) in cat.packages && env.reserves
    ensures var b' := Apply(cat, b, RentalStart(r, user, package), env);
            && r in b'.rentals && b'.rentals[r].state.Active? && b'.rentals[r].user == user
            && b'.rentals[r].packageId == (if package.Some? then package.value else "h100")
            && b'.rentals[r].startedAt == Some(env.now) && b'.rentals[r].endedAt == None && b'.rentals[r].cost == 0
            && b'.rentals[r].reservation.Some? && b'.UsageOf(r) == NO_USAGE
            && Reserve(r, user, cat.Price(b'.rentals[r].packageId, ONE_GPU_HOUR), b'.rentals[r].reservation.value) in b'.ledger
            && (forall q :: q in b.rentals ==> b.rentals[q].reservation != b'.rentals[r].reservation)
  {
    var b' := Apply(cat, b, RentalStart(r, user, package), env);
    assert b'.ledger[|b.ledger|].Reserve?;
    forall q | q in b.rentals
      ensures b.rentals[q].reservation != b'.rentals[r].reservation
    {
      assert Balanced(b, q);
    }
  }

  /** An event that rewrites a rental without touching ledger, reservation or whether it has ended. */
  lemma RewritingBalances(b: Books, r: RentalId, rental: Rental)
    requires Inv(b) && r in b.rentals && rental.reservation == b.rentals[r].reservation
    requires rental.state.Ended() == b.rentals[r].state.Ended() && rental.endedAt == b.rentals[r].endedAt
    ensures Inv(b.(rentals := b.rentals[r := rental]))
  {
    var b' := b.(rentals := b.rentals[r := rental]);
    forall q | q in b'.rentals
      ensures Balanced(b', q)
    {
      assert Balanced(b, q);
    }
  }

  lemma UsageBalances(b: Books, r: RentalId, used: Usage)
    requires Inv(b) && r in b.rentals
    ensures Inv(b.(usage := b.usage[r := used]))
  {
    var b' := b.(usage := b.usage[r := used]);
    forall q | q in b'.rentals
      ensures Balanced(b', q)
    {
      assert Balanced(b, q);
    }
  }

  lemma StatusBalances(cat: Catalogue, b: Books, e: Event, env: Env)
    requires Inv(b) && e.StatusChange? && Orderly(b, e)
    ensures Inv(Apply(cat, b, e, env))
  {
    if e.rental in b.rentals && e.newStatus.Some? && ParseStatus(e.newStatus.value).Some? {
      var rental, becomes := b.rentals[e.rental], ParseStatus(e.newStatus.value).value;
      if rental.state.Active? && becomes.Ended() {
        SettlingBalances(cat, b, e.rental, becomes, env);
      } else if rental.state.Pending? && becomes.Active? {
        RewritingBalances(b, e.rental, rental.(state := Active, startedAt := Some(env.now)));
      } else {
        RewritingBalances(b, e.rental, rental.(state := becomes));
      }
    }
  }

  lemma OrderlyEventBalances(cat: Catalogue, b: Books, e: Event, env: Env)
    requires Inv(b) && Orderly(b, e)
    ensures Inv(Apply(cat, b, e, env))
  {
    var r := e.rental;
    match e
    case StatusChange(_, _) => StatusBalances(cat, b, e, env);
    case RentalStart(_, user, package) => StartingBalances(cat, b, r, user, package, env);
    case Telemetry(_, report) => if r in b.rentals { UsageBalances(b, r, b.UsageOf(r).Plus(UsageFrom(report))); }
    case CostUpdate(_, total) =>
      if r in b.rentals && total.Some? { RewritingBalances(b, r, b.rentals[r].(cost := total.value)); }
    case RentalEnd(_, reason) =>
      if r in b.rentals && !b.rentals[r].state.Ended() && reason.Some? {
        SettlingBalances(cat, b, r, if reason.value == Some("failed") then Failed else Completed, env);
      }
    case ResourceUpdate(_, model) =>
      if r in b.rentals && model.Some? && model.value.Some? && model.value.value in cat.models {
        RewritingBalances(b, r, b.rentals[r].(packageId := cat.models[model.value.value]));
      }
  }

  /** The exact condition: an event keeps settlement exactly-once just when it is orderly. */
  lemma BalancedExactlyWhenOrderly(cat: Catalogue, b: Books, e: Event, env: Env)
    requires Inv(b)
    ensures Inv(Apply(cat, b, e, env)) <==> Orderly(b, e)
  {
    if Orderly(b, e) {
      OrderlyEventBalances(cat, b, e, env);
    } else {
      var b' := Apply(cat, b, e, env);
      assert Balanced(b, e.rental) && !Balanced(b', e.rental);
    }
  }

  // ----- Event sequences -----

  datatype Dated = Dated(event: Event, env: Env)

  function Run(cat: Catalogue, events: seq<Dated>): Books {
    if events == [] then EMPTY
    else
      var last := events[|events| - 1];
      Apply(cat, Run(cat, events[..|events| - 1]), last.event, last.env)
  }

  ghost predicate OrderlyRun(cat: Catalogue, events: seq<Dated>) {
    forall k :: 0 <= k < |events| ==> Orderly(Run(cat, events[..k]), events[k].event)
  }

  ghost predicate AlwaysBalanced(cat: Catalogue, events: seq<Dated>) {
    forall k :: 0 <= k <= |events| ==> Inv(Run(cat, events[..k]))
  }

  lemma OrderlyPrefix(cat: Catalogue, events: seq<Dated>)
    requires events != [] && OrderlyRun(cat, events)
    ensures OrderlyRun(cat, events[..|events| - 1])
  {
    var prior := events[..|events| - 1];
    forall k | 0 <= k < |prior|
      ensures Orderly(Run(cat, prior[..k]), prior[k].event)
    {
      assert prior[..k] == events[..k];
    }
  }

  lemma {:induction false} OrderlyRunsBalance(cat: Catalogue, events: seq<Dated>)
    requires OrderlyRun(cat, events)
    ensures Inv(Run(cat, events))
  {
    if events == [] {
    } else {
      var n := |events| - 1;
      OrderlyPrefix(cat, events);
      OrderlyRunsBalance(cat, events[..n]);
      OrderlyEventBalances(cat, Run(cat, events[..n]), events[n].event, events[n].env);
    }
  }

  lemma PrefixStep(cat: Catalogue, events: seq<Dated>, k: nat)
    requires k < |events|
    ensures Run(cat, events[..k + 1]) == Apply(cat, Run(cat, events[..k]), events[k].event, events[k].env)
  {
    assert events[..k + 1][..k] == events[..k];
  }

  /** Over a whole sequence: every rental is settled exactly once throughout just when every event is orderly. */
  lemma ExactlyOnceIffOrderly(cat: Catalogue, events: seq<Dated>)
    ensures AlwaysBalanced(cat, events) <==> OrderlyRun(cat, events)
  {
    if OrderlyRun(cat, events) {
      forall k | 0 <= k <= |events|
        ensures Inv(Run(cat, events[..k]))
      {
        forall i | 0 <= i < k
          ensures Orderly(Run(cat, events[..k][..i]), events[..k][i].event)
        {
          assert events[..k][..i] == events[..i];
        }
        OrderlyRunsBalance(cat, events[..k]);
      }
    }
    if AlwaysBalanced(cat, events) {
      forall k | 0 <= k < |events|
        ensures Orderly(Run(cat, events[..k]), events[k].event)
      {
        PrefixStep(cat, events, k);
        BalancedExactlyWhenOrderly(cat, Run(cat, events[..k]), events[k].event, events[k].env);
      }
    }
  }

  lemma RunSnoc(cat: Catalogue, events: seq<Dated>, d: Dated)
    ensures Run(cat, events + [d]) == Apply(cat, Run(cat, events), d.event, d.env)
  {
    assert (events + [d])[..|events|] == events;
  }

  /** A rental started and ended on empty books is reserved once and charged once. */
  lemma StartAndEnd(cat: Catalogue, r: RentalId, user: UserId, env: Env)
    requires DEFAULT_PACKAGE in cat.packages && env.reserves
    ensures var ended := Apply(cat, Apply(cat, EMPTY, RentalStart(r, user, None), env), RentalEnd(r, Some(None)), env);
            && r in ended.rentals && ended.rentals[r].state.Ended() && ended.rentals[r].packageId == DEFAULT_PACKAGE
            && Tally(ended.ledger, DeductionFor(r)) == 1 && Tally(ended.ledger, ReservationFor(r)) == 1
  {
    var started := Apply(cat, EMPTY, RentalStart(r, user, None), env);
    OrderlyEventBalances(cat, EMPTY, RentalStart(r, user, None), env);
    OrderlyEventBalances(cat, started, RentalEnd(r, Some(None)), env);
    assert Balanced(Apply(cat, started, RentalEnd(r, Some(None)), env), r);
  }

  /** Ending a reopened rental charges it once more. */
  lemma ReopenAndEnd(cat: Catalogue, b: Books, r: RentalId, env: Env)
    requires r in b.rentals && b.rentals[r].state.Ended() && b.rentals[r].packageId in cat.packages
    ensures var reopened := Apply(cat, b, StatusChange(r, Some("active")), env);
            var again := Apply(cat, reopened, RentalEnd(r, Some(None)), env);
            && Tally(again.ledger, DeductionFor(r)) == Tally(b.ledger, DeductionFor(r)) + 1
            && Tally(again.ledger, ReservationFor(r)) == Tally(b.ledger, ReservationFor(r))
  {
    var reopened := Apply(cat, b, StatusChange(r, Some("active")), env);
    assert ParseStatus("active") == Some(Active);
    assert reopened == b.(rentals := b.rentals[r := b.rentals[r].(state := Active)]);
    SettledTallies(cat, reopened, r, Completed, env, DeductionFor(r));
    SettledTallies(cat, reopened, r, Completed, env, ReservationFor(r));
  }

  /** A rental that is started, ended, reopened by a status change and ended again is charged twice. */
  lemma ReopenedRentalChargedTwice(cat: Catalogue, r: RentalId, user: UserId, env: Env)
    requires DEFAULT_PACKAGE in cat.packages && env.reserves
    ensures var end := Dated(RentalEnd(r, Some(None)), env);
            var events := [Dated(RentalStart(r, user, None), env), end, Dated(StatusChange(r, Some("active")), env), end];
            var ledger := Run(cat, events).ledger;
            Tally(ledger, DeductionFor(r)) == 2 && Tally(ledger, ReservationFor(r)) == 1
  {
    var start, reopen := Dated(RentalStart(r, user, None), env), Dated(StatusChange(r, Some("active")), env);
    var end := Dated(RentalEnd(r, Some(None)), env);
    assert Run(cat, []) == EMPTY;
    hide Apply, Tally, Run;
    RunSnoc(cat, [], start);
    RunSnoc(cat, [] + [start], end);
    RunSnoc(cat, [] + [start] + [end], reopen);
    RunSnoc(cat, [] + [start] + [end] + [reopen], end);
    assert [] + [start] + [end] + [reopen] + [end] == [start, end, reopen, end];
    StartAndEnd(cat, r, user, env);
    ReopenAndEnd(cat, Apply(cat, Apply(cat, EMPTY, start.event, env), end.event, env), r, env);
  }

  // ----- The amount charged -----

  /** Telemetry for this rental that the books accept. */
  predicate Accepts(cat: Catalogue, b: Books, e: Event, r: RentalId) {
    && e.Telemetry? && e.rental == r
    && r in b.rentals && b.rentals[r].state.Active? && b.rentals[r].packageId in cat.packages
  }

  /** The telemetry of a rental that arrived while it was active under a known package, added up. */
  function Accepted(cat: Catalogue, events: seq<Dated>, r: RentalId): Usage {
    if events == [] then NO_USAGE
    else
      var before, e := events[..|events| - 1], events[|events| - 1].event;
      if Accepts(cat, Run(cat, before), e, r) then Accepted(cat, before, r).Plus(UsageFrom(e.report))
      else Accepted(cat, before, r)
  }

  lemma UsageStep(cat: Catalogue, b: Books, e: Event, env: Env, r: RentalId)
    requires r in b.usage ==> r in b.rentals
    ensures Apply(cat, b, e, env).UsageOf(r) ==
            if Accepts(cat, b, e, r) then b.UsageOf(r).Plus(UsageFrom(e.report)) else b.UsageOf(r)
  {
  }

  /** An ended rental keeps its charge, its usage, and its cost unless a cost update says otherwise. */
  lemma EndedStep(cat: Catalogue, b: Books, e: Event, env: Env, r: RentalId)
    requires r in b.rentals && b.rentals[r].state.Ended() && Orderly(b, e)
    ensures var b' := Apply(cat, b, e, env);
            && r in b'.rentals && b'.rentals[r].state.Ended() && b'.rentals[r].user == b.rentals[r].user
            && b.ledger <= b'.ledger && b'.UsageOf(r) == b.UsageOf(r)
            && (!(e.CostUpdate? && e.rental == r) ==> b'.rentals[r].cost == b.rentals[r].cost)
  {
  }

  lemma {:induction false} UsageHasRental(cat: Catalogue, events: seq<Dated>, r: RentalId)
    ensures r in Run(cat, events).usage ==> r in Run(cat, events).rentals
  {
    if events == [] {
    } else {
      UsageHasRental(cat, events[..|events| - 1], r);
    }
  }

  /** Usage on the books is the telemetry accepted so far, whatever the events. */
  lemma {:induction false} UsageIsAccepted(cat: Catalogue, events: seq<Dated>, r: RentalId)
    ensures Run(cat, events).UsageOf(r) == Accepted(cat, events, r)
  {
    if events == [] {
    } else {
      var n := |events| - 1;
      UsageIsAccepted(cat, events[..n], r);
      UsageHasRental(cat, events[..n], r);
      UsageStep(cat, Run(cat, events[..n]), events[n].event, events[n].env, r);
    }
  }

  lemma LastStep(cat: Catalogue, events: seq<Dated>)
    requires events != []
    ensures var last := events[|events| - 1];
            Run(cat, events) == Apply(cat, Run(cat, events[..|events| - 1]), last.event, last.env)
  {
  }

  // ----- Usage field by field -----

  function GpuHours(t: Report): real {
    if t.gpuPercent.Some? then t.gpuPercent.value / 100.0 else 1.0
  }

  function CpuHours(t: Report): real {
    if t.cpuPercent.Some? then t.cpuPercent.value / 100.0 else 0.0
  }

  function MemoryGbHours(t: Report): real {
    if t.memoryMb.Some? then t.memoryMb.value as real / 1024.0 else 0.0
  }

  /** A 64-bit sum of two byte counts, a missing one counting as zero. */
  function Bytes(a: Option<nat>, b: Option<nat>): nat {
    ((if a.Some? then a.value else 0) + (if b.Some? then b.value else 0)) % 0x1_0000_0000_0000_0000
  }

  function NetworkGb(t: Report): real {
    (Bytes(t.received, t.sent) / 0x4000_0000) as real
  }

  function DiskGb(t: Report): real {
    (Bytes(t.diskRead, t.diskWritten) / 0x4000_0000) as real
  }

  /** A figure of the reports that the books accept for a rental, added up. */
  function SumOver(cat: Catalogue, events: seq<Dated>, r: RentalId, figure: Report -> real): real {
    if events == [] then 0.0
    else
      var before, e := events[..|events| - 1], events[|events| - 1].event;
      SumOver(cat, before, r, figure) + if Accepts(cat, Run(cat, before), e, r) then figure(e.report) else 0.0
  }

  /** After any events each field of a rental's usage is the sum of that figure over its accepted reports. */
  lemma {:induction false} UsageIsSummed(cat: Catalogue, events: seq<Dated>, r: RentalId)
    ensures var u := Run(cat, events).UsageOf(r);
            && u.gpuHours == SumOver(cat, events, r, GpuHours)
            && u.cpuHours == SumOver(cat, events, r, CpuHours)
            && u.memoryGbHours == SumOver(cat, events, r, MemoryGbHours)
            && u.networkGb == SumOver(cat, events, r, NetworkGb)
            && u.diskIoGb == SumOver(cat, events, r, DiskGb)
            && u.storageGbHours == 0.0
  {
    if events == [] {
    } else {
      LastStep(cat, events);
      hide Run, Apply;
      var n := |events| - 1;
      UsageIsSummed(cat, events[..n], r);
      UsageHasRental(cat, events[..n], r);
      UsageStep(cat, Run(cat, events[..n]), events[n].event, events[n].env, r);
    }
  }

  // ----- One rental by its own events -----

  /** What the books say about one rental, its reservation aside. */
  datatype View =
    | NoRental
    | Known(user: UserId, packageId: PackageId, state: RentalState, startedAt: Option<int>, endedAt: Option<int>,
            cost: Money, usage: Usage)

  function ViewOf(b: Books, r: RentalId): View {
    if r !in b.rentals then NoRental
    else
      var x := b.rentals[r];
      Known(x.user, x.packageId, x.state, x.startedAt, x.endedAt, x.cost, b.UsageOf(r))
  }

  /** Ended and charged for what was used; a rental under an unknown package stays as it is. */
  function AtEnd(cat: Catalogue, v: View, state: RentalState, now: int): View
    requires v.Known?
  {
    if v.packageId in cat.packages
    then v.(state := state, endedAt := Some(now), cost := cat.Price(v.packageId, v.usage)) else v
  }

  /** The life of one rental, event by event. */
  function Evolve(cat: Catalogue, v: View, e: Event, env: Env): View {
    if v.NoRental? then
      if e.RentalStart? && env.reserves && e.package.GetOr("h100") in cat.packages
      then Known(e.user, e.package.GetOr("h100"), Active, Some(env.now), None, 0, Usage(0.0, 0.0, 0.0, 0.0, 0.0, 0.0))
      else NoRental
    else
      match e
      case Telemetry(_, t) =>
        if v.state.Active? && v.packageId in cat.packages
        then
          var u := v.usage;
          v.(usage := Usage(u.gpuHours + GpuHours(t), u.cpuHours + CpuHours(t), u.memoryGbHours + MemoryGbHours(t),
                            u.storageGbHours, u.networkGb + NetworkGb(t), u.diskIoGb + DiskGb(t)))
        else v
      case StatusChange(_, Some(status)) =>
        if status == "pending" then v.(state := Pending)
        else if status == "active" then
          if v.state.Pending? then v.(state := Active, startedAt := Some(env.now)) else v.(state := Active)
        else if status == "completed" then
          if v.state.Active? then AtEnd(cat, v, Completed, env.now) else v.(state := Completed)
        else if status == "failed" then
          if v.state.Active? then AtEnd(cat, v, Failed, env.now) else v.(state := Failed)
        else v
      case CostUpdate(_, Some(total)) => v.(cost := total)
      case RentalEnd(_, Some(reason)) =>
        if v.state.Completed? || v.state.Failed? then v
        else if reason == Some("failed") then AtEnd(cat, v, Failed, env.now)
        else AtEnd(cat, v, Completed, env.now)
      case ResourceUpdate(_, Some(Some(model))) => if model in cat.models then v.(packageId := cat.models[model]) else v
      case _ => v
  }

  function Followed(cat: Catalogue, events: seq<Dated>, r: RentalId): View {
    if events == [] then NoRental
    else
      var before, last := Followed(cat, events[..|events| - 1], r), events[|events| - 1];
      if last.event.rental == r then Evolve(cat, before, last.event, last.env) else before
  }

  lemma OtherRentalsStay(cat: Catalogue, b: Books, e: Event, env: Env, r: RentalId)
    requires e.rental != r
    ensures ViewOf(Apply(cat, b, e, env), r) == ViewOf(b, r)
  {
  }

  lemma UsageFromFigures(t: Report)
    ensures UsageFrom(t) == Usage(GpuHours(t), CpuHours(t), MemoryGbHours(t), 0.0, NetworkGb(t), DiskGb(t))
  {
    assert Gigabytes(t.received, t.sent) == Bytes(t.received, t.sent) / 0x4000_0000;
    assert Gigabytes(t.diskRead, t.diskWritten) == Bytes(t.diskRead, t.diskWritten) / 0x4000_0000;
  }

  lemma TelemetryEvolves(cat: Catalogue, b: Books, r: RentalId, t: Report, env: Env)
    ensures ViewOf(Apply(cat, b, Telemetry(r, t), env), r) == Evolve(cat, ViewOf(b, r), Telemetry(r, t), env)
  {
    UsageFromFigures(t);
    hide UsageFrom, GpuHours, CpuHours, MemoryGbHours, NetworkGb, DiskGb;
  }

  lemma StatusEvolves(cat: Catalogue, b: Books, r: RentalId, status: Option<string>, env: Env)
    ensures ViewOf(Apply(cat, b, StatusChange(r, status), env), r) == Evolve(cat, ViewOf(b, r), StatusChange(r, status), env)
  {
  }

  lemma StartEvolves(cat: Catalogue, b: Books, r: RentalId, user: UserId, package: Option<PackageId>, env: Env)
    requires r in b.usage ==> r in b.rentals
    ensures var e := RentalStart(r, user, package);
            ViewOf(Apply(cat, b, e, env), r) == Evolve(cat, ViewOf(b, r), e, env)
  {
  }

  lemma EndEvolves(cat: Catalogue, b: Books, r: RentalId, reason: Option<Option<string>>, env: Env)
    ensures ViewOf(Apply(cat, b, RentalEnd(r, reason), env), r) == Evolve(cat, ViewOf(b, r), RentalEnd(r, reason), env)
  {
  }

  lemma ChangeEvolves(cat: Catalogue, b: Books, e: Event, env: Env)
    requires e.CostUpdate? || e.ResourceUpdate?
    ensures ViewOf(Apply(cat, b, e, env), e.rental) == Evolve(cat, ViewOf(b, e.rental), e, env)
  {
  }

  lemma OwnEventEvolves(cat: Catalogue, b: Books, e: Event, env: Env)
    requires e.rental in b.usage ==> e.rental in b.rentals
    ensures ViewOf(Apply(cat, b, e, env), e.rental) == Evolve(cat, ViewOf(b, e.rental), e, env)
  {
    hide Apply, Evolve, ViewOf;
    match e
    case Telemetry(r, t) => TelemetryEvolves(cat, b, r, t, env);
    case StatusChange(r, status) => StatusEvolves(cat, b, r, status, env);
    case RentalStart(r, user, package) => StartEvolves(cat, b, r, user, package, env);
    case RentalEnd(r, reason) => EndEvolves(cat, b, r, reason, env);
    case _ => ChangeEvolves(cat, b, e, env);
  }

  /** Whatever happens to others, the books say about a rental just what its own events make of it. */
  lemma {:induction false} RentalFollowsItsEvents(cat: Catalogue, events: seq<Dated>, r: RentalId)
    ensures ViewOf(Run(cat, events), r) == Followed(cat, events, r)
  {
    if events == [] {
    } else {
      LastStep(cat, events);
      hide Run, Apply, Evolve;
      var n := |events| - 1;
      RentalFollowsItsEvents(cat, events[..n], r);
      UsageHasRental(cat, events[..n], r);
      if events[n].event.rental == r {
        OwnEventEvolves(cat, Run(cat, events[..n]), events[n].event, events[n].env);
      } else {
        OtherRentalsStay(cat, Run(cat, events[..n]), events[n].event, events[n].env, r);
      }
    }
  }

  // ----- What an ended rental was charged -----

  /** Event `k` ends the rental, which then is charged this amount. */
  ghost predicate EndsAt(cat: Catalogue, events: seq<Dated>, r: RentalId, k: nat, amount: Money)
    requires k < |events|
  {
    var before, after := Run(cat, events[..k]), Run(cat, events[..k + 1]);
    && r in before.rentals && !before.rentals[r].state.Ended()
    && r in after.rentals && after.rentals[r].state.Ended()
    && amount == cat.Price(before.rentals[r].packageId, Accepted(cat, events[..k], r))
  }

  predicate NoCostUpdate(events: seq<Dated>, r: RentalId) {
    forall i :: 0 <= i < |events| ==> !(events[i].event.CostUpdate? && events[i].event.rental == r)
  }

  /** The ended rental was charged that amount, kept its usage since, and its cost but for cost updates. */
  ghost predicate ChargedAt(cat: Catalogue, events: seq<Dated>, r: RentalId, k: nat, amount: Money)
    requires k < |events|
  {
    var b := Run(cat, events);
    && EndsAt(cat, events, r, k, amount)
    && r in b.rentals && b.rentals[r].state.Ended()
    && Deduct(r, b.rentals[r].user, amount, events[k].env.deducts) in b.ledger
    && b.UsageOf(r) == Accepted(cat, events[..k], r)
    && (NoCostUpdate(events[k + 1..], r) ==> b.rentals[r].cost == amount)
  }

  /** The last event ends the rental. */
  lemma ChargedNow(cat: Catalogue, events: seq<Dated>, r: RentalId) returns (amount: Money)
    requires events != [] && OrderlyRun(cat, events)
    requires var b := Run(cat, events[..|events| - 1]); r in b.rentals && !b.rentals[r].state.Ended()
    requires var b := Run(cat, events); r in b.rentals && b.rentals[r].state.Ended()
    ensures ChargedAt(cat, events, r, |events| - 1, amount)
  {
    LastStep(cat, events);
    hide Run, Accepted;
    var n := |events| - 1;
    var before, after := Run(cat, events[..n]), Run(cat, events);
    UsageIsAccepted(cat, events[..n], r);
    assert events[..n + 1] == events;
    amount := cat.Price(before.rentals[r].packageId, before.UsageOf(r));
    var e := events[n].event;
    assert e.rental == r && (e.StatusChange? || e.RentalEnd?);
    assert after == Settled(cat, before, r, after.rentals[r].state, events[n].env);
    assert after.ledger[|before.ledger|] == Deduct(r, before.rentals[r].user, amount, events[n].env.deducts);
  }

  lemma NoCostUpdateSplits(events: seq<Dated>, k: nat, r: RentalId)
    requires k < |events| && NoCostUpdate(events[k..], r)
    ensures NoCostUpdate(events[..|events| - 1][k..], r)
    ensures var e := events[|events| - 1].event; !(e.CostUpdate? && e.rental == r)
  {
    var n := |events| - 1;
    assert events[..n][k..] == events[k..][..n - k];
    assert events[k..][n - k] == events[n];
  }

  lemma EndsAtPrefix(cat: Catalogue, events: seq<Dated>, r: RentalId, k: nat, amount: Money)
    requires k < |events| - 1
    ensures var prior := events[..|events| - 1];
            && EndsAt(cat, prior, r, k, amount) == EndsAt(cat, events, r, k, amount)
            && prior[..k] == events[..k]
  {
    var prior := events[..|events| - 1];
    assert prior[..k] == events[..k] && prior[..k + 1] == events[..k + 1];
  }

  /** The rental had ended before the last event. */
  lemma ChargedEarlier(cat: Catalogue, events: seq<Dated>, r: RentalId, k: nat, amount: Money)
    requires events != [] && OrderlyRun(cat, events) && k < |events| - 1
    requires ChargedAt(cat, events[..|events| - 1], r, k, amount)
    ensures ChargedAt(cat, events, r, k, amount)
  {
    hide Run, Apply, Accepted, EndsAt;
    var n := |events| - 1;
    LastStep(cat, events);
    EndsAtPrefix(cat, events, r, k, amount);
    EndedStep(cat, Run(cat, events[..n]), events[n].event, events[n].env, r);
    if NoCostUpdate(events[k + 1..], r) {
      NoCostUpdateSplits(events, k + 1, r);
    }
  }

  /** An ended rental was there before the last event: none is created ended. */
  lemma EndedWasThere(cat: Catalogue, events: seq<Dated>, r: RentalId)
    requires r in Run(cat, events).rentals && Run(cat, events).rentals[r].state.Ended()
    ensures events != [] && r in Run(cat, events[..|events| - 1]).rentals
  {
  }

  /**
   In every orderly sequence an ended rental was charged the price, under its
   package at the time, of exactly the usage accepted while it was active.
   */
  lemma {:induction false} ChargedForAcceptedUsage(cat: Catalogue, events: seq<Dated>, r: RentalId)
    returns (k: nat, amount: Money)
    requires OrderlyRun(cat, events)
    requires r in Run(cat, events).rentals && Run(cat, events).rentals[r].state.Ended()
    ensures k < |events| && ChargedAt(cat, events, r, k, amount)
  {
    hide Run, Apply, OrderlyRun, ChargedAt;
    EndedWasThere(cat, events, r);
    var n := |events| - 1;
    OrderlyPrefix(cat, events);
    var before := Run(cat, events[..n]);
    if before.rentals[r].state.Ended() {
      k, amount := ChargedForAcceptedUsage(cat, events[..n], r);
      ChargedEarlier(cat, events, r, k, amount);
    } else {
      amount := ChargedNow(cat, events, r);
      k := n;
    }
  }
}
