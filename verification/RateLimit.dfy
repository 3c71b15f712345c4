/** The host rate limiter: one quota bucket with a sliding window of admissions and a
    list of token charges, and the runs of any number of clients that share it.
    Times are reals; the clock never goes back. */
module RateLimit {
  import opened Options

  const WINDOW: real := 60.0

  datatype Config = Config(rpm: nat, tpm: nat)

  /** What the constructor accepts. */
  ghost predicate ValidConfig(cfg: Config) {
    cfg.rpm > 0 && cfg.tpm > 0
  }

  /** `_validate_reservation` */
  predicate ValidReservation(cfg: Config, tokens: int) {
    0 < tokens <= cfg.tpm
  }

  /** One admission that ever happened, with its token charge.  `expires` is set when
      the request finishes; `held` says that the charge is still in the bucket's list. */
  datatype Entry = Entry(at: real, reserved: nat, tokens: nat, expires: Option<real>, held: bool)

  /** The bucket.  `ledger` is the full history; the bucket's own charge list is its held
      part.  The n-th wake-up event is set exactly when n is below `changed`, the number
      of the event that is current. */
  datatype Bucket = Bucket(admissions: seq<real>, ledger: seq<Entry>, changed: nat)

  const EMPTY := Bucket([], [], 0)

  // ----- one attempt and one settlement -----

  /** The deque after its expired front is dropped. */
  function DropExpired(admissions: seq<real>, now: real): seq<real> {
    if admissions != [] && admissions[0] + WINDOW <= now then DropExpired(admissions[1..], now) else admissions
  }

  predicate Unexpired(e: Entry, now: real) {
    e.expires.None? || e.expires.value > now
  }

  /** The list comprehension that keeps unexpired charges. */
  function ReleaseExpired(ledger: seq<Entry>, now: real): (r: seq<Entry>)
    ensures |r| == |ledger|
    ensures forall i :: 0 <= i < |ledger| ==> r[i] == ledger[i].(held := ledger[i].held && Unexpired(ledger[i], now))
  {
    seq(|ledger|, i requires 0 <= i < |ledger| => ledger[i].(held := ledger[i].held && Unexpired(ledger[i], now)))
  }

  function HeldTokens(ledger: seq<Entry>): nat {
    if ledger == [] then 0
    else HeldTokens(ledger[..|ledger| - 1]) + if ledger[|ledger| - 1].held then ledger[|ledger| - 1].tokens else 0
  }

  function Sooner(a: Option<real>, b: Option<real>): Option<real> {
    if a.None? then b else if b.None? || a.value <= b.value then a else b
  }

  /** The earliest expiry among held charges. */
  function SoonestExpiry(ledger: seq<Entry>): Option<real> {
    if ledger == [] then None
    else Sooner(SoonestExpiry(ledger[..|ledger| - 1]), if ledger[|ledger| - 1].held then ledger[|ledger| - 1].expires else None)
  }

  function Prune(b: Bucket, now: real): Bucket {
    b.(admissions := DropExpired(b.admissions, now), ledger := ReleaseExpired(b.ledger, now))
  }

  datatype Attempt = Admitted(id: nat) | Queue(deadline: Option<real>, event: nat)

  predicate HasRoom(cfg: Config, b: Bucket, reserved: nat) {
    |b.admissions| < cfg.rpm && HeldTokens(b.ledger) + reserved <= cfg.tpm
  }

  function Admit(b: Bucket, reserved: nat, now: real): Bucket {
    b.(admissions := b.admissions + [now], ledger := b.ledger + [Entry(now, reserved, reserved, None, true)])
  }

  /** When a queued attempt is retried at the latest; None waits for the event alone. */
  function Deadline(b: Bucket): Option<real> {
    Sooner(SoonestExpiry(b.ledger), if b.admissions == [] then None else Some(b.admissions[0] + WINDOW))
  }

  /** The locked section of `_acquire`. */
  function TryAcquire(cfg: Config, b: Bucket, reserved: nat, now: real): (Bucket, Attempt) {
    var p := Prune(b, now);
    if HasRoom(cfg, p, reserved) then (Admit(p, reserved, now), Admitted(|p.ledger|))
    else (p, Queue(Deadline(p), p.changed))
  }

  function Max(a: int, b: int): int {
    if a >= b then a else b
  }

  /** `_finish`: settle a charge and replace the event. */
  function Finish(b: Bucket, id: nat, observed: int, now: real): Bucket
    requires id < |b.ledger|
  {
    var e := b.ledger[id];
    b.(ledger := b.ledger[id := e.(tokens := Max(e.tokens, observed), expires := Some(now + WINDOW))], changed := b.changed + 1)
  }

  // ----- runs -----

  type Client = nat

  /** What a client is doing.  `Attempting` is about to enter the locked section. */
  datatype Phase =
    | Outside
    | Attempting(reserved: nat)
    | Waiting(reserved: nat, deadline: Option<real>, event: nat)
    | InFlight(id: nat)

  datatype System = System(now: real, bucket: Bucket, clients: map<Client, Phase>)

  function PhaseOf(s: System, c: Client): Phase {
    if c in s.clients then s.clients[c] else Outside
  }

  /** What can happen next.  A request that fails or is cancelled while in flight
      completes with 0 observed tokens. */
  datatype Step =
    | Submit(client: Client, reservation: int)
    | Retry(client: Client)
    | Wake(client: Client)
    | Cancel(client: Client)
    | Complete(client: Client, observed: int)
    | Tick(elapsed: real)

  predicate Woken(s: System, p: Phase)
    requires p.Waiting?
  {
    p.event < s.bucket.changed || (p.deadline.Some? && p.deadline.value <= s.now)
  }

  predicate Enabled(s: System, step: Step) {
    match step
    case Submit(c, _) => PhaseOf(s, c).Outside?
    case Retry(c) => PhaseOf(s, c).Attempting?
    case Wake(c) => PhaseOf(s, c).Waiting? && Woken(s, PhaseOf(s, c))
    case Cancel(c) => PhaseOf(s, c).Attempting? || PhaseOf(s, c).Waiting?
    case Complete(c, _) => PhaseOf(s, c).InFlight? && PhaseOf(s, c).id < |s.bucket.ledger|
    case Tick(elapsed) => elapsed >= 0.0
  }

  function Apply(cfg: Config, s: System, step: Step): System
    requires Enabled(s, step)
  {
    match step
    case Submit(c, reservation) =>
      if ValidReservation(cfg, reservation) then s.(clients := s.clients[c := Attempting(reservation)]) else s
    case Retry(c) =>
      var reserved := s.clients[c].reserved;
      var (bucket, attempt) := TryAcquire(cfg, s.bucket, reserved, s.now);
      var phase := match attempt case Admitted(id) => InFlight(id) case Queue(deadline, event) => Waiting(reserved, deadline, event);
      s.(bucket := bucket, clients := s.clients[c := phase])
    case Wake(c) => s.(clients := s.clients[c := Attempting(s.clients[c].reserved)])
    case Cancel(c) => s.(clients := s.clients[c := Outside])
    case Complete(c, observed) =>
      s.(bucket := Finish(s.bucket, s.clients[c].id, observed, s.now), clients := s.clients[c := Outside])
    case Tick(elapsed) => s.(now := s.now + elapsed)
  }

  ghost predicate Follows(cfg: Config, s: System, step: Step, t: System) {
    Enabled(s, step) && t == Apply(cfg, s, step)
  }

  /** A run: from an empty bucket, one state per step taken. */
  ghost predicate Run(cfg: Config, steps: seq<Step>, trace: seq<System>) {
    && |trace| == |steps| + 1
    && trace[0] == System(trace[0].now, EMPTY, map[])
    && forall i :: 0 <= i < |steps| ==> Follows(cfg, trace[i], steps[i], trace[i + 1])
  }

  // ----- what holds in every reachable state -----

  /** The deque is the part of the history that may still count; the rest has expired. */
  ghost predicate WindowKept(b: Bucket, now: real) {
    && |b.admissions| <= |b.ledger|
    && (forall i :: 0 <= i < |b.admissions| ==> b.admissions[i] == b.ledger[|b.ledger| - |b.admissions| + i].at)
    && (forall i :: 0 <= i < |b.ledger| - |b.admissions| ==> b.ledger[i].at + WINDOW <= now)
  }

  ghost predicate TimesOrdered(ledger: seq<Entry>, now: real) {
    && (forall i, j :: 0 <= i <= j < |ledger| ==> ledger[i].at <= ledger[j].at)
    && (forall i :: 0 <= i < |ledger| ==> ledger[i].at <= now)
  }

  /** rpm admissions take a full window. */
  ghost predicate Spaced(cfg: Config, ledger: seq<Entry>) {
    forall i, j :: 0 <= i && j == i + cfg.rpm && j < |ledger| ==> ledger[i].at + WINDOW <= ledger[j].at
  }

  /** A charge that left the list has expired; a charge in flight is as reserved. */
  ghost predicate ChargesKept(ledger: seq<Entry>, now: real) {
    forall i :: 0 <= i < |ledger| ==> var e := ledger[i];
      && (!e.held ==> e.expires.Some? && e.expires.value <= now)
      && e.reserved <= e.tokens
      && (e.expires.None? ==> e.tokens == e.reserved)
  }

  ghost function HeldReserved(ledger: seq<Entry>): nat {
    if ledger == [] then 0
    else HeldReserved(ledger[..|ledger| - 1]) + if ledger[|ledger| - 1].held then ledger[|ledger| - 1].reserved else 0
  }

  ghost predicate BucketInv(cfg: Config, b: Bucket, now: real) {
    && WindowKept(b, now) && TimesOrdered(b.ledger, now) && Spaced(cfg, b.ledger)
    && ChargesKept(b.ledger, now) && HeldReserved(b.ledger) <= cfg.tpm
  }

  ghost predicate InFlightBy(s: System, c: Client, id: nat) {
    PhaseOf(s, c) == InFlight(id)
  }

  /** Charges in flight and clients in flight correspond one to one. */
  ghost predicate FlightsMatch(s: System) {
    && (forall c, id: nat :: InFlightBy(s, c, id) ==> id < |s.bucket.ledger| && s.bucket.ledger[id].expires.None?)
    && (forall c, d, id: nat :: InFlightBy(s, c, id) && InFlightBy(s, d, id) ==> c == d)
    && (forall id :: 0 <= id < |s.bucket.ledger| && s.bucket.ledger[id].expires.None? ==> exists c :: InFlightBy(s, c, id))
  }

  ghost predicate SomeoneInFlight(s: System) {
    exists c, id: nat :: InFlightBy(s, c, id)
  }

  /** An untimed wait on an event that is not set has a request in flight to set it. */
  ghost predicate NoLostWakeup(s: System) {
    forall c :: PhaseOf(s, c).Waiting? ==> var p := PhaseOf(s, c);
      && p.event <= s.bucket.changed
      && (p.deadline.None? && p.event == s.bucket.changed ==> SomeoneInFlight(s))
  }

  ghost predicate Reservations(cfg: Config, s: System) {
    forall c :: (PhaseOf(s, c).Waiting? || PhaseOf(s, c).Attempting?) ==> ValidReservation(cfg, PhaseOf(s, c).reserved)
  }

  ghost predicate Inv(cfg: Config, s: System) {
    BucketInv(cfg, s.bucket, s.now) && FlightsMatch(s) && NoLostWakeup(s) && Reservations(cfg, s)
  }

  // ----- pruning -----

  lemma {:induction false} DropExpiredIsSuffix(admissions: seq<real>, now: real)
    ensures var d := DropExpired(admissions, now);
      && |d| <= |admissions|
      && (forall i :: 0 <= i < |d| ==> d[i] == admissions[|admissions| - |d| + i])
      && (forall i :: 0 <= i < |admissions| - |d| ==> admissions[i] + WINDOW <= now)
      && (d != [] ==> d[0] + WINDOW > now)
  {
    if admissions != [] && admissions[0] + WINDOW <= now {
      DropExpiredIsSuffix(admissions[1..], now);
    }
  }

  /** Releasing entries can only lower a held sum. */
  lemma {:induction false} ReleaseLowersReserved(ledger: seq<Entry>, released: seq<Entry>)
    requires |released| == |ledger|
    requires forall i :: 0 <= i < |ledger| ==> released[i].reserved == ledger[i].reserved && (released[i].held ==> ledger[i].held)
    ensures HeldReserved(released) <= HeldReserved(ledger)
  {
    if ledger != [] {
      ReleaseLowersReserved(ledger[..|ledger| - 1], released[..|ledger| - 1]);
    }
  }

  lemma {:induction false} ReservedBelowTokens(ledger: seq<Entry>)
    requires forall i :: 0 <= i < |ledger| ==> ledger[i].reserved <= ledger[i].tokens
    ensures HeldReserved(ledger) <= HeldTokens(ledger)
  {
    if ledger != [] {
      ReservedBelowTokens(ledger[..|ledger| - 1]);
    }
  }

  lemma PruneKeepsWindow(b: Bucket, now: real)
    requires WindowKept(b, now)
    ensures WindowKept(Prune(b, now), now)
  {
    hide WindowKept, DropExpired;
    DropExpiredIsSuffix(b.admissions, now);
    SuffixKeepsWindow(b, DropExpired(b.admissions, now), ReleaseExpired(b.ledger, now), now);
  }

  lemma SuffixKeepsWindow(b: Bucket, d: seq<real>, ledger: seq<Entry>, now: real)
    requires WindowKept(b, now) && |d| <= |b.admissions| && |ledger| == |b.ledger|
    requires forall i :: 0 <= i < |ledger| ==> ledger[i].at == b.ledger[i].at
    requires forall i :: 0 <= i < |d| ==> d[i] == b.admissions[|b.admissions| - |d| + i]
    requires forall i :: 0 <= i < |b.admissions| - |d| ==> b.admissions[i] + WINDOW <= now
    ensures WindowKept(Bucket(d, ledger, b.changed), now)
  {
    var gone := |b.ledger| - |b.admissions|;
    forall i | gone <= i < |ledger| - |d| ensures ledger[i].at + WINDOW <= now {
      assert b.admissions[i - gone] == b.ledger[gone + (i - gone)].at;
    }
  }

  lemma PruneKeepsInv(cfg: Config, b: Bucket, now: real)
    requires BucketInv(cfg, b, now)
    ensures BucketInv(cfg, Prune(b, now), now)
  {
    var p := Prune(b, now);
    PruneKeepsWindow(b, now);
    ReleaseLowersReserved(b.ledger, p.ledger);
    ReleaseKeepsTimes(cfg, b.ledger, now);
  }

  lemma ReleaseKeepsTimes(cfg: Config, ledger: seq<Entry>, now: real)
    requires TimesOrdered(ledger, now) && Spaced(cfg, ledger) && ChargesKept(ledger, now)
    ensures var r := ReleaseExpired(ledger, now); TimesOrdered(r, now) && Spaced(cfg, r) && ChargesKept(r, now)
  {
    var r := ReleaseExpired(ledger, now);
    forall i, j | 0 <= i && j == i + cfg.rpm && j < |r| ensures r[i].at + WINDOW <= r[j].at {
      assert ledger[i].at + WINDOW <= ledger[j].at;
    }
  }

  lemma AdmitKeepsInv(cfg: Config, p: Bucket, reserved: nat, now: real)
    requires ValidConfig(cfg) && BucketInv(cfg, p, now) && HasRoom(cfg, p, reserved)
    ensures BucketInv(cfg, Admit(p, reserved, now), now)
  {
    var q := Admit(p, reserved, now);
    assert q.ledger[..|p.ledger|] == p.ledger;
    ReservedBelowTokens(p.ledger);
    AdmitKeepsSpacing(cfg, p, reserved, now);
    AdmitKeepsTimes(p, reserved, now);
  }

  lemma AdmitKeepsTimes(p: Bucket, reserved: nat, now: real)
    requires WindowKept(p, now) && TimesOrdered(p.ledger, now) && ChargesKept(p.ledger, now)
    ensures var q := Admit(p, reserved, now); WindowKept(q, now) && TimesOrdered(q.ledger, now) && ChargesKept(q.ledger, now)
  {
  }

  /** The heart of the rpm bound: with fewer than rpm admissions in the deque, the one
      rpm places back has expired. */
  lemma AdmitKeepsSpacing(cfg: Config, p: Bucket, reserved: nat, now: real)
    requires ValidConfig(cfg) && WindowKept(p, now) && Spaced(cfg, p.ledger) && |p.admissions| < cfg.rpm
    ensures Spaced(cfg, Admit(p, reserved, now).ledger)
  {
    var ledger := Admit(p, reserved, now).ledger;
    forall i, j | 0 <= i && j == i + cfg.rpm && j < |ledger| ensures ledger[i].at + WINDOW <= ledger[j].at {
      if j < |p.ledger| {
        assert p.ledger[i].at + WINDOW <= p.ledger[j].at;
      } else {
        assert i < |p.ledger| - |p.admissions|;
      }
    }
  }

  lemma {:induction false} SettleKeepsReserved(ledger: seq<Entry>, id: nat, e: Entry)
    requires id < |ledger| && e.reserved == ledger[id].reserved && e.held == ledger[id].held
    ensures HeldReserved(ledger[id := e]) == HeldReserved(ledger)
  {
    var last := |ledger| - 1;
    if id < last {
      SettleKeepsReserved(ledger[..last], id, e);
      assert ledger[id := e][..last] == ledger[..last][id := e];
    } else {
      assert ledger[id := e][..last] == ledger[..last];
    }
  }

  // ----- every delay is positive, every untimed wait has someone to end it -----

  lemma {:induction false} SoonestExpiryIsAhead(ledger: seq<Entry>, now: real)
    requires forall i :: 0 <= i < |ledger| && ledger[i].held && ledger[i].expires.Some? ==> ledger[i].expires.value > now
    ensures SoonestExpiry(ledger).Some? ==> SoonestExpiry(ledger).value > now
    ensures forall i :: 0 <= i < |ledger| && ledger[i].held && ledger[i].expires.Some? ==>
      SoonestExpiry(ledger).Some? && SoonestExpiry(ledger).value <= ledger[i].expires.value
  {
    if ledger != [] {
      SoonestExpiryIsAhead(ledger[..|ledger| - 1], now);
    }
  }

  lemma {:induction false} NothingHeldNothingCharged(ledger: seq<Entry>)
    ensures HeldTokens(ledger) == 0 || exists i :: 0 <= i < |ledger| && ledger[i].held
  {
    if ledger != [] {
      NothingHeldNothingCharged(ledger[..|ledger| - 1]);
    }
  }

  /** A refused attempt waits a strictly positive time, or without limit only while some
      charge is in flight. */
  lemma RefusalCanEnd(cfg: Config, b: Bucket, reserved: nat, now: real)
    requires ValidConfig(cfg) && BucketInv(cfg, b, now) && ValidReservation(cfg, reserved)
    ensures var (b', attempt) := TryAcquire(cfg, b, reserved, now);
      attempt.Queue? ==>
        && attempt.event == b.changed
        && (attempt.deadline.Some? ==> attempt.deadline.value > now)
        && (attempt.deadline.None? ==> exists id :: 0 <= id < |b.ledger| && b.ledger[id].expires.None?)
  {
    var p := Prune(b, now);
    DropExpiredIsSuffix(b.admissions, now);
    SoonestExpiryIsAhead(p.ledger, now);
    if !HasRoom(cfg, p, reserved) && Deadline(p).None? {
      assert p.admissions == [];
      NothingHeldNothingCharged(p.ledger);
      var i :| 0 <= i < |p.ledger| && p.ledger[i].held;
      assert b.ledger[i].expires.None?;
    }
  }

  // ----- every step keeps the invariant -----

  lemma FinishKeepsBucketInv(cfg: Config, b: Bucket, id: nat, observed: int, now: real)
    requires BucketInv(cfg, b, now) && id < |b.ledger| && b.ledger[id].expires.None?
    ensures BucketInv(cfg, Finish(b, id, observed, now), now)
  {
    var e := Finish(b, id, observed, now).ledger[id];
    SettleKeepsReserved(b.ledger, id, e);
    SettleKeepsTimes(cfg, b.ledger, id, e, now);
  }

  lemma SettleKeepsTimes(cfg: Config, ledger: seq<Entry>, id: nat, e: Entry, now: real)
    requires id < |ledger| && e.at == ledger[id].at && e.expires.Some? && e.reserved <= e.tokens && (e.held || e.expires.value <= now)
    requires TimesOrdered(ledger, now) && Spaced(cfg, ledger) && ChargesKept(ledger, now)
    ensures var r := ledger[id := e]; TimesOrdered(r, now) && Spaced(cfg, r) && ChargesKept(r, now)
  {
    var r := ledger[id := e];
    assert forall i :: 0 <= i < |r| ==> r[i].at == ledger[i].at;
    forall i, j | 0 <= i && j == i + cfg.rpm && j < |r| ensures r[i].at + WINDOW <= r[j].at {
      assert ledger[i].at + WINDOW <= ledger[j].at;
    }
  }

  lemma AttemptKeepsBucketInv(cfg: Config, b: Bucket, reserved: nat, now: real)
    requires ValidConfig(cfg) && BucketInv(cfg, b, now)
    ensures BucketInv(cfg, TryAcquire(cfg, b, reserved, now).0, now)
  {
    PruneKeepsInv(cfg, b, now);
    if HasRoom(cfg, Prune(b, now), reserved) {
      AdmitKeepsInv(cfg, Prune(b, now), reserved, now);
    }
  }

  lemma TickKeepsBucketInv(cfg: Config, b: Bucket, now: real, later: real)
    requires BucketInv(cfg, b, now) && now <= later
    ensures BucketInv(cfg, b, later)
  {
  }

  lemma StepKeepsBucketInv(cfg: Config, s: System, step: Step)
    requires ValidConfig(cfg) && Inv(cfg, s) && Enabled(s, step)
    ensures BucketInv(cfg, Apply(cfg, s, step).bucket, Apply(cfg, s, step).now)
  {
    match step
    case Retry(c) => AttemptKeepsBucketInv(cfg, s.bucket, s.clients[c].reserved, s.now);
    case Complete(c, observed) =>
      assert InFlightBy(s, c, s.clients[c].id);
      FinishKeepsBucketInv(cfg, s.bucket, s.clients[c].id, observed, s.now);
    case Tick(elapsed) => TickKeepsBucketInv(cfg, s.bucket, s.now, s.now + elapsed);
    case Submit(_, _) =>
    case Wake(_) =>
    case Cancel(_) =>
  }

  lemma StepKeepsFlights(cfg: Config, s: System, step: Step)
    requires FlightsMatch(s) && Enabled(s, step)
    ensures FlightsMatch(Apply(cfg, s, step))
  {
    var t := Apply(cfg, s, step);
    forall id | 0 <= id < |t.bucket.ledger| && t.bucket.ledger[id].expires.None? ensures exists c :: InFlightBy(t, c, id) {
      if id < |s.bucket.ledger| {
        var c :| InFlightBy(s, c, id);
        assert InFlightBy(t, c, id);
      } else {
        assert InFlightBy(t, step.client, id);
      }
    }
    forall c, id: nat | InFlightBy(t, c, id) ensures id < |t.bucket.ledger| && t.bucket.ledger[id].expires.None? {
      assert InFlightBy(s, c, id) || (step.Retry? && step.client == c);
      if step.Complete? {
        assert InFlightBy(s, step.client, s.clients[step.client].id);
      }
    }
    forall c, d, id: nat | InFlightBy(t, c, id) && InFlightBy(t, d, id) ensures c == d {
      assert InFlightBy(s, c, id) || (step.Retry? && step.client == c && id == |s.bucket.ledger|);
      assert InFlightBy(s, d, id) || (step.Retry? && step.client == d && id == |s.bucket.ledger|);
    }
  }

  lemma StepKeepsWakeups(cfg: Config, s: System, step: Step)
    requires ValidConfig(cfg) && Inv(cfg, s) && Enabled(s, step)
    ensures NoLostWakeup(Apply(cfg, s, step))
  {
    var t := Apply(cfg, s, step);
    forall c | PhaseOf(t, c).Waiting?
      ensures PhaseOf(t, c).event <= t.bucket.changed
      ensures PhaseOf(t, c).deadline.None? && PhaseOf(t, c).event == t.bucket.changed ==> SomeoneInFlight(t)
    {
      if step.Retry? && step.client == c {
        NewWaiterCanEnd(cfg, s, step);
      } else {
        OldWaiterCanEnd(cfg, s, step, c);
      }
    }
  }

  lemma NewWaiterCanEnd(cfg: Config, s: System, step: Step)
    requires ValidConfig(cfg) && Inv(cfg, s) && Enabled(s, step) && step.Retry?
    requires PhaseOf(Apply(cfg, s, step), step.client).Waiting?
    ensures var t := Apply(cfg, s, step); var p := PhaseOf(t, step.client);
      p.event == t.bucket.changed && (p.deadline.None? ==> SomeoneInFlight(t))
  {
    hide BucketInv, Prune, HasRoom, Admit, Deadline;
    var t := Apply(cfg, s, step);
    RefusalCanEnd(cfg, s.bucket, s.clients[step.client].reserved, s.now);
    if PhaseOf(t, step.client).deadline.None? {
      var id :| 0 <= id < |s.bucket.ledger| && s.bucket.ledger[id].expires.None?;
      var d :| InFlightBy(s, d, id);
      assert InFlightBy(t, d, id);
    }
  }

  lemma OldWaiterCanEnd(cfg: Config, s: System, step: Step, c: Client)
    requires NoLostWakeup(s) && Enabled(s, step) && PhaseOf(Apply(cfg, s, step), c).Waiting? && !(step.Retry? && step.client == c)
    ensures var t := Apply(cfg, s, step); var p := PhaseOf(t, c);
      p.event <= t.bucket.changed && (p.deadline.None? && p.event == t.bucket.changed ==> SomeoneInFlight(t))
  {
    hide HasRoom, Deadline, DropExpired, ReleaseExpired;
    var t := Apply(cfg, s, step);
    assert PhaseOf(s, c) == PhaseOf(t, c);
    if PhaseOf(t, c).deadline.None? && PhaseOf(t, c).event == t.bucket.changed {
      assert !step.Complete?;
      var d, id: nat :| InFlightBy(s, d, id);
      assert InFlightBy(t, d, id);
    }
  }

  lemma StepKeepsInv(cfg: Config, s: System, step: Step)
    requires ValidConfig(cfg) && Inv(cfg, s) && Enabled(s, step)
    ensures Inv(cfg, Apply(cfg, s, step))
  {
    StepKeepsBucketInv(cfg, s, step);
    StepKeepsFlights(cfg, s, step);
    StepKeepsWakeups(cfg, s, step);
    StepKeepsReservations(cfg, s, step);
  }

  lemma StepKeepsReservations(cfg: Config, s: System, step: Step)
    requires Reservations(cfg, s) && Enabled(s, step)
    ensures Reservations(cfg, Apply(cfg, s, step))
  {
    var t := Apply(cfg, s, step);
    forall c | PhaseOf(t, c).Waiting? || PhaseOf(t, c).Attempting? ensures ValidReservation(cfg, PhaseOf(t, c).reserved) {
      assert PhaseOf(s, c) == PhaseOf(t, c) || (!step.Tick? && step.client == c);
    }
  }

  lemma {:induction false} RunKeepsInv(cfg: Config, steps: seq<Step>, trace: seq<System>, n: nat)
    requires ValidConfig(cfg) && Run(cfg, steps, trace) && n < |trace|
    ensures Inv(cfg, trace[n])
  {
    if n > 0 {
      RunKeepsInv(cfg, steps, trace, n - 1);
      assert Follows(cfg, trace[n - 1], steps[n - 1], trace[n - 1 + 1]);
      StepKeepsInv(cfg, trace[n - 1], steps[n - 1]);
    }
  }

  // ----- what follows for whole runs -----

  /** The admissions of the full history that fall in [t, t + WINDOW). */
  ghost function AdmittedWithin(ledger: seq<Entry>, t: real): set<int> {
    set i | 0 <= i < |ledger| && t <= ledger[i].at < t + 60.0
  }

  lemma {:induction false} IntervalSize(s: set<int>, lo: int, n: nat)
    requires forall i :: i in s ==> lo <= i < lo + n
    ensures |s| <= n
  {
    if n == 0 {
      forall i ensures i !in s { }
      assert s == {};
    } else {
      IntervalSize(s - {lo + n - 1}, lo, n - 1);
    }
  }

  /** Where the admissions from t onwards begin. */
  lemma {:induction false} FirstFrom(ledger: seq<Entry>, t: real, n: nat) returns (lo: nat)
    requires n <= |ledger|
    requires forall i, j :: 0 <= i <= j < |ledger| ==> ledger[i].at <= ledger[j].at
    ensures lo <= n
    ensures forall i :: 0 <= i < lo ==> ledger[i].at < t
    ensures forall i :: lo <= i < n ==> t <= ledger[i].at
  {
    lo := 0;
    if n > 0 {
      lo := FirstFrom(ledger, t, n - 1);
      if ledger[n - 1].at < t {
        lo := n;
      }
    }
  }

  lemma SpacingBoundsWindow(cfg: Config, ledger: seq<Entry>, now: real, t: real)
    requires TimesOrdered(ledger, now) && Spaced(cfg, ledger)
    ensures |AdmittedWithin(ledger, t)| <= cfg.rpm
  {
    var lo := FirstFrom(ledger, t, |ledger|);
    forall i | lo + cfg.rpm <= i < |ledger| ensures t + WINDOW <= ledger[i].at {
      assert ledger[lo].at + WINDOW <= ledger[lo + cfg.rpm].at;
    }
    IntervalSize(AdmittedWithin(ledger, t), lo, cfg.rpm);
  }

  /** In every run, every half-open window of 60 seconds holds at most rpm admissions of
      the whole history. */
  lemma RpmBound(cfg: Config, steps: seq<Step>, trace: seq<System>, n: nat, t: real)
    requires ValidConfig(cfg) && Run(cfg, steps, trace) && n < |trace|
    ensures |AdmittedWithin(trace[n].bucket.ledger, t)| <= cfg.rpm
  {
    RunKeepsInv(cfg, steps, trace, n);
    SpacingBoundsWindow(cfg, trace[n].bucket.ledger, trace[n].now, t);
  }

  /** Sums over the charges that count at a time: in flight, or finished within a window. */
  ghost function LiveReserved(ledger: seq<Entry>, now: real): nat {
    if ledger == [] then 0
    else
      var e := ledger[|ledger| - 1];
      LiveReserved(ledger[..|ledger| - 1], now) + if e.expires.None? || now < e.expires.value then e.reserved else 0
  }

  ghost function LiveTokens(ledger: seq<Entry>, now: real): nat {
    if ledger == [] then 0
    else
      var e := ledger[|ledger| - 1];
      LiveTokens(ledger[..|ledger| - 1], now) + if e.expires.None? || now < e.expires.value then e.tokens else 0
  }

  /** Observed beyond reserved, over live charges that have finished. */
  ghost function LiveExcess(ledger: seq<Entry>, now: real): int {
    if ledger == [] then 0
    else
      var e := ledger[|ledger| - 1];
      LiveExcess(ledger[..|ledger| - 1], now) + if e.expires.Some? && now < e.expires.value then e.tokens - e.reserved else 0
  }

  lemma {:induction false} LiveIsHeld(ledger: seq<Entry>, now: real)
    requires ChargesKept(ledger, now)
    ensures LiveReserved(ledger, now) <= HeldReserved(ledger)
    ensures LiveTokens(ledger, now) == LiveReserved(ledger, now) + LiveExcess(ledger, now)
  {
    if ledger != [] {
      LiveIsHeld(ledger[..|ledger| - 1], now);
    }
  }

  /** In every reachable state the reservations of live charges fit into tpm, and live
      tokens exceed tpm by no more than what finished requests used beyond theirs. */
  lemma TpmBound(cfg: Config, steps: seq<Step>, trace: seq<System>, n: nat)
    requires ValidConfig(cfg) && Run(cfg, steps, trace) && n < |trace|
    ensures LiveReserved(trace[n].bucket.ledger, trace[n].now) <= cfg.tpm
    ensures LiveTokens(trace[n].bucket.ledger, trace[n].now) <= cfg.tpm + LiveExcess(trace[n].bucket.ledger, trace[n].now)
  {
    RunKeepsInv(cfg, steps, trace, n);
    LiveIsHeld(trace[n].bucket.ledger, trace[n].now);
  }

  /** History is only appended to; a settlement never lowers a charge and never unsettles. */
  ghost predicate HistoryGrows(a: seq<Entry>, b: seq<Entry>) {
    && |a| <= |b|
    && forall i :: 0 <= i < |a| ==>
      && b[i].at == a[i].at && b[i].reserved == a[i].reserved && a[i].tokens <= b[i].tokens
      && (a[i].expires.Some? ==> b[i].expires.Some?)
  }

  lemma {:induction false} RunExtendsHistory(cfg: Config, steps: seq<Step>, trace: seq<System>, m: nat, n: nat)
    requires Run(cfg, steps, trace) && m <= n < |trace|
    ensures HistoryGrows(trace[m].bucket.ledger, trace[n].bucket.ledger)
    decreases n - m
  {
    if m < n {
      RunExtendsHistory(cfg, steps, trace, m, n - 1);
      assert Follows(cfg, trace[n - 1], steps[n - 1], trace[n - 1 + 1]);
    }
  }

  ghost predicate SameCharge(a: Entry, b: Entry) {
    a.reserved == b.reserved && a.tokens == b.tokens && a.expires == b.expires
  }

  /** A charge is created only by the retry that is admitted, and settled only by the
      completion of its own client: waiting, waking and cancelling touch none. */
  lemma OnlyAdmissionAndCompletionTouchCharges(cfg: Config, s: System, step: Step)
    requires Inv(cfg, s) && Enabled(s, step)
    ensures var t := Apply(cfg, s, step);
      && var m := |s.bucket.ledger|;
      && m <= |t.bucket.ledger| <= m + 1
      && (m < |t.bucket.ledger| ==> step.Retry? && InFlightBy(t, step.client, m) && t.bucket.ledger[m].at == s.now)
      && (forall i :: 0 <= i < m && !SameCharge(s.bucket.ledger[i], t.bucket.ledger[i]) ==> step.Complete? && InFlightBy(s, step.client, i))
  {
  }

  /** A client that waits can give up at any time and wake only when its event is set or its deadline
      has come; neither touches the bucket or anybody else, and waking keeps the reservation. */
  lemma WaiterWakesWithCause(cfg: Config, s: System, c: Client, step: Step)
    requires PhaseOf(s, c).Waiting? && !step.Tick? && step.client == c
    ensures var p := PhaseOf(s, c);
      && (Enabled(s, step) <==>
            step == Cancel(c) || (step == Wake(c) && (p.event < s.bucket.changed || (p.deadline.Some? && p.deadline.value <= s.now))))
      && (Enabled(s, step) ==> var t := Apply(cfg, s, step);
            && PhaseOf(t, c) == (if step.Cancel? then Outside else Attempting(p.reserved))
            && t.bucket == s.bucket && t.now == s.now && forall d :: d != c ==> PhaseOf(t, d) == PhaseOf(s, d))
  {
  }

  /** A request is queued for an attempt exactly when its reservation is positive and fits tpm. */
  lemma SubmissionIsChecked(cfg: Config, s: System, c: Client, reservation: int)
    requires PhaseOf(s, c).Outside?
    ensures Enabled(s, Submit(c, reservation))
    ensures var t := Apply(cfg, s, Submit(c, reservation));
      && PhaseOf(t, c) == (if 1 <= reservation <= cfg.tpm then Attempting(reservation) else Outside)
      && t.bucket == s.bucket && t.now == s.now && forall d :: d != c ==> PhaseOf(t, d) == PhaseOf(s, d)
  {
  }

  /** Time may pass at any time and changes nothing else. */
  lemma TimePasses(cfg: Config, s: System, elapsed: real)
    ensures Enabled(s, Tick(elapsed)) <==> 0.0 <= elapsed
    ensures 0.0 <= elapsed ==> Apply(cfg, s, Tick(elapsed)) == s.(now := s.now + elapsed)
  {
  }

  /** No client is ever stuck: whoever waits can wake now, or by time passing to its
      deadline, or because some request in flight will set its event when it finishes,
      whatever that request observed. */
  lemma NobodyStuck(cfg: Config, steps: seq<Step>, trace: seq<System>, n: nat, c: Client)
    requires ValidConfig(cfg) && Run(cfg, steps, trace) && n < |trace|
    requires PhaseOf(trace[n], c).Waiting?
    ensures var s := trace[n];
      || Enabled(s, Wake(c))
      || (exists elapsed :: elapsed > 0.0 && Enabled(s, Tick(elapsed)) && Enabled(Apply(cfg, s, Tick(elapsed)), Wake(c)))
      || (exists d :: Enabled(s, Complete(d, 0)) && FinishWakes(cfg, s, d, c))
  {
    var s := trace[n];
    RunKeepsInv(cfg, steps, trace, n);
    var p := PhaseOf(s, c);
    if p.deadline.Some? && p.deadline.value > s.now {
      var elapsed := p.deadline.value - s.now;
      assert Enabled(Apply(cfg, s, Tick(elapsed)), Wake(c));
    } else if p.deadline.None? && p.event == s.bucket.changed {
      var d, id: nat :| InFlightBy(s, d, id);
      assert FinishWakes(cfg, s, d, c);
    }
  }

  /** Whatever d's request is found to have used, its completion sets c's event. */
  ghost predicate FinishWakes(cfg: Config, s: System, d: Client, c: Client) {
    forall observed :: Enabled(s, Complete(d, observed)) ==> Enabled(Apply(cfg, s, Complete(d, observed)), Wake(c))
  }

  // ----- what an attempt decides -----

  /** The admissions of the last minute. */
  ghost function Recent(ledger: seq<Entry>, now: real): set<int> {
    set i | 0 <= i < |ledger| && now < ledger[i].at + 60.0
  }

  /** An attempt is admitted exactly when the full history has room for it: fewer than rpm
      admissions in the last minute, and tokens of charges in flight or finished within the last
      minute that leave the reservation free.  It is then recorded as reserved; whatever was
      recorded before keeps its figures. */
  lemma AdmittedExactlyWhenItFits(cfg: Config, b: Bucket, reserved: nat, now: real)
    requires BucketInv(cfg, b, now)
    ensures var (b', attempt) := TryAcquire(cfg, b, reserved, now);
      && (attempt.Admitted? <==> |Recent(b.ledger, now)| < cfg.rpm && LiveTokens(b.ledger, now) + reserved <= cfg.tpm)
      && (attempt.Admitted? ==> attempt.id == |b.ledger| && |b'.ledger| == |b.ledger| + 1
                                && b'.ledger[|b.ledger|] == Entry(now, reserved, reserved, None, true))
      && (attempt.Queue? ==> |b'.ledger| == |b.ledger| && attempt.event == b.changed)
      && b'.changed == b.changed
      && forall i :: 0 <= i < |b.ledger| ==> b'.ledger[i] == b.ledger[i].(held := b'.ledger[i].held)
  {
    var p := Prune(b, now);
    DropExpiredIsSuffix(b.admissions, now);
    PruneKeepsInv(cfg, b, now);
    RecentAreInDeque(p, now);
    assert Recent(p.ledger, now) == Recent(b.ledger, now);
    HeldAreLive(b.ledger, now);
  }

  /** After pruning, the deque holds the admissions of the last minute. */
  lemma RecentAreInDeque(p: Bucket, now: real)
    requires WindowKept(p, now) && TimesOrdered(p.ledger, now) && (p.admissions != [] ==> now < p.admissions[0] + 60.0)
    ensures |Recent(p.ledger, now)| == |p.admissions|
  {
    var gone := |p.ledger| - |p.admissions|;
    forall i | gone <= i < |p.ledger|
      ensures now < p.ledger[i].at + 60.0
    {
      assert p.admissions[0] == p.ledger[gone + 0].at;
      assert p.ledger[gone].at <= p.ledger[i].at;
    }
    IntervalIsAsLong(Recent(p.ledger, now), gone, |p.admissions|);
  }

  lemma {:induction false} IntervalIsAsLong(s: set<int>, lo: int, n: nat)
    requires forall i :: i in s <==> lo <= i < lo + n
    ensures |s| == n
  {
    if n == 0 {
      forall i ensures i !in s { }
      assert s == {};
    } else {
      IntervalIsAsLong(s - {lo + n - 1}, lo, n - 1);
    }
  }

  /** After pruning, the charges held are the live ones. */
  lemma {:induction false} HeldAreLive(ledger: seq<Entry>, now: real)
    requires ChargesKept(ledger, now)
    ensures HeldTokens(ReleaseExpired(ledger, now)) == LiveTokens(ledger, now)
  {
    if ledger != [] {
      var last := |ledger| - 1;
      HeldAreLive(ledger[..last], now);
      assert ReleaseExpired(ledger, now)[..last] == ReleaseExpired(ledger[..last], now);
    }
  }

  /** Something that will stop counting at time d: a finished charge or an admission. */
  ghost predicate EndsAt(ledger: seq<Entry>, i: int, d: real) {
    0 <= i < |ledger| && (ledger[i].expires == Some(d) || ledger[i].at + 60.0 == d)
  }

  /** A queued attempt is retried at the first time at which anything stops counting. */
  lemma DeadlineIsEarliest(cfg: Config, b: Bucket, reserved: nat, now: real)
    requires BucketInv(cfg, b, now)
    ensures var attempt := TryAcquire(cfg, b, reserved, now).1;
      attempt.Queue? ==>
        && (forall i, d :: EndsAt(b.ledger, i, d) && now < d ==> attempt.deadline.Some? && attempt.deadline.value <= d)
        && (attempt.deadline.Some? ==> now < attempt.deadline.value && exists i :: EndsAt(b.ledger, i, attempt.deadline.value))
  {
    hide BucketInv, HasRoom, SoonestExpiry, DropExpired, ReleaseExpired;
    var p := Prune(b, now);
    PrunedBucket(cfg, b, now);
    OldestEndsFirst(p, now);
    SoonestEndsFirst(p.ledger, now);
    forall i, d
      ensures EndsAt(b.ledger, i, d) <==> EndsAt(p.ledger, i, d)
    {
    }
  }

  lemma PrunedBucket(cfg: Config, b: Bucket, now: real)
    requires BucketInv(cfg, b, now)
    ensures var p := Prune(b, now);
      && WindowKept(p, now) && TimesOrdered(p.ledger, now) && (p.admissions != [] ==> now < p.admissions[0] + 60.0)
      && |p.ledger| == |b.ledger|
      && (forall i :: 0 <= i < |b.ledger| ==> p.ledger[i].at == b.ledger[i].at && p.ledger[i].expires == b.ledger[i].expires)
      && (forall i :: 0 <= i < |p.ledger| && p.ledger[i].expires.Some? ==> (p.ledger[i].held <==> now < p.ledger[i].expires.value))
  {
    PruneKeepsInv(cfg, b, now);
    DropExpiredIsSuffix(b.admissions, now);
  }

  /** The front of the deque is the first admission to leave the last minute. */
  lemma OldestEndsFirst(p: Bucket, now: real)
    requires WindowKept(p, now) && TimesOrdered(p.ledger, now) && (p.admissions != [] ==> now < p.admissions[0] + 60.0)
    ensures p.admissions != [] ==> exists i, d :: EndsAt(p.ledger, i, d) && d == p.admissions[0] + 60.0
    ensures forall i :: 0 <= i < |p.ledger| && now < p.ledger[i].at + 60.0 ==> p.admissions != [] && p.admissions[0] <= p.ledger[i].at
  {
    var gone := |p.ledger| - |p.admissions|;
    if p.admissions != [] {
      assert p.admissions[0] == p.ledger[gone + 0].at;
      assert EndsAt(p.ledger, gone, p.admissions[0] + 60.0);
    }
    forall i | 0 <= i < |p.ledger| && now < p.ledger[i].at + 60.0
      ensures p.admissions != [] && p.admissions[0] <= p.ledger[i].at
    {
      assert gone <= i;
      assert p.ledger[gone].at <= p.ledger[i].at;
    }
  }

  lemma SoonestEndsFirst(ledger: seq<Entry>, now: real)
    requires forall i :: 0 <= i < |ledger| && ledger[i].expires.Some? ==> (ledger[i].held <==> now < ledger[i].expires.value)
    ensures var soonest := SoonestExpiry(ledger);
      && (soonest.Some? ==> now < soonest.value && exists i :: EndsAt(ledger, i, soonest.value))
      && forall i :: 0 <= i < |ledger| && ledger[i].expires.Some? && now < ledger[i].expires.value ==>
        soonest.Some? && soonest.value <= ledger[i].expires.value
  {
    SoonestExpiryIsAhead(ledger, now);
    SoonestExpiryIsHeld(ledger);
    if SoonestExpiry(ledger).Some? {
      var i :| 0 <= i < |ledger| && ledger[i].held && ledger[i].expires == SoonestExpiry(ledger);
      assert EndsAt(ledger, i, ledger[i].expires.value);
    }
  }

  // ----- what a completion settles -----

  /** Entry `id` is the settled one of a request that observed this much, finished at `at`. */
  ghost predicate SettledAs(ledger: seq<Entry>, id: nat, observed: int, at: real) {
    && id < |ledger| && ledger[id].expires == Some(at + 60.0)
    && ledger[id].tokens == if observed > ledger[id].reserved then observed else ledger[id].reserved
  }

  /** A completion raises its own charge to what was observed, never below the reservation, and
      starts its last minute; it touches no other charge and wakes everybody. */
  lemma CompletionSettles(cfg: Config, s: System, c: Client, observed: int, t: System)
    requires Inv(cfg, s) && Follows(cfg, s, Complete(c, observed), t)
    ensures var id := PhaseOf(s, c).id;
      && SettledAs(t.bucket.ledger, id, observed, s.now)
      && |t.bucket.ledger| == |s.bucket.ledger| && t.bucket.ledger[id].at == s.bucket.ledger[id].at
      && t.bucket.ledger[id].reserved == s.bucket.ledger[id].reserved
      && (forall i :: 0 <= i < |s.bucket.ledger| && i != id ==> t.bucket.ledger[i] == s.bucket.ledger[i])
      && t.bucket.changed > s.bucket.changed && PhaseOf(t, c) == Outside && t.now == s.now
  {
    assert InFlightBy(s, c, PhaseOf(s, c).id);
  }

  /** In every later state of a run the charge is as its completion settled it. */
  lemma {:induction false} SettlementStands(cfg: Config, steps: seq<Step>, trace: seq<System>, m: nat, n: nat)
    requires ValidConfig(cfg) && Run(cfg, steps, trace) && m < n < |trace| && steps[m].Complete?
    ensures PhaseOf(trace[m], steps[m].client).InFlight?
    ensures SettledAs(trace[n].bucket.ledger, PhaseOf(trace[m], steps[m].client).id, steps[m].observed, trace[m].now)
    decreases n - m
  {
    hide Inv, Apply, Enabled, SettledAs;
    RunKeepsInv(cfg, steps, trace, m);
    assert Follows(cfg, trace[m], steps[m], trace[m + 1]);
    FlightIsKnown(cfg, trace[m], steps[m]);
    if n == m + 1 {
      CompletionSettles(cfg, trace[m], steps[m].client, steps[m].observed, trace[m + 1]);
    } else {
      SettlementStands(cfg, steps, trace, m, n - 1);
      RunKeepsInv(cfg, steps, trace, n - 1);
      assert Follows(cfg, trace[n - 1], steps[n - 1], trace[n - 1 + 1]);
      SettledStays(cfg, trace[n - 1], steps[n - 1], PhaseOf(trace[m], steps[m].client).id, steps[m].observed, trace[m].now);
    }
  }

  lemma FlightIsKnown(cfg: Config, s: System, step: Step)
    requires Enabled(s, step) && step.Complete?
    ensures PhaseOf(s, step.client).InFlight? && step == Complete(step.client, step.observed)
  {
  }

  lemma SettledStays(cfg: Config, s: System, step: Step, id: nat, observed: int, at: real)
    requires Inv(cfg, s) && Enabled(s, step) && SettledAs(s.bucket.ledger, id, observed, at)
    ensures SettledAs(Apply(cfg, s, step).bucket.ledger, id, observed, at)
  {
    OnlyAdmissionAndCompletionTouchCharges(cfg, s, step);
  }

  // ----- a client on its own is admitted by the latest expiry -----

  /** Retry times when nobody else acts: each refused attempt is repeated at its deadline. */
  ghost predicate PunctualRetries(cfg: Config, b: Bucket, reserved: nat, times: seq<real>)
    decreases |times|
  {
    && times != []
    && var (b', attempt) := TryAcquire(cfg, b, reserved, times[0]);
      if |times| == 1 then attempt.Admitted?
      else attempt == Queue(Some(times[1]), b.changed) && times[0] < times[1] && PunctualRetries(cfg, b', reserved, times[1..])
  }

  /** Nothing in the bucket outlives `limit`, and nothing is in flight. */
  ghost predicate ClearsBy(b: Bucket, limit: real) {
    && (forall i :: 0 <= i < |b.ledger| ==> b.ledger[i].expires.Some? && (b.ledger[i].held ==> b.ledger[i].expires.value <= limit))
    && (forall i :: 0 <= i < |b.admissions| ==> b.admissions[i] + WINDOW <= limit)
  }

  ghost function HeldCount(ledger: seq<Entry>): nat {
    if ledger == [] then 0 else HeldCount(ledger[..|ledger| - 1]) + if ledger[|ledger| - 1].held then 1 else 0
  }

  lemma {:induction false} ReleaseLowersCount(ledger: seq<Entry>, now: real)
    ensures HeldCount(ReleaseExpired(ledger, now)) <= HeldCount(ledger)
    ensures SoonestExpiry(ledger) == Some(now) ==> HeldCount(ReleaseExpired(ledger, now)) < HeldCount(ledger)
  {
    if ledger != [] {
      var last := |ledger| - 1;
      ReleaseLowersCount(ledger[..last], now);
      assert ReleaseExpired(ledger, now)[..last] == ReleaseExpired(ledger[..last], now);
    }
  }

  lemma {:induction false} SoonestExpiryIsHeld(ledger: seq<Entry>)
    ensures SoonestExpiry(ledger).Some? ==> exists i :: 0 <= i < |ledger| && ledger[i].held && ledger[i].expires == SoonestExpiry(ledger)
  {
    if ledger != [] {
      SoonestExpiryIsHeld(ledger[..|ledger| - 1]);
    }
  }

  ghost function Load(b: Bucket): nat {
    |b.admissions| + HeldCount(b.ledger)
  }

  lemma PruneClears(b: Bucket, now: real, limit: real)
    requires ClearsBy(b, limit)
    ensures ClearsBy(Prune(b, now), limit)
  {
    DropExpiredIsSuffix(b.admissions, now);
  }

  lemma DeadlineWithin(p: Bucket, limit: real)
    requires ClearsBy(p, limit)
    ensures Deadline(p).Some? ==> Deadline(p).value <= limit
  {
    SoonestExpiryIsHeld(p.ledger);
  }

  /** Pruning at the deadline frees something. */
  lemma DeadlineFrees(p: Bucket, d: real)
    requires Deadline(p) == Some(d)
    ensures Load(Prune(p, d)) < Load(p)
  {
    ReleaseLowersCount(p.ledger, d);
    DropExpiredIsSuffix(p.admissions, d);
  }

  /** With nothing in flight and nobody competing, a valid reservation retried at its
      deadlines is admitted no later than the latest expiry. */
  lemma SoloAcquire(cfg: Config, b: Bucket, reserved: nat, now: real, limit: real) returns (times: seq<real>)
    requires ValidConfig(cfg) && BucketInv(cfg, b, now) && ValidReservation(cfg, reserved)
    requires ClearsBy(b, limit) && now <= limit
    ensures PunctualRetries(cfg, b, reserved, times)
    ensures times[0] == now && times[|times| - 1] <= limit
    decreases Load(Prune(b, now))
  {
    times := [now];
    var p := Prune(b, now);
    if !HasRoom(cfg, p, reserved) {
      RefusalCanEnd(cfg, b, reserved, now);
      PruneKeepsInv(cfg, b, now);
      PruneClears(b, now, limit);
      DeadlineWithin(p, limit);
      assert Deadline(p).Some?;
      var d := Deadline(p).value;
      DeadlineFrees(p, d);
      TickKeepsBucketInv(cfg, p, now, d);
      var rest := SoloAcquire(cfg, p, reserved, d, limit);
      times := [now] + rest;
      assert times[1..] == rest;
    }
  }
}
