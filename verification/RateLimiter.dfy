/** `GlobalRateLimit` with its mutable fields, proved to do what the bucket functions of
    RateLimit say. */
module RateLimiter {
  import opened Options
  import opened RateLimit

  class TokenCharge {
    var tokens: nat
    var expiresAt: Option<real>

    constructor (tokens: nat)
      ensures this.tokens == tokens && expiresAt == None
    {
      this.tokens, expiresAt := tokens, None;
    }
  }

  class Event {
    var isSet: bool

    constructor ()
      ensures !isSet
    {
      isSet := false;
    }
  }

  /** The charge objects that are still in the list, in order of admission. */
  ghost function HeldCharges(all: seq<TokenCharge>, ledger: seq<Entry>): seq<TokenCharge>
    requires |all| == |ledger|
  {
    if ledger == [] then []
    else
      var last := |ledger| - 1;
      HeldCharges(all[..last], ledger[..last]) + if ledger[last].held then [all[last]] else []
  }

  /** Each charge object carries the figures of its ledger entry. */
  ghost predicate Carries(all: seq<TokenCharge>, ledger: seq<Entry>)
    reads all
  {
    && |all| == |ledger|
    && (forall i, j :: 0 <= i < j < |all| ==> all[i] != all[j])
    && forall i :: 0 <= i < |all| ==> all[i].tokens == ledger[i].tokens && all[i].expiresAt == ledger[i].expires
  }

  predicate Keeps(c: TokenCharge, now: real)
    reads c
  {
    c.expiresAt.None? || c.expiresAt.value > now
  }

  ghost function KeptCharges(charges: seq<TokenCharge>, now: real): seq<TokenCharge>
    reads charges
  {
    if charges == [] then []
    else
      var last := charges[|charges| - 1];
      KeptCharges(charges[..|charges| - 1], now) + if Keeps(last, now) then [last] else []
  }

  ghost function SumTokens(charges: seq<TokenCharge>): nat
    reads charges
  {
    if charges == [] then 0 else SumTokens(charges[..|charges| - 1]) + charges[|charges| - 1].tokens
  }

  ghost function Soonest(charges: seq<TokenCharge>): Option<real>
    reads charges
  {
    if charges == [] then None else Sooner(Soonest(charges[..|charges| - 1]), charges[|charges| - 1].expiresAt)
  }

  /** Filtering the list of objects is releasing the expired entries. */
  lemma {:induction false} FilterIsRelease(all: seq<TokenCharge>, ledger: seq<Entry>, now: real)
    requires Carries(all, ledger)
    ensures KeptCharges(HeldCharges(all, ledger), now) == HeldCharges(all, ReleaseExpired(ledger, now))
  {
    if ledger != [] {
      var last := |ledger| - 1;
      FilterIsRelease(all[..last], ledger[..last], now);
      assert ReleaseExpired(ledger, now)[..last] == ReleaseExpired(ledger[..last], now);
      var front := HeldCharges(all[..last], ledger[..last]);
      var whole := HeldCharges(all, ledger);
      if ledger[last].held {
        assert whole == front + [all[last]] && whole[..|front|] == front;
      } else {
        assert whole == front;
      }
    }
  }

  lemma {:induction false} HeldFigures(all: seq<TokenCharge>, ledger: seq<Entry>)
    requires Carries(all, ledger)
    ensures SumTokens(HeldCharges(all, ledger)) == HeldTokens(ledger)
    ensures Soonest(HeldCharges(all, ledger)) == SoonestExpiry(ledger)
  {
    if ledger != [] {
      var last := |ledger| - 1;
      HeldFigures(all[..last], ledger[..last]);
      var front := HeldCharges(all[..last], ledger[..last]);
      var whole := HeldCharges(all, ledger);
      if ledger[last].held {
        assert whole == front + [all[last]] && whole[..|front|] == front;
      } else {
        assert whole == front;
      }
    }
  }

  /** Holding on does not depend on tokens or expiry. */
  lemma {:induction false} HeldDependsOnFlags(all: seq<TokenCharge>, a: seq<Entry>, b: seq<Entry>)
    requires |all| == |a| == |b|
    requires forall i :: 0 <= i < |a| ==> a[i].held == b[i].held
    ensures HeldCharges(all, a) == HeldCharges(all, b)
  {
    if a != [] {
      HeldDependsOnFlags(all[..|a| - 1], a[..|a| - 1], b[..|a| - 1]);
    }
  }

  lemma HeldAdded(all: seq<TokenCharge>, ledger: seq<Entry>, charge: TokenCharge, e: Entry)
    requires |all| == |ledger| && e.held
    ensures HeldCharges(all + [charge], ledger + [e]) == HeldCharges(all, ledger) + [charge]
  {
    assert (all + [charge])[..|all|] == all && (ledger + [e])[..|ledger|] == ledger;
  }

  /** Whitespace as `str.strip` takes it away. */
  predicate IsSpace(c: char) {
    var n := c as int;
    || 9 <= n <= 13 || 28 <= n <= 32 || n == 0x85 || n == 0xA0 || n == 0x1680 || 0x2000 <= n <= 0x200A
    || n == 0x2028 || n == 0x2029 || n == 0x202F || n == 0x205F || n == 0x3000
  }

  ghost const WHITESPACE: set<int> := {
    0x9, 0xA, 0xB, 0xC, 0xD, 0x1C, 0x1D, 0x1E, 0x1F, 0x20, 0x85, 0xA0, 0x1680,
    0x2000, 0x2001, 0x2002, 0x2003, 0x2004, 0x2005, 0x2006, 0x2007, 0x2008, 0x2009, 0x200A,
    0x2028, 0x2029, 0x202F, 0x205F, 0x3000 }

  lemma SpacesAreWhitespace(c: char)
    ensures IsSpace(c) <==> c as int in WHITESPACE
  {
  }

  predicate IsBlank(text: string) {
    forall c :: c in text ==> IsSpace(c)
  }

  class GlobalRateLimit {
    const cfg: Config
    var admissions: seq<real>
    var charges: seq<TokenCharge>
    var changed: Event
    ghost var bucket: Bucket
    ghost var all: seq<TokenCharge>
    ghost var events: seq<Event>

    ghost predicate Valid()
      reads this, all, events
    {
      && ValidConfig(cfg)
      && admissions == bucket.admissions
      && Carries(all, bucket.ledger)
      && charges == HeldCharges(all, bucket.ledger)
      && |events| == bucket.changed + 1 && changed == events[bucket.changed]
      && (forall i, j :: 0 <= i < j < |events| ==> events[i] != events[j])
      && (forall i :: 0 <= i < |events| ==> (events[i].isSet <==> i < bucket.changed))
    }

    /** Construction with the checks of the original: a label, positive limits, and a fixed
        reservation, if there is one, that fits. */
    static method Open(quotaKey: string, rpm: int, tpm: int, reservation: Option<int>) returns (limits: Result<GlobalRateLimit, string>)
      ensures limits.Ok? <==> (exists c :: c in quotaKey && c as int !in WHITESPACE) && rpm > 0 && tpm > 0 && (reservation.Some? ==> 0 < reservation.value <= tpm)
      ensures limits.Ok? ==> fresh(limits.value) && limits.value.Valid()
      ensures limits.Ok? ==> limits.value.bucket == EMPTY && limits.value.cfg == Config(rpm, tpm)
    {
      forall c ensures IsSpace(c) <==> c as int in WHITESPACE {
        SpacesAreWhitespace(c);
      }
      hide IsSpace;
      if IsBlank(quotaKey) {
        return Err("quota_key must be a non-empty host quota label");
      }
      if rpm <= 0 {
        return Err("rpm must be a positive integer");
      }
      if tpm <= 0 {
        return Err("tpm must be a positive integer");
      }
      if reservation.Some? && !ValidReservation(Config(rpm, tpm), reservation.value) {
        return Err("token_reservation must be positive and fit within tpm");
      }
      var made := new GlobalRateLimit(Config(rpm, tpm));
      limits := Ok(made);
    }

    constructor (cfg: Config)
      requires ValidConfig(cfg)
      ensures Valid() && bucket == EMPTY && this.cfg == cfg && fresh(changed) && events == [changed]
    {
      this.cfg := cfg;
      var event := new Event();
      admissions, charges, changed := [], [], event;
      bucket, all, events := EMPTY, [], [event];
    }

    /** The deque loop at the head of an attempt. */
    method DropAdmissions(now: real)
      modifies `admissions
      ensures admissions == DropExpired(old(admissions), now)
    {
      while admissions != [] && admissions[0] + WINDOW <= now
        invariant DropExpired(admissions, now) == DropExpired(old(admissions), now)
        decreases |admissions|
      {
        admissions := admissions[1..];
      }
    }

    /** The comprehension that filters the charges. */
    method UnexpiredCharges(now: real) returns (kept: seq<TokenCharge>)
      ensures kept == KeptCharges(charges, now)
    {
      kept := [];
      for i := 0 to |charges|
        invariant kept == KeptCharges(charges[..i], now)
      {
        assert charges[..i + 1][..i] == charges[..i];
        if Keeps(charges[i], now) {
          kept := kept + [charges[i]];
        }
      }
      assert charges[..|charges|] == charges;
    }

    /** Both clean-ups. */
    method Clean(now: real)
      requires Valid()
      modifies `admissions, `charges, `bucket
      ensures Valid() && bucket == Prune(old(bucket), now)
    {
      hide HeldCharges, KeptCharges, DropExpired;
      var kept := UnexpiredCharges(now);
      FilterIsRelease(all, bucket.ledger, now);
      DropAdmissions(now);
      charges := kept;
      bucket := Prune(bucket, now);
    }

    method Totals() returns (charged: nat, soonest: Option<real>)
      requires Valid()
      ensures charged == HeldTokens(bucket.ledger) && soonest == SoonestExpiry(bucket.ledger)
    {
      charged, soonest := 0, None;
      for i := 0 to |charges|
        invariant charged == SumTokens(charges[..i]) && soonest == Soonest(charges[..i])
      {
        assert charges[..i + 1][..i] == charges[..i];
        charged := charged + charges[i].tokens;
        soonest := Sooner(soonest, charges[i].expiresAt);
      }
      assert charges[..|charges|] == charges;
      HeldFigures(all, bucket.ledger);
    }

    /** The admission itself. */
    method Record(reserved: nat, now: real) returns (charge: TokenCharge)
      requires Valid()
      modifies `admissions, `charges, `bucket, `all
      ensures Valid() && bucket == Admit(old(bucket), reserved, now)
      ensures fresh(charge) && all == old(all) + [charge]
    {
      hide HeldCharges;
      charge := new TokenCharge(reserved);
      admissions := admissions + [now];
      charges := charges + [charge];
      ghost var before := bucket.ledger;
      bucket := Admit(bucket, reserved, now);
      HeldAdded(all, before, charge, bucket.ledger[|before|]);
      all := all + [charge];
    }

    /** One pass of `_acquire` under the lock: a charge, or what to wait for. */
    method Attempt(reserved: nat, now: real) returns (charge: TokenCharge?, deadline: Option<real>, event: Event)
      requires Valid()
      modifies this
      ensures Valid() && changed == old(changed) && events == old(events) && event == changed
      ensures bucket == TryAcquire(cfg, old(bucket), reserved, now).0
      ensures match TryAcquire(cfg, old(bucket), reserved, now).1
        case Admitted(id) => charge != null && fresh(charge) && all == old(all) + [charge] && id == |old(all)|
        case Queue(d, e) => charge == null && all == old(all) && deadline == d && events[e] == event
    {
      hide HeldCharges, SumTokens, Soonest, KeptCharges, DropExpired, ReleaseExpired, HeldTokens, SoonestExpiry;
      Clean(now);
      var charged, soonest := Totals();
      charge, deadline, event := null, None, changed;
      if |admissions| < cfg.rpm && charged + reserved <= cfg.tpm {
        charge := Record(reserved, now);
        return;
      }
      deadline := Sooner(soonest, if admissions == [] then None else Some(admissions[0] + WINDOW));
    }

    /** `_finish`: settle the charge, set the event everyone waits on and start a new one. */
    method Settle(charge: TokenCharge, ghost id: nat, observed: int, now: real)
      requires Valid() && id < |all| && charge == all[id]
      modifies this, charge, changed
      ensures Valid() && all == old(all)
      ensures bucket == Finish(old(bucket), id, observed, now)
      ensures charge.tokens == if observed > old(charge.tokens) then observed else old(charge.tokens)
      ensures charge.expiresAt == Some(now + 60.0)
      ensures forall c :: c in all && c != charge ==> c.tokens == old(c.tokens) && c.expiresAt == old(c.expiresAt)
      ensures old(changed).isSet && fresh(changed) && events == old(events) + [changed]
    {
      hide SumTokens, Soonest, KeptCharges, HeldCharges, HeldTokens, SoonestExpiry;
      charge.tokens := Max(charge.tokens, observed);
      charge.expiresAt := Some(now + WINDOW);
      var was := changed;
      changed := new Event();
      was.isSet := true;
      HeldDependsOnFlags(all, bucket.ledger, Finish(bucket, id, observed, now).ledger);
      bucket := Finish(bucket, id, observed, now);
      events := events + [changed];
    }
  }
}
