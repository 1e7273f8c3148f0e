/**
 One-time passwords: issued at most once a minute per e-mail, turned into a flag by validation, and the
 flag used up by a password reset or an authorized login. Calls run one at a time.
 */
module Otp {
  import opened Wrappers
  import opened ExpiringCounter
  import RateLimit

  type Email = string

  datatype Purpose = EmailVerification | PasswordReset | Authorize

  datatype Slot = Slot(email: Email, purpose: Purpose)

  datatype Stored = Stored(digest: nat, until: nat)

  /** The Redis keys: OTPs, verified flags (each the second at which it expires), and the limiter's counters. */
  datatype Store = Store(otps: map<Slot, Stored>, flags: map<Slot, nat>, counters: map<Email, Window>)

  const EMPTY := Store(map[], map[], map[])

  datatype Config = Config(ttl: nat, digest: string -> nat)

  const MAX_PER_WINDOW := 1
  const WINDOW_SECONDS := 60

  datatype Call =
    | GetOtp(email: Email, purpose: Purpose, code: string, known: bool)
    | ValidateOtp(email: Email, purpose: Purpose, code: string)
    | ResetPassword(email: Email, known: bool)
    | LoginUser(email: Email)

  /** `known` in a call says whether the user exists when it asks. */
  datatype Request = Request(at: nat, call: Call)

  datatype Reply = Issued | TooMany | NotFound | Verified | Invalid | Changed | NotVerified | LoggedIn(authorized: bool)

  function CounterOf(s: Store, email: Email): Option<Window>
  {
    if email in s.counters then Some(s.counters[email]) else None
  }

  predicate LiveOtp(s: Store, slot: Slot, now: nat)
  {
    slot in s.otps && now < s.otps[slot].until
  }

  predicate LiveFlag(s: Store, slot: Slot, now: nat)
  {
    slot in s.flags && now < s.flags[slot]
  }

  function Serve(cfg: Config, s: Store, r: Request): (Store, Reply)
  {
    var now := r.at;
    match r.call
    case GetOtp(email, purpose, code, known) =>
      var w := Incremented(CounterOf(s, email), now, WINDOW_SECONDS);
      var t := s.(counters := s.counters[email := w]);
      if w.count > MAX_PER_WINDOW then (t, TooMany)
      else if !known then (t, NotFound)
      else (t.(otps := s.otps[Slot(email, purpose) := Stored(cfg.digest(code), now + cfg.ttl)]), Issued)
    case ValidateOtp(email, purpose, code) =>
      var slot := Slot(email, purpose);
      if !LiveOtp(s, slot, now) || s.otps[slot].digest != cfg.digest(code) then (s, Invalid)
      else (s.(flags := s.flags[slot := now + cfg.ttl], otps := s.otps - {slot}), Verified)
    case ResetPassword(email, known) =>
      var slot := Slot(email, PasswordReset);
      if !LiveFlag(s, slot, now) then (s, NotVerified)
      else if !known then (s, NotFound)
      else (s.(flags := s.flags - {slot}), Changed)
    case LoginUser(email) =>
      var slot := Slot(email, Authorize);
      if LiveFlag(s, slot, now) then (s.(flags := s.flags - {slot}), LoggedIn(true)) else (s, LoggedIn(false))
  }

  function StoreAfter(cfg: Config, rs: seq<Request>): Store
  {
    if rs == [] then EMPTY
    else Serve(cfg, StoreAfter(cfg, rs[..|rs| - 1]), rs[|rs| - 1]).0
  }

  function ReplyTo(cfg: Config, rs: seq<Request>): Reply
    requires rs != []
  {
    Serve(cfg, StoreAfter(cfg, rs[..|rs| - 1]), rs[|rs| - 1]).1
  }

  predicate Issues(slot: Slot, r: Request, reply: Reply)
  {
    reply.Issued? && r.call.GetOtp? && Slot(r.call.email, r.call.purpose) == slot
  }

  /** A password reset, or a login marked authorized. */
  predicate Uses(slot: Slot, r: Request, reply: Reply)
  {
    || (slot.purpose.PasswordReset? && reply.Changed? && r.call.ResetPassword? && r.call.email == slot.email)
    || (slot.purpose.Authorize? && reply == LoggedIn(true) && r.call.LoginUser? && r.call.email == slot.email)
  }

  /** When OTPs were issued for a slot. */
  function IssueTimes(cfg: Config, rs: seq<Request>, slot: Slot): seq<nat>
  {
    if rs == [] then []
    else
      var n := |rs| - 1;
      IssueTimes(cfg, rs[..n], slot) + (if Issues(slot, rs[n], ReplyTo(cfg, rs)) then [rs[n].at] else [])
  }

  /** When the flag of a slot was used. */
  function UseTimes(cfg: Config, rs: seq<Request>, slot: Slot): seq<nat>
  {
    if rs == [] then []
    else
      var n := |rs| - 1;
      UseTimes(cfg, rs[..n], slot) + (if Uses(slot, rs[n], ReplyTo(cfg, rs)) then [rs[n].at] else [])
  }

  predicate InOrder(rs: seq<Request>)
  {
    forall i, j :: 0 <= i < j < |rs| ==> rs[i].at <= rs[j].at
  }

  // ---------- conservation ----------

  /** How many uses the store still holds for a slot. */
  function Potential(s: Store, slot: Slot, now: nat): nat
  {
    (if LiveOtp(s, slot, now) then 1 else 0) + (if LiveFlag(s, slot, now) then 1 else 0)
  }

  /** A call never creates more potential than it issues, and a use takes its own away. */
  lemma CallConserves(cfg: Config, s: Store, r: Request, slot: Slot)
    ensures var after := Serve(cfg, s, r);
            Potential(after.0, slot, r.at) + (if Uses(slot, r, after.1) then 1 else 0)
            <= Potential(s, slot, r.at) + (if Issues(slot, r, after.1) then 1 else 0)
  {
  }

  lemma CountAppend(times: seq<nat>, at: nat, from: nat, to: nat)
    ensures CountIn(times + [at], from, to) == CountIn(times, from, to) + (if from <= at < to then 1 else 0)
  {
    assert (times + [at])[..|times|] == times;
  }

  function Last(rs: seq<Request>): nat
  {
    if rs == [] then 0 else rs[|rs| - 1].at
  }

  /** Uses from `from` on, with what is still in store, against issues; `slack` is what was in store at `from`. */
  predicate Balanced(cfg: Config, rs: seq<Request>, slot: Slot, from: nat, to: nat, slack: nat)
  {
    var uses := CountIn(UseTimes(cfg, rs, slot), from, to);
    var issues := CountIn(IssueTimes(cfg, rs, slot), from, to);
    && uses <= issues + slack
    && (from <= Last(rs) < to ==> uses + Potential(StoreAfter(cfg, rs), slot, Last(rs)) <= issues + slack)
  }

  lemma UsesAndIssues(cfg: Config, rs: seq<Request>, slot: Slot, from: nat, to: nat)
    requires rs != []
    ensures var n := |rs| - 1;
            var r := rs[n];
            && CountIn(UseTimes(cfg, rs, slot), from, to) == CountIn(UseTimes(cfg, rs[..n], slot), from, to)
                 + (if Uses(slot, r, ReplyTo(cfg, rs)) && from <= r.at < to then 1 else 0)
            && CountIn(IssueTimes(cfg, rs, slot), from, to) == CountIn(IssueTimes(cfg, rs[..n], slot), from, to)
                 + (if Issues(slot, r, ReplyTo(cfg, rs)) && from <= r.at < to then 1 else 0)
  {
    hide CountIn, Uses, Issues, ReplyTo;
    var n := |rs| - 1;
    assert UseTimes(cfg, rs[..n], slot) + [] == UseTimes(cfg, rs[..n], slot);
    assert IssueTimes(cfg, rs[..n], slot) + [] == IssueTimes(cfg, rs[..n], slot);
    CountAppend(UseTimes(cfg, rs[..n], slot), rs[n].at, from, to);
    CountAppend(IssueTimes(cfg, rs[..n], slot), rs[n].at, from, to);
  }

  /** Keys only expire with time. */
  lemma PotentialFades(s: Store, slot: Slot, now: nat, later: nat)
    requires now <= later
    ensures Potential(s, slot, later) <= Potential(s, slot, now) <= 2
  {
  }

  // ---------- what can be carried into an interval ----------

  /** How many uses of OTPs issued earlier the store can hold; two need an OTP and a flag issued a minute apart. */
  function Carried(cfg: Config): nat
  {
    if cfg.ttl <= 1 then 0 else if cfg.ttl <= 31 then 1 else 2
  }

  /**
   Where expiries stand, `last` being the latest call: an OTP was issued at the start of a limiter window, a flag
   was set while its OTP was live, and an OTP beside a flag was issued a minute or more after the flag's own.
   */
  predicate SlotOk(cfg: Config, s: Store, slot: Slot, last: nat)
  {
    var c := CounterOf(s, slot.email);
    && (c.Some? ==> c.value.count >= 1)
    && (slot in s.otps ==>
          && cfg.ttl <= s.otps[slot].until <= last + cfg.ttl
          && c.Some? && s.otps[slot].until + WINDOW_SECONDS <= c.value.until + cfg.ttl)
    && (slot in s.flags ==>
          && s.flags[slot] <= last + cfg.ttl
          && c.Some? && s.flags[slot] + WINDOW_SECONDS + 1 <= c.value.until + 2 * cfg.ttl)
    && (slot in s.otps && slot in s.flags ==> s.flags[slot] + WINDOW_SECONDS + 1 <= s.otps[slot].until + cfg.ttl)
  }

  lemma CallKeepsSlot(cfg: Config, s: Store, slot: Slot, last: nat, r: Request)
    requires SlotOk(cfg, s, slot, last) && last <= r.at
    ensures SlotOk(cfg, Serve(cfg, s, r).0, slot, r.at)
  {
  }

  lemma {:induction false} RunKeepsSlot(cfg: Config, rs: seq<Request>, slot: Slot)
    requires InOrder(rs)
    ensures SlotOk(cfg, StoreAfter(cfg, rs), slot, Last(rs))
  {
    if rs != [] {
      hide Serve, SlotOk;
      RunKeepsSlot(cfg, rs[..|rs| - 1], slot);
      CallKeepsSlot(cfg, StoreAfter(cfg, rs[..|rs| - 1]), slot, Last(rs[..|rs| - 1]), rs[|rs| - 1]);
    }
  }

  lemma CarriedAtMost(cfg: Config, s: Store, slot: Slot, last: nat, now: nat)
    requires SlotOk(cfg, s, slot, last) && last < now
    ensures Potential(s, slot, now) <= Carried(cfg)
  {
  }

  function Slack(cfg: Config, from: nat): nat
  {
    if from == 0 then 0 else Carried(cfg)
  }

  lemma {:induction false} RunConserves(cfg: Config, rs: seq<Request>, slot: Slot, from: nat, to: nat)
    requires InOrder(rs)
    ensures Balanced(cfg, rs, slot, from, to, Slack(cfg, from))
  {
    hide CountIn, Serve, Uses, Issues, Potential, Carried, SlotOk;
    if rs == [] {
      NothingStored(cfg, slot, from, to);
    } else {
      var n := |rs| - 1;
      var s := StoreAfter(cfg, rs[..n]);
      RunConserves(cfg, rs[..n], slot, from, to);
      UsesAndIssues(cfg, rs, slot, from, to);
      CallConserves(cfg, s, rs[n], slot);
      PotentialFades(s, slot, Last(rs[..n]), rs[n].at);
      if rs[n].at < from {
        NoneYet(cfg, rs, slot, from, to);
      } else if Last(rs[..n]) < from {
        NoneYet(cfg, rs[..n], slot, from, to);
        RunKeepsSlot(cfg, rs[..n], slot);
        CarriedAtMost(cfg, s, slot, Last(rs[..n]), rs[n].at);
      }
    }
  }

  lemma NothingStored(cfg: Config, slot: Slot, from: nat, to: nat)
    ensures Balanced(cfg, [], slot, from, to, 0) && StoreAfter(cfg, []) == EMPTY
    ensures CountIn(UseTimes(cfg, [], slot), from, to) == 0 == CountIn(IssueTimes(cfg, [], slot), from, to)
  {
  }

  lemma {:induction false} NoneYet(cfg: Config, rs: seq<Request>, slot: Slot, from: nat, to: nat)
    requires InOrder(rs) && Last(rs) < from
    ensures CountIn(UseTimes(cfg, rs, slot), from, to) == 0 == CountIn(IssueTimes(cfg, rs, slot), from, to)
  {
    hide ReplyTo, Uses, Issues, CountIn;
    if rs != [] {
      NoneYet(cfg, rs[..|rs| - 1], slot, from, to);
      UsesAndIssues(cfg, rs, slot, from, to);
    } else {
      assert CountIn([], from, to) == 0 by { EarlyOnesDoNotCount([], 0, from, to); }
    }
  }

  /**
   In any interval, the password resets of an e-mail (or its logins marked authorized) are at most the
   OTPs issued for that purpose in it, plus what can be carried into it: at most two, one when an OTP lives at
   most 31 seconds, none when it lives one second or the interval begins with the run.
   */
  lemma UsesAreIssued(cfg: Config, rs: seq<Request>, slot: Slot, from: nat, to: nat)
    requires InOrder(rs)
    ensures CountIn(UseTimes(cfg, rs, slot), from, to)
            <= CountIn(IssueTimes(cfg, rs, slot), from, to) + Slack(cfg, from)
  {
    hide Slack;
    RunConserves(cfg, rs, slot, from, to);
  }

  lemma OneMoreRequest(cfg: Config, rs: seq<Request>, r: Request, slot: Slot, from: nat, to: nat)
    ensures var after := Serve(cfg, StoreAfter(cfg, rs), r);
            var all := rs + [r];
            && StoreAfter(cfg, all) == after.0
            && CountIn(UseTimes(cfg, all, slot), from, to) == CountIn(UseTimes(cfg, rs, slot), from, to)
                 + (if Uses(slot, r, after.1) && from <= r.at < to then 1 else 0)
            && CountIn(IssueTimes(cfg, all, slot), from, to) == CountIn(IssueTimes(cfg, rs, slot), from, to)
                 + (if Issues(slot, r, after.1) && from <= r.at < to then 1 else 0)
  {
    hide CountIn, Serve, Uses, Issues;
    assert (rs + [r])[..|rs|] == rs;
    UsesAndIssues(cfg, rs + [r], slot, from, to);
  }

  /** A verified OTP and an unused one, carried into second 61. */
  lemma CarryTwo(cfg: Config, email: Email) returns (rs: seq<Request>)
    requires cfg.ttl >= 32
    ensures InOrder(rs) && Last(rs) == 60
    ensures var slot := Slot(email, PasswordReset);
            var s := StoreAfter(cfg, rs);
            && LiveFlag(s, slot, 61) && LiveOtp(s, slot, 61) && s.otps[slot].digest == cfg.digest("")
            && CountIn(UseTimes(cfg, rs, slot), 61, 62) == 0 == CountIn(IssueTimes(cfg, rs, slot), 61, 62)
  {
    hide CountIn, UseTimes, IssueTimes, StoreAfter;
    var slot := Slot(email, PasswordReset);
    NothingStored(cfg, slot, 61, 62);
    var ask := Request(0, Call.GetOtp(email, PasswordReset, "", true));
    var check := Request(31, Call.ValidateOtp(email, PasswordReset, ""));
    OneMoreRequest(cfg, [], ask, slot, 61, 62);
    OneMoreRequest(cfg, [] + [ask], check, slot, 61, 62);
    OneMoreRequest(cfg, [] + [ask] + [check], ask.(at := 60), slot, 61, 62);
    rs := [] + [ask] + [check] + [ask.(at := 60)];
  }

  /** Two more uses than issues: the two that were in store when the interval began. */
  lemma TwoMoreThanIssued(cfg: Config, email: Email) returns (rs: seq<Request>)
    requires cfg.ttl >= 32
    ensures InOrder(rs)
    ensures var slot := Slot(email, PasswordReset);
            CountIn(UseTimes(cfg, rs, slot), 61, 62) == CountIn(IssueTimes(cfg, rs, slot), 61, 62) + 2
  {
    hide CountIn, UseTimes, IssueTimes, StoreAfter;
    var slot := Slot(email, PasswordReset);
    rs := CarryTwo(cfg, email);
    var reset := Request(61, Call.ResetPassword(email, true));
    var check := Request(61, Call.ValidateOtp(email, PasswordReset, ""));
    OneMoreRequest(cfg, rs, reset, slot, 61, 62);
    OneMoreRequest(cfg, rs + [reset], check, slot, 61, 62);
    OneMoreRequest(cfg, rs + [reset] + [check], reset, slot, 61, 62);
    EndsInOrder(rs, [reset, check, reset]);
    assert rs + [reset] + [check] + [reset] == rs + [reset, check, reset];
    rs := rs + [reset] + [check] + [reset];
  }

  /** One more use than issues: an OTP issued just before. */
  lemma OneMoreThanIssued(cfg: Config, email: Email) returns (rs: seq<Request>)
    requires cfg.ttl >= 2
    ensures InOrder(rs)
    ensures var slot := Slot(email, PasswordReset);
            CountIn(UseTimes(cfg, rs, slot), 1, 2) == CountIn(IssueTimes(cfg, rs, slot), 1, 2) + 1
  {
    hide CountIn, UseTimes, IssueTimes, StoreAfter;
    var slot := Slot(email, PasswordReset);
    NothingStored(cfg, slot, 1, 2);
    var ask := Request(0, Call.GetOtp(email, PasswordReset, "", true));
    var check := Request(1, Call.ValidateOtp(email, PasswordReset, ""));
    var reset := Request(1, Call.ResetPassword(email, true));
    OneMoreRequest(cfg, [], ask, slot, 1, 2);
    OneMoreRequest(cfg, [] + [ask], check, slot, 1, 2);
    OneMoreRequest(cfg, [] + [ask] + [check], reset, slot, 1, 2);
    rs := [] + [ask] + [check] + [reset];
  }

  /** The bound is reached for every time to live. */
  lemma BoundIsMet(cfg: Config, email: Email) returns (rs: seq<Request>, from: nat)
    ensures InOrder(rs) && from > 0
    ensures var slot := Slot(email, PasswordReset);
            CountIn(UseTimes(cfg, rs, slot), from, from + 1)
            == CountIn(IssueTimes(cfg, rs, slot), from, from + 1) + Slack(cfg, from)
  {
    hide CountIn, UseTimes, IssueTimes, InOrder;
    if cfg.ttl <= 1 {
      rs, from := [], 1;
      NothingStored(cfg, Slot(email, PasswordReset), 1, 2);
      assert InOrder(rs) by { NothingIsInOrder(); }
    } else if cfg.ttl <= 31 {
      from := 1;
      rs := OneMoreThanIssued(cfg, email);
    } else {
      from := 61;
      rs := TwoMoreThanIssued(cfg, email);
    }
  }

  lemma NothingIsInOrder()
    ensures InOrder([])
  {
  }

  lemma EndsInOrder(rs: seq<Request>, more: seq<Request>)
    requires InOrder(rs) && InOrder(more) && forall i :: 0 <= i < |more| ==> Last(rs) <= more[i].at
    ensures InOrder(rs + more)
  {
  }

  // ---------- with the limiter ----------

  /** When OTPs were asked for, by e-mail. */
  function AskTimes(rs: seq<Request>, email: Email): seq<nat>
  {
    if rs == [] then []
    else
      var n := |rs| - 1;
      AskTimes(rs[..n], email)
      + (if rs[n].call.GetOtp? && rs[n].call.email == email then [rs[n].at] else [])
  }

  lemma {:induction false} AsksInOrder(rs: seq<Request>, email: Email)
    requires InOrder(rs)
    ensures Ordered(AskTimes(rs, email))
    ensures forall i :: 0 <= i < |AskTimes(rs, email)| ==> AskTimes(rs, email)[i] <= Last(rs)
  {
    if rs != [] {
      AsksInOrder(rs[..|rs| - 1], email);
    }
  }

  function AdmittedTimes(rs: seq<Request>, email: Email): seq<nat>
  {
    RateLimit.Times(RateLimit.Admissions(AskTimes(rs, email), MAX_PER_WINDOW, WINDOW_SECONDS))
  }

  /** Every OTP issued for an e-mail is a call the limiter let through. */
  lemma {:induction false} IssuesAreAdmitted(cfg: Config, rs: seq<Request>, slot: Slot, from: nat, to: nat)
    ensures CounterOf(StoreAfter(cfg, rs), slot.email)
            == RateLimit.WindowAfter(AskTimes(rs, slot.email), WINDOW_SECONDS)
    ensures CountIn(IssueTimes(cfg, rs, slot), from, to) <= CountIn(AdmittedTimes(rs, slot.email), from, to)
  {
    hide CountIn, RateLimit.Admissions, RateLimit.WindowAfter;
    if rs == [] {
      NothingAsked(slot.email, from, to);
    } else {
      var n := |rs| - 1;
      var asks := AskTimes(rs[..n], slot.email);
      IssuesAreAdmitted(cfg, rs[..n], slot, from, to);
      UsesAndIssues(cfg, rs, slot, from, to);
      RateLimit.OneMoreCall(asks, rs[n].at, MAX_PER_WINDOW, WINDOW_SECONDS);
      assert asks + [] == asks;
      var hits := RateLimit.Admissions(asks, MAX_PER_WINDOW, WINDOW_SECONDS);
      assert hits + [] == hits;
      if rs[n].call.GetOtp? && rs[n].call.email == slot.email && !ReplyTo(cfg, rs).TooMany? {
        assert AdmittedTimes(rs, slot.email) == AdmittedTimes(rs[..n], slot.email) + [rs[n].at];
        CountAppend(AdmittedTimes(rs[..n], slot.email), rs[n].at, from, to);
      }
    }
  }

  lemma NothingAsked(email: Email, from: nat, to: nat)
    ensures RateLimit.WindowAfter([], WINDOW_SECONDS) == None && CountIn([], from, to) == 0
  {
  }

  /** Within any minute an e-mail sees at most one more reset, or authorized login, than can be carried into it. */
  lemma UsesPerMinute(cfg: Config, rs: seq<Request>, slot: Slot, from: nat)
    requires InOrder(rs)
    ensures CountIn(UseTimes(cfg, rs, slot), from, from + WINDOW_SECONDS) <= 1 + Slack(cfg, from) <= 3
  {
    hide CountIn, RateLimit.Admissions, UseTimes, IssueTimes, AskTimes;
    UsesAreIssued(cfg, rs, slot, from, from + WINDOW_SECONDS);
    IssuesAreAdmitted(cfg, rs, slot, from, from + WINDOW_SECONDS);
    AsksInOrder(rs, slot.email);
    RateLimit.AdmittedPerInterval(AskTimes(rs, slot.email), MAX_PER_WINDOW, WINDOW_SECONDS, from);
  }

  // ---------- who is refused ----------

  /** Request number `i` asked for an OTP for the e-mail and got past the limiter. */
  predicate GotThrough(cfg: Config, rs: seq<Request>, email: Email, i: nat)
  {
    i < |rs| && rs[i].call.GetOtp? && rs[i].call.email == email && !ReplyTo(cfg, rs[..i + 1]).TooMany?
  }

  /** The counter runs out a minute after the last request that got through. */
  ghost predicate CounterSince(cfg: Config, rs: seq<Request>, email: Email)
  {
    var counter := CounterOf(StoreAfter(cfg, rs), email);
    && (counter.None? ==> forall i: nat :: !GotThrough(cfg, rs, email, i))
    && (counter.Some? ==>
          && counter.value.count >= 1
          && (forall i: nat :: GotThrough(cfg, rs, email, i) ==> rs[i].at + 60 <= counter.value.until)
          && exists i: nat :: GotThrough(cfg, rs, email, i) && rs[i].at + 60 == counter.value.until)
  }

  lemma EarlierGotThrough(cfg: Config, rs: seq<Request>, email: Email, i: nat)
    requires rs != []
    ensures i < |rs| - 1 ==> (GotThrough(cfg, rs, email, i) <==> GotThrough(cfg, rs[..|rs| - 1], email, i))
  {
    if i < |rs| - 1 {
      assert rs[..|rs| - 1][..i + 1] == rs[..i + 1];
    }
  }

  lemma ServeCounts(cfg: Config, s: Store, r: Request, email: Email)
    requires CounterOf(s, email).Some? ==> CounterOf(s, email).value.count >= 1
    ensures var before, after := CounterOf(s, email), Serve(cfg, s, r);
            if r.call.GetOtp? && r.call.email == email
            then
              && (after.1.TooMany? <==> Live(before, r.at))
              && CounterOf(after.0, email)
                 == Some(if Live(before, r.at) then Window(before.value.count + 1, before.value.until)
                         else Window(1, r.at + 60))
            else CounterOf(after.0, email) == before
  {
  }

  lemma LastStep(cfg: Config, rs: seq<Request>)
    requires rs != []
    ensures var n := |rs| - 1;
            var after := Serve(cfg, StoreAfter(cfg, rs[..n]), rs[n]);
            StoreAfter(cfg, rs) == after.0 && ReplyTo(cfg, rs[..n + 1]) == after.1
  {
    assert rs[..|rs|] == rs;
  }

  lemma LastGotThrough(cfg: Config, rs: seq<Request>, email: Email)
    requires rs != []
    requires var before := CounterOf(StoreAfter(cfg, rs[..|rs| - 1]), email); before.Some? ==> before.value.count >= 1
    ensures var n := |rs| - 1;
            GotThrough(cfg, rs, email, n) <==>
            rs[n].call.GetOtp? && rs[n].call.email == email
            && !Live(CounterOf(StoreAfter(cfg, rs[..n]), email), rs[n].at)
    ensures var n := |rs| - 1;
            var before, after := CounterOf(StoreAfter(cfg, rs[..n]), email), CounterOf(StoreAfter(cfg, rs), email);
            after == if GotThrough(cfg, rs, email, n) then Some(Window(1, rs[n].at + 60))
                     else if rs[n].call.GetOtp? && rs[n].call.email == email
                     then Some(Window(before.value.count + 1, before.value.until))
                     else before
  {
    hide StoreAfter, ReplyTo, Serve, CounterOf;
    LastStep(cfg, rs);
    ServeCounts(cfg, StoreAfter(cfg, rs[..|rs| - 1]), rs[|rs| - 1], email);
  }

  lemma {:induction false} CounterRun(cfg: Config, rs: seq<Request>, email: Email)
    requires InOrder(rs)
    ensures CounterSince(cfg, rs, email)
  {
    hide StoreAfter, GotThrough, CounterOf;
    if rs == [] {
      NoneGotThrough(cfg, email);
    } else {
      var n := |rs| - 1;
      CounterRun(cfg, rs[..n], email);
      LastGotThrough(cfg, rs, email);
      forall i: nat
        ensures i < n ==> (GotThrough(cfg, rs, email, i) <==> GotThrough(cfg, rs[..n], email, i))
        ensures i >= |rs| ==> !GotThrough(cfg, rs, email, i)
        ensures i >= n ==> !GotThrough(cfg, rs[..n], email, i)
      {
        EarlierGotThrough(cfg, rs, email, i);
        OnlyRequests(cfg, rs, email, i);
        OnlyRequests(cfg, rs[..n], email, i);
      }
    }
  }

  lemma NoneGotThrough(cfg: Config, email: Email)
    ensures CounterOf(StoreAfter(cfg, []), email).None?
    ensures forall i: nat :: !GotThrough(cfg, [], email, i)
  {
  }

  lemma OnlyRequests(cfg: Config, rs: seq<Request>, email: Email, i: nat)
    ensures GotThrough(cfg, rs, email, i) ==> i < |rs|
  {
  }

  /** A request for an OTP is refused exactly when another for the same e-mail got through in the minute before. */
  lemma RefusedExactlyWhen(cfg: Config, rs: seq<Request>, r: Request)
    requires InOrder(rs) && r.call.GetOtp? && Last(rs) <= r.at
    ensures Serve(cfg, StoreAfter(cfg, rs), r).1.TooMany? <==>
              exists i: nat :: GotThrough(cfg, rs, r.call.email, i) && r.at < rs[i].at + 60
  {
    hide StoreAfter, GotThrough;
    CounterRun(cfg, rs, r.call.email);
    assert forall i: nat :: GotThrough(cfg, rs, r.call.email, i) ==> i < |rs| by {
      forall i: nat
        ensures GotThrough(cfg, rs, r.call.email, i) ==> i < |rs|
      {
        OnlyRequests(cfg, rs, r.call.email, i);
      }
    }
  }

  // ---------- the service ----------

  class AuthServices {
    const cfg: Config
    var otps: map<Slot, Stored>
    var flags: map<Slot, nat>
    var counters: map<Email, Window>
    ghost var calls: seq<Request>

    constructor (cfg: Config)
      ensures Valid() && this.cfg == cfg && calls == []
    {
      this.cfg := cfg;
      otps, flags, counters, calls := map[], map[], map[], [];
    }

    function Contents(): Store
      reads this
    {
      Store(otps, flags, counters)
    }

    /** The keys are what the calls made so far, in order, have left. */
    ghost predicate Valid()
      reads this
    {
      InOrder(calls) && Contents() == StoreAfter(cfg, calls)
    }

    /** One more call, made no earlier than the last, has been answered. */
    twostate predicate Served(call: Call, now: nat, r: Reply)
      reads this
    {
      Valid() && calls == old(calls) + [Request(now, call)] && r == ReplyTo(cfg, calls)
    }

    /** The call just served goes into the history. */
    ghost method Log(call: Call, now: nat, r: Reply, before: Store)
      requires InOrder(calls) && Last(calls) <= now && before == StoreAfter(cfg, calls)
      requires (Contents(), r) == Serve(cfg, before, Request(now, call))
      modifies `calls
      ensures Served(call, now, r)
    {
      hide Serve;
      LastIsLatest(calls);
      calls := calls + [Request(now, call)];
      assert calls[..|calls| - 1] == old(calls);
    }

    /** Behind the limiter, a fresh OTP replaces whatever was stored for the same e-mail and purpose. */
    method GetOtp(email: Email, purpose: Purpose, code: string, known: bool, now: nat) returns (r: Reply)
      requires Valid() && Last(calls) <= now
      modifies this
      ensures Served(Call.GetOtp(email, purpose, code, known), now, r)
      ensures r.TooMany? <==>
                exists i: nat :: GotThrough(cfg, old(calls), email, i) && now < old(calls)[i].at + 60
      ensures r.Issued? <==> known && !r.TooMany?
      ensures r.NotFound? <==> !known && !r.TooMany?
      ensures r.Issued? ==> otps == old(otps)[Slot(email, purpose) := Stored(cfg.digest(code), now + cfg.ttl)]
      ensures !r.Issued? ==> otps == old(otps)
      ensures flags == old(flags)
    {
      hide StoreAfter, InOrder, GotThrough;
      RefusedExactlyWhen(cfg, calls, Request(now, Call.GetOtp(email, purpose, code, known)));
      ghost var before := Contents();
      ghost var call := Call.GetOtp(email, purpose, code, known);
      var w := Incremented(CounterOf(Contents(), email), now, WINDOW_SECONDS);
      counters := counters[email := w];
      if w.count > MAX_PER_WINDOW {
        r := TooMany;
      } else if !known {
        r := NotFound;
      } else {
        otps := otps[Slot(email, purpose) := Stored(cfg.digest(code), now + cfg.ttl)];
        r := Issued;
      }
      Log(call, now, r, before);
    }

    /** The flag is set before the OTP goes. */
    method ValidateOtp(email: Email, purpose: Purpose, code: string, now: nat) returns (r: Reply)
      requires Valid() && Last(calls) <= now
      modifies this
      ensures Served(Call.ValidateOtp(email, purpose, code), now, r)
      ensures var slot := Slot(email, purpose);
              && (r.Verified? <==> slot in old(otps) && now < old(otps)[slot].until
                                   && old(otps)[slot].digest == cfg.digest(code))
              && (r.Verified? ==> flags == old(flags)[slot := now + cfg.ttl] && otps == old(otps) - {slot})
              && (!r.Verified? ==> Contents() == old(Contents()))
    {
      hide StoreAfter, InOrder;
      ghost var before := Contents();
      ghost var call := Call.ValidateOtp(email, purpose, code);
      var slot := Slot(email, purpose);
      if slot !in otps || now >= otps[slot].until || otps[slot].digest != cfg.digest(code) {
        r := Invalid;
      } else {
        flags := flags[slot := now + cfg.ttl];
        otps := otps - {slot};
        r := Verified;
      }
      Log(call, now, r, before);
    }

    /** The flag is used up only by a reset that goes through. */
    method ResetPassword(email: Email, known: bool, now: nat) returns (r: Reply)
      requires Valid() && Last(calls) <= now
      modifies this
      ensures Served(Call.ResetPassword(email, known), now, r)
      ensures var slot := Slot(email, PasswordReset);
              && (r.Changed? <==> slot in old(flags) && now < old(flags)[slot] && known)
              && (r.NotFound? <==> slot in old(flags) && now < old(flags)[slot] && !known)
              && flags == (if r.Changed? then old(flags) - {slot} else old(flags))
      ensures otps == old(otps)
    {
      hide StoreAfter, InOrder;
      ghost var before := Contents();
      ghost var call := Call.ResetPassword(email, known);
      var slot := Slot(email, PasswordReset);
      if slot !in flags || now >= flags[slot] {
        r := NotVerified;
      } else if !known {
        r := NotFound;
      } else {
        flags := flags - {slot};
        r := Changed;
      }
      Log(call, now, r, before);
    }

    /** `isAuthorized` around a login: a flag that is there is used up, whatever becomes of the login. */
    method LoginUser(email: Email, now: nat) returns (authorized: bool)
      requires Valid() && Last(calls) <= now
      modifies this
      ensures Served(Call.LoginUser(email), now, LoggedIn(authorized))
      ensures var slot := Slot(email, Authorize);
              && (authorized <==> slot in old(flags) && now < old(flags)[slot])
              && flags == (if authorized then old(flags) - {slot} else old(flags))
      ensures otps == old(otps)
    {
      hide StoreAfter, InOrder;
      ghost var before := Contents();
      ghost var call := Call.LoginUser(email);
      var slot := Slot(email, Authorize);
      authorized := slot in flags && now < flags[slot];
      if authorized {
        flags := flags - {slot};
      }
      Log(call, now, LoggedIn(authorized), before);
    }

    /** The bounds on runs are bounds on the calls this object has served. */
    lemma KeepsBounds(slot: Slot, from: nat, to: nat)
      requires Valid()
      ensures CountIn(UseTimes(cfg, calls, slot), from, to)
              <= CountIn(IssueTimes(cfg, calls, slot), from, to) + Slack(cfg, from)
      ensures CountIn(UseTimes(cfg, calls, slot), from, from + WINDOW_SECONDS) <= 3
    {
      hide CountIn, UseTimes, IssueTimes;
      UsesAreIssued(cfg, calls, slot, from, to);
      UsesPerMinute(cfg, calls, slot, from);
    }
  }

  lemma LastIsLatest(rs: seq<Request>)
    requires InOrder(rs)
    ensures forall i :: 0 <= i < |rs| ==> rs[i].at <= Last(rs)
  {
  }
}
