/**
 Overlapping calls on the OTP and the flag of one e-mail and purpose. Reading a key, acting on it and
 deleting it are separate steps of each call; either key may expire at any moment.
 */
module OtpCalls {
  import opened Wrappers

  type CallId = nat

  /**
   A key and the calls that have read it and not yet deleted it: `early` before acting on what they read, `late`
   after. `readers` are those who have read the key since it was last set. `sets` and `acts` are over the whole run.
   */
  datatype Key = Key(there: bool, early: set<CallId>, late: set<CallId>, readers: set<CallId>, sets: nat, acts: nat) {
    function Busy(): nat
    {
      |early| + |late|
    }

    predicate Holds(c: CallId)
    {
      c in early || c in late
    }

    function Set(): Key
    {
      this.(there := true, readers := {}, sets := sets + 1)
    }

    function Expire(): Key
    {
      this.(there := false)
    }

    function Read(c: CallId): Key
    {
      this.(early := early + {c}, readers := readers + {c})
    }

    function Act(c: CallId): Key
    {
      this.(early := early - {c}, late := late + {c}, acts := acts + 1)
    }

    function Delete(c: CallId): Key
    {
      this.(late := late - {c}, there := false)
    }

    function GiveUp(c: CallId): Key
    {
      this.(early := early - {c}, readers := readers - {c})
    }
  }

  /** Acting on the OTP is setting the flag; acting on the flag is changing the password, or logging in. */
  datatype State = State(otp: Key, flag: Key)

  datatype Step =
    | Issue                // SET of a new OTP
    | ExpireOtp
    | ExpireFlag
    | Match(c: CallId)     // a validation reads the OTP and it matches
    | Mark(c: CallId)      // it sets the flag
    | DropOtp(c: CallId)   // it deletes the OTP
    | Allow(c: CallId)     // a reset reads the flag
    | Use(c: CallId)       // it changes the password
    | DropFlag(c: CallId)  // it deletes the flag
    | Abandon(c: CallId)   // a validation or reset fails before it has done anything

  function Busy(s: State): nat
  {
    s.otp.Busy() + s.flag.Busy()
  }

  /** Another call fits in: at most `overlap` are under way at a time. */
  predicate Fits(overlap: nat, s: State, c: CallId)
  {
    Busy(s) < overlap && !s.otp.Holds(c) && !s.flag.Holds(c)
  }

  function Next(overlap: nat, s: State, step: Step): Option<State>
  {
    match step
    case Issue => Some(s.(otp := s.otp.Set()))
    case ExpireOtp => Some(s.(otp := s.otp.Expire()))
    case ExpireFlag => Some(s.(flag := s.flag.Expire()))
    case Match(c) => if Fits(overlap, s, c) && s.otp.there then Some(s.(otp := s.otp.Read(c))) else None
    case Mark(c) => if c in s.otp.early then Some(State(s.otp.Act(c), s.flag.Set())) else None
    case DropOtp(c) => if c in s.otp.late then Some(s.(otp := s.otp.Delete(c))) else None
    case Allow(c) => if Fits(overlap, s, c) && s.flag.there then Some(s.(flag := s.flag.Read(c))) else None
    case Use(c) => if c in s.flag.early then Some(s.(flag := s.flag.Act(c))) else None
    case DropFlag(c) => if c in s.flag.late then Some(s.(flag := s.flag.Delete(c))) else None
    case Abandon(c) =>
      if c in s.otp.early then Some(s.(otp := s.otp.GiveUp(c)))
      else if c in s.flag.early then Some(s.(flag := s.flag.GiveUp(c)))
      else None
  }

  const UNUSED := Key(false, {}, {}, {}, 0, 0)

  datatype Run = Run(states: seq<State>, steps: seq<Step>)

  predicate IsRun(overlap: nat, r: Run)
  {
    && |r.states| == |r.steps| + 1
    && r.states[0] == State(UNUSED, UNUSED)
    && forall i :: 0 <= i < |r.steps| ==> Next(overlap, r.states[i], r.steps[i]) == Some(r.states[i + 1])
  }

  // ---------- one key ----------

  /**
   As long as a key is there, nobody who has read it is done: being done means having deleted it. So each time it
   is set, no more calls read it than may overlap.
   */
  predicate KeyOk(overlap: nat, k: Key)
  {
    && (k.there ==> k.readers <= k.early + k.late)
    && |k.readers| <= overlap
    && if k.sets == 0 then !k.there && k.acts + |k.early| == 0
       else k.acts + |k.early| <= overlap * (k.sets - 1) + |k.readers|
  }

  lemma OneMoreEach(overlap: nat, n: nat)
    requires n > 0
    ensures overlap * n == overlap * (n - 1) + overlap
  {
  }

  lemma SetKeeps(overlap: nat, k: Key)
    requires KeyOk(overlap, k)
    ensures KeyOk(overlap, k.Set())
  {
    if k.sets > 0 {
      OneMoreEach(overlap, k.sets);
    }
  }

  lemma ExpireKeeps(overlap: nat, k: Key)
    requires KeyOk(overlap, k)
    ensures KeyOk(overlap, k.Expire())
  {
  }

  lemma SubsetCount(a: set<CallId>, b: set<CallId>)
    requires a <= b
    ensures |a| <= |b|
  {
    if a != b {
      assert b == a + (b - a);
    }
  }

  lemma ReadKeeps(overlap: nat, k: Key, c: CallId)
    requires KeyOk(overlap, k) && k.there && k.Busy() < overlap && !k.Holds(c)
    ensures KeyOk(overlap, k.Read(c))
  {
    SubsetCount(k.readers, k.early + k.late);
  }

  lemma ActKeeps(overlap: nat, k: Key, c: CallId)
    requires KeyOk(overlap, k) && c in k.early
    ensures KeyOk(overlap, k.Act(c))
  {
  }

  lemma DeleteKeeps(overlap: nat, k: Key, c: CallId)
    requires KeyOk(overlap, k)
    ensures KeyOk(overlap, k.Delete(c))
  {
  }

  lemma GiveUpKeeps(overlap: nat, k: Key, c: CallId)
    requires KeyOk(overlap, k) && c in k.early
    ensures KeyOk(overlap, k.GiveUp(c))
  {
    SubsetCount(k.readers - {c}, k.readers);
  }

  // ---------- the bound ----------

  predicate Inv(overlap: nat, s: State)
  {
    Busy(s) <= overlap && KeyOk(overlap, s.otp) && KeyOk(overlap, s.flag) && s.otp.acts == s.flag.sets
  }

  lemma BusyKeeps(overlap: nat, s: State, step: Step)
    requires Busy(s) <= overlap && Next(overlap, s, step).Some?
    ensures Busy(Next(overlap, s, step).value) <= overlap
  {
  }

  lemma StepKeeps(overlap: nat, s: State, step: Step)
    requires Inv(overlap, s) && Next(overlap, s, step).Some?
    ensures Inv(overlap, Next(overlap, s, step).value)
  {
    hide KeyOk;
    BusyKeeps(overlap, s, step);
    match step {
      case Issue => SetKeeps(overlap, s.otp);
      case ExpireOtp => ExpireKeeps(overlap, s.otp);
      case ExpireFlag => ExpireKeeps(overlap, s.flag);
      case Match(c) => ReadKeeps(overlap, s.otp, c);
      case Mark(c) => ActKeeps(overlap, s.otp, c); SetKeeps(overlap, s.flag);
      case DropOtp(c) => DeleteKeeps(overlap, s.otp, c);
      case Allow(c) => ReadKeeps(overlap, s.flag, c);
      case Use(c) => ActKeeps(overlap, s.flag, c);
      case DropFlag(c) => DeleteKeeps(overlap, s.flag, c);
      case Abandon(c) =>
        if c in s.otp.early {
          GiveUpKeeps(overlap, s.otp, c);
        } else {
          GiveUpKeeps(overlap, s.flag, c);
        }
    }
  }

  lemma {:induction false} RunOk(overlap: nat, r: Run, i: nat)
    requires IsRun(overlap, r) && i < |r.states|
    ensures Inv(overlap, r.states[i])
  {
    if i > 0 {
      hide Inv, Next;
      RunOk(overlap, r, i - 1);
      assert Next(overlap, r.states[i - 1], r.steps[i - 1]) == Some(r.states[i]);
      StepKeeps(overlap, r.states[i - 1], r.steps[i - 1]);
    }
  }

  lemma ActsPerSet(overlap: nat, k: Key)
    requires KeyOk(overlap, k)
    ensures k.acts <= overlap * k.sets
  {
    if k.sets > 0 {
      OneMoreEach(overlap, k.sets);
    }
  }

  lemma Times(overlap: nat, uses: int, marks: nat, issues: nat)
    requires uses <= overlap * marks && marks <= overlap * issues
    ensures uses <= overlap * overlap * issues
  {
    assert overlap * marks <= overlap * (overlap * issues);
  }

  /**
   However calls overlap, `overlap` of them at most at a time and none dying halfway, one issued OTP sets the flag
   at most `overlap` times, and each time lets at most `overlap` calls through: with one call at a time, one.
   */
  lemma UsesPerIssue(overlap: nat, r: Run, i: nat)
    requires IsRun(overlap, r) && i < |r.states|
    ensures var s := r.states[i];
            && s.otp.acts == s.flag.sets <= overlap * s.otp.sets
            && s.flag.acts <= overlap * s.flag.sets
            && s.flag.acts <= overlap * overlap * s.otp.sets
  {
    hide IsRun, Next, KeyOk;
    RunOk(overlap, r, i);
    var s := r.states[i];
    ActsPerSet(overlap, s.otp);
    ActsPerSet(overlap, s.flag);
    Times(overlap, s.flag.acts, s.flag.sets, s.otp.sets);
  }

  // ---------- the bounds are met ----------

  lemma OneMoreStep(overlap: nat, r: Run, step: Step) returns (longer: Run)
    requires IsRun(overlap, r) && Next(overlap, r.states[|r.steps|], step).Some?
    ensures IsRun(overlap, longer) && |longer.states| == |longer.steps| + 1
    ensures Some(longer.states[|longer.steps|]) == Next(overlap, r.states[|r.steps|], step)
  {
    hide Next;
    longer := Run(r.states + [Next(overlap, r.states[|r.steps|], step).value], r.steps + [step]);
  }

  lemma NoSteps(overlap: nat)
    ensures IsRun(overlap, Run([State(UNUSED, UNUSED)], []))
  {
  }

  /** A key set once and still there, on which `n` calls have acted without having deleted it yet. */
  predicate Crowded(k: Key, n: nat)
  {
    k.there && k.sets == 1 && k.acts == n && k.early == {} && |k.late| == n && forall c :: c in k.late ==> c < n
  }

  lemma OneMoreActs(k: Key, n: nat)
    requires Crowded(k, n)
    ensures !k.Holds(n) && n in k.Read(n).early && Crowded(k.Read(n).Act(n), n + 1)
  {
    assert k.Read(n).Act(n).early == {};
    assert n !in k.late;
  }

  lemma {:induction false} MarkAll(overlap: nat, n: nat) returns (r: Run)
    requires n <= overlap
    ensures IsRun(overlap, r) && |r.states| == |r.steps| + 1
    ensures var s := r.states[|r.steps|];
            && Crowded(s.otp, n) && s.flag.Busy() == 0 && s.flag.acts == 0
            && s.flag.sets == n && (n > 0 ==> s.flag.there)
  {
    hide IsRun;
    if n == 0 {
      NoSteps(overlap);
      r := OneMoreStep(overlap, Run([State(UNUSED, UNUSED)], []), Issue);
    } else {
      r := MarkAll(overlap, n - 1);
      OneMoreActs(r.states[|r.steps|].otp, n - 1);
      r := OneMoreStep(overlap, r, Match(n - 1));
      r := OneMoreStep(overlap, r, Mark(n - 1));
    }
  }

  /** The only validation deletes the OTP, and the flag stays behind. */
  lemma Validated(overlap: nat) returns (r: Run)
    requires overlap > 0
    ensures IsRun(overlap, r) && |r.states| == |r.steps| + 1
    ensures var s := r.states[|r.steps|]; s.otp.Busy() == 0 && Crowded(s.flag, 0)
  {
    hide IsRun;
    r := MarkAll(overlap, 1);
    var late := r.states[|r.steps|].otp.late;
    var c :| c in late;
    assert late == {c} by {
      assert |late - {c}| == 0;
    }
    r := OneMoreStep(overlap, r, DropOtp(c));
  }

  lemma {:induction false} UseAll(overlap: nat, n: nat) returns (r: Run)
    requires n <= overlap && overlap > 0
    ensures IsRun(overlap, r) && |r.states| == |r.steps| + 1
    ensures var s := r.states[|r.steps|]; s.otp.Busy() == 0 && Crowded(s.flag, n)
  {
    hide IsRun;
    if n == 0 {
      r := Validated(overlap);
    } else {
      r := UseAll(overlap, n - 1);
      OneMoreActs(r.states[|r.steps|].flag, n - 1);
      r := OneMoreStep(overlap, r, Allow(n - 1));
      r := OneMoreStep(overlap, r, Use(n - 1));
    }
  }

  /** One OTP can set the flag `overlap` times, and one flag can let `overlap` calls through. */
  lemma BoundsAreMet(overlap: nat) returns (marking: Run, using: Run)
    requires overlap > 0
    ensures IsRun(overlap, marking) && IsRun(overlap, using)
    ensures var s := marking.states[|marking.steps|]; s.otp.sets == 1 && s.flag.sets == overlap
    ensures var s := using.states[|using.steps|]; s.flag.sets == 1 && s.flag.acts == overlap
  {
    marking := MarkAll(overlap, overlap);
    using := UseAll(overlap, overlap);
  }
}
