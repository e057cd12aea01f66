/**
 * Connection draining: one atomic word packs a draining bit over a count of live guards.
 * Registration is a load followed by compare-exchange attempts on possibly stale values,
 * a guard's drop is a fetch-sub, draining is a fetch-or, and `wait_until_idle` enables its
 * notification before it reads the count. Each atomic access is one step; all interleave.
 */
module Drain {
  const DRAINING_BIT: nat := 0x8000_0000_0000_0000
  const ACTIVE_MASK: nat := 0x7fff_ffff_ffff_ffff
  const WORD_SIZE: nat := 0x1_0000_0000_0000_0000

  // ---------- the packed word: 64-bit arithmetic ----------

  function BitAnd(a: nat, b: nat): nat
    decreases a
  {
    if a == 0 || b == 0 then 0 else (if a % 2 == 1 && b % 2 == 1 then 1 else 0) + 2 * BitAnd(a / 2, b / 2)
  }

  function BitOr(a: nat, b: nat): nat
    decreases a
  {
    if a == 0 then b
    else if b == 0 then a
    else (if a % 2 == 1 || b % 2 == 1 then 1 else 0) + 2 * BitOr(a / 2, b / 2)
  }

  predicate DrainingIn(word: nat) {
    BitAnd(word, DRAINING_BIT) != 0
  }

  function ActiveIn(word: nat): nat {
    BitAnd(word, ACTIVE_MASK)
  }

  function FetchOr(word: nat): nat {
    BitOr(word, DRAINING_BIT)
  }

  function FetchSub(word: nat): nat {
    (word + WORD_SIZE - 1) % WORD_SIZE
  }

  function FetchAdd(word: nat): nat {
    (word + 1) % WORD_SIZE
  }

  function Encode(draining: bool, active: nat): nat {
    active + if draining then DRAINING_BIT else 0
  }

  // ---------- the step system ----------

  datatype Registrar = Trying(observed: nat) | Registered(guard: nat) | Refused

  /**
   * `Enabled`: the notification is armed, the count not read yet. `Parked`: awaiting it.
   * `Idle`: returned because a read word showed no live guard.
   */
  datatype Waiter = Looping | Enabled(notified: bool) | Parked(notified: bool) | Idle(seen: nat) | TimedOut

  /**
   * `word` is the program's only shared variable. `draining` and `guards` record what it
   * stands for. `pending` counts `notify_waiters` calls whose deciding access has happened.
   */
  datatype State = State(
    word: nat,
    draining: bool,
    guards: set<nat>,
    used: nat,
    registrars: map<nat, Registrar>,
    waiters: map<nat, Waiter>,
    pending: nat)

  const INITIAL := State(0, false, {}, 0, map[], map[], 0)

  datatype Step =
    | Load(r: nat)
    | Attempt(r: nat, spurious: bool)
    | DropGuard(guard: nat)
    | BeginDraining
    | Notify
    | StartWait(w: nat)
    | EnableNotified(w: nat)
    | ReadCount(w: nat)
    | WakeUp(w: nat)
    | TimeOut(w: nat)

  predicate Possible(s: State, step: Step) {
    match step
    case Load(r) => r !in s.registrars
    case Attempt(r, _) => r in s.registrars && s.registrars[r].Trying?
    case DropGuard(g) => g in s.guards
    case BeginDraining => true
    case Notify => s.pending > 0
    case StartWait(w) => w !in s.waiters
    case EnableNotified(w) => w in s.waiters && s.waiters[w].Looping?
    case ReadCount(w) => w in s.waiters && s.waiters[w].Enabled?
    case WakeUp(w) => w in s.waiters && s.waiters[w].Parked? && s.waiters[w].notified
    case TimeOut(w) => w in s.waiters && !s.waiters[w].Idle?
  }

  /** `notify_waiters` reaches every waiter enabled so far and leaves no permit behind. */
  function Notified(w: Waiter): Waiter {
    match w
    case Enabled(_) => Enabled(true)
    case Parked(_) => Parked(true)
    case _ => w
  }

  function Next(s: State, step: Step): State
    requires Possible(s, step)
  {
    match step
    case Load(r) => s.(registrars := s.registrars[r := Trying(s.word)])
    case Attempt(r, spurious) =>
      var observed := s.registrars[r].observed;
      if DrainingIn(observed) || ActiveIn(observed) == ACTIVE_MASK then
        s.(registrars := s.registrars[r := Refused])
      else if s.word == observed && !spurious then
        s.(word := FetchAdd(observed), guards := s.guards + {s.used}, used := s.used + 1,
           registrars := s.registrars[r := Registered(s.used)])
      else
        s.(registrars := s.registrars[r := Trying(s.word)])
    case DropGuard(g) =>
      s.(word := FetchSub(s.word), guards := s.guards - {g},
         pending := if ActiveIn(s.word) == 1 then s.pending + 1 else s.pending)
    case BeginDraining =>
      s.(word := FetchOr(s.word), draining := true,
         pending := if ActiveIn(s.word) == 0 then s.pending + 1 else s.pending)
    case Notify =>
      s.(pending := s.pending - 1, waiters := map w | w in s.waiters :: Notified(s.waiters[w]))
    case StartWait(w) => s.(waiters := s.waiters[w := Looping])
    case EnableNotified(w) => s.(waiters := s.waiters[w := Enabled(false)])
    case ReadCount(w) =>
      s.(waiters := s.waiters[w := if ActiveIn(s.word) == 0 then Idle(s.word) else Parked(s.waiters[w].notified)])
    case WakeUp(w) => s.(waiters := s.waiters[w := Looping])
    case TimeOut(w) => s.(waiters := s.waiters[w := TimedOut])
  }

  ghost predicate Reaches(s: State, steps: seq<Step>, end: State)
    decreases |steps|
  {
    if steps == [] then s == end
    else Possible(s, steps[0]) && Reaches(Next(s, steps[0]), steps[1..], end)
  }

  // ---------- the word encodes the pair ----------

  function Pow2(k: nat): (p: nat)
    ensures p > 0
  {
    if k == 0 then 1 else 2 * Pow2(k - 1)
  }

  lemma Pow2Of4More(k: nat)
    ensures Pow2(k + 4) == 16 * Pow2(k)
  {
    assert Pow2(k + 4) == 2 * Pow2(k + 3);
    assert Pow2(k + 3) == 2 * Pow2(k + 2);
    assert Pow2(k + 2) == 2 * Pow2(k + 1);
  }

  lemma Pow2Of16More(k: nat)
    ensures Pow2(k + 16) == 65536 * Pow2(k)
  {
    Pow2Of4More(k);
    Pow2Of4More(k + 4);
    Pow2Of4More(k + 8);
    Pow2Of4More(k + 12);
  }

  lemma Bit63()
    ensures Pow2(63) == DRAINING_BIT
  {
    Pow2Of16More(0);
    Pow2Of16More(16);
    Pow2Of16More(32);
    Pow2Of4More(48);
    Pow2Of4More(52);
    Pow2Of4More(56);
    assert Pow2(63) == 2 * Pow2(62) && Pow2(62) == 2 * Pow2(61) && Pow2(61) == 2 * Pow2(60);
  }

  lemma HalfOfQuotient(w: nat, p: nat)
    requires p > 0
    ensures w / (2 * p) == w / 2 / p
    ensures w % (2 * p) == w % 2 + 2 * (w / 2 % p)
  {
    var q, r := w / 2 / p, w / 2 % p;
    assert w / 2 == q * p + r;
    assert w == q * (2 * p) + (2 * r + w % 2);
    QuotientIs(w, 2 * p, q, 2 * r + w % 2);
  }

  lemma QuotientIs(w: nat, d: nat, q: nat, r: nat)
    requires d > 0 && r < d && w == q * d + r
    ensures w / d == q && w % d == r
  {
    var k: int := w / d - q;
    assert w == (w / d) * d + w % d;
    assert k * d == r - w % d;
    NoMultipleBetween(k, d);
  }

  lemma NoMultipleBetween(k: int, d: int)
    requires 0 < d && -d < k * d < d
    ensures k == 0
  {
  }

  function LowOf(w: nat, k: nat): nat
    decreases k
  {
    if k == 0 then 0 else w % 2 + 2 * LowOf(w / 2, k - 1)
  }

  /** And with a mask of the lowest `k` bits keeps these bits. */
  lemma {:induction false} MaskKeepsLow(w: nat, k: nat)
    ensures BitAnd(w, Pow2(k) - 1) == LowOf(w, k)
    decreases k
  {
    if k > 0 {
      MaskKeepsLow(w / 2, k - 1);
      AndOdd(w, Pow2(k - 1) - 1);
    }
  }

  /** They are the remainder. */
  lemma {:induction false} LowIsRemainder(w: nat, k: nat)
    ensures LowOf(w, k) == w % Pow2(k)
    decreases k
  {
    if k > 0 {
      LowIsRemainder(w / 2, k - 1);
      LowBits(w, Pow2(k - 1));
    }
  }

  lemma LowBits(w: nat, p: nat)
    requires p > 0
    ensures w % (2 * p) == w % 2 + 2 * (w / 2 % p)
  {
    HalfOfQuotient(w, p);
  }

  lemma AndOdd(w: nat, m: nat)
    ensures BitAnd(w, 2 * m + 1) == w % 2 + 2 * BitAnd(w / 2, m)
  {
    var mask := 2 * m + 1;
    assert mask / 2 == m && mask % 2 == 1;
  }

  /** And with a single bit tests it. */
  lemma {:induction false} TestIsQuotient(w: nat, k: nat)
    ensures BitAnd(w, Pow2(k)) == if w / Pow2(k) % 2 == 1 then Pow2(k) else 0
    decreases k
  {
    if w > 0 {
      if k == 0 {
        assert BitAnd(w / 2, 0) == 0;
      } else {
        TestIsQuotient(w / 2, k - 1);
        HalfOfQuotient(w, Pow2(k - 1));
      }
    }
  }

  /** Or with a single bit sets it. */
  lemma {:induction false} SetIsSum(w: nat, k: nat)
    ensures BitOr(w, Pow2(k)) == if w / Pow2(k) % 2 == 1 then w else w + Pow2(k)
    decreases k
  {
    if w > 0 {
      if k == 0 {
        assert BitOr(w / 2, 0) == w / 2;
      } else {
        SetIsSum(w / 2, k - 1);
        HalfOfQuotient(w, Pow2(k - 1));
      }
    }
  }

  lemma WithinTheWord(x: nat)
    ensures x < WORD_SIZE ==> x % WORD_SIZE == x && (x + WORD_SIZE) % WORD_SIZE == x
  {
    if x < WORD_SIZE {
      QuotientIs(x, WORD_SIZE, 0, x);
      QuotientIs(x + WORD_SIZE, WORD_SIZE, 1, x);
    }
  }

  lemma ActiveIsRemainder(w: nat)
    ensures ActiveIn(w) == w % DRAINING_BIT
  {
    Bit63();
    MaskKeepsLow(w, 63);
    LowIsRemainder(w, 63);
  }

  lemma DrainingIsBit(w: nat)
    ensures DrainingIn(w) <==> w / DRAINING_BIT % 2 == 1
  {
    Bit63();
    TestIsQuotient(w, 63);
  }

  lemma FetchOrIsSum(w: nat)
    ensures FetchOr(w) == if w / DRAINING_BIT % 2 == 1 then w else w + DRAINING_BIT
  {
    Bit63();
    SetIsSum(w, 63);
  }

  /** On a well-encoded word the masks read back the pair and no operation crosses the bit. */
  lemma WordArithmetic(draining: bool, active: nat)
    requires active <= ACTIVE_MASK
    ensures var w := Encode(draining, active);
            && w < WORD_SIZE
            && DrainingIn(w) == draining
            && ActiveIn(w) == active
            && FetchOr(w) == Encode(true, active)
            && (active < ACTIVE_MASK ==> FetchAdd(w) == Encode(draining, active + 1))
            && (active > 0 ==> FetchSub(w) == Encode(draining, active - 1))
  {
    var w := Encode(draining, active);
    QuotientIs(w, DRAINING_BIT, if draining then 1 else 0, active);
    ActiveIsRemainder(w);
    DrainingIsBit(w);
    FetchOrIsSum(w);
    WithinTheWord(w + 1);
    if active > 0 {
      WithinTheWord(w - 1);
    }
  }

  ghost predicate WordInv(s: State) {
    && |s.guards| <= ACTIVE_MASK
    && s.word == Encode(s.draining, |s.guards|)
    && (forall g :: g in s.guards ==> g < s.used)
    && (forall r :: r in s.registrars && s.registrars[r].Registered? ==> s.registrars[r].guard < s.used)
  }

  /** A parked waiter that could go home always has a notification delivered or on its way. */
  ghost predicate WaitInv(s: State) {
    && (forall w :: w in s.waiters && s.waiters[w].Parked? && s.guards == {} ==> s.waiters[w].notified || s.pending > 0)
    && (forall w :: w in s.waiters && s.waiters[w].Idle? ==> ActiveIn(s.waiters[w].seen) == 0)
    && (forall w :: w in s.waiters && s.waiters[w].Idle? && DrainingIn(s.waiters[w].seen) ==>
          s.draining && s.guards == {})
  }

  ghost predicate Inv(s: State) {
    WordInv(s) && WaitInv(s)
  }

  /** The abstract object: a draining flag and a set of live guards, each operation one jump. */
  ghost predicate AbstractStep(s: State, t: State) {
    || (t.draining == s.draining && t.guards == s.guards)
    || (!s.draining && !t.draining && |s.guards| < ACTIVE_MASK
        && s.used !in s.guards && t.guards == s.guards + {s.used})
    || (t.draining == s.draining && exists g :: g in s.guards && t.guards == s.guards - {g})
    || (t.draining && t.guards == s.guards)
  }

  lemma GuardCount(s: set<nat>, g: nat)
    ensures g in s ==> |s - {g}| == |s| - 1
    ensures g !in s ==> |s + {g}| == |s| + 1
    ensures |s| == 0 <==> s == {}
  {
  }

  lemma AttemptRefinesPair(s: State, r: nat, spurious: bool)
    requires WordInv(s) && Possible(s, Attempt(r, spurious))
    ensures var t := Next(s, Attempt(r, spurious));
            && WordInv(t) && t.draining == s.draining
            && (t.guards == s.guards
                || (!s.draining && |s.guards| < ACTIVE_MASK && s.used !in s.guards && t.guards == s.guards + {s.used}))
  {
    WordArithmetic(s.draining, |s.guards|);
    GuardCount(s.guards, s.used);
  }

  lemma DropRefinesPair(s: State, g: nat)
    requires WordInv(s) && g in s.guards
    ensures var t := Next(s, DropGuard(g));
            WordInv(t) && t.draining == s.draining && t.guards == s.guards - {g}
  {
    WordArithmetic(s.draining, |s.guards|);
    GuardCount(s.guards, g);
  }

  /** Every atomic step on the packed word is a step of the pair it encodes, or changes neither. */
  lemma WordRefinesPair(s: State, step: Step)
    requires WordInv(s) && Possible(s, step)
    ensures WordInv(Next(s, step))
    ensures AbstractStep(s, Next(s, step))
    ensures s.draining ==> Next(s, step).draining && Next(s, step).guards <= s.guards
  {
    match step
    case Attempt(r, spurious) => AttemptRefinesPair(s, r, spurious);
    case DropGuard(g) => DropRefinesPair(s, g);
    case BeginDraining => WordArithmetic(s.draining, |s.guards|);
    case Load(_) =>
    case Notify =>
    case StartWait(_) =>
    case EnableNotified(_) =>
    case ReadCount(_) =>
    case WakeUp(_) =>
    case TimeOut(_) =>
  }

  lemma StepKeepsWaitInv(s: State, step: Step)
    requires Inv(s) && Possible(s, step)
    ensures WaitInv(Next(s, step))
  {
    match step
    case Attempt(_, _) => WordArithmetic(s.draining, |s.guards|);
    case DropGuard(g) => DropKeepsWaitInv(s, g);
    case ReadCount(w) => ReadKeepsWaitInv(s, w);
    case Load(_) =>
    case BeginDraining =>
    case Notify =>
    case StartWait(_) =>
    case EnableNotified(_) =>
    case WakeUp(_) =>
    case TimeOut(_) =>
  }

  /** The drop that ends the last guard is the one that sees a count of one. */
  lemma DropKeepsWaitInv(s: State, g: nat)
    requires Inv(s) && g in s.guards
    ensures WaitInv(Next(s, DropGuard(g)))
  {
    WordArithmetic(s.draining, |s.guards|);
    GuardCount(s.guards, g);
    if s.guards - {g} == {} {
      assert |s.guards| == 1;
    }
  }

  /** A waiter that parks has just read a count above zero, so guards are alive. */
  lemma ReadKeepsWaitInv(s: State, w: nat)
    requires Inv(s) && Possible(s, ReadCount(w))
    ensures WaitInv(Next(s, ReadCount(w)))
  {
    WordArithmetic(s.draining, |s.guards|);
    GuardCount(s.guards, 0);
  }

  lemma {:induction false} ReachableKeepsInv(s: State, steps: seq<Step>, end: State)
    requires Inv(s) && Reaches(s, steps, end)
    ensures Inv(end)
    ensures s.draining ==> end.draining && end.guards <= s.guards
    decreases |steps|
  {
    if steps != [] {
      WordRefinesPair(s, steps[0]);
      StepKeepsWaitInv(s, steps[0]);
      ReachableKeepsInv(Next(s, steps[0]), steps[1..], end);
    }
  }

  /** In every reachable state the word is exactly the encoding of (draining, number of live guards). */
  lemma WordIsThePair(steps: seq<Step>, s: State)
    requires Reaches(INITIAL, steps, s)
    ensures s.word == Encode(s.draining, |s.guards|) < WORD_SIZE
    ensures DrainingIn(s.word) == s.draining && ActiveIn(s.word) == |s.guards|
  {
    ReachableKeepsInv(INITIAL, steps, s);
    WordArithmetic(s.draining, |s.guards|);
  }

  /** Draining is for ever: from then on no registration succeeds and no guard ever appears. */
  lemma DrainingIsPermanent(before: seq<Step>, s: State, after: seq<Step>, t: State, r: nat)
    requires Reaches(INITIAL, before, s) && s.draining
    requires Reaches(s, after, t)
    ensures t.draining && t.guards <= s.guards
    ensures r in t.registrars && t.registrars[r].Registered? ==> r in s.registrars && s.registrars[r] == t.registrars[r]
  {
    ReachableKeepsInv(INITIAL, before, s);
    ReachableKeepsInv(s, after, t);
    NoNewRegistration(s, after, t, r);
  }

  lemma DrainingRefuses(s: State, step: Step, r: nat)
    requires WordInv(s) && s.draining && Possible(s, step)
    ensures var t := Next(s, step);
            r in t.registrars && t.registrars[r].Registered? ==> r in s.registrars && s.registrars[r] == t.registrars[r]
  {
    WordArithmetic(s.draining, |s.guards|);
  }

  lemma {:induction false} NoNewRegistration(s: State, steps: seq<Step>, end: State, r: nat)
    requires Inv(s) && s.draining && Reaches(s, steps, end)
    ensures r in end.registrars && end.registrars[r].Registered? ==>
              r in s.registrars && s.registrars[r] == end.registrars[r]
    decreases |steps|
  {
    if steps != [] {
      WordRefinesPair(s, steps[0]);
      StepKeepsWaitInv(s, steps[0]);
      DrainingRefuses(s, steps[0], r);
      NoNewRegistration(Next(s, steps[0]), steps[1..], end, r);
    }
  }

  /** No missed last guard: parked with nothing alive, a notification is delivered or on its way. */
  lemma IdleIsNeverMissed(steps: seq<Step>, s: State, w: nat)
    requires Reaches(INITIAL, steps, s)
    requires w in s.waiters && s.waiters[w].Parked? && s.guards == {}
    ensures s.waiters[w].notified || s.pending > 0
  {
    ReachableKeepsInv(INITIAL, steps, s);
  }

  /**
   * A return that is not a timeout read a word without live guards; if that word was already
   * draining, nothing is alive now and nothing will ever be again.
   */
  lemma IdleReturnIsFinal(steps: seq<Step>, s: State, w: nat, after: seq<Step>, t: State)
    requires Reaches(INITIAL, steps, s) && Reaches(s, after, t)
    requires w in s.waiters && s.waiters[w].Idle?
    ensures ActiveIn(s.waiters[w].seen) == 0
    ensures DrainingIn(s.waiters[w].seen) ==> t.draining && t.guards == {} && ActiveIn(t.word) == 0
  {
    ReachableKeepsInv(INITIAL, steps, s);
    ReachableKeepsInv(s, after, t);
    WordArithmetic(t.draining, |t.guards|);
  }

  // ---------- and everybody gets there ----------

  /**
   * An attempt on a value that is not stale, and not spuriously failed, registers a new guard
   * exactly while nothing drains and the count has room. Otherwise it is refused.
   */
  lemma RegistersExactlyWhenOpen(before: seq<Step>, s: State, r: nat)
    requires Reaches(INITIAL, before, s) && r in s.registrars && s.registrars[r] == Trying(s.word)
    ensures var after := Next(s, Attempt(r, false));
            && (after.registrars[r].Registered? <==> !s.draining && |s.guards| < 0x7fff_ffff_ffff_ffff)
            && (after.registrars[r].Registered? ==>
                  after.registrars[r].guard !in s.guards && after.guards == s.guards + {after.registrars[r].guard})
            && (!after.registrars[r].Registered? ==> after.registrars[r].Refused? && after.guards == s.guards)
  {
    ReachableKeepsInv(INITIAL, before, s);
    WordArithmetic(s.draining, |s.guards|);
  }

  /** A stale or spuriously failed attempt tries again with the current word; none is refused without a reason. */
  lemma StaleTriesAgain(s: State, r: nat, spurious: bool)
    requires Possible(s, Attempt(r, spurious)) && Next(s, Attempt(r, spurious)).registrars[r].Refused?
    ensures var observed := s.registrars[r].observed; DrainingIn(observed) || ActiveIn(observed) == ACTIVE_MASK
  {
  }

  lemma OneStep(s: State, step: Step, rest: seq<Step>, end: State)
    requires Possible(s, step) && Reaches(Next(s, step), rest, end)
    ensures Reaches(s, [step] + rest, end)
  {
    assert ([step] + rest)[1..] == rest;
  }

  /** A waiter that looks again while nothing is alive goes home. */
  lemma LooksAndLeaves(s: State, w: nat)
    requires WordInv(s) && s.guards == {} && w in s.waiters && s.waiters[w].Looping?
    ensures exists steps, end :: Reaches(s, steps, end) && w in end.waiters && end.waiters[w].Idle?
  {
    WordArithmetic(s.draining, 0);
    var s1 := Next(s, EnableNotified(w));
    var s2 := Next(s1, ReadCount(w));
    assert Reaches(s2, [], s2);
    OneStep(s1, ReadCount(w), [], s2);
    OneStep(s, EnableNotified(w), [ReadCount(w)] + [], s2);
  }

  /** And the notification is enough: a waiter parked with nothing alive gets home by it. */
  lemma NotifiedGoesHome(before: seq<Step>, s: State, w: nat)
    requires Reaches(INITIAL, before, s)
    requires w in s.waiters && s.waiters[w].Parked? && s.guards == {}
    ensures exists steps, end :: Reaches(s, steps, end) && w in end.waiters && end.waiters[w].Idle?
  {
    ReachableKeepsInv(INITIAL, before, s);
    IdleIsNeverMissed(before, s, w);
    var woken := if s.waiters[w].notified then s else Next(s, Notify);
    assert Possible(woken, WakeUp(w));
    var s1 := Next(woken, WakeUp(w));
    LooksAndLeaves(s1, w);
    var steps, end :| Reaches(s1, steps, end) && w in end.waiters && end.waiters[w].Idle?;
    OneStep(woken, WakeUp(w), steps, end);
    if !s.waiters[w].notified {
      OneStep(s, Notify, [WakeUp(w)] + steps, end);
    }
  }

  /** The end of the last guard and a drain that finds none each owe one notification; other drops and drains none. */
  lemma NotifiesWhenIdle(before: seq<Step>, s: State, g: nat)
    requires Reaches(INITIAL, before, s)
    ensures g in s.guards ==>
              Next(s, DropGuard(g)).pending == s.pending + if |s.guards| == 1 then 1 else 0
    ensures Next(s, BeginDraining).pending == s.pending + if |s.guards| == 0 then 1 else 0
  {
    WordIsThePair(before, s);
  }

  /** A notification reaches everybody who has enabled and not yet left. */
  lemma NotifyReachesAll(s: State, w: nat)
    requires s.pending > 0 && w in s.waiters && (s.waiters[w].Enabled? || s.waiters[w].Parked?)
    ensures Next(s, Notify).waiters[w].notified
  {
  }
}
