/**
  The app-lock verifier and the lockout ladder that PIN and TOTP attempts share.  Times are nanoseconds since
  1970; lockout deadlines are stored in whole seconds.  Standards: RFC 6238 and RFC 4226 for the codes.
 */
module AppLock {
  import Spaces

  const SECOND: int := 1_000_000_000
  const FREE_ATTEMPTS: int := 5
  const LOCKOUT_BASE: int := 30 * SECOND
  const LOCKOUT_MAX: int := 900 * SECOND
  const TOTP_STEP: int := 30
  const TOTP_SKEW: int := 1

  /** A stored number: absent, unreadable, or a value. */
  datatype Setting = Unset | Corrupt | Value(n: int)

  datatype Verifier = NoVerifier | CorruptVerifier | Verifier(pin: string)

  datatype Secret = NoSecret | Secret(key: seq<nat>)

  datatype Error = NoError | LockedOut | NoEntry | BadVerifier | BadPin | StoreError

  /** The lockout bookkeeping in the settings table. */
  datatype Book = Book(failures: Setting, lockedUntil: Setting)

  /** Which bookkeeping calls fail. */
  datatype Faults = Faults(readLockout: bool, readFailures: bool, writeFailures: bool, writeLockout: bool,
                           clearFailures: bool, clearLockout: bool)

  const NO_FAULTS := Faults(false, false, false, false, false, false)

  function Doubled(d: int, steps: nat): int {
    if steps == 0 then d else 2 * Doubled(d, steps - 1)
  }

  function LockoutAfter(failures: int): int {
    var steps := failures - FREE_ATTEMPTS - 1;
    if steps < 0 then 0
    else if steps >= 5 then LOCKOUT_MAX
    else
      var d := Doubled(LOCKOUT_BASE, steps);
      if d > LOCKOUT_MAX then LOCKOUT_MAX else d
  }

  /** Unreadable bookkeeping reads as no delay. */
  function RetryDelay(lockedUntil: Setting, now: int): int {
    match lockedUntil
    case Value(sec) => var d := sec * SECOND - now; if d < 0 then 0 else d
    case _ => 0
  }

  /** So does a deadline that cannot be read at all. */
  function Delay(lockedUntil: Setting, now: int, f: Faults): int {
    if f.readLockout then 0 else RetryDelay(lockedUntil, now)
  }

  /** A lockout window is seen open: its deadline, a whole second, is still to come. */
  predicate Shut(b: Book, now: int, f: Faults) {
    !f.readLockout && b.lockedUntil.Value? && now < b.lockedUntil.n * 1_000_000_000
  }

  /** A missing or corrupt counter reads as zero. */
  function Count(failures: Setting): int {
    if failures.Value? then failures.n else 0
  }

  function Failed(b: Book, now: int): Book {
    var n := Count(b.failures) + 1;
    Book(Value(n), if LockoutAfter(n) > 0 then Value((now + LockoutAfter(n)) / SECOND) else b.lockedUntil)
  }

  const CLEAR := Book(Unset, Unset)

  /** A wrong answer as far as its calls succeed: the counter first, then the deadline. */
  function Recorded(b: Book, now: int, f: Faults): Book {
    if f.readFailures || f.writeFailures then b
    else if f.writeLockout then Failed(b, now).(lockedUntil := b.lockedUntil)
    else Failed(b, now)
  }

  function Reset(b: Book, f: Faults): Book {
    if f.clearFailures then b else if f.clearLockout then b.(failures := Unset) else CLEAR
  }

  predicate IsDigit(c: char) {
    '0' <= c <= '9'
  }

  ghost predicate IsPin(pin: string) {
    4 <= |pin| <= 12 && forall i :: 0 <= i < |pin| ==> IsDigit(pin[i])
  }

  method ValidPIN(pin: string) returns (ok: bool)
    ensures ok <==> IsPin(pin)
  {
    if |pin| < 4 || |pin| > 12 { return false; }
    var i := 0;
    while i < |pin|
      invariant 0 <= i <= |pin| && forall j :: 0 <= j < i ==> IsDigit(pin[j])
    {
      if pin[i] < '0' || pin[i] > '9' { return false; }
      i := i + 1;
    }
    return true;
  }

  /** The code for one counter value; HMAC and truncation are not modelled. */
  type Hotp = (seq<nat>, int) -> string

  /** The code `skew` steps from now. */
  function CodeAt(hotp: Hotp, key: seq<nat>, now: int, skew: int): string {
    hotp(key, (now / SECOND + skew * TOTP_STEP) / TOTP_STEP)
  }

  ghost predicate CodeAccepted(hotp: Hotp, key: seq<nat>, now: int, code: string) {
    exists skew :: -TOTP_SKEW <= skew <= TOTP_SKEW && code == CodeAt(hotp, key, now, skew)
  }

  /** A code is accepted exactly if it is that of the 30-second step of now, or of the step before or after. */
  lemma AcceptedCodes(hotp: Hotp, key: seq<nat>, now: int, code: string)
    ensures CodeAccepted(hotp, key, now, code) <==>
      var step := now / 30_000_000_000;
      code == hotp(key, step - 1) || code == hotp(key, step) || code == hotp(key, step + 1)
  {
    var step := now / 30_000_000_000;
    StepOf(now);
    assert CodeAt(hotp, key, now, -1) == hotp(key, step - 1);
    assert CodeAt(hotp, key, now, 0) == hotp(key, step);
    assert CodeAt(hotp, key, now, 1) == hotp(key, step + 1);
    if CodeAccepted(hotp, key, now, code) {
      var skew :| -TOTP_SKEW <= skew <= TOTP_SKEW && code == CodeAt(hotp, key, now, skew);
      assert skew in {-1, 0, 1};
    }
  }

  lemma StepOf(now: int)
    ensures var step := now / 30_000_000_000;
      now / SECOND / 30 == step && (now / SECOND - 30) / 30 == step - 1 && (now / SECOND + 30) / 30 == step + 1
  {
  }

  /** White space around an entered code does not count. */
  ghost predicate EntryAccepted(hotp: Hotp, key: seq<nat>, now: int, entered: string) {
    CodeAccepted(hotp, key, now, Spaces.TrimSpace(entered))
  }

  class Manager {
    var verifier: Verifier
    var secret: Secret
    var book: Book
    const hotp: Hotp

    constructor (hotp: Hotp)
      ensures verifier == NoVerifier && secret == NoSecret && book == CLEAR && this.hotp == hotp
    {
      verifier, secret, book, this.hotp := NoVerifier, NoSecret, CLEAR, hotp;
    }

    method ClearLockout(f: Faults) returns (err: Error)
      modifies this`book
      ensures book == Reset(old(book), f)
      ensures err == NoError <==> !f.clearFailures && !f.clearLockout
    {
      if f.clearFailures { return StoreError; }
      book := book.(failures := Unset);
      if f.clearLockout { return StoreError; }
      book := book.(lockedUntil := Unset);
      return NoError;
    }

    method RecordFailure(now: int, f: Faults) returns (err: Error)
      modifies this`book
      ensures book == Recorded(old(book), now, f)
      ensures err == NoError <==> !(f.readFailures || f.writeFailures
                                    || (f.writeLockout && Count(old(book).failures) >= FREE_ATTEMPTS))
    {
      if f.readFailures { return StoreError; }
      var n := Count(book.failures) + 1;
      if f.writeFailures { return StoreError; }
      book := book.(failures := Value(n));
      var d := LockoutAfter(n);
      LockoutLadder(n);
      if d > 0 {
        if f.writeLockout { return StoreError; }
        book := book.(lockedUntil := Value((now + d) / SECOND));
      }
      return NoError;
    }

    /** `check` is the clock when the lockout window is read, `record` when a failure is recorded. */
    method Verify(pin: string, check: int, record: int, f: Faults) returns (ok: bool, err: Error)
      modifies this`book
      ensures ok <==> !Shut(old(book), check, f) && verifier == Verifier(pin)
      ensures Shut(old(book), check, f) ==> err == LockedOut && book == old(book)
      ensures ok ==> err == NoError
      ensures !verifier.Verifier? ==> book == old(book) && err != NoError
      ensures verifier.Verifier? ==> book == Attempted(old(book), Attempt(check, record, verifier.pin == pin, f))
    {
      if Delay(book.lockedUntil, check, f) > 0 { return false, LockedOut; }
      match verifier {
        case NoVerifier => return false, NoEntry;
        case CorruptVerifier => return false, BadVerifier;
        case Verifier(right) =>
          if right != pin {
            err := RecordFailure(record, f);
            return false, err;
          }
          var _ := ClearLockout(f);
          return true, NoError;
      }
    }

    method VerifyTOTP(entered: string, check: int, now: int, record: int, f: Faults) returns (ok: bool, err: Error)
      modifies this`book
      ensures ok <==>
        !Shut(old(book), check, f) && secret.Secret? && EntryAccepted(hotp, secret.key, now, entered)
      ensures Shut(old(book), check, f) ==> err == LockedOut && book == old(book)
      ensures ok ==> err == NoError
      ensures !secret.Secret? ==> book == old(book) && err != NoError
      ensures secret.Secret?
        ==> book == Attempted(old(book), Attempt(check, record, EntryAccepted(hotp, secret.key, now, entered), f))
    {
      if Delay(book.lockedUntil, check, f) > 0 { return false, LockedOut; }
      if secret.NoSecret? { return false, NoEntry; }
      var code := Spaces.TrimSpace(entered);
      ok := false;
      var skew := -TOTP_SKEW;
      while skew <= TOTP_SKEW
        invariant -TOTP_SKEW <= skew <= TOTP_SKEW + 1
        invariant ok <==> exists s :: -TOTP_SKEW <= s < skew && code == CodeAt(hotp, secret.key, now, s)
        decreases TOTP_SKEW + 1 - skew
      {
        var want := CodeAt(hotp, secret.key, now, skew);
        if want == code { ok := true; }
        skew := skew + 1;
      }
      if !ok {
        err := RecordFailure(record, f);
        return;
      }
      var _ := ClearLockout(f);
      return true, NoError;
    }

    method Set(pin: string, f: Faults) returns (err: Error)
      modifies this`verifier, this`book
      ensures !IsPin(pin) ==> err == BadPin && verifier == old(verifier) && book == old(book)
      ensures IsPin(pin) ==> verifier == Verifier(pin) && book == Reset(old(book), f)
      ensures IsPin(pin) ==> (err == NoError <==> !f.clearFailures && !f.clearLockout)
    {
      var valid := ValidPIN(pin);
      if !valid { return BadPin; }
      verifier := Verifier(pin);
      err := ClearLockout(f);
    }
  }

  // ----- the throttle over runs -----

  /** One attempt of either factor that reaches an enrolled verifier. */
  datatype Attempt = Attempt(check: int, record: int, right: bool, f: Faults)

  predicate Evaluated(b: Book, a: Attempt) {
    Delay(b.lockedUntil, a.check, a.f) <= 0
  }

  function Attempted(b: Book, a: Attempt): Book {
    if !Evaluated(b, a) then b else if a.right then Reset(b, a.f) else Recorded(b, a.record, a.f)
  }

  /** Evaluated with no window open, and then counted, with the window the ladder asks for. */
  predicate OnLadder(b: Book, a: Attempt) {
    RetryDelay(b.lockedUntil, a.check) == 0 && Attempted(b, a) == Failed(b, a.record)
  }

  /** A call that the answer needed has failed. */
  predicate MissesCall(b: Book, a: Attempt) {
    || a.f.readFailures || a.f.writeFailures
    || (a.f.writeLockout && Count(b.failures) >= FREE_ATTEMPTS)
    || (a.f.readLockout && RetryDelay(b.lockedUntil, a.check) > 0)
  }

  /** The book, and the wrong answers on the ladder since the last right one. */
  datatype Ledger = Ledger(book: Book, wrongs: seq<Attempt>)

  function Enter(l: Ledger, a: Attempt): Ledger {
    Ledger(Attempted(l.book, a),
           if !Evaluated(l.book, a) then l.wrongs
           else if a.right then []
           else if OnLadder(l.book, a) then l.wrongs + [a]
           else l.wrongs)
  }

  function Entered(attempts: seq<Attempt>): Ledger
    decreases |attempts|
  {
    if attempts == [] then Ledger(CLEAR, []) else Enter(Entered(attempts[..|attempts| - 1]), attempts[|attempts| - 1])
  }

  /** Attempts follow one another on a clock that never runs backwards. */
  ghost predicate Sequential(attempts: seq<Attempt>) {
    && (forall i :: 0 <= i < |attempts| ==> attempts[i].check <= attempts[i].record)
    && (forall i, j :: 0 <= i < j < |attempts| ==> attempts[i].record <= attempts[j].check)
  }

  ghost predicate Laddered(wrongs: seq<Attempt>) {
    && Sequential(wrongs)
    && forall i :: 5 <= i < |wrongs| - 1 ==>
         wrongs[i + 1].check - wrongs[i].record > LockoutAfter(i + 1) - SECOND
  }

  /** The counter is no lower than the answers on the ladder, and the deadline no earlier than the last one asks for. */
  ghost predicate Inv(l: Ledger) {
    && Laddered(l.wrongs) && |l.wrongs| <= Count(l.book.failures)
    && (|l.wrongs| > 5 ==> LockedFrom(l.book, l.wrongs[|l.wrongs| - 1].record, |l.wrongs|))
  }

  predicate LockedFrom(b: Book, record: int, n: int) {
    b.lockedUntil.Value? && (record + LockoutAfter(n)) / SECOND <= b.lockedUntil.n
  }

  /** Where no call has failed the book says no more than that. */
  ghost predicate Exact(l: Ledger) {
    l.book == if l.wrongs == [] then CLEAR
              else Book(Value(|l.wrongs|),
                        if |l.wrongs| > 5
                        then Value((l.wrongs[|l.wrongs| - 1].record + LockoutAfter(|l.wrongs|)) / SECOND)
                        else Unset)
  }

  lemma LockoutLadder(n: int)
    ensures LockoutAfter(n) > 0 <==> n > FREE_ATTEMPTS
    ensures n > FREE_ATTEMPTS ==> LOCKOUT_BASE <= LockoutAfter(n) <= LOCKOUT_MAX
    ensures n >= 11 ==> LockoutAfter(n) == LOCKOUT_MAX == 900_000_000_000
    ensures LockoutAfter(6) == 30_000_000_000
    ensures 6 <= n < 10 ==> LockoutAfter(n + 1) == 2 * LockoutAfter(n)
  {
    assert Doubled(LOCKOUT_BASE, 0) == 30 * SECOND;
    assert Doubled(LOCKOUT_BASE, 1) == 60 * SECOND;
    assert Doubled(LOCKOUT_BASE, 2) == 120 * SECOND;
    assert Doubled(LOCKOUT_BASE, 3) == 240 * SECOND;
    assert Doubled(LOCKOUT_BASE, 4) == 480 * SECOND;
  }

  lemma LongerAfterMore(m: int, n: int)
    requires m <= n
    ensures LockoutAfter(m) <= LockoutAfter(n)
  {
    LockoutLadder(m);
    LockoutLadder(n);
    if 6 <= m < n < 11 {
      LongerAfterMore(m, n - 1);
      LockoutLadder(n - 1);
    }
  }

  /** An evaluated wrong answer escapes the ladder exactly if a call that it needed failed. */
  lemma EscapesIff(b: Book, a: Attempt)
    requires a.check <= a.record && Evaluated(b, a) && !a.right
    ensures !OnLadder(b, a) <==> MissesCall(b, a)
  {
    LockoutLadder(Count(b.failures) + 1);
  }

  /** A wrong answer only moves the deadline on. */
  lemma RecordingKeepsLocked(b: Book, a: Attempt, record: int, n: int)
    requires 5 < n <= Count(b.failures) && LockedFrom(b, record, n) && record <= a.record
    ensures LockedFrom(Recorded(b, a.record, a.f), record, n)
  {
    LockoutLadder(n);
    LongerAfterMore(n, Count(b.failures) + 1);
  }

  lemma AddsToLadder(wrongs: seq<Attempt>, b: Book, a: Attempt)
    requires Inv(Ledger(b, wrongs)) && a.check <= a.record && OnLadder(b, a)
    requires forall i :: 0 <= i < |wrongs| ==> wrongs[i].record <= a.check
    ensures Laddered(wrongs + [a])
  {
    LockoutLadder(|wrongs|);
    var longer := wrongs + [a];
    forall i | 5 <= i < |longer| - 1
      ensures longer[i + 1].check - longer[i].record > LockoutAfter(i + 1) - SECOND
    {
      if i == |wrongs| - 1 { assert LockedFrom(b, wrongs[i].record, i + 1); }
    }
  }

  lemma EnterKeepsInv(l: Ledger, a: Attempt)
    requires Inv(l) && a.check <= a.record && forall i :: 0 <= i < |l.wrongs| ==> l.wrongs[i].record <= a.check
    ensures Inv(Enter(l, a))
  {
    if Evaluated(l.book, a) && !a.right {
      var n := |l.wrongs|;
      if OnLadder(l.book, a) {
        AddsToLadder(l.wrongs, l.book, a);
        LockoutLadder(Count(l.book.failures) + 1);
        LongerAfterMore(n + 1, Count(l.book.failures) + 1);
      } else if n > 5 {
        RecordingKeepsLocked(l.book, a, l.wrongs[n - 1].record, n);
      }
    }
  }

  /** On the ladder the lockouts are kept, whichever calls fail. */
  lemma {:induction false} InvOfRun(attempts: seq<Attempt>)
    requires Sequential(attempts)
    ensures Inv(Entered(attempts)) && forall w :: w in Entered(attempts).wrongs ==> w in attempts
    decreases |attempts|
  {
    if attempts != [] {
      var init, a := attempts[..|attempts| - 1], attempts[|attempts| - 1];
      InvOfRun(init);
      forall i | 0 <= i < |Entered(init).wrongs|
        ensures Entered(init).wrongs[i].record <= a.check
      {
        var w := Entered(init).wrongs[i];
        assert w in init;
        var j :| 0 <= j < |init| && init[j] == w;
        assert attempts[j] == w;
      }
      EnterKeepsInv(Entered(init), a);
      assert attempts == init + [a];
    }
  }

  lemma EnterKeepsExact(l: Ledger, a: Attempt)
    requires Exact(l) && a.check <= a.record && a.f == NO_FAULTS
    ensures Exact(Enter(l, a))
    ensures Evaluated(l.book, a) && !a.right ==> Enter(l, a).wrongs == l.wrongs + [a]
  {
    LockoutLadder(|l.wrongs| + 1);
    if Evaluated(l.book, a) && !a.right { EscapesIff(l.book, a); }
  }

  /** Without a fault the ladder holds every evaluated wrong answer, and the book is the ladder's. */
  lemma {:induction false} BookOfRun(attempts: seq<Attempt>)
    requires Sequential(attempts) && forall i :: 0 <= i < |attempts| ==> attempts[i].f == NO_FAULTS
    ensures Exact(Entered(attempts)) && Entered(attempts).wrongs == WrongsSinceRight(attempts)
    decreases |attempts|
  {
    if attempts != [] {
      var init, a := attempts[..|attempts| - 1], attempts[|attempts| - 1];
      BookOfRun(init);
      EnterKeepsExact(Entered(init), a);
    }
  }

  /** The evaluated wrong answers after the last evaluated right one. */
  function WrongsSinceRight(attempts: seq<Attempt>): seq<Attempt>
    decreases |attempts|
  {
    if attempts == [] then []
    else
      var init, a := attempts[..|attempts| - 1], attempts[|attempts| - 1];
      if !Evaluated(Entered(init).book, a) then WrongsSinceRight(init)
      else if a.right then []
      else WrongsSinceRight(init) + [a]
  }

  ghost predicate RunOut(wrongs: seq<Attempt>, now: int) {
    var n := |wrongs|;
    n <= 5 || (wrongs[n - 1].record + LockoutAfter(n)) / 1_000_000_000 * 1_000_000_000 <= now
  }

  /**
    Where no call has failed, an attempt is evaluated exactly if at most five wrong answers lie since the last right
    one, or the lockout that the last of them opened has run out, to the second.
   */
  lemma EvaluatedIff(attempts: seq<Attempt>, a: Attempt)
    requires Sequential(attempts) && (forall i :: 0 <= i < |attempts| ==> attempts[i].f == NO_FAULTS)
    requires !a.f.readLockout
    ensures Evaluated(Entered(attempts).book, a) <==> RunOut(WrongsSinceRight(attempts), a.check)
  {
    BookOfRun(attempts);
    ExactEvaluates(Entered(attempts), a);
  }

  lemma ExactEvaluates(l: Ledger, a: Attempt)
    requires Exact(l) && !a.f.readLockout
    ensures Evaluated(l.book, a) <==> RunOut(l.wrongs, a.check)
  {
    if |l.wrongs| > 5 {
      var sec := (l.wrongs[|l.wrongs| - 1].record + LockoutAfter(|l.wrongs|)) / SECOND;
      assert l.book.lockedUntil == Value(sec);
      RunsOut(sec, a.check);
    }
  }

  /** A window has run out once its second has been reached. */
  lemma RunsOut(sec: int, now: int)
    ensures RetryDelay(Value(sec), now) <= 0 <==> sec * 1_000_000_000 <= now
  {
  }

  /** With a settings table that takes no writes nothing is counted, and any number of wrong answers is evaluated. */
  lemma {:induction false} FullDiskCountsNothing(attempts: seq<Attempt>)
    requires forall i :: 0 <= i < |attempts| ==> !attempts[i].right && attempts[i].f.writeFailures
    ensures Entered(attempts) == Ledger(CLEAR, []) && WrongsSinceRight(attempts) == attempts
    decreases |attempts|
  {
    if attempts != [] {
      var init, a := attempts[..|attempts| - 1], attempts[|attempts| - 1];
      FullDiskCountsNothing(init);
      assert attempts == init + [a];
    }
  }

  /** Between two right answers, the wait after wrong answer k >= 6 of the ladder exceeds its lockout less a second. */
  lemma WaitAfterWrongAnswer(attempts: seq<Attempt>, k: int)
    requires Sequential(attempts) && 6 <= k < |Entered(attempts).wrongs|
    ensures var wrongs := Entered(attempts).wrongs;
      wrongs[k].check - wrongs[k - 1].record > LockoutAfter(k) - SECOND
  {
    InvOfRun(attempts);
  }

  lemma {:induction false} SpanBound(wrongs: seq<Attempt>, i: nat, j: nat)
    requires Laddered(wrongs) && i <= j < |wrongs|
    ensures j - i + 1 <= 11 + (wrongs[j].check - wrongs[i].check) / (899 * SECOND)
    decreases j
  {
    assert wrongs[i].check <= wrongs[j].check;
    if i < j && 11 <= j {
      SpanBound(wrongs, i, j - 1);
      LockoutLadder(j);
      assert wrongs[j].check - wrongs[j - 1].check > 899 * SECOND;
      var t, t' := wrongs[j - 1].check - wrongs[i].check, wrongs[j].check - wrongs[i].check;
      assert t' >= t + 899 * SECOND;
      assert t' / (899 * SECOND) >= t / (899 * SECOND) + 1;
    }
  }

  /**
    Between two right answers, any span of T admits at most 11 + T/899s wrong answers that do not escape the ladder, of
    either factor.
   */
  lemma ThrottleBound(attempts: seq<Attempt>, i: nat, j: nat)
    requires Sequential(attempts) && i <= j < |Entered(attempts).wrongs|
    ensures var wrongs := Entered(attempts).wrongs;
      j - i + 1 <= 11 + (wrongs[j].check - wrongs[i].check) / (899 * SECOND)
  {
    InvOfRun(attempts);
    SpanBound(Entered(attempts).wrongs, i, j);
  }
}
