/** The PIN rules of the payment controller as pure functions: which text the
    PIN boxes accept, how the source's `parseInt` reads a PIN, and the
    retry-counter / lockout guard that a failed check and the one-second
    countdown move. The controller class applies these step by step. */
module PinPolicy {
  import opened Wrappers

  /** A PIN is exactly this many decimal digits. */
  const PIN_LENGTH: nat := 6
  /** Failed checks allowed before the controller locks. */
  const MAX_RETRIES: nat := 5
  /** Initial and reset value of the lockout countdown, in seconds. */
  const LOCKOUT_SECONDS: nat := 20
  /** The PIN stored for a user who has none yet. */
  const DEFAULT_PIN: string := "123456"

  predicate IsDigit(c: char) {
    '0' <= c <= '9'
  }

  predicate AllDigits(s: string) {
    forall i :: 0 <= i < |s| ==> IsDigit(s[i])
  }

  /** The filter every PIN box applies to a new value: the pattern `^\d*$`
      (ASCII digits only) and at most six characters. A rejected value leaves
      the box unchanged. */
  predicate AcceptsPinInput(value: string) {
    AllDigits(value) && |value| <= PIN_LENGTH
  }

  // ---------------------------------------------------------------------------
  // parseInt(s, 10)
  // ---------------------------------------------------------------------------

  /** The white-space characters `parseInt` skips before the number. */
  predicate IsStrWhiteSpace(c: char) {
    c == ' ' || c == '\t' || c == '\n' || c == '\r' || c == '\U{B}' || c == '\U{C}'
    || c == '\U{A0}' || c == '\U{FEFF}' || c == '\U{2028}' || c == '\U{2029}'
  }

  function TrimStart(s: string): (r: string)
  {
    if |s| > 0 && IsStrWhiteSpace(s[0]) then TrimStart(s[1..]) else s
  }

  /** The longest prefix of `s` made of decimal digits. */
  function DigitPrefix(s: string): (r: string)
    ensures AllDigits(r) && r <= s
    ensures |r| < |s| ==> !IsDigit(s[|r|])
  {
    if |s| > 0 && IsDigit(s[0]) then [s[0]] + DigitPrefix(s[1..]) else []
  }

  function DigitValue(c: char): nat
    requires IsDigit(c)
  {
    (c as int) - ('0' as int)
  }

  /** The number a run of decimal digits denotes (0 for the empty run, the
      base case of the recursion). */
  function DigitsValue(s: string): nat
    requires AllDigits(s)
  {
    if s == [] then 0 else DigitsValue(s[..|s| - 1]) * 10 + DigitValue(s[|s| - 1])
  }

  /** `parseInt(s, 10)`: skip leading white space, read an optional sign and
      then the longest run of digits; `None` stands for NaN (no digit). */
  function ParseInt(s: string): Option<int> {
    var t := TrimStart(s);
    var negative := |t| > 0 && t[0] == '-';
    var unsigned := if |t| > 0 && (t[0] == '-' || t[0] == '+') then t[1..] else t;
    var digits := DigitPrefix(unsigned);
    if digits == [] then None
    else if negative then Some(-(DigitsValue(digits) as int))
    else Some(DigitsValue(digits))
  }

  /** What `handlePinSubmit` captures for its 500 ms timer: both PINs as
      parsed by `parseInt` (`None` for NaN). */
  datatype PinCheck = PinCheck(entered: Option<int>, stored: Option<int>)

  /** The parse `handlePinSubmit` makes before starting the timer; an empty
      stored PIN reads as "0". */
  function Capture(entered: string, stored: string): PinCheck {
    PinCheck(ParseInt(entered), ParseInt(if stored == "" then "0" else stored))
  }

  /** `enteredPinInt === storedPinInt`, under which NaN equals nothing. */
  predicate Matches(c: PinCheck) {
    c.entered.Some? && c.stored.Some? && c.entered.value == c.stored.value
  }

  /** The comparison `handlePinSubmit` makes: the captured values match. */
  predicate PinsMatch(entered: string, stored: string) {
    Matches(Capture(entered, stored))
  }

  lemma {:induction false} DigitPrefixOfDigits(s: string)
    requires AllDigits(s)
    ensures DigitPrefix(s) == s
  {
    if |s| > 0 {
      DigitPrefixOfDigits(s[1..]);
    }
  }

  /** A string of digits parses to the number it denotes. */
  lemma ParseIntOfDigits(s: string)
    requires AllDigits(s) && s != []
    ensures ParseInt(s) == Some(DigitsValue(s))
  {
    assert !IsStrWhiteSpace(s[0]);
    assert TrimStart(s) == s;
    DigitPrefixOfDigits(s);
  }

  lemma LastDigitSplit(x: nat, d: nat, y: nat, e: nat)
    requires d < 10 && e < 10 && x * 10 + d == y * 10 + e
    ensures x == y && d == e
  {
  }

  /** Two digit strings of the same length that denote the same number are
      the same string: the numeric comparison cannot confuse two PINs that
      both passed the six-digit check. */
  lemma {:induction false} DigitsValueInjective(a: string, b: string)
    requires AllDigits(a) && AllDigits(b) && |a| == |b|
    requires DigitsValue(a) == DigitsValue(b)
    ensures a == b
  {
    if a != [] {
      var n := |a| - 1;
      LastDigitSplit(DigitsValue(a[..n]), DigitValue(a[n]), DigitsValue(b[..n]), DigitValue(b[n]));
      DigitsValueInjective(a[..n], b[..n]);
      assert a == a[..n] + [a[n]] && b == b[..n] + [b[n]];
    }
  }

  /** For two PINs that passed the length check the numeric comparison is
      plain string equality, the comparison the PIN change uses. */
  lemma SixDigitPinsMatchExactly(entered: string, stored: string)
    requires AcceptsPinInput(entered) && |entered| == PIN_LENGTH
    requires AcceptsPinInput(stored) && |stored| == PIN_LENGTH
    ensures PinsMatch(entered, stored) <==> entered == stored
  {
    ParseIntOfDigits(entered);
    ParseIntOfDigits(stored);
    if PinsMatch(entered, stored) {
      DigitsValueInjective(entered, stored);
    }
  }

  /** A stored PIN that did not come through the six-digit filter (one placed
      in browser storage by other means) can be matched by a different entry:
      the two comparison policies then disagree. */
  lemma NumericMatchIgnoresLeadingZeros()
    ensures PinsMatch("012345", "12345") && "012345" != "12345"
  {
    assert "012345" == "0" + "12345";
    LeadingZeroKeepsValue("12345");
    ParseIntOfDigits("012345");
    ParseIntOfDigits("12345");
  }

  lemma {:induction false} LeadingZeroKeepsValue(s: string)
    requires AllDigits(s)
    ensures AllDigits("0" + s) && DigitsValue("0" + s) == DigitsValue(s)
  {
    if s != [] {
      var n := |s| - 1;
      assert ("0" + s)[..|s|] == "0" + s[..n];
      LeadingZeroKeepsValue(s[..n]);
    }
  }

  // ---------------------------------------------------------------------------
  // The retry-counter / lockout guard
  // ---------------------------------------------------------------------------

  /** The error banner the controller shows; each case stands for one message
      text of the source. */
  datatype AuthError =
    | PinLengthWrong                    // 'PIN must be 6 digits'
    | PinsDiffer                        // 'PINs do not match'
    | CurrentPinIncorrect               // 'Current PIN is incorrect'
    | TooManyAttempts(waitSeconds: nat) // 'Too many failed attempts. Please wait N seconds ...'
    | InvalidPin(attemptsLeft: int)     // 'Invalid PIN. N attempts remaining.'

  /** The three fields that decide whether PIN entry is locked. */
  datatype Guard = Guard(retryCount: nat, isLocked: bool, lockoutTime: nat)

  /** A fresh session: no failure yet, unlocked, full countdown. */
  const FRESH: Guard := Guard(0, false, LOCKOUT_SECONDS)

  /** A failed comparison: one more failure; locks once the count reaches
      the maximum; the countdown is untouched. */
  function AfterMismatch(g: Guard): (r: Guard)
    ensures r.retryCount == g.retryCount + 1 && r.lockoutTime == g.lockoutTime
    ensures r.isLocked <==> g.isLocked || g.retryCount + 1 >= MAX_RETRIES
  {
    var n := g.retryCount + 1;
    if n >= MAX_RETRIES then g.(retryCount := n, isLocked := true) else g.(retryCount := n)
  }

  /** The banner a failed comparison raises: the wait, with the countdown as
      it stands, once the new count reaches the maximum, and the attempts
      left (at least one) before that. */
  function MismatchError(g: Guard): (e: AuthError)
    ensures e.TooManyAttempts? <==> g.retryCount + 1 >= MAX_RETRIES
    ensures e.TooManyAttempts? ==> e.waitSeconds == g.lockoutTime
    ensures e.InvalidPin? ==> 0 < e.attemptsLeft == MAX_RETRIES - (g.retryCount + 1)
    ensures e.TooManyAttempts? || e.InvalidPin?
  {
    var n := g.retryCount + 1;
    if n >= MAX_RETRIES then TooManyAttempts(g.lockoutTime) else InvalidPin(MAX_RETRIES - n)
  }

  /** A successful comparison forgets the earlier failures and touches
      neither the lock nor the countdown. */
  function AfterMatch(g: Guard): (r: Guard)
    ensures r.retryCount == 0 && r.isLocked == g.isLocked && r.lockoutTime == g.lockoutTime
  {
    g.(retryCount := 0)
  }

  /** The countdown effect, run whenever `isLocked` or `lockoutTime` changes:
      at zero it unlocks, restores the full countdown and zeroes the
      counter; otherwise it does nothing. */
  function LockoutEffect(g: Guard): (r: Guard)
    ensures g.lockoutTime == 0 ==> r == FRESH
    ensures g.lockoutTime > 0 ==> r == g
  {
    if g.isLocked && g.lockoutTime > 0 then g
    else if g.lockoutTime == 0 then FRESH
    else g
  }

  /** One second of the countdown interval (which runs only while locked with
      time left), followed by the effect the change triggers: a lock with
      more than one second left loses one, a lock on its last second (or an
      exhausted countdown) resets, and an unlocked guard with time left is
      untouched. */
  function AfterTick(g: Guard): (r: Guard)
    ensures g.isLocked && g.lockoutTime > 1 ==> r == g.(lockoutTime := g.lockoutTime - 1)
    ensures g.lockoutTime == 0 || (g.isLocked && g.lockoutTime == 1) ==> r == FRESH
    ensures !g.isLocked && g.lockoutTime > 0 ==> r == g
  {
    LockoutEffect(if g.isLocked && g.lockoutTime > 0 then g.(lockoutTime := g.lockoutTime - 1) else g)
  }

  function Mismatches(g: Guard, n: nat): Guard {
    if n == 0 then g else AfterMismatch(Mismatches(g, n - 1))
  }

  function Ticks(g: Guard, n: nat): Guard {
    if n == 0 then g else AfterTick(Ticks(g, n - 1))
  }

  /** From an unlocked guard with no failures, `n` failed comparisons in a row
      leave the count at `n` and lock exactly when `n` reaches the maximum;
      the `n`-th failure reports the attempts left, or the wait once locked. */
  lemma {:induction false} ConsecutiveMismatches(g: Guard, n: nat)
    requires g.retryCount == 0 && !g.isLocked
    ensures Mismatches(g, n).retryCount == n
    ensures Mismatches(g, n).isLocked <==> n >= MAX_RETRIES
    ensures Mismatches(g, n).lockoutTime == g.lockoutTime
    ensures n > 0 ==> MismatchError(Mismatches(g, n - 1))
                      == if n >= MAX_RETRIES then TooManyAttempts(g.lockoutTime) else InvalidPin(MAX_RETRIES - n)
  {
    if n > 0 {
      ConsecutiveMismatches(g, n - 1);
    }
  }

  /** A lock with `t` seconds left stays locked for `t - 1` ticks, counting
      down one per tick; the `t`-th tick unlocks it, zeroes the counter and
      restores the full countdown. */
  lemma {:induction false} LockoutCountdown(g: Guard, n: nat)
    requires g.isLocked && 0 < g.lockoutTime
    requires n <= g.lockoutTime
    ensures n < g.lockoutTime ==> Ticks(g, n) == g.(lockoutTime := g.lockoutTime - n)
    ensures n == g.lockoutTime ==> Ticks(g, n) == FRESH
  {
    if n > 0 {
      LockoutCountdown(g, n - 1);
    }
  }

  /** Five wrong entries of "000000" against the default PIN lock the session
      with a 20-second countdown; it unlocks, with the counter cleared, after
      exactly 20 ticks. */
  lemma FiveWrongPinsLockForTwentySeconds()
    ensures !PinsMatch("000000", DEFAULT_PIN)
    ensures Mismatches(FRESH, 5) == Guard(5, true, 20)
    ensures MismatchError(Mismatches(FRESH, 4)) == TooManyAttempts(20)
    ensures Ticks(Mismatches(FRESH, 5), 19).isLocked
    ensures Ticks(Mismatches(FRESH, 5), 20) == FRESH
  {
    SixDigitPinsMatchExactly("000000", DEFAULT_PIN);
    ConsecutiveMismatches(FRESH, 5);
    LockoutCountdown(Mismatches(FRESH, 5), 19);
    LockoutCountdown(Mismatches(FRESH, 5), 20);
  }
}
