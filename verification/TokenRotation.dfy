/**
 When the adapter token is reused and when it is replaced. Times are integer
 nanoseconds; the stored expiry is formatted per section 5.6 of RFC 3339, which
 here only means that it loses its fraction of a second.
 */
module TokenRotation {
  import opened Kube

  const SECOND: int := 1_000_000_000
  const LIFETIME: int := 24 * 3600 * SECOND

  /** time.Duration(float64(24h) * 0.2): 4h48m, a whole number of seconds. */
  const ROTATION_BUFFER: int := 4 * 3600 * SECOND + 48 * 60 * SECOND

  lemma BufferIsOneFifth()
    ensures ROTATION_BUFFER * 5 == LIFETIME && ROTATION_BUFFER % SECOND == 0
  {
  }

  datatype Token = Token(value: string, expiry: int)

  function Truncate(t: int): (r: int)
    ensures r <= t < r + SECOND && r % SECOND == 0
  {
    t / SECOND * SECOND
  }

  predicate Reusable(existing: Option<Token>, now: int) {
    existing.Some? && existing.value.expiry - now > ROTATION_BUFFER
  }

  /** resolveAdapterToken followed by the Secret write: what the Secret then holds. */
  function Rotate(existing: Option<Token>, now: int, issued: Token): Token {
    var chosen := if Reusable(existing, now) then existing.value else issued;
    chosen.(expiry := Truncate(chosen.expiry))
  }

  /**
   A token is kept exactly while more than 4 hours and 48 minutes are left of it; stored expiries
   lose their fraction of a second.
   */
  lemma RotateExactly(existing: Option<Token>, now: int, issued: Token)
    ensures var kept := existing.Some? && existing.value.expiry > now + 17280 * 1_000_000_000;
      var chosen, stored := if kept then existing.value else issued, Rotate(existing, now, issued);
      && stored.value == chosen.value
      && stored.expiry % 1_000_000_000 == 0 && stored.expiry <= chosen.expiry < stored.expiry + 1_000_000_000
  {
  }

  /**
   One adapter pass: when it looked at the clock, whether it could read the Secret, when (and
   whether) it wrote it.
   */
  datatype Attempt = Attempt(looked: int, readFailed: bool, wrote: Option<int>, issued: Token)

  function After(held: Option<Token>, a: Attempt): Option<Token> {
    if a.wrote.Some? then Some(Rotate(if a.readFailed then None else held, a.looked, a.issued)) else held
  }

  /** What the Secret holds after the first n attempts. */
  function Held(initial: Option<Token>, attempts: seq<Attempt>, n: nat): Option<Token>
    requires n <= |attempts|
  {
    if n == 0 then initial else After(Held(initial, attempts, n - 1), attempts[n - 1])
  }

  ghost predicate Ordered(attempts: seq<Attempt>) {
    && (forall i :: 0 <= i < |attempts| && attempts[i].wrote.Some? ==> attempts[i].looked <= attempts[i].wrote.value)
    && (forall i, j :: 0 <= i < j < |attempts| ==> attempts[i].looked <= attempts[j].looked)
    && (forall i, j :: 0 <= i < j < |attempts| && attempts[i].wrote.Some? ==>
      attempts[i].wrote.value <= attempts[j].looked)
  }

  /** Issued tokens outlast the buffer by a second. */
  ghost predicate Generous(attempts: seq<Attempt>) {
    forall i :: 0 <= i < |attempts| ==> attempts[i].issued.expiry >= attempts[i].looked + ROTATION_BUFFER + SECOND
  }

  /** No attempt strictly between i and n wrote the Secret. */
  ghost predicate LastWrite(attempts: seq<Attempt>, i: nat, n: nat)
    requires i < n <= |attempts|
  {
    attempts[i].wrote.Some? && forall j :: i < j < n ==> attempts[j].wrote.None?
  }

  /** Writes follow each other closely enough: from one look at the clock to the end of the next write. */
  ghost predicate WithinBuffer(attempts: seq<Attempt>, gap: int) {
    forall i, j :: 0 <= i < j < |attempts| && LastWrite(attempts, i, j) && attempts[j].wrote.Some? ==>
      attempts[j].wrote.value - attempts[i].looked <= gap
  }

  /** The Secret was last written by this code, which stores whole seconds only. */
  predicate Whole(held: Option<Token>) {
    held.Some? ==> held.value.expiry % SECOND == 0
  }

  lemma WholeTruncates(t: int)
    requires t % SECOND == 0
    ensures Truncate(t) == t
  {
  }

  lemma {:induction false} HeldWhole(initial: Option<Token>, attempts: seq<Attempt>, n: nat)
    requires n <= |attempts| && Whole(initial)
    ensures Whole(Held(initial, attempts, n))
  {
    if n > 0 {
      HeldWhole(initial, attempts, n - 1);
    }
  }

  lemma {:induction false} HeldSinceWrite(initial: Option<Token>, attempts: seq<Attempt>, i: nat, n: nat)
    requires i < n <= |attempts| && LastWrite(attempts, i, n) && Generous(attempts) && Whole(initial)
    ensures Held(initial, attempts, n).Some?
    ensures Held(initial, attempts, n).value.expiry > attempts[i].looked + ROTATION_BUFFER
  {
    if n == i + 1 {
      var held, a := Held(initial, attempts, i), attempts[i];
      HeldWhole(initial, attempts, i);
      if Reusable(held, a.looked) {
        WholeTruncates(held.value.expiry);
      }
    } else {
      assert attempts[n - 1].wrote.None?;
      HeldSinceWrite(initial, attempts, i, n - 1);
    }
  }

  /**
   The bound: if each write ends within the rotation buffer of the previous writer's look
   at the clock, then from the first write on the Secret never holds an expired token,
   up to and including the instant it is replaced.
   */
  lemma NeverExpired(initial: Option<Token>, attempts: seq<Attempt>, i: nat, n: nat, at: int)
    requires Ordered(attempts) && Generous(attempts) && WithinBuffer(attempts, ROTATION_BUFFER) && Whole(initial)
    requires i < n < |attempts| && LastWrite(attempts, i, n)
    requires attempts[n].wrote.Some? && at <= attempts[n].wrote.value
    ensures Held(initial, attempts, n).Some? && Held(initial, attempts, n).value.expiry > at
  {
    HeldSinceWrite(initial, attempts, i, n);
  }

  /** The bound is tight: any longer gap admits a run in which the token has expired by the next write. */
  lemma GapTight(gap: int) returns (attempts: seq<Attempt>)
    requires gap > ROTATION_BUFFER
    ensures |attempts| == 2 && Ordered(attempts) && Generous(attempts) && WithinBuffer(attempts, gap)
    ensures LastWrite(attempts, 0, 1) && attempts[1].wrote.Some?
    ensures Held(None, attempts, 1).value.expiry <= attempts[1].wrote.value
  {
    var look := SECOND - 1;
    var first := Attempt(look, false, Some(look), Token("t", look + ROTATION_BUFFER + SECOND));
    var next := Attempt(look + gap, false, Some(look + gap), Token("u", look + gap + ROTATION_BUFFER + SECOND));
    attempts := [first, next];
    assert Held(None, attempts, 0) == None;
    assert Held(None, attempts, 1) == Some(Rotate(None, look, first.issued));
    BufferIsOneFifth();
    WholeTruncates(SECOND + ROTATION_BUFFER);
  }

  /** So is the second of margin: one nanosecond less and a gap of exactly the buffer is too long. */
  lemma MarginTight() returns (attempts: seq<Attempt>)
    ensures |attempts| == 2 && Ordered(attempts) && WithinBuffer(attempts, ROTATION_BUFFER)
    ensures forall i :: 0 <= i < 2 ==> attempts[i].issued.expiry >= attempts[i].looked + ROTATION_BUFFER + SECOND - 1
    ensures LastWrite(attempts, 0, 1) && attempts[1].wrote.Some?
    ensures Held(None, attempts, 1).value.expiry <= attempts[1].wrote.value
  {
    var first := Attempt(0, false, Some(0), Token("t", ROTATION_BUFFER + SECOND - 1));
    var next := Attempt(ROTATION_BUFFER, false, Some(ROTATION_BUFFER), Token("u", 2 * ROTATION_BUFFER + SECOND - 1));
    attempts := [first, next];
    assert Held(None, attempts, 0) == None;
    assert Held(None, attempts, 1) == Some(Rotate(None, 0, first.issued));
    BufferIsOneFifth();
    WholeTruncates(ROTATION_BUFFER);
  }
}
