/**
 * The extension's lock and its timeout (extension/src/lock.ts), each operation
 * as the writes it makes in order. Key derivation is any function that tells
 * secrets apart under one salt; salts and keys are kept as base64url text.
 */
module Lock {
  import opened Names
  import opened Base64Url
  import opened ExtensionStore

  type Derive = (string, seq<byte>, nat) -> seq<byte>

  ghost predicate TellsApart(derive: Derive) {
    forall salt, n, a, b :: derive(a, salt, n) == derive(b, salt, n) ==> a == b
  }

  const ITERATIONS: nat := 600_000
  const MAX_FAILURES: nat := 5
  const THROTTLE: int := 30_000

  /** A token a caller may use: JavaScript takes an empty one for none. */
  predicate Usable(token: Option<string>) { token.Some? && token.value != "" }

  /* ---- The timeout ---- */

  function TimeoutDue(s: Store, now: int): Option<TimeoutAction> {
    var (minutes, action) := EffectiveSettings(s);
    var limit := minutes * 60_000;
    if minutes <= 0 then None
    else if action.LockIt? then
      if s.lock.Some? && s.unlocked.Some? && now - s.unlocked.value.lastActive > limit then Some(LockIt) else None
    else if s.pairing.Some? && s.lastActive.Some? && now - s.lastActive.value > limit then Some(SignOut)
    else None
  }

  function NoteActivity(s: Store, now: int): seq<Write> {
    if s.lastActive.None? || now - s.lastActive.value > THROTTLE then [SetLastActive(now)] else []
  }

  function LockIfIdle(s: Store, now: int): seq<Write> {
    if TimeoutDue(s, now) == Some(LockIt) then [SetUnlocked(None)] else []
  }

  /** used says that the call counted as a use of Helm. */
  datatype TokenResult = TokenResult(token: Option<string>, writes: seq<Write>, used: bool)

  function CurrentToken(s: Store, now: int, touch: bool): TokenResult {
    var idle := LockIfIdle(s, now);
    var t := ApplyAll(s, idle);
    if TimeoutDue(s, now) == Some(SignOut) then TokenResult(None, idle, false)
    else if t.lock.None? then
      var token := if t.pairing.Some? then Some(t.pairing.value.token) else None;
      if Usable(token) && touch then TokenResult(token, idle + NoteActivity(t, now), true) else TokenResult(token, idle, false)
    else if t.unlocked.None? then TokenResult(None, idle, false)
    else if touch then
      TokenResult(Some(t.unlocked.value.token), idle + [SetUnlocked(Some(t.unlocked.value.(lastActive := now)))] + NoteActivity(t, now), true)
    else TokenResult(Some(t.unlocked.value.token), idle, false)
  }

  function TokenForSignOut(s: Store): Option<string> {
    if s.lock.None? then (if s.pairing.Some? then Some(s.pairing.value.token) else None)
    else if s.unlocked.Some? then Some(s.unlocked.value.token) else None
  }

  /* ---- The lock ---- */

  function Seal(key: seq<byte>, token: string, salt: string, iterations: nat): Sealed {
    Sealed(salt, Box(key, token), iterations)
  }

  function OpenBox(box: Box, key: seq<byte>): Option<string> {
    if box.key == key then Some(box.token) else None
  }

  /** The key of a secret for a stored salt; None is a salt that is not base64url. */
  function KeyFor(derive: Derive, secret: string, salt: string, iterations: nat): Option<seq<byte>> {
    var raw := Decode(salt);
    if raw.Some? then Some(derive(secret, raw.value, iterations)) else None
  }

  function NewLock(derive: Derive, how: LockMethod, secret: string, salt: seq<byte>, token: string): LockConfig {
    var text := Encode(salt);
    LockConfig(how, None, 0, Seal(KeyOr(KeyFor(derive, secret, text, ITERATIONS)), token, text, ITERATIONS))
  }

  function KeyOr(k: Option<seq<byte>>): seq<byte> { if k.Some? then k.value else [] }

  /** ok is false where the source throws: nothing to lock. */
  datatype EnableResult = EnableResult(ok: bool, writes: seq<Write>, used: bool)

  function Enable(derive: Derive, s: Store, now: int, how: LockMethod, secret: string, salt: seq<byte>): EnableResult {
    var current := CurrentToken(s, now, true);
    if !Usable(current.token) || s.pairing.None? then EnableResult(false, current.writes, current.used)
    else
      var lock := NewLock(derive, how, secret, salt, current.token.value);
      EnableResult(true, current.writes + LockWrites(lock, now, s.pairing.value), current.used)
  }

  /** The plain token goes from the pairing last. */
  function LockWrites(lock: LockConfig, now: int, pairing: Pairing): seq<Write> {
    [SetLock(Some(lock)),
     SetUnlocked(Some(Unlocked(lock.sealed.box.token, Encode(lock.sealed.box.key), now))),
     SetPairing(pairing.(token := ""))]
  }

  datatype UnlockResult = Opened | Wrong | Forgotten | Threw

  function Unlock(derive: Derive, s: Store, now: int, secret: string): (UnlockResult, seq<Write>) {
    if s.lock.None? then (Opened, [])
    else
      var lock := s.lock.value;
      var key := KeyFor(derive, secret, lock.sealed.salt, lock.sealed.iterations);
      if key.None? then (Threw, [])
      else if OpenBox(lock.sealed.box, key.value).None? then
        if lock.failures + 1 >= MAX_FAILURES then (Forgotten, ClearPairing())
        else (Wrong, [SetLock(Some(lock.(failures := lock.failures + 1)))])
      else
        (Opened, [SetLock(Some(lock.(failures := 0))),
                     SetUnlocked(Some(Unlocked(OpenBox(lock.sealed.box, key.value).value, Encode(key.value), now)))])
  }

  function Disable(derive: Derive, s: Store, now: int, secret: string): (UnlockResult, seq<Write>) {
    var (result, writes) := Unlock(derive, s, now, secret);
    if !result.Opened? then (result, writes)
    else
      (Opened, writes + PutBack(ApplyAll(s, writes)))
  }

  /** The plain token goes back into the pairing before the lock goes. */
  function PutBack(t: Store): seq<Write> {
    (if t.pairing.Some? && t.unlocked.Some? then [SetPairing(t.pairing.value.(token := t.unlocked.value.token))] else [])
    + [SetLock(None), SetUnlocked(None)]
  }

  /** A renewed token; sealed again under the key waiting in session storage. */
  function ReplaceToken(s: Store, token: string, expiresAt: int): seq<Write> {
    if s.pairing.None? then []
    else if s.lock.None? then [SetPairing(s.pairing.value.(token := token, expiresAt := expiresAt))]
    else if s.unlocked.None? || Decode(s.unlocked.value.key).None? then []
    else
      var lock := s.lock.value;
      [SetLock(Some(lock.(sealed := Seal(Decode(s.unlocked.value.key).value, token, lock.sealed.salt, lock.sealed.iterations)))),
       SetUnlocked(Some(s.unlocked.value.(token := token))),
       SetPairing(s.pairing.value.(expiresAt := expiresAt))]
  }

  function ClearLock(): seq<Write> { [SetLock(None), SetUnlocked(None)] }

  /* ---- Where the token is ---- */

  /** The stored lock gives back this token to this secret. */
  ghost predicate OpensTo(derive: Derive, lock: LockConfig, secret: string, token: string) {
    var key := KeyFor(derive, secret, lock.sealed.salt, lock.sealed.iterations);
    key.Some? && lock.sealed.box == Box(key.value, token)
  }

  /** The token can be had again: from the sealed copy when a lock is stored, from the pairing when none is. */
  ghost predicate Recoverable(derive: Derive, s: Store, secret: string, token: string) {
    s.pairing.Some? && if s.lock.Some? then OpensTo(derive, s.lock.value, secret, token) else s.pairing.value.token == token
  }

  /** An unlocked record belongs to the lock: its key opens the sealed copy to exactly its token. */
  ghost predicate UnlockedMatches(s: Store) {
    s.unlocked.Some? ==>
      && s.lock.Some?
      && Decode(s.unlocked.value.key).Some?
      && OpenBox(s.lock.value.sealed.box, Decode(s.unlocked.value.key).value) == Some(s.unlocked.value.token)
  }

  lemma NewLockOpens(derive: Derive, how: LockMethod, secret: string, salt: seq<byte>, token: string)
    ensures OpensTo(derive, NewLock(derive, how, secret, salt, token), secret, token)
  {
    RoundTrip(salt);
  }

  /** Only the secret it was made with opens a lock: the right one always, any other never. */
  lemma OnlyTheSecretOpens(derive: Derive, s: Store, now: int, secret: string, token: string, tried: string)
    requires TellsApart(derive) && s.lock.Some? && OpensTo(derive, s.lock.value, secret, token)
    ensures Unlock(derive, s, now, tried).0.Opened? <==> tried == secret
    ensures tried == secret ==> var t := ApplyAll(s, Unlock(derive, s, now, tried).1);
      t.unlocked.Some? && t.unlocked.value.token == token && t.lock.Some? && OpensTo(derive, t.lock.value, secret, token)
  {
    Steps(s, Unlock(derive, s, now, tried).1);
  }

  /* ---- Stopping part-way, with session storage emptied ---- */

  /** What is left when an operation's first k writes have happened and the browser then closed. */
  function CrashAfter(s: Store, writes: seq<Write>, k: nat): Store
    requires k <= |writes|
  {
    Closed(After(s, writes, k))
  }

  /** Handing out a token changes nothing but the clocks, and may lock. */
  ghost predicate SameButClocks(s: Store, t: Store) {
    && t == s.(lastActive := t.lastActive, unlocked := t.unlocked)
    && (t.unlocked.Some? ==> s.unlocked.Some? && t.unlocked.value == s.unlocked.value.(lastActive := t.unlocked.value.lastActive))
  }

  lemma CurrentTokenKeeps(s: Store, now: int, touch: bool, k: nat)
    requires k <= |CurrentToken(s, now, touch).writes|
    ensures SameButClocks(s, After(s, CurrentToken(s, now, touch).writes, k))
  {
    Steps(s, LockIfIdle(s, now));
    Steps(s, CurrentToken(s, now, touch).writes);
    assert |CurrentToken(s, now, touch).writes| <= 3;
  }

  lemma LockStored(derive: Derive, t: Store, lock: LockConfig, now: int, p: Pairing, secret: string, token: string, j: nat)
    requires 1 <= j <= 3 && t.pairing.Some? && OpensTo(derive, lock, secret, token)
    ensures Recoverable(derive, CrashAfter(t, LockWrites(lock, now, p), j), secret, token)
  {
    LockWritesAfter(t, lock, now, p, j);
  }

  lemma CrashInConcat(s: Store, a: seq<Write>, b: seq<Write>, k: nat)
    requires k <= |a + b|
    ensures CrashAfter(s, a + b, k) == if k <= |a| then CrashAfter(s, a, k) else CrashAfter(ApplyAll(s, a), b, k - |a|)
  {
    if k <= |a| { AfterFirst(s, a, b, k); } else { AfterBoth(s, a, b, k - |a|); }
  }

  /**
   * Turning the lock on, stopped after any of its writes: the token is still
   * to be had, with the old secret until the new lock is stored and with the
   * new secret from then on.
   */
  lemma EnableIsCrashSafe(derive: Derive, s: Store, now: int, how: LockMethod, secret: string, salt: seq<byte>,
                          before: string, token: string, k: nat)
    requires Recoverable(derive, s, before, token) && UnlockedMatches(s)
    requires k <= |Enable(derive, s, now, how, secret, salt).writes|
    ensures var e := Enable(derive, s, now, how, secret, salt);
      var stored := |CurrentToken(s, now, true).writes| + 1;
      Recoverable(derive, CrashAfter(s, e.writes, k), if k < stored then before else secret, token)
  {
    var e, current := Enable(derive, s, now, how, secret, salt), CurrentToken(s, now, true);
    var n := |current.writes|;
    if k <= n {
      TokenInterrupted(derive, s, now, before, token, k);
      if e.ok {
        CrashInConcat(s, current.writes, LockWrites(NewLock(derive, how, secret, salt, current.token.value), now, s.pairing.value), k);
      }
    } else {
      TokenIsTheOne(derive, s, now, true, before, token);
      var lock := NewLock(derive, how, secret, salt, token);
      CrashInConcat(s, current.writes, LockWrites(lock, now, s.pairing.value), k);
      CurrentTokenKeeps(s, now, true, n);
      NewLockOpens(derive, how, secret, salt, token);
      LockStored(derive, ApplyAll(s, current.writes), lock, now, s.pairing.value, secret, token, k - n);
    }
  }

  /** Whatever the extension hands out as the token is the one that is recoverable. */
  lemma TokenIsTheOne(derive: Derive, s: Store, now: int, touch: bool, secret: string, token: string)
    requires Recoverable(derive, s, secret, token) && UnlockedMatches(s)
    ensures var r := CurrentToken(s, now, touch).token; r.Some? ==> r.value == token
  {
    Steps(s, LockIfIdle(s, now));
  }

  lemma UnlockKeeps(derive: Derive, s: Store, now: int, secret: string, token: string)
    requires Recoverable(derive, s, secret, token)
    requires s.lock.None? ==> s.unlocked.None?
    ensures var (result, writes) := Unlock(derive, s, now, secret);
      var t := ApplyAll(s, writes);
      && result.Opened? && |writes| <= 2
      && (forall k :: 0 <= k <= |writes| ==> Recoverable(derive, After(s, writes, k), secret, token))
      && t.pairing == s.pairing
      && (t.lock.Some? ==> t.unlocked.Some? && t.unlocked.value.token == token)
      && (t.lock.None? ==> t.unlocked.None?)
  {
    Steps(s, Unlock(derive, s, now, secret).1);
  }

  lemma TokenPutBack(derive: Derive, t: Store, secret: string, token: string, j: nat)
    requires Recoverable(derive, t, secret, token)
    requires t.lock.Some? ==> t.unlocked.Some? && t.unlocked.value.token == token
    requires t.lock.None? ==> t.unlocked.None?
    requires j <= |PutBack(t)|
    ensures Recoverable(derive, CrashAfter(t, PutBack(t), j), secret, token)
  {
    Steps(t, PutBack(t));
  }

  /** Turning it off with the right secret, stopped after any of its writes, leaves the token to be had with that secret. */
  lemma DisableIsCrashSafe(derive: Derive, s: Store, now: int, secret: string, token: string, k: nat)
    requires Recoverable(derive, s, secret, token)
    requires s.lock.None? ==> s.unlocked.None?
    requires k <= |Disable(derive, s, now, secret).1|
    ensures Disable(derive, s, now, secret).0.Opened?
    ensures Recoverable(derive, CrashAfter(s, Disable(derive, s, now, secret).1, k), secret, token)
  {
    var first := Unlock(derive, s, now, secret).1;
    UnlockKeeps(derive, s, now, secret, token);
    var rest := PutBack(ApplyAll(s, first));
    if k <= |first| {
      AfterFirst(s, first, rest, k);
    } else {
      AfterBoth(s, first, rest, k - |first|);
      TokenPutBack(derive, ApplyAll(s, first), secret, token, k - |first|);
    }
  }

  /**
   * Storing a renewed token: before the first write the old token is the one
   * stored, after it the new one, whichever write the stop comes after. Helm
   * ends the old token as it makes the new one, so stopping before the first
   * write, and only there, loses the token Helm accepts.
   */
  lemma ReplaceIsCrashSafe(derive: Derive, s: Store, secret: string, token: string, renewed: string, expiresAt: int, k: nat)
    requires Recoverable(derive, s, secret, token) && UnlockedMatches(s)
    requires s.lock.Some? ==> s.unlocked.Some?
    requires k <= |ReplaceToken(s, renewed, expiresAt)|
    ensures |ReplaceToken(s, renewed, expiresAt)| >= 1
    ensures Recoverable(derive, CrashAfter(s, ReplaceToken(s, renewed, expiresAt), k), secret, if k == 0 then token else renewed)
    ensures renewed != token ==>
      (Recoverable(derive, CrashAfter(s, ReplaceToken(s, renewed, expiresAt), k), secret, renewed) <==> k >= 1)
  {
    Steps(s, ReplaceToken(s, renewed, expiresAt));
  }

  /* ---- Stopping part-way, with session storage kept ---- */

  /** The page closes or the worker stops: what is stored gives the token, and so does what is unlocked. */
  ghost predicate Intact(derive: Derive, s: Store, secret: string, token: string) {
    && Recoverable(derive, s, secret, token)
    && (s.lock.Some? && s.unlocked.Some? ==>
          s.unlocked.value.token == token && Decode(s.unlocked.value.key) == Some(s.lock.value.sealed.box.key))
  }

  lemma LockWritesAfter(t: Store, lock: LockConfig, now: int, p: Pairing, j: nat)
    requires 1 <= j <= 3
    ensures After(t, LockWrites(lock, now, p), j) ==
      t.(lock := Some(lock),
         unlocked := if j >= 2 then Some(Unlocked(lock.sealed.box.token, Encode(lock.sealed.box.key), now)) else t.unlocked,
         pairing := if j >= 3 then Some(p.(token := "")) else t.pairing)
  {
    Steps(t, LockWrites(lock, now, p));
  }

  lemma LockingInterrupted(derive: Derive, t: Store, lock: LockConfig, now: int, secret: string, token: string, j: nat)
    requires t.pairing.Some? && 1 <= j <= 3 && OpensTo(derive, lock, secret, token)
    requires t.unlocked.Some? ==> Decode(t.unlocked.value.key) != Some(lock.sealed.box.key)
    ensures Intact(derive, After(t, LockWrites(lock, now, t.pairing.value), j), secret, token) <==> (j != 1 || t.unlocked.None?)
  {
    LockWritesAfter(t, lock, now, t.pairing.value, j);
    RoundTrip(lock.sealed.box.key);
  }

  lemma TokenInterrupted(derive: Derive, s: Store, now: int, secret: string, token: string, k: nat)
    requires Recoverable(derive, s, secret, token) && UnlockedMatches(s)
    requires k <= |CurrentToken(s, now, true).writes|
    ensures Intact(derive, After(s, CurrentToken(s, now, true).writes, k), secret, token)
  {
    CurrentTokenKeeps(s, now, true, k);
  }

  /**
   * Turning a lock on keeps the token intact at every write but one: where a
   * lock was on already, the new lock stored and the unlocked record still
   * the old one's. Its key differs, the salt being drawn afresh.
   */
  lemma EnableInterrupted(derive: Derive, s: Store, now: int, how: LockMethod, secret: string, salt: seq<byte>,
                          before: string, token: string, k: nat)
    requires Recoverable(derive, s, before, token) && UnlockedMatches(s)
    requires s.lock.Some? ==> KeyFor(derive, secret, Encode(salt), ITERATIONS) != Some(s.lock.value.sealed.box.key)
    requires var e := Enable(derive, s, now, how, secret, salt); e.ok && k <= |e.writes|
    ensures var e := Enable(derive, s, now, how, secret, salt);
      var n := |CurrentToken(s, now, true).writes|;
      Intact(derive, After(s, e.writes, k), if k <= n then before else secret, token) <==> !(k == n + 1 && s.lock.Some?)
  {
    var c := CurrentToken(s, now, true);
    var n := |c.writes|;
    TokenIsTheOne(derive, s, now, true, before, token);
    var lock := NewLock(derive, how, secret, salt, token);
    if k <= n {
      AfterFirst(s, c.writes, LockWrites(lock, now, s.pairing.value), k);
      TokenInterrupted(derive, s, now, before, token, k);
    } else {
      AfterBoth(s, c.writes, LockWrites(lock, now, s.pairing.value), k - n);
      NewLockOpens(derive, how, secret, salt, token);
      LockingAfterToken(derive, s, now, lock, secret, token, k - n);
    }
  }

  lemma LockingAfterToken(derive: Derive, s: Store, now: int, lock: LockConfig, secret: string, token: string, j: nat)
    requires s.pairing.Some? && UnlockedMatches(s) && CurrentToken(s, now, true).token.Some? && 1 <= j <= 3
    requires OpensTo(derive, lock, secret, token)
    requires s.lock.Some? ==> lock.sealed.box.key != s.lock.value.sealed.box.key
    ensures var t := ApplyAll(s, CurrentToken(s, now, true).writes);
      Intact(derive, After(t, LockWrites(lock, now, s.pairing.value), j), secret, token) <==> !(j == 1 && s.lock.Some?)
  {
    CurrentTokenKeeps(s, now, true, |CurrentToken(s, now, true).writes|);
    UnlockedWhileOn(s, now);
    LockingInterrupted(derive, ApplyAll(s, CurrentToken(s, now, true).writes), lock, now, secret, token, j);
  }

  /** After a token was handed out there is an unlocked record exactly where there is a lock. */
  lemma UnlockedWhileOn(s: Store, now: int)
    requires UnlockedMatches(s) && CurrentToken(s, now, true).token.Some?
    ensures var t := ApplyAll(s, CurrentToken(s, now, true).writes);
      && (t.unlocked.Some? <==> s.lock.Some?)
      && (s.lock.Some? ==> s.unlocked.Some? && t.unlocked.value.key == s.unlocked.value.key)
  {
    Steps(s, LockIfIdle(s, now));
    Steps(s, CurrentToken(s, now, true).writes);
  }

  lemma PuttingBackInterrupted(derive: Derive, t: Store, secret: string, token: string, j: nat)
    requires Recoverable(derive, t, secret, token) && UnlockedMatches(t)
    requires t.lock.Some? ==> t.unlocked.Some? && t.unlocked.value.token == token
    requires j <= |PutBack(t)|
    ensures Intact(derive, After(t, PutBack(t), j), secret, token)
  {
    Steps(t, PutBack(t));
  }

  lemma UnlockInterrupted(derive: Derive, s: Store, now: int, secret: string, token: string, k: nat)
    requires Recoverable(derive, s, secret, token) && UnlockedMatches(s) && k <= |Unlock(derive, s, now, secret).1|
    ensures var writes := Unlock(derive, s, now, secret).1;
      Intact(derive, After(s, writes, k), secret, token) && UnlockedMatches(ApplyAll(s, writes))
  {
    Steps(s, Unlock(derive, s, now, secret).1);
    if s.lock.Some? { RoundTrip(s.lock.value.sealed.box.key); }
  }

  /** Turning it off with the right secret keeps the token intact at every write. */
  lemma DisableInterrupted(derive: Derive, s: Store, now: int, secret: string, token: string, k: nat)
    requires Recoverable(derive, s, secret, token) && UnlockedMatches(s)
    requires k <= |Disable(derive, s, now, secret).1|
    ensures Intact(derive, After(s, Disable(derive, s, now, secret).1, k), secret, token)
  {
    var first := Unlock(derive, s, now, secret).1;
    var n := |first|;
    UnlockKeeps(derive, s, now, secret, token);
    UnlockInterrupted(derive, s, now, secret, token, if k <= n then k else n);
    UnlockInterrupted(derive, s, now, secret, token, n);
    var rest := PutBack(ApplyAll(s, first));
    if k <= n {
      AfterFirst(s, first, rest, k);
    } else {
      AfterBoth(s, first, rest, k - n);
      PuttingBackInterrupted(derive, ApplyAll(s, first), secret, token, k - n);
    }
  }

  /** Storing a renewed token keeps it intact at every write but one: sealed anew, with the ended token still unlocked. */
  lemma ReplaceInterrupted(derive: Derive, s: Store, secret: string, token: string, renewed: string, expiresAt: int, k: nat)
    requires Recoverable(derive, s, secret, token) && UnlockedMatches(s) && (s.lock.Some? ==> s.unlocked.Some?)
    requires renewed != token && k <= |ReplaceToken(s, renewed, expiresAt)|
    ensures Intact(derive, After(s, ReplaceToken(s, renewed, expiresAt), k), secret, if k == 0 then token else renewed)
      <==> !(k == 1 && s.lock.Some?)
  {
    Steps(s, ReplaceToken(s, renewed, expiresAt));
  }

  /** With another lock's unlocked record, storing a renewed token seals it so that the lock's own secret opens nothing. */
  lemma SealedUnderAnotherKey(derive: Derive, s: Store, secret: string, renewed: string, expiresAt: int, token: string)
    requires s.pairing.Some? && s.lock.Some? && s.unlocked.Some? && Decode(s.unlocked.value.key).Some?
    requires KeyFor(derive, secret, s.lock.value.sealed.salt, s.lock.value.sealed.iterations) != Decode(s.unlocked.value.key)
    ensures !Recoverable(derive, ApplyAll(s, ReplaceToken(s, renewed, expiresAt)), secret, token)
  {
    Steps(s, ReplaceToken(s, renewed, expiresAt));
  }

  /** The new lock stored over another, and nothing more. */
  lemma LockedOver(derive: Derive, s: Store, now: int, how: LockMethod, secret: string, salt: seq<byte>)
    requires UnlockedMatches(s) && s.lock.Some?
    requires Enable(derive, s, now, how, secret, salt).ok
    ensures var e, n := Enable(derive, s, now, how, secret, salt), |CurrentToken(s, now, true).writes|;
      && n + 1 <= |e.writes|
      && var u := After(s, e.writes, n + 1);
         && u.pairing == s.pairing && u.pairing.Some? && u.unlocked.Some? && s.unlocked.Some? && u.unlocked.value.key == s.unlocked.value.key
         && u.lock == Some(NewLock(derive, how, secret, salt, CurrentToken(s, now, true).token.value))
  {
    var c := CurrentToken(s, now, true);
    var lock := NewLock(derive, how, secret, salt, c.token.value);
    CurrentTokenKeeps(s, now, true, |c.writes|);
    UnlockedWhileOn(s, now);
    AfterBoth(s, c.writes, LockWrites(lock, now, s.pairing.value), 1);
    LockWritesAfter(ApplyAll(s, c.writes), lock, now, s.pairing.value, 1);
  }

  /**
   * Interrupted there, and a renewed token stored next: no secret opens the
   * lock any more but one whose key under the new salt is the old lock's.
   */
  lemma LockedOut(derive: Derive, s: Store, now: int, how: LockMethod, secret: string, salt: seq<byte>,
                  renewed: string, expiresAt: int, tried: string, token: string)
    requires UnlockedMatches(s) && s.lock.Some? && Enable(derive, s, now, how, secret, salt).ok
    requires KeyFor(derive, tried, Encode(salt), ITERATIONS) != Some(s.lock.value.sealed.box.key)
    ensures var e, n := Enable(derive, s, now, how, secret, salt), |CurrentToken(s, now, true).writes|;
      n + 1 <= |e.writes|
      && var u := After(s, e.writes, n + 1);
         !Recoverable(derive, ApplyAll(u, ReplaceToken(u, renewed, expiresAt)), tried, token)
  {
    LockedOver(derive, s, now, how, secret, salt);
    var u := After(s, Enable(derive, s, now, how, secret, salt).writes, |CurrentToken(s, now, true).writes| + 1);
    SealedUnderAnotherKey(derive, u, tried, renewed, expiresAt, token);
  }

  /* ---- Each operation when nothing stops it ---- */

  lemma LockWritten(t: Store, lock: LockConfig, now: int)
    requires t.pairing.Some?
    ensures var u := ApplyAll(t, LockWrites(lock, now, t.pairing.value));
      && u == t.(pairing := Some(t.pairing.value.(token := "")), lock := Some(lock), unlocked := u.unlocked)
      && u.unlocked == Some(Unlocked(lock.sealed.box.token, Encode(lock.sealed.box.key), now)) && UnlockedMatches(u)
  {
    LockWritesAfter(t, lock, now, t.pairing.value, 3);
    RoundTrip(lock.sealed.box.key);
  }

  /** Turned on: the lock opens to the token with the new secret and no failures, and the token is nowhere else but in the unlocked record. */
  lemma EnabledWhole(derive: Derive, s: Store, now: int, how: LockMethod, secret: string, salt: seq<byte>)
    requires Enable(derive, s, now, how, secret, salt).ok
    ensures var t := ApplyAll(s, Enable(derive, s, now, how, secret, salt).writes);
      var token := CurrentToken(s, now, true).token.value;
      && t.lock.Some? && OpensTo(derive, t.lock.value, secret, token) && t.lock.value.how == how && t.lock.value.failures == 0
      && t.lock.value.sealed.iterations == 600_000
      && s.pairing.Some? && t.pairing == Some(s.pairing.value.(token := ""))
      && t.unlocked.Some? && t.unlocked.value.token == token && t.unlocked.value.lastActive == now && UnlockedMatches(t)
      && t == s.(pairing := t.pairing, lock := t.lock, unlocked := t.unlocked, lastActive := t.lastActive)
  {
    var c := CurrentToken(s, now, true);
    var lock := NewLock(derive, how, secret, salt, c.token.value);
    CurrentTokenKeeps(s, now, true, |c.writes|);
    ApplyConcat(s, c.writes, LockWrites(lock, now, s.pairing.value));
    NewLockOpens(derive, how, secret, salt, c.token.value);
    LockWritten(ApplyAll(s, c.writes), lock, now);
  }

  /** Turned off with the right secret: no lock, and the pairing as it was but with the token in it. */
  lemma DisabledWhole(derive: Derive, s: Store, now: int, secret: string, token: string)
    requires Recoverable(derive, s, secret, token) && (s.lock.None? ==> s.unlocked.None?)
    ensures ApplyAll(s, Disable(derive, s, now, secret).1)
      == s.(pairing := Some(s.pairing.value.(token := token)), lock := None, unlocked := None)
  {
    var first := Unlock(derive, s, now, secret).1;
    UnlockKeeps(derive, s, now, secret, token);
    var t := ApplyAll(s, first);
    Steps(s, first);
    Steps(t, PutBack(t));
    ApplyConcat(s, first, PutBack(t));
  }

  /** Renewed: the new token and expiry in every place the old ones were, under the same secret and count. */
  lemma ReplacedWhole(derive: Derive, s: Store, secret: string, token: string, renewed: string, expiresAt: int)
    requires Recoverable(derive, s, secret, token) && UnlockedMatches(s) && (s.lock.Some? ==> s.unlocked.Some?)
    ensures var t := ApplyAll(s, ReplaceToken(s, renewed, expiresAt));
      && Recoverable(derive, t, secret, renewed) && UnlockedMatches(t)
      && t.pairing == Some(s.pairing.value.(token := if s.lock.Some? then s.pairing.value.token else renewed, expiresAt := expiresAt))
      && (s.lock.Some? ==> t.unlocked == Some(s.unlocked.value.(token := renewed)) && t.lock.value.failures == s.lock.value.failures)
      && t == s.(pairing := t.pairing, lock := t.lock, unlocked := t.unlocked)
  {
    Steps(s, ReplaceToken(s, renewed, expiresAt));
  }

  /* ---- The timeout's arithmetic ---- */

  /** The stamp is throttled: at or before the last use counted, and never more than the throttle before it. */
  ghost predicate StampFollows(s: Store, lastUse: Option<int>) {
    s.lastActive.Some? ==> lastUse.Some? && s.lastActive.value <= lastUse.value <= s.lastActive.value + THROTTLE
  }

  lemma NotingFollows(s: Store, now: int, lastUse: Option<int>)
    requires StampFollows(s, lastUse) && (lastUse.Some? ==> lastUse.value <= now)
    ensures StampFollows(ApplyAll(s, NoteActivity(s, now)), Some(now))
  {
    Steps(s, NoteActivity(s, now));
  }

  /** A sign-out is never due sooner than the limit less the throttle after the last use, and always once the limit is passed. */
  lemma SignOutDueBounds(s: Store, now: int, lastUse: int)
    requires StampFollows(s, Some(lastUse)) && s.pairing.Some? && s.lastActive.Some?
    requires EffectiveSettings(s).1.SignOut? && EffectiveSettings(s).0 > 0
    ensures var limit := EffectiveSettings(s).0 * 60_000;
      && (TimeoutDue(s, now) == Some(SignOut) ==> now - lastUse > limit - 30_000)
      && (now - lastUse > limit ==> TimeoutDue(s, now) == Some(SignOut))
  {
  }

  /** Once a timeout is due, of either kind, no token is handed out. */
  lemma NoTokenOnceDue(s: Store, now: int, touch: bool)
    requires TimeoutDue(s, now).Some?
    ensures CurrentToken(s, now, touch).token == None
  {
    Steps(s, LockIfIdle(s, now));
  }

  /** Asked without counting as a use, nothing the timeout reads moves forward: whatever was going to be due still is. */
  lemma PassiveNeverPostpones(s: Store, now: int, later: int)
    ensures var t := ApplyAll(s, CurrentToken(s, now, false).writes);
      && t.lastActive == s.lastActive && (t.unlocked == s.unlocked || t.unlocked.None?)
      && (TimeoutDue(s, later).Some? ==> TimeoutDue(t, later) == TimeoutDue(s, later) || t.unlocked.None?)
  {
    Steps(s, LockIfIdle(s, now));
    Steps(s, CurrentToken(s, now, false).writes);
  }
}
