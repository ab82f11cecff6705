/**
 * Whole runs of the extension: any sequence of the person's actions, alarms,
 * calls, renewals, pairings and restarts, with the browser closing part-way
 * through the operations on the lock. Operations are atomic towards each other.
 */
module ExtensionRuns {
  import opened Names
  import opened Base64Url
  import opened ExtensionStore
  import opened Lock
  import opened Api
  import opened PairingFlow

  /**
   * The store, the clock, and what is true outside the store: the newest token
   * Helm made for the pairing, which is the only one it accepts, the token the
   * extension was last given, the secret of the lock, wrong tries in a row, the
   * last use of Helm, the last unlock or use, the public key that went out with each state, the states
   * accepted in order, and the address the accepted pairing came from.
   */
  datatype World = World(
    store: Store, now: int, live: string, held: string, secret: string, wrong: nat, lastUse: Option<int>, active: Option<int>,
    offered: map<string, DeviceKey>, accepted: seq<string>, issuer: string)

  datatype Op =
    | Wait(ms: nat)
    | TurnOn(how: LockMethod, secret: string, salt: seq<byte>)
    | Try(secret: string)
    | TurnOff(secret: string)
    | LockNow
    | MakeCall(passive: bool, answer: Reply<()>, farewell: Reply<()>)
    // carried is what Helm did with a renewal it was asked for, whatever answer came.
    | Renew(reply: Reply<Renewal>, carried: Option<Renewal>, farewell: Reply<()>)
    | Leave(farewell: Reply<()>)
    | Alarm(farewell: Reply<()>)
    | Restart(reply: Reply<Renewal>, carried: Option<Renewal>, farewell: Reply<()>)
    | Address(origin: string)
    | Change(minutes: Option<int>, action: Option<TimeoutAction>)
    | Start(key: DeviceKey, state: string, tab: Option<nat>, title: string)
    | Finish(sender: nat, origin: string, message: PairMessage)
    | TabClosed(closed: nat)
    // The browser closes after the first k writes. StoringStopped begins where Helm has answered a renewal, and
    // is let come at any time, so it allows more than a renewal asked for at that moment would.
    | TurnOnStopped(how: LockMethod, secret: string, salt: seq<byte>, k: nat)
    | TurnOffStopped(secret: string, k: nat)
    | StoringStopped(renewed: Renewal, k: nat)

  predicate Stopped(op: Op) { op.TurnOnStopped? || op.TurnOffStopped? || op.StoringStopped? }

  datatype Outcome = Outcome(store: Store, sends: seq<Request>, used: bool)

  function Planned<T>(s: Store, p: Plan<T>): Outcome { Outcome(ApplyAll(s, p.writes), p.sends, p.used) }

  function Written(s: Store, ws: seq<Write>): Outcome { Outcome(ApplyAll(s, ws), [], false) }

  function AtMost(k: nat, ws: seq<Write>): nat { if k <= |ws| then k else |ws| }

  function Cut(s: Store, ws: seq<Write>, k: nat): Store { CrashAfter(s, ws, AtMost(k, ws)) }

  function Outcomes(derive: Derive, s: Store, now: int, op: Op): Outcome {
    match op
    case Wait(_) => Outcome(s, [], false)
    case TurnOn(how, secret, salt) => var e := Enable(derive, s, now, how, secret, salt); Outcome(ApplyAll(s, e.writes), [], e.used)
    case Try(secret) => Written(s, Unlock(derive, s, now, secret).1)
    case TurnOff(secret) => Written(s, Disable(derive, s, now, secret).1)
    case LockNow => Written(s, [SetUnlocked(None)])
    case MakeCall(passive, answer, farewell) => Planned(s, Call(s, now, passive, answer, farewell))
    case Renew(reply, _, farewell) => Planned(s, RenewIfDue(s, now, reply, farewell))
    case Leave(farewell) => Planned(s, SignOutNow(s, farewell))
    case Alarm(farewell) => Planned(s, IdleAlarm(s, now, farewell))
    case Restart(reply, _, farewell) => Planned(Closed(s), Startup(Closed(s), now, reply, farewell))
    case Address(origin) => Written(s, SaveServer(s, origin))
    case Change(minutes, action) => Written(s, ChangeSettings(s, minutes, action))
    case Start(key, state, tab, title) => Written(s, StartPairing(s, key, state, tab, title))
    case Finish(tab, origin, m) =>
      Outcome(ApplyAll(s, FinishPairing(s, now, tab, origin, m)), [], Accepts(s, tab, origin, m))
    case TabClosed(tab) => Written(s, TabRemoved(s, tab))
    case TurnOnStopped(how, secret, salt, k) =>
      var e := Enable(derive, s, now, how, secret, salt);
      Outcome(Cut(s, e.writes, k), [], e.used && k >= |CurrentToken(s, now, true).writes|)
    case TurnOffStopped(secret, k) => Outcome(Cut(s, Disable(derive, s, now, secret).1, k), [], false)
    case StoringStopped(r, k) => Outcome(Cut(s, ReplaceToken(s, r.token, r.expiresAt), k), [], false)
  }

  /** A lock with the new secret has been stored. */
  predicate NewLockStored(derive: Derive, s: Store, now: int, op: Op) {
    match op
    case TurnOn(how, secret, salt) => Enable(derive, s, now, how, secret, salt).ok
    case TurnOnStopped(how, secret, salt, k) =>
      Enable(derive, s, now, how, secret, salt).ok && k > |CurrentToken(s, now, true).writes|
    case _ => false
  }

  /** Helm's side: a renewal it carried out, or the pairing just finished, has made a new token. */
  function LiveAfter(w: World, op: Op): string {
    match op
    case Finish(tab, origin, m) => if Accepts(w.store, tab, origin, m) then m.token.value else w.live
    case Renew(_, carried, _) => if carried.Some? && RenewalAsked(w.store, w.now) then carried.value.token else w.live
    case Restart(_, carried, _) => if carried.Some? && StartupAsks(Closed(w.store), w.now) then carried.value.token else w.live
    case StoringStopped(r, _) => r.token
    case _ => w.live
  }

  /** The extension's side: what it was given and has begun to store. */
  function HeldAfter(w: World, op: Op, o: Outcome): string {
    match op
    case Finish(tab, origin, m) => if Accepts(w.store, tab, origin, m) then m.token.value else w.held
    case Renew(reply, _, _) => if reply.Answered? && o.sends != [] && o.store.pairing.Some? then reply.value.token else w.held
    case Restart(reply, _, _) => if reply.Answered? && o.sends != [] && o.store.pairing.Some? then reply.value.token else w.held
    case StoringStopped(r, k) => if k > 0 then r.token else w.held
    case _ => w.held
  }

  /** Wrong tries in a row, counted from the secrets tried; a lock turned on anew starts again. */
  function WrongAfter(derive: Derive, w: World, op: Op): nat {
    if NewLockStored(derive, w.store, w.now, op) then 0
    else if op.Try? || op.TurnOff? || (op.TurnOffStopped? && op.k > 0) then
      (if w.store.lock.None? || op.secret == w.secret then 0 else w.wrong + 1)
    else w.wrong
  }

  /** The right secret tried, or a lock turned on: either way the lock is open from now. */
  predicate Unlocks(derive: Derive, w: World, op: Op) {
    match op
    case Try(secret) => w.store.lock.Some? && secret == w.secret
    case TurnOn(how, secret, salt) => Enable(derive, w.store, w.now, how, secret, salt).ok
    case _ => false
  }

  function Step(derive: Derive, w: World, op: Op): World {
    var o := Outcomes(derive, w.store, w.now, op);
    var accepts := op.Finish? && Accepts(w.store, op.sender, op.origin, op.message);
    World(
      o.store,
      if op.Wait? then w.now + op.ms else w.now,
      LiveAfter(w, op),
      HeldAfter(w, op, o),
      if NewLockStored(derive, w.store, w.now, op) then op.secret else w.secret,
      WrongAfter(derive, w, op),
      if o.used then Some(w.now) else w.lastUse,
      if o.used || Unlocks(derive, w, op) then Some(w.now) else w.active,
      if op.Start? && Usable(w.store.server) then w.offered[op.state := op.key] else w.offered,
      if accepts then w.accepted + [op.message.state] else w.accepted,
      if accepts then op.origin else w.issuer)
  }

  function Run(derive: Derive, w: World, ops: seq<Op>): World {
    if ops == [] then w else Step(derive, Run(derive, w, ops[..|ops| - 1]), ops[|ops| - 1])
  }

  /**
   * States, keys and tokens are drawn afresh; Helm renews only for the token
   * it accepts, and answers with the token it made; and one is stored only by
   * a browser that is paired and unlocked.
   */
  predicate Possible(w: World, op: Op) {
    && (op.Start? ==> op.state !in w.offered && op.key !in w.offered.Values)
    && (op.Renew? || op.Restart? ==>
          (op.reply.Answered? ==> op.carried == Some(op.reply.value)) && (op.carried.Some? ==> w.held == w.live != op.carried.value.token))
    && (op.StoringStopped? ==>
          w.held == w.live != op.renewed.token && w.store.pairing.Some? && (w.store.lock.Some? ==> w.store.unlocked.Some?))
  }

  /** Every step of a run is one this allows, in the world it is taken in. */
  ghost predicate Along(derive: Derive, w: World, ops: seq<Op>, allows: (World, Op) -> bool) {
    forall i :: 0 <= i < |ops| ==> allows(Run(derive, w, ops[..i]), ops[i])
  }

  lemma AlongFront(derive: Derive, w: World, ops: seq<Op>, allows: (World, Op) -> bool)
    requires Along(derive, w, ops, allows) && ops != []
    ensures var front := ops[..|ops| - 1]; Along(derive, w, front, allows) && allows(Run(derive, w, front), ops[|ops| - 1])
  {
    var front := ops[..|ops| - 1];
    forall i | 0 <= i < |front| ensures allows(Run(derive, w, front[..i]), front[i]) {
      assert front[..i] == ops[..i];
    }
  }

  /** Just installed, with whatever settings. */
  predicate Installed(w: World) {
    w.store == Empty.(settings := w.store.settings) && w.lastUse == None && w.offered == map[] && w.accepted == []
  }

  /* ---- The token ---- */

  /** The live token is where it should be, with a device key beside it. */
  ghost predicate Kept(derive: Derive, s: Store, secret: string, live: string) {
    && UnlockedMatches(s)
    && (s.lock.Some? ==> s.pairing.Some?)
    && (s.pairing.Some? ==> s.deviceKey.Some? && Recoverable(derive, s, secret, live))
    && s.server != Some("")
  }

  /** With a lock on, the pairing does not hold the token in the clear. */
  ghost predicate Hidden(s: Store) {
    s.lock.Some? ==> s.pairing.Some? && s.pairing.value.token == ""
  }

  ghost predicate Counted(s: Store, wrong: nat) {
    s.lock.Some? ==> s.lock.value.failures == wrong < MAX_FAILURES
  }

  /** The stamp follows the last use, and there is one while there is a pairing. */
  ghost predicate Clocked(s: Store, now: int, lastUse: Option<int>) {
    && StampFollows(s, lastUse)
    && (lastUse.Some? ==> lastUse.value <= now)
    && (s.pairing.Some? ==> s.lastActive.Some?)
  }

  /** Nothing about pairing has changed but that a pairing, or one in progress, may be gone. */
  ghost predicate Beside(s: Store, t: Store) {
    && t.server == s.server && t.pendingKey == s.pendingKey && (t.pending == s.pending || t.pending.None?)
    && (t.pairing.Some? ==> s.pairing.Some? && t.deviceKey == s.deviceKey)
  }

  lemma KeptByClocks(derive: Derive, s: Store, t: Store, secret: string, live: string, wrong: nat)
    requires Kept(derive, s, secret, live) && Counted(s, wrong) && SameButClocks(s, t)
    ensures Kept(derive, t, secret, live) && Counted(t, wrong) && (Hidden(s) ==> Hidden(t))
  {
  }

  lemma ClockedByUse(s: Store, t: Store, now: int, lastUse: Option<int>, used: bool)
    requires Clocked(s, now, lastUse) && Stamped(s, t, now, used) && (t.pairing.Some? ==> s.pairing.Some?)
    ensures Clocked(t, now, if used then Some(now) else lastUse)
  {
  }

  lemma KeptByReplacing(derive: Derive, s: Store, r: Renewal, secret: string, live: string, wrong: nat)
    requires Kept(derive, s, secret, live) && Counted(s, wrong) && s.pairing.Some? && (s.lock.Some? ==> s.unlocked.Some?)
    ensures var t := ApplyAll(s, ReplaceToken(s, r.token, r.expiresAt));
      && Kept(derive, t, secret, r.token) && Counted(t, wrong) && (Hidden(s) ==> Hidden(t))
      && t == s.(pairing := t.pairing, lock := t.lock, unlocked := t.unlocked) && t.pairing.Some?
  {
    Steps(s, ReplaceToken(s, r.token, r.expiresAt));
  }

  ghost predicate Safe(derive: Derive, w: World) {
    && Kept(derive, w.store, w.secret, w.held)
    && Counted(w.store, w.wrong)
    && Clocked(w.store, w.now, w.lastUse)
  }

  /** One step keeps the token, the count and the stamp; and the token hidden, unless the browser closed part-way. */
  ghost predicate Keeps(derive: Derive, w: World, op: Op) {
    && Safe(derive, Step(derive, w, op))
    && (Hidden(w.store) && !Stopped(op) ==> Hidden(Step(derive, w, op).store))
    && (!op.Start? && !op.Finish? && !op.Address? ==> Beside(w.store, Step(derive, w, op).store))
  }

  /* ---- Turning the lock on ---- */

  lemma LockedLeaves(t: Store, lock: LockConfig, now: int)
    requires t.pairing.Some?
    ensures ApplyAll(t, LockWrites(lock, now, t.pairing.value)) ==
      t.(lock := Some(lock), unlocked := Some(Unlocked(lock.sealed.box.token, Encode(lock.sealed.box.key), now)),
         pairing := Some(t.pairing.value.(token := "")))
  {
    Steps(t, LockWrites(lock, now, t.pairing.value));
  }

  lemma LockedAnew(derive: Derive, t: Store, lock: LockConfig, secret: string, live: string, now: int, lastUse: Option<int>)
    requires t.pairing.Some? && t.deviceKey.Some? && t.server != Some("") && Clocked(t, now, lastUse)
    requires OpensTo(derive, lock, secret, live) && lock.failures == 0
    ensures var u := ApplyAll(t, LockWrites(lock, now, t.pairing.value));
      Kept(derive, u, secret, live) && Counted(u, 0) && Hidden(u) && Clocked(u, now, lastUse) && Beside(t, u)
  {
    RoundTrip(lock.sealed.box.key);
    LockedLeaves(t, lock, now);
  }

  lemma TurnedOn(derive: Derive, s: Store, now: int, lastUse: Option<int>, secret: string, held: string, wrong: nat,
                 how: LockMethod, chosen: string, salt: seq<byte>)
    requires Kept(derive, s, secret, held) && Counted(s, wrong) && Clocked(s, now, lastUse)
    ensures var e := Enable(derive, s, now, how, chosen, salt);
      var t := ApplyAll(s, e.writes);
      && Kept(derive, t, if e.ok then chosen else secret, held) && Counted(t, if e.ok then 0 else wrong)
      && Clocked(t, now, if e.used then Some(now) else lastUse) && Beside(s, t) && (Hidden(s) || e.ok ==> Hidden(t))
  {
    var current := CurrentToken(s, now, true);
    var t := ApplyAll(s, current.writes);
    TokenLeaves(s, now, true);
    KeptByClocks(derive, s, t, secret, held, wrong);
    ClockedByUse(s, t, now, lastUse, current.used);
    if Usable(current.token) && s.pairing.Some? {
      TokenIsTheOne(derive, s, now, true, secret, held);
      var lock := NewLock(derive, how, chosen, salt, held);
      ApplyConcat(s, current.writes, LockWrites(lock, now, s.pairing.value));
      NewLockOpens(derive, how, chosen, salt, held);
      LockedAnew(derive, t, lock, chosen, held, now, if current.used then Some(now) else lastUse);
    }
  }

  /* ---- Trying a secret ---- */

  lemma RightTryLeaves(derive: Derive, s: Store, now: int, secret: string, live: string)
    requires s.lock.Some? && OpensTo(derive, s.lock.value, secret, live)
    ensures var (result, writes) := Unlock(derive, s, now, secret);
      var t := ApplyAll(s, writes);
      && result.Opened? && t == s.(lock := Some(s.lock.value.(failures := 0)), unlocked := t.unlocked)
      && t.unlocked.Some? && t.unlocked.value.token == live && UnlockedMatches(t)
  {
    Steps(s, Unlock(derive, s, now, secret).1);
    RoundTrip(KeyOr(KeyFor(derive, secret, s.lock.value.sealed.salt, s.lock.value.sealed.iterations)));
  }

  lemma WrongTryLeaves(derive: Derive, s: Store, now: int, secret: string, live: string, tried: string)
    requires TellsApart(derive) && s.lock.Some? && OpensTo(derive, s.lock.value, secret, live) && tried != secret
    ensures var (result, writes) := Unlock(derive, s, now, tried);
      var t := ApplyAll(s, writes);
      if s.lock.value.failures + 1 < MAX_FAILURES then
        result.Wrong? && t == s.(lock := Some(s.lock.value.(failures := s.lock.value.failures + 1)))
      else result.Forgotten? && t == Unpaired(s)
  {
    OnlyTheSecretOpens(derive, s, now, secret, live, tried);
    Steps(s, Unlock(derive, s, now, tried).1);
    ClearingLeaves(s);
  }

  /** What a try leaves: the right secret unlocks; a wrong one counts, and the fifth unpairs. */
  lemma TryLeaves(derive: Derive, s: Store, now: int, secret: string, live: string, wrong: nat, tried: string)
    requires TellsApart(derive) && Kept(derive, s, secret, live) && Counted(s, wrong)
    ensures var (result, writes) := Unlock(derive, s, now, tried);
      var t := ApplyAll(s, writes);
      if s.lock.None? then result.Opened? && t == s
      else if tried == secret then
        result.Opened? && t == s.(lock := Some(s.lock.value.(failures := 0)), unlocked := t.unlocked)
        && t.unlocked.Some? && t.unlocked.value.token == live && UnlockedMatches(t)
      else if wrong + 1 < MAX_FAILURES then result.Wrong? && t == s.(lock := Some(s.lock.value.(failures := wrong + 1)))
      else result.Forgotten? && t == Unpaired(s)
  {
    if s.lock.Some? {
      if tried == secret { RightTryLeaves(derive, s, now, secret, live); } else { WrongTryLeaves(derive, s, now, secret, live, tried); }
    }
  }

  lemma Trying(derive: Derive, w: World, op: Op)
    requires TellsApart(derive) && Safe(derive, w) && op.Try?
    ensures Keeps(derive, w, op)
  {
    TryLeaves(derive, w.store, w.now, w.secret, w.held, w.wrong, op.secret);
  }

  lemma PuttingBack(derive: Derive, t: Store, secret: string, live: string, now: int, lastUse: Option<int>)
    requires Kept(derive, t, secret, live) && Clocked(t, now, lastUse)
    requires t.lock.Some? ==> t.unlocked.Some? && t.unlocked.value.token == live
    ensures var u := ApplyAll(t, PutBack(t));
      Kept(derive, u, secret, live) && u.lock.None? && Clocked(u, now, lastUse) && Beside(t, u)
  {
    Steps(t, PutBack(t));
  }

  lemma TurningOff(derive: Derive, w: World, op: Op)
    requires TellsApart(derive) && Safe(derive, w) && op.TurnOff?
    ensures Keeps(derive, w, op)
  {
    var s := w.store;
    Trying(derive, w, Try(op.secret));
    TryLeaves(derive, s, w.now, w.secret, w.held, w.wrong, op.secret);
    var (result, first) := Unlock(derive, s, w.now, op.secret);
    if result.Opened? {
      var t := ApplyAll(s, first);
      ApplyConcat(s, first, PutBack(t));
      PuttingBack(derive, t, w.secret, w.held, w.now, w.lastUse);
    }
  }

  /* ---- Calls, renewals and sign-outs ---- */

  lemma Calling(derive: Derive, w: World, op: Op)
    requires Safe(derive, w) && op.MakeCall?
    ensures Keeps(derive, w, op)
  {
    var s := w.store;
    var c := Call(s, w.now, op.passive, op.answer, op.farewell);
    var t := ApplyAll(s, c.writes);
    CallLeaves(s, w.now, op.passive, op.answer, op.farewell);
    if SameButClocks(s, t) && Stamped(s, t, w.now, c.used) {
      KeptByClocks(derive, s, t, w.secret, w.held, w.wrong);
      ClockedByUse(s, t, w.now, w.lastUse, c.used);
    }
  }

  /** A renewal, from a store that is this world's or its own after a restart. */
  lemma RenewingKeeps(derive: Derive, s: Store, now: int, lastUse: Option<int>, secret: string, live: string, wrong: nat,
                      reply: Reply<Renewal>, farewell: Reply<()>)
    requires Kept(derive, s, secret, live) && Counted(s, wrong) && Clocked(s, now, lastUse)
    ensures var p := RenewIfDue(s, now, reply, farewell);
      var t := ApplyAll(s, p.writes);
      && Kept(derive, t, secret, if reply.Answered? && p.sends != [] && t.pairing.Some? then reply.value.token else live)
      && Counted(t, wrong) && (Hidden(s) ==> Hidden(t))
      && Clocked(t, now, if p.used then Some(now) else lastUse) && Beside(s, t)
  {
    if s.pairing.Some? {
      var p := RenewIfDue(s, now, reply, farewell);
      var t := ApplyAll(s, p.writes);
      RenewalLeaves(s, now, reply, farewell);
      if t != Unpaired(s) {
        if p.sends != [] && reply.Answered? {
          var u :| RenewedOver(s, u, t, now, p.used, reply.value);
          KeptByClocks(derive, s, u, secret, live, wrong);
          ClockedByUse(s, u, now, lastUse, p.used);
          KeptByReplacing(derive, u, reply.value, secret, live, wrong);
        } else {
          KeptByClocks(derive, s, t, secret, live, wrong);
          ClockedByUse(s, t, now, lastUse, p.used);
        }
      }
    }
  }

  lemma Renewing(derive: Derive, w: World, op: Op)
    requires Safe(derive, w) && op.Renew?
    ensures Keeps(derive, w, op)
  {
    RenewingKeeps(derive, w.store, w.now, w.lastUse, w.secret, w.held, w.wrong, op.reply, op.farewell);
  }

  lemma Restarting(derive: Derive, w: World, op: Op)
    requires Safe(derive, w) && op.Restart?
    ensures Keeps(derive, w, op)
  {
    var s := Closed(w.store);
    assert Kept(derive, s, w.secret, w.held) && Counted(s, w.wrong) && Clocked(s, w.now, w.lastUse);
    StartupRenews(s, w.now, op.reply, op.farewell);
    RenewingKeeps(derive, s, w.now, w.lastUse, w.secret, w.held, w.wrong, op.reply, op.farewell);
  }

  lemma Leaving(derive: Derive, w: World, op: Op)
    requires Safe(derive, w) && op.Leave?
    ensures Keeps(derive, w, op)
  {
    SigningOutLeaves(w.store, op.farewell);
  }

  lemma Alarming(derive: Derive, w: World, op: Op)
    requires Safe(derive, w) && op.Alarm?
    ensures Keeps(derive, w, op)
  {
    AlarmLeaves(w.store, w.now, op.farewell);
  }

  lemma LockingNow(derive: Derive, w: World, op: Op)
    requires Safe(derive, w) && op.LockNow?
    ensures Keeps(derive, w, op)
  {
    Steps(w.store, [SetUnlocked(None)]);
  }

  lemma AddressLeaves(s: Store, origin: string)
    ensures ApplyAll(s, SaveServer(s, origin)) ==
      if origin == "" then s
      else if Usable(s.server) && s.server.value != origin then Unpaired(s).(server := Some(origin))
      else s.(server := Some(origin))
  {
    ClearingLeaves(s);
    ApplyConcat(s, ClearPairing(), [SetServer(origin)]);
    Steps(s, [SetServer(origin)]);
    Steps(Unpaired(s), [SetServer(origin)]);
  }

  lemma Addressing(derive: Derive, w: World, op: Op)
    requires Safe(derive, w) && op.Address?
    ensures Keeps(derive, w, op)
  {
    AddressLeaves(w.store, op.origin);
  }

  lemma Starting(derive: Derive, w: World, op: Op)
    requires Safe(derive, w) && op.Start?
    ensures Keeps(derive, w, op)
  {
    StartLeaves(w.store, op.key, op.state, op.tab, op.title);
  }

  lemma Finishing(derive: Derive, w: World, op: Op)
    requires Safe(derive, w) && op.Finish?
    ensures Keeps(derive, w, op)
  {
    FinishLeaves(w.store, w.now, op.sender, op.origin, op.message);
    NotingFollows(w.store, w.now, w.lastUse);
    Steps(w.store, NoteActivity(w.store, w.now));
  }

  lemma ClosingTab(derive: Derive, w: World, op: Op)
    requires Safe(derive, w) && op.TabClosed?
    ensures Keeps(derive, w, op)
  {
    Steps(w.store, TabRemoved(w.store, op.closed));
  }

  /* ---- Stopping part-way ---- */

  /** A token handed out but stopped before its stamp was written has moved no stamp. */
  lemma StampIsLast(s: Store, now: int, touch: bool, k: nat)
    requires k < |CurrentToken(s, now, touch).writes|
    ensures After(s, CurrentToken(s, now, touch).writes, k).lastActive == s.lastActive
  {
    Steps(s, LockIfIdle(s, now));
    Steps(s, CurrentToken(s, now, touch).writes);
  }

  lemma NewLockSteps(t: Store, lock: LockConfig, now: int, j: nat)
    requires t.pairing.Some? && 1 <= j <= 3
    ensures var u := CrashAfter(t, LockWrites(lock, now, t.pairing.value), j);
      u == t.(pairing := u.pairing, lock := Some(lock), unlocked := None, pending := None) && u.pairing.Some?
  {
    Steps(t, LockWrites(lock, now, t.pairing.value));
  }

  lemma CutToken(derive: Derive, s: Store, now: int, lastUse: Option<int>, secret: string, live: string, wrong: nat, k: nat)
    requires Kept(derive, s, secret, live) && Counted(s, wrong) && Clocked(s, now, lastUse)
    requires k <= |CurrentToken(s, now, true).writes|
    ensures var c := CurrentToken(s, now, true);
      var t := CrashAfter(s, c.writes, k);
      && Kept(derive, t, secret, live) && Counted(t, wrong)
      && Clocked(t, now, if c.used && k == |c.writes| then Some(now) else lastUse) && Beside(s, t)
  {
    var c := CurrentToken(s, now, true);
    var u := After(s, c.writes, k);
    CurrentTokenKeeps(s, now, true, k);
    KeptByClocks(derive, s, u, secret, live, wrong);
    TokenLeaves(s, now, true);
    if k < |c.writes| { StampIsLast(s, now, true, k); } else { ClockedByUse(s, u, now, lastUse, c.used); }
  }

  lemma CutLocking(derive: Derive, t: Store, now: int, lastUse: Option<int>, live: string, lock: LockConfig, secret: string, j: nat)
    requires t.pairing.Some? && t.deviceKey.Some? && t.server != Some("") && Clocked(t, now, lastUse)
    requires OpensTo(derive, lock, secret, live) && lock.failures == 0 && 1 <= j <= 3
    ensures var u := CrashAfter(t, LockWrites(lock, now, t.pairing.value), j);
      Kept(derive, u, secret, live) && Counted(u, 0) && Clocked(u, now, lastUse) && Beside(t, u)
  {
    NewLockSteps(t, lock, now, j);
  }

  lemma CutTurningOn(derive: Derive, s: Store, now: int, lastUse: Option<int>, secret: string, live: string, wrong: nat,
                     how: LockMethod, chosen: string, salt: seq<byte>, k: nat)
    requires Kept(derive, s, secret, live) && Counted(s, wrong) && Clocked(s, now, lastUse)
    requires k <= |Enable(derive, s, now, how, chosen, salt).writes|
    ensures var e := Enable(derive, s, now, how, chosen, salt);
      var n := |CurrentToken(s, now, true).writes|;
      var t := CrashAfter(s, e.writes, k);
      var stored := e.ok && k > n;
      && Kept(derive, t, if stored then chosen else secret, live)
      && Counted(t, if stored then 0 else wrong)
      && Clocked(t, now, if e.used && k >= n then Some(now) else lastUse) && Beside(s, t)
  {
    var e, c := Enable(derive, s, now, how, chosen, salt), CurrentToken(s, now, true);
    var n := |c.writes|;
    CutToken(derive, s, now, lastUse, secret, live, wrong, if k <= n then k else n);
    if e.ok {
      TokenIsTheOne(derive, s, now, true, secret, live);
      var lock := NewLock(derive, how, chosen, salt, live);
      CrashInConcat(s, c.writes, LockWrites(lock, now, s.pairing.value), k);
      if k > n {
        TokenLeaves(s, now, true);
        var t := ApplyAll(s, c.writes);
        ClockedByUse(s, t, now, lastUse, c.used);
        NewLockOpens(derive, how, chosen, salt, live);
        CutLocking(derive, t, now, if c.used then Some(now) else lastUse, live, lock, chosen, k - n);
      }
    }
  }

  lemma CutTrying(derive: Derive, s: Store, now: int, lastUse: Option<int>, secret: string, live: string, wrong: nat, tried: string, k: nat)
    requires TellsApart(derive) && Kept(derive, s, secret, live) && Counted(s, wrong) && Clocked(s, now, lastUse)
    requires k <= |Unlock(derive, s, now, tried).1|
    ensures var t := CrashAfter(s, Unlock(derive, s, now, tried).1, k);
      Kept(derive, t, secret, live) && Clocked(t, now, lastUse) && Beside(s, t)
      && Counted(t, if k == 0 then wrong else if s.lock.None? || tried == secret then 0 else wrong + 1)
  {
    if s.lock.Some? { OnlyTheSecretOpens(derive, s, now, secret, live, tried); }
    Steps(s, Unlock(derive, s, now, tried).1);
  }

  lemma CutPuttingBack(derive: Derive, t: Store, now: int, lastUse: Option<int>, secret: string, live: string, k: nat)
    requires Kept(derive, t, secret, live) && Clocked(t, now, lastUse) && Counted(t, 0)
    requires t.lock.Some? ==> t.unlocked.Some? && t.unlocked.value.token == live
    requires k <= |PutBack(t)|
    ensures var u := CrashAfter(t, PutBack(t), k);
      Kept(derive, u, secret, live) && Clocked(u, now, lastUse) && Counted(u, 0) && Beside(t, u)
  {
    Steps(t, PutBack(t));
  }

  lemma CutTurningOff(derive: Derive, s: Store, now: int, lastUse: Option<int>, secret: string, live: string, wrong: nat, tried: string, k: nat)
    requires TellsApart(derive) && Kept(derive, s, secret, live) && Counted(s, wrong) && Clocked(s, now, lastUse)
    requires k <= |Disable(derive, s, now, tried).1|
    ensures var t := CrashAfter(s, Disable(derive, s, now, tried).1, k);
      Kept(derive, t, secret, live) && Clocked(t, now, lastUse) && Beside(s, t)
      && Counted(t, if k == 0 then wrong else if s.lock.None? || tried == secret then 0 else wrong + 1)
  {
    var (result, first) := Unlock(derive, s, now, tried);
    var n := |first|;
    CutTrying(derive, s, now, lastUse, secret, live, wrong, tried, if k <= n then k else n);
    TryLeaves(derive, s, now, secret, live, wrong, tried);
    if result.Opened? {
      var t := ApplyAll(s, first);
      CrashInConcat(s, first, PutBack(t), k);
      if k > n { CutPuttingBack(derive, t, now, lastUse, secret, live, k - n); }
    }
  }

  lemma CutStoring(derive: Derive, s: Store, now: int, lastUse: Option<int>, secret: string, held: string, wrong: nat, r: Renewal, k: nat)
    requires Kept(derive, s, secret, held) && Counted(s, wrong) && Clocked(s, now, lastUse)
    requires s.pairing.Some? && (s.lock.Some? ==> s.unlocked.Some?) && k <= |ReplaceToken(s, r.token, r.expiresAt)|
    ensures var t := CrashAfter(s, ReplaceToken(s, r.token, r.expiresAt), k);
      && |ReplaceToken(s, r.token, r.expiresAt)| >= 1
      && Kept(derive, t, secret, if k == 0 then held else r.token) && Counted(t, wrong) && Clocked(t, now, lastUse) && Beside(s, t)
  {
    Steps(s, ReplaceToken(s, r.token, r.expiresAt));
  }

  /* ---- Whole runs ---- */

  lemma StoppedStepKeeps(derive: Derive, w: World, op: Op)
    requires TellsApart(derive) && Safe(derive, w) && Possible(w, op) && Stopped(op)
    ensures Keeps(derive, w, op)
  {
    match op
    case TurnOnStopped(how, secret, salt, k) =>
      CutTurningOn(derive, w.store, w.now, w.lastUse, w.secret, w.held, w.wrong, how, secret, salt,
                   AtMost(k, Enable(derive, w.store, w.now, how, secret, salt).writes));
    case TurnOffStopped(secret, k) =>
      CutTurningOff(derive, w.store, w.now, w.lastUse, w.secret, w.held, w.wrong, secret,
                    AtMost(k, Disable(derive, w.store, w.now, secret).1));
    case StoringStopped(r, k) =>
      CutStoring(derive, w.store, w.now, w.lastUse, w.secret, w.held, w.wrong, r,
                 AtMost(k, ReplaceToken(w.store, r.token, r.expiresAt)));
  }

  lemma EveryStepKeeps(derive: Derive, w: World, op: Op)
    requires TellsApart(derive) && Safe(derive, w) && Possible(w, op)
    ensures Keeps(derive, w, op)
  {
    match op
    case Wait(_) =>
    case TurnOn(how, secret, salt) => TurnedOn(derive, w.store, w.now, w.lastUse, w.secret, w.held, w.wrong, how, secret, salt);
    case Try(_) => Trying(derive, w, op);
    case TurnOff(_) => TurningOff(derive, w, op);
    case MakeCall(_, _, _) => Calling(derive, w, op);
    case Renew(_, _, _) => Renewing(derive, w, op);
    case Restart(_, _, _) => Restarting(derive, w, op);
    case Leave(_) => Leaving(derive, w, op);
    case Alarm(_) => Alarming(derive, w, op);
    case Address(_) => Addressing(derive, w, op);
    case LockNow => LockingNow(derive, w, op);
    case Change(minutes, action) => Steps(w.store, ChangeSettings(w.store, minutes, action));
    case Start(_, _, _, _) => Starting(derive, w, op);
    case Finish(_, _, _) => Finishing(derive, w, op);
    case TabClosed(_) => ClosingTab(derive, w, op);
    case TurnOnStopped(_, _, _, _) => StoppedStepKeeps(derive, w, op);
    case TurnOffStopped(_, _) => StoppedStepKeeps(derive, w, op);
    case StoringStopped(_, _) => StoppedStepKeeps(derive, w, op);
  }

  /**
   * In every run, stops and lost answers included: while a pairing is stored
   * the token last given can be had, from the sealed copy with the lock's
   * secret or else from the pairing; an unlocked record opens to exactly the
   * sealed token; the failure count is the wrong tries in a row and below five.
   */
  lemma {:induction false} EveryRunIsSafe(derive: Derive, w: World, ops: seq<Op>)
    requires TellsApart(derive) && Safe(derive, w) && Along(derive, w, ops, Possible)
    ensures Safe(derive, Run(derive, w, ops))
  {
    if ops != [] {
      AlongFront(derive, w, ops, Possible);
      EveryRunIsSafe(derive, w, ops[..|ops| - 1]);
      EveryStepKeeps(derive, Run(derive, w, ops[..|ops| - 1]), ops[|ops| - 1]);
    }
  }

  lemma InstalledIsSafe(derive: Derive, w: World)
    requires Installed(w)
    ensures Safe(derive, w) && Hidden(w.store)
  {
  }

  /**
   * Stopped after the new lock was stored, turning it on leaves the plain
   * token beside the lock: it stays hidden exactly when the stop came before
   * that or after the last write, or there was a lock before.
   */
  lemma StoppingMayExposeTheToken(derive: Derive, s: Store, now: int, how: LockMethod, chosen: string, salt: seq<byte>, k: nat)
    requires Hidden(s) && Enable(derive, s, now, how, chosen, salt).ok
    requires k <= |Enable(derive, s, now, how, chosen, salt).writes|
    ensures var e := Enable(derive, s, now, how, chosen, salt);
      Hidden(CrashAfter(s, e.writes, k))
      <==> (k <= |CurrentToken(s, now, true).writes| || k == |e.writes| || s.lock.Some?)
  {
    var c := CurrentToken(s, now, true);
    var n := |c.writes|;
    var t := ApplyAll(s, c.writes);
    var lock := NewLock(derive, how, chosen, salt, c.token.value);
    Steps(s, LockIfIdle(s, now));
    CrashInConcat(s, c.writes, LockWrites(lock, now, s.pairing.value), k);
    CurrentTokenKeeps(s, now, true, if k <= n then k else n);
    TokenLeaves(s, now, true);
    Steps(t, LockWrites(lock, now, s.pairing.value));
  }

  /**
   * The stops that leave the plain token beside a stored lock: of turning a
   * first lock on, between storing the lock and the last write; of turning it
   * off, once the token is back and before the lock goes.
   */
  predicate Exposes(w: World, op: Op) {
    match op
    case TurnOnStopped(_, _, _, k) =>
      var c := CurrentToken(w.store, w.now, true);
      w.store.pairing.Some? && w.store.lock.None? && Usable(c.token) && |c.writes| < k < |c.writes| + 3
    case TurnOffStopped(secret, k) => w.store.lock.Some? && secret == w.secret && k == 3 && w.held != ""
    case _ => false
  }

  predicate NotExposing(w: World, op: Op) { !Exposes(w, op) }

  lemma StoppedOffExposes(derive: Derive, s: Store, now: int, secret: string, held: string, k: nat)
    requires Kept(derive, s, secret, held) && Hidden(s) && s.lock.Some?
    requires k <= |Disable(derive, s, now, secret).1|
    ensures |Disable(derive, s, now, secret).1| == 5
    ensures Hidden(CrashAfter(s, Disable(derive, s, now, secret).1, k)) <==> (k != 3 || held == "")
  {
    var first := Unlock(derive, s, now, secret).1;
    var t := ApplyAll(s, first);
    RightTryLeaves(derive, s, now, secret, held);
    CrashInConcat(s, first, PutBack(t), k);
    Steps(s, first);
    Steps(t, PutBack(t));
  }

  lemma WrongOffHides(derive: Derive, s: Store, now: int, secret: string, held: string, tried: string, k: nat)
    requires TellsApart(derive) && Kept(derive, s, secret, held) && Hidden(s) && (s.lock.Some? ==> tried != secret)
    requires k <= |Disable(derive, s, now, tried).1|
    ensures Hidden(CrashAfter(s, Disable(derive, s, now, tried).1, k))
  {
    if s.lock.Some? { OnlyTheSecretOpens(derive, s, now, secret, held, tried); }
    Steps(s, Disable(derive, s, now, tried).1);
  }

  lemma StoppingOffExactly(derive: Derive, w: World, op: Op)
    requires TellsApart(derive) && Safe(derive, w) && Hidden(w.store) && op.TurnOffStopped?
    ensures Hidden(Step(derive, w, op).store) <==> !Exposes(w, op)
  {
    var writes := Disable(derive, w.store, w.now, op.secret).1;
    var k := if op.k <= |writes| then op.k else |writes|;
    if w.store.lock.Some? && op.secret == w.secret {
      StoppedOffExposes(derive, w.store, w.now, w.secret, w.held, k);
    } else {
      WrongOffHides(derive, w.store, w.now, w.secret, w.held, op.secret, k);
    }
  }

  lemma StoppingOnExactly(derive: Derive, w: World, op: Op)
    requires Safe(derive, w) && Hidden(w.store) && op.TurnOnStopped?
    ensures Hidden(Step(derive, w, op).store) <==> !Exposes(w, op)
  {
    var e := Enable(derive, w.store, w.now, op.how, op.secret, op.salt);
    var k := if op.k <= |e.writes| then op.k else |e.writes|;
    if e.ok {
      StoppingMayExposeTheToken(derive, w.store, w.now, op.how, op.secret, op.salt, k);
    } else {
      CurrentTokenKeeps(w.store, w.now, true, k);
    }
  }

  /** A step keeps the plain token from lying beside a lock exactly when it is not one of those stops. */
  lemma HiddenKeptExactly(derive: Derive, w: World, op: Op)
    requires TellsApart(derive) && Safe(derive, w) && Possible(w, op) && Hidden(w.store)
    ensures Hidden(Step(derive, w, op).store) <==> !Exposes(w, op)
  {
    if op.TurnOnStopped? {
      StoppingOnExactly(derive, w, op);
    } else if op.TurnOffStopped? {
      StoppingOffExactly(derive, w, op);
    } else if op.StoringStopped? {
      Steps(w.store, ReplaceToken(w.store, op.renewed.token, op.renewed.expiresAt));
    } else {
      EveryStepKeeps(derive, w, op);
    }
  }

  /** In a run without those stops the plain token is never stored while a lock is. */
  lemma {:induction false} LockHidesTheToken(derive: Derive, w: World, ops: seq<Op>)
    requires TellsApart(derive) && Safe(derive, w) && Hidden(w.store)
    requires Along(derive, w, ops, Possible) && Along(derive, w, ops, NotExposing)
    ensures Hidden(Run(derive, w, ops).store)
  {
    if ops != [] {
      var front := ops[..|ops| - 1];
      AlongFront(derive, w, ops, Possible);
      AlongFront(derive, w, ops, NotExposing);
      EveryRunIsSafe(derive, w, front);
      LockHidesTheToken(derive, w, front);
      HiddenKeptExactly(derive, Run(derive, w, front), ops[|ops| - 1]);
    }
  }

  /* ---- The token Helm accepts ---- */

  /** The token Helm accepts can be had. */
  ghost predicate LiveKept(derive: Derive, w: World) { Kept(derive, w.store, w.secret, w.live) }

  /** Helm made a new token, which ends the old one, and the extension was not there to store it. */
  predicate Lost(w: World, op: Op) {
    match op
    case Renew(reply, carried, _) =>
      carried.Some? && RenewalAsked(w.store, w.now) && !reply.Answered? && reply != Refused(401)
    case Restart(reply, carried, _) =>
      carried.Some? && StartupAsks(Closed(w.store), w.now) && !reply.Answered? && reply != Refused(401)
    case StoringStopped(_, k) => k == 0
    case _ => false
  }

  predicate NotLost(w: World, op: Op) { !Lost(w, op) }

  lemma LiveIsHeld(derive: Derive, w: World)
    requires Safe(derive, w)
    ensures LiveKept(derive, w) <==> (w.store.pairing.None? || w.live == w.held)
  {
  }

  lemma RenewingTells(derive: Derive, w: World, op: Op)
    requires Safe(derive, w) && Possible(w, op) && op.Renew? && w.store.pairing.Some? && w.live == w.held
    ensures var v := Step(derive, w, op); (v.store.pairing.None? || v.live == v.held) <==> !Lost(w, op)
  {
    if RenewalAsked(w.store, w.now) {
      AskedLeaves(w.store, w.now, op.reply, op.farewell);
    } else {
      NotAskedLeaves(w.store, w.now, op.reply, op.farewell);
    }
  }

  lemma StartupRenews(s: Store, now: int, reply: Reply<Renewal>, farewell: Reply<()>)
    requires s.unlocked.None?
    ensures var (minutes, action) := EffectiveSettings(s);
      var p, r := Startup(s, now, reply, farewell), RenewIfDue(s, now, reply, farewell);
      if action.SignOut? && (minutes == 0 || TimeoutDue(s, now) == Some(SignOut)) then ApplyAll(s, p.writes) == Unpaired(s)
      else p.sends == r.sends && p.writes == r.writes
  {
    assert LockIfIdle(s, now) == [];
    SigningOutLeaves(s, farewell);
    assert [] + SignOutNow(s, farewell).writes == SignOutNow(s, farewell).writes;
    assert [] + RenewIfDue(s, now, reply, farewell).writes == RenewIfDue(s, now, reply, farewell).writes;
  }

  lemma RestartingTells(derive: Derive, w: World, op: Op)
    requires Safe(derive, w) && Possible(w, op) && op.Restart? && w.store.pairing.Some? && w.live == w.held
    ensures var v := Step(derive, w, op); (v.store.pairing.None? || v.live == v.held) <==> !Lost(w, op)
  {
    var s := Closed(w.store);
    StartupRenews(s, w.now, op.reply, op.farewell);
    if RenewalAsked(s, w.now) {
      AskedLeaves(s, w.now, op.reply, op.farewell);
    } else {
      NotAskedLeaves(s, w.now, op.reply, op.farewell);
    }
  }

  /** Any step but a renewal and a finished pairing leaves both tokens and makes no pairing. */
  lemma OthersTell(derive: Derive, w: World, op: Op)
    requires TellsApart(derive) && Safe(derive, w) && Possible(w, op)
    requires !op.Renew? && !op.Restart? && !op.StoringStopped? && NotFinishing(w, op)
    ensures var v := Step(derive, w, op); v.live == w.live && v.held == w.held && (v.store.pairing.Some? ==> w.store.pairing.Some?)
  {
    match op
    case Start(key, state, tab, title) => StartLeaves(w.store, key, state, tab, title);
    case Finish(sender, origin, m) => FinishLeaves(w.store, w.now, sender, origin, m);
    case Address(origin) => AddressLeaves(w.store, origin);
    case _ => EveryStepKeeps(derive, w, op);
  }

  /**
   * A step keeps the token Helm accepts exactly when it is not a renewal that
   * Helm carried out and whose answer was not stored.
   */
  lemma LiveTokenKeptExactly(derive: Derive, w: World, op: Op)
    requires TellsApart(derive) && Safe(derive, w) && Possible(w, op) && LiveKept(derive, w)
    ensures LiveKept(derive, Step(derive, w, op)) <==> !Lost(w, op)
  {
    var v := Step(derive, w, op);
    EveryStepKeeps(derive, w, op);
    LiveIsHeld(derive, w);
    LiveIsHeld(derive, v);
    if op.StoringStopped? {
      Steps(w.store, ReplaceToken(w.store, op.renewed.token, op.renewed.expiresAt));
    } else if (op.Renew? || op.Restart?) && w.store.pairing.Some? {
      if op.Renew? { RenewingTells(derive, w, op); } else { RestartingTells(derive, w, op); }
    } else if !op.Renew? && !op.Restart? && NotFinishing(w, op) {
      OthersTell(derive, w, op);
    }
  }

  /** So in every run without such a renewal it is never lost. */
  lemma {:induction false} LiveTokenInEveryRun(derive: Derive, w: World, ops: seq<Op>)
    requires TellsApart(derive) && Safe(derive, w) && LiveKept(derive, w)
    requires Along(derive, w, ops, Possible) && Along(derive, w, ops, NotLost)
    ensures LiveKept(derive, Run(derive, w, ops))
  {
    if ops != [] {
      var front := ops[..|ops| - 1];
      AlongFront(derive, w, ops, Possible);
      AlongFront(derive, w, ops, NotLost);
      EveryRunIsSafe(derive, w, front);
      LiveTokenInEveryRun(derive, w, front);
      LiveTokenKeptExactly(derive, Run(derive, w, front), ops[|ops| - 1]);
    }
  }

  lemma LostStays(derive: Derive, w: World, op: Op)
    requires TellsApart(derive) && Safe(derive, w) && Possible(w, op) && NotFinishing(w, op)
    requires w.store.pairing.None? || w.live != w.held
    ensures var v := Step(derive, w, op); v.store.pairing.None? || v.live != v.held
  {
    EveryStepKeeps(derive, w, op);
    if w.store.pairing.None? {
      StaysUnpaired(derive, w, op);
    } else if !op.Renew? && !op.Restart? {
      OthersTell(derive, w, op);
    }
  }

  /** Once lost, the token Helm accepts is not had again until a new pairing is finished. */
  lemma {:induction false} LostUntilPairedAgain(derive: Derive, w: World, ops: seq<Op>)
    requires TellsApart(derive) && Safe(derive, w) && (w.store.pairing.None? || !LiveKept(derive, w))
    requires Along(derive, w, ops, Possible) && Along(derive, w, ops, NotFinishing)
    ensures var v := Run(derive, w, ops); v.store.pairing.None? || !LiveKept(derive, v)
  {
    if ops != [] {
      var front := ops[..|ops| - 1];
      AlongFront(derive, w, ops, Possible);
      AlongFront(derive, w, ops, NotFinishing);
      EveryRunIsSafe(derive, w, front);
      LostUntilPairedAgain(derive, w, front);
      LiveIsHeld(derive, Run(derive, w, front));
      EveryRunIsSafe(derive, w, ops);
      LiveIsHeld(derive, Run(derive, w, ops));
      LostStays(derive, Run(derive, w, front), ops[|ops| - 1]);
    } else {
      LiveIsHeld(derive, w);
    }
  }

  /* ---- Wrong tries ---- */

  function Tries(tried: seq<string>): seq<Op> {
    if tried == [] then [] else Tries(tried[..|tried| - 1]) + [Try(tried[|tried| - 1])]
  }

  lemma TriesLast(derive: Derive, w: World, tried: seq<string>)
    requires tried != []
    ensures Run(derive, w, Tries(tried)) == Step(derive, Run(derive, w, Tries(tried[..|tried| - 1])), Try(tried[|tried| - 1]))
  {
    assert Tries(tried)[..|Tries(tried)| - 1] == Tries(tried[..|tried| - 1]);
  }

  /** The world after n wrong tries that did not reach the limit. */
  function Missed(w: World, n: nat): World
    requires w.store.lock.Some?
  {
    w.(wrong := w.wrong + n, store := w.store.(lock := Some(w.store.lock.value.(failures := w.wrong + n))))
  }

  /** The browser unpaired at the fifth, and otherwise as it was but for the count. */
  ghost predicate MissedOrUnpaired(w: World, n: nat, v: World) {
    w.store.lock.Some? && if w.wrong + n == 5 then v.store == Unpaired(w.store) else v == Missed(w, n)
  }

  lemma WrongTry(derive: Derive, w: World, n: nat, v: World, tried: string)
    requires TellsApart(derive) && Safe(derive, w) && MissedOrUnpaired(w, n, v)
    requires tried != w.secret && w.wrong + n < 5
    ensures MissedOrUnpaired(w, n + 1, Step(derive, v, Try(tried)))
  {
    MissedIsKept(derive, w, n);
    TryLeaves(derive, v.store, v.now, w.secret, w.held, w.wrong + n, tried);
    MissedAgain(derive, w, n, tried);
  }

  lemma MissedIsKept(derive: Derive, w: World, n: nat)
    requires Safe(derive, w) && w.store.lock.Some? && w.wrong + n < 5
    ensures Kept(derive, Missed(w, n).store, w.secret, w.held) && Counted(Missed(w, n).store, w.wrong + n)
  {
  }

  /** What a try that only counts, or unpairs, makes of the world. */
  lemma MissedAgain(derive: Derive, w: World, n: nat, tried: string)
    requires w.store.lock.Some? && tried != w.secret && w.wrong + n < 5
    requires var v := Missed(w, n);
      var t := ApplyAll(v.store, Unlock(derive, v.store, v.now, tried).1);
      t == if w.wrong + n + 1 < 5 then v.store.(lock := Some(v.store.lock.value.(failures := w.wrong + n + 1))) else Unpaired(v.store)
    ensures MissedOrUnpaired(w, n + 1, Step(derive, Missed(w, n), Try(tried)))
  {
  }

  /** As many wrong tries as are left unpair the browser; fewer leave it as it was, but for the count. */
  lemma {:induction false} WrongTries(derive: Derive, w: World, tried: seq<string>)
    requires TellsApart(derive) && Safe(derive, w) && w.store.lock.Some?
    requires (forall i :: 0 <= i < |tried| ==> tried[i] != w.secret) && w.wrong + |tried| <= 5
    ensures MissedOrUnpaired(w, |tried|, Run(derive, w, Tries(tried)))
  {
    if tried == [] {
      assert Missed(w, 0) == w;
    } else {
      var front := tried[..|tried| - 1];
      WrongTries(derive, w, front);
      TriesLast(derive, w, tried);
      WrongTry(derive, w, |front|, Run(derive, w, Tries(front)), tried[|front|]);
    }
  }

  predicate NotFinishing(w: World, op: Op) {
    op.Finish? ==> !Accepts(w.store, op.sender, op.origin, op.message)
  }

  function Sent(derive: Derive, w: World, ops: seq<Op>): seq<Request> {
    if ops == [] then []
    else
      var v := Run(derive, w, ops[..|ops| - 1]);
      Sent(derive, w, ops[..|ops| - 1]) + Outcomes(derive, v.store, v.now, ops[|ops| - 1]).sends
  }

  lemma UnpairedSendsNothing(derive: Derive, w: World, op: Op)
    requires Safe(derive, w) && w.store.pairing.None?
    ensures Outcomes(derive, w.store, w.now, op).sends == []
  {
  }

  lemma StaysUnpaired(derive: Derive, w: World, op: Op)
    requires TellsApart(derive) && Safe(derive, w) && w.store.pairing.None? && Possible(w, op) && NotFinishing(w, op)
    ensures Step(derive, w, op).store.pairing.None?
  {
    EveryStepKeeps(derive, w, op);
    match op
    case Start(key, state, tab, title) => StartLeaves(w.store, key, state, tab, title);
    case Finish(sender, origin, m) => FinishLeaves(w.store, w.now, sender, origin, m);
    case Address(origin) => AddressLeaves(w.store, origin);
    case _ =>
  }

  /** Unpaired, by a fifth wrong try or otherwise, the extension sends nothing until a new pairing is finished. */
  lemma {:induction false} NothingSentUnpaired(derive: Derive, w: World, ops: seq<Op>)
    requires TellsApart(derive) && Safe(derive, w) && w.store.pairing.None?
    requires Along(derive, w, ops, Possible) && Along(derive, w, ops, NotFinishing)
    ensures Run(derive, w, ops).store.pairing.None? && Sent(derive, w, ops) == []
  {
    if ops != [] {
      var front := ops[..|ops| - 1];
      AlongFront(derive, w, ops, Possible);
      AlongFront(derive, w, ops, NotFinishing);
      NothingSentUnpaired(derive, w, front);
      EveryRunIsSafe(derive, w, front);
      var v := Run(derive, w, front);
      UnpairedSendsNothing(derive, v, ops[|ops| - 1]);
      StaysUnpaired(derive, v, ops[|ops| - 1]);
    }
  }

  /* ---- What a request carries ---- */

  /** With a token kept, the stored one is that token. */
  lemma StoredIsKept(derive: Derive, s: Store, secret: string, live: string, r: Request)
    requires Kept(derive, s, secret, live) && s.pairing.Some? && CarriesStored(s, r)
    ensures r.token == live
  {
  }

  /** Every request is sent to the saved address, with the device key and the token last given; Helm accepts that exactly while it has not been lost. */
  lemma RequestsCarryTheLiveToken(derive: Derive, w: World, op: Op, r: Request)
    requires Safe(derive, w) && r in Outcomes(derive, w.store, w.now, op).sends
    ensures w.store.pairing.Some? && r.token == w.held && (r.token == w.live <==> LiveKept(derive, w))
    ensures w.store.server == Some(r.server) && w.store.deviceKey == Some(r.key)
  {
    var s := w.store;
    match op
    case MakeCall(passive, answer, farewell) => CallSends(s, w.now, passive, answer, farewell);
    case Renew(reply, _, farewell) => RenewalSends(s, w.now, reply, farewell);
    case Leave(farewell) => SignOutSends(s, farewell);
    case Alarm(farewell) => SignOutSends(s, farewell);
    case Restart(reply, _, farewell) =>
      assert LockIfIdle(Closed(s), w.now) == [];
      SignOutSends(Closed(s), farewell);
      RenewalSends(Closed(s), w.now, reply, farewell);
      assert CarriesStored(Closed(s), r) ==> CarriesStored(s, r);
    case _ =>
    if s.pairing.Some? {
      StoredIsKept(derive, s, w.secret, w.held, r);
      LiveIsHeld(derive, w);
    }
  }

  /** Signing out by hand tells Helm, with the token held, exactly when there is an address and a pairing, and no lock in the way. */
  lemma LeavingTellsHelm(derive: Derive, w: World, farewell: Reply<()>)
    requires Safe(derive, w) && w.held != ""
    ensures var o := Outcomes(derive, w.store, w.now, Leave(farewell));
      && o.store == Unpaired(w.store)
      && (o.sends != [] <==> w.store.server.Some? && w.store.pairing.Some? && (w.store.lock.Some? ==> w.store.unlocked.Some?))
      && (o.sends != [] ==> |o.sends| == 1 && o.sends[0].token == w.held && w.store.server == Some(o.sends[0].server))
  {
    SigningOutLeaves(w.store, farewell);
    SignOutTells(w.store, farewell);
    if w.store.pairing.Some? && (w.store.lock.Some? ==> w.store.unlocked.Some?) { assert AtHand(w.store, w.held); }
  }

  /* ---- Pairings ---- */

  /** Every accepted state was sent out, once, and the one in progress has not been accepted. */
  ghost predicate States(w: World) {
    && (w.store.pending.Some? ==>
      w.store.pending.value.state in w.offered && w.store.pending.value.state !in w.accepted && w.store.pendingKey.Some?)
    && (forall a <- w.accepted :: a in w.offered)
    && (forall i, j :: 0 <= i < j < |w.accepted| ==> w.accepted[i] != w.accepted[j])
  }

  /** The key that went out with this state is the one in this slot. */
  ghost predicate KeyOf(w: World, state: string, slot: Option<DeviceKey>) {
    state in w.offered && slot == Some(w.offered[state])
  }

  ghost predicate KeysMatch(w: World) {
    && (w.store.pending.Some? ==> KeyOf(w, w.store.pending.value.state, w.store.pendingKey))
    && (w.store.pairing.Some? ==> |w.accepted| > 0 && KeyOf(w, w.accepted[|w.accepted| - 1], w.store.deviceKey))
  }

  /** The address saved is the one the pairing came from. */
  ghost predicate IssuerMatches(w: World) {
    w.store.pairing.Some? ==> w.store.server == Some(w.issuer)
  }

  /** A pairing started in a tab without an id leaves its key beside an older pairing's record. */
  predicate Orderly(w: World, op: Op) {
    op.Start? && Usable(w.store.server) ==> op.tab.Some? || w.store.pending.None?
  }

  /** The address was not changed between starting the pairing and finishing it. */
  predicate InPlace(w: World, op: Op) {
    op.Finish? && Accepts(w.store, op.sender, op.origin, op.message) ==> w.store.server == Some(op.origin)
  }

  /** A step that starts, finishes and moves no pairing. */
  predicate Quiet(op: Op) { !op.Start? && !op.Finish? && !op.Address? }

  lemma QuietStep(derive: Derive, w: World, op: Op)
    requires TellsApart(derive) && Safe(derive, w) && Possible(w, op) && Quiet(op)
    ensures var v := Step(derive, w, op);
      Beside(w.store, v.store) && v.offered == w.offered && v.accepted == w.accepted && v.issuer == w.issuer
  {
    EveryStepKeeps(derive, w, op);
  }

  lemma StatesBeside(w: World, v: World)
    requires States(w) && Beside(w.store, v.store) && v.offered == w.offered && v.accepted == w.accepted
    ensures States(v)
  {
  }

  lemma FinishKeepsStates(derive: Derive, w: World, op: Op)
    requires States(w) && op.Finish?
    ensures States(Step(derive, w, op))
  {
    FinishLeaves(w.store, w.now, op.sender, op.origin, op.message);
  }

  lemma StatesKept(derive: Derive, w: World, op: Op)
    requires TellsApart(derive) && Safe(derive, w) && Possible(w, op) && States(w)
    ensures States(Step(derive, w, op))
  {
    match op
    case Start(key, state, tab, title) => StartLeaves(w.store, key, state, tab, title);
    case Finish(_, _, _) => FinishKeepsStates(derive, w, op);
    case Address(origin) => AddressLeaves(w.store, origin);
    case _ =>
      QuietStep(derive, w, op);
      StatesBeside(w, Step(derive, w, op));
  }

  /** This step of the run started a pairing with this state, in this tab, with the Helm at this address. */
  ghost predicate StartedAt(derive: Derive, w: World, ops: seq<Op>, i: int, state: string, tab: nat, origin: string) {
    && 0 <= i < |ops| && ops[i].Start? && ops[i].state == state && ops[i].tab == Some(tab)
    && origin != "" && Run(derive, w, ops[..i]).store.server == Some(origin)
  }

  ghost predicate WasStarted(derive: Derive, w: World, ops: seq<Op>, state: string, tab: nat, origin: string) {
    exists i :: StartedAt(derive, w, ops, i, state, tab, origin)
  }

  lemma StillStarted(derive: Derive, w: World, ops: seq<Op>, state: string, tab: nat, origin: string)
    requires ops != [] && WasStarted(derive, w, ops[..|ops| - 1], state, tab, origin)
    ensures WasStarted(derive, w, ops, state, tab, origin)
  {
    var front := ops[..|ops| - 1];
    var i :| StartedAt(derive, w, front, i, state, tab, origin);
    assert front[..i] == ops[..i];
    assert StartedAt(derive, w, ops, i, state, tab, origin);
  }

  ghost predicate PendingStarted(derive: Derive, w: World, ops: seq<Op>) {
    var p := Run(derive, w, ops).store.pending;
    p.Some? ==> WasStarted(derive, w, ops, p.value.state, p.value.tabId, p.value.origin)
  }

  /** What a step may leave of the pairing in progress. */
  predicate KeptOrStarted(before: Option<PendingPairing>, p: Option<PendingPairing>, server: Option<string>, op: Op) {
    p == before || p.None?
    || (op.Start? && op.tab == Some(p.value.tabId) && op.state == p.value.state && p.value.origin != "" && server == Some(p.value.origin))
  }

  /** A step leaves the record of the pairing in progress, drops it, or starts one. */
  lemma PendingStep(derive: Derive, w: World, op: Op)
    requires TellsApart(derive) && Safe(derive, w) && Possible(w, op)
    ensures KeptOrStarted(w.store.pending, Step(derive, w, op).store.pending, w.store.server, op)
  {
    match op
    case Start(key, state, tab, title) => StartLeaves(w.store, key, state, tab, title);
    case Finish(sender, origin, m) => FinishLeaves(w.store, w.now, sender, origin, m);
    case Address(origin) => AddressLeaves(w.store, origin);
    case _ => QuietStep(derive, w, op);
  }

  lemma PendingNext(derive: Derive, w: World, ops: seq<Op>, u: World, v: World)
    requires ops != [] && u == Run(derive, w, ops[..|ops| - 1]) && v == Run(derive, w, ops)
    requires PendingStarted(derive, w, ops[..|ops| - 1]) && KeptOrStarted(u.store.pending, v.store.pending, u.store.server, ops[|ops| - 1])
    ensures PendingStarted(derive, w, ops)
  {
    var p := v.store.pending;
    if p.Some? {
      if p == u.store.pending {
        StillStarted(derive, w, ops, p.value.state, p.value.tabId, p.value.origin);
      } else {
        assert StartedAt(derive, w, ops, |ops| - 1, p.value.state, p.value.tabId, p.value.origin);
      }
    }
  }

  lemma {:induction false} PendingWasStarted(derive: Derive, w: World, ops: seq<Op>)
    requires TellsApart(derive) && Installed(w) && Along(derive, w, ops, Possible)
    ensures PendingStarted(derive, w, ops)
  {
    if ops != [] {
      var front := ops[..|ops| - 1];
      AlongFront(derive, w, ops, Possible);
      InstalledIsSafe(derive, w);
      EveryRunIsSafe(derive, w, front);
      PendingWasStarted(derive, w, front);
      PendingStep(derive, Run(derive, w, front), ops[|ops| - 1]);
      PendingNext(derive, w, ops, Run(derive, w, front), Run(derive, w, ops));
    }
  }

  /** After any run from installation, a message is accepted only from the tab and the Helm that its state was sent out with. */
  lemma AcceptedAsStarted(derive: Derive, w: World, ops: seq<Op>, tab: nat, origin: string, m: PairMessage)
    requires TellsApart(derive) && Installed(w) && Along(derive, w, ops, Possible)
    requires var v := Run(derive, w, ops); Step(derive, v, Finish(tab, origin, m)).accepted != v.accepted
    ensures WasStarted(derive, w, ops, m.state, tab, origin) && m.token.Some?
  {
    PendingWasStarted(derive, w, ops);
  }

  lemma StartingKeepsKeysExactly(derive: Derive, w: World, op: Op)
    requires op.Start? && Possible(w, op) && States(w) && KeysMatch(w)
    ensures KeysMatch(Step(derive, w, op)) <==> Orderly(w, op)
  {
    StartLeaves(w.store, op.key, op.state, op.tab, op.title);
    if w.store.pending.Some? { assert w.offered[w.store.pending.value.state] in w.offered.Values; }
  }

  /** A step keeps every key with its state exactly when it does not leave a new key beside an older record. */
  lemma KeysKeptExactly(derive: Derive, w: World, op: Op)
    requires TellsApart(derive) && Safe(derive, w) && Possible(w, op) && States(w) && KeysMatch(w)
    ensures KeysMatch(Step(derive, w, op)) <==> Orderly(w, op)
  {
    if op.Start? { StartingKeepsKeysExactly(derive, w, op); } else { OthersKeepKeys(derive, w, op); }
  }

  /**
   * After a start that left its key beside an older record, finishing the
   * older pairing stores the newer key, not the one sent out with its state.
   */
  lemma FinishingStoresAnotherKey(derive: Derive, w: World, op: Op, m: PairMessage)
    requires Possible(w, op) && States(w) && KeysMatch(w) && !Orderly(w, op)
    requires m.state == w.store.pending.value.state && m.token.Some?
    ensures var p := w.store.pending.value;
      var v := Step(derive, Step(derive, w, op), Finish(p.tabId, p.origin, m));
      && v.accepted == w.accepted + [m.state] && v.store.pairing.Some? && v.store.deviceKey == Some(op.key)
      && !KeyOf(v, m.state, v.store.deviceKey)
  {
    var p, u := w.store.pending.value, Step(derive, w, op);
    StartLeaves(w.store, op.key, op.state, op.tab, op.title);
    FinishLeaves(u.store, u.now, p.tabId, p.origin, m);
    assert w.offered[m.state] in w.offered.Values;
  }

  lemma KeysBeside(w: World, v: World)
    requires KeysMatch(w) && Beside(w.store, v.store) && v.offered == w.offered && v.accepted == w.accepted
    ensures KeysMatch(v)
  {
  }

  lemma FinishKeepsKeys(derive: Derive, w: World, op: Op)
    requires KeysMatch(w) && op.Finish?
    ensures KeysMatch(Step(derive, w, op))
  {
    FinishLeaves(w.store, w.now, op.sender, op.origin, op.message);
  }

  lemma AddressKeepsKeys(derive: Derive, w: World, op: Op)
    requires KeysMatch(w) && op.Address?
    ensures KeysMatch(Step(derive, w, op))
  {
    AddressLeaves(w.store, op.origin);
  }

  lemma OthersKeepKeys(derive: Derive, w: World, op: Op)
    requires TellsApart(derive) && Safe(derive, w) && Possible(w, op) && KeysMatch(w) && !op.Start?
    ensures KeysMatch(Step(derive, w, op))
  {
    if op.Finish? {
      FinishKeepsKeys(derive, w, op);
    } else if op.Address? {
      AddressKeepsKeys(derive, w, op);
    } else {
      QuietStep(derive, w, op);
      KeysBeside(w, Step(derive, w, op));
    }
  }

  /** A step keeps the pairing with its address exactly when it finishes no pairing under another. */
  lemma IssuerKeptExactly(derive: Derive, w: World, op: Op)
    requires TellsApart(derive) && Safe(derive, w) && Possible(w, op) && IssuerMatches(w)
    ensures IssuerMatches(Step(derive, w, op)) <==> InPlace(w, op)
  {
    match op
    case Start(key, state, tab, title) => StartLeaves(w.store, key, state, tab, title);
    case Finish(sender, origin, m) => FinishLeaves(w.store, w.now, sender, origin, m);
    case Address(origin) => AddressLeaves(w.store, origin);
    case _ => QuietStep(derive, w, op);
  }

  /** No state is accepted twice, and none that was not sent out, in any run. */
  lemma {:induction false} EachPairingOnce(derive: Derive, w: World, ops: seq<Op>)
    requires TellsApart(derive) && Safe(derive, w) && States(w) && Along(derive, w, ops, Possible)
    ensures States(Run(derive, w, ops))
  {
    if ops != [] {
      var front := ops[..|ops| - 1];
      AlongFront(derive, w, ops, Possible);
      EveryRunIsSafe(derive, w, front);
      EachPairingOnce(derive, w, front);
      StatesKept(derive, Run(derive, w, front), ops[|ops| - 1]);
    }
  }

  /** From an installed extension, a stored pairing's device key is the one sent out with the last state accepted. */
  lemma {:induction false} PairingsMatch(derive: Derive, w: World, ops: seq<Op>)
    requires TellsApart(derive) && Installed(w) && Along(derive, w, ops, Possible) && Along(derive, w, ops, Orderly)
    ensures KeysMatch(Run(derive, w, ops))
  {
    if ops != [] {
      var front := ops[..|ops| - 1];
      AlongFront(derive, w, ops, Possible);
      AlongFront(derive, w, ops, Orderly);
      InstalledIsSafe(derive, w);
      EveryRunIsSafe(derive, w, front);
      EachPairingOnce(derive, w, front);
      PairingsMatch(derive, w, front);
      KeysKeptExactly(derive, Run(derive, w, front), ops[|ops| - 1]);
    }
  }

  /** From an installed extension, a stored pairing came from the address saved, if no pairing is finished after the address changed. */
  lemma {:induction false} IssuersMatch(derive: Derive, w: World, ops: seq<Op>)
    requires TellsApart(derive) && Installed(w) && Along(derive, w, ops, Possible) && Along(derive, w, ops, InPlace)
    ensures IssuerMatches(Run(derive, w, ops))
  {
    if ops != [] {
      var front := ops[..|ops| - 1];
      AlongFront(derive, w, ops, Possible);
      AlongFront(derive, w, ops, InPlace);
      InstalledIsSafe(derive, w);
      EveryRunIsSafe(derive, w, front);
      IssuersMatch(derive, w, front);
      IssuerKeptExactly(derive, Run(derive, w, front), ops[|ops| - 1]);
    }
  }

  /** The request carries the key sent out with the last accepted state. */
  ghost predicate SignedAsPaired(v: World, r: Request) {
    |v.accepted| > 0 && KeyOf(v, v.accepted[|v.accepted| - 1], Some(r.key))
  }

  /**
   * After any run from installation, whatever is done next: a request carries
   * the live token if no renewal was lost, the key sent out with the accepted
   * state if no key was left beside an older record, and goes to the address
   * that state came from if the address did not change in between.
   */
  lemma EveryRequestIsAsPaired(derive: Derive, w: World, ops: seq<Op>, op: Op, r: Request)
    requires TellsApart(derive) && Installed(w) && Along(derive, w, ops, Possible)
    requires var v := Run(derive, w, ops); r in Outcomes(derive, v.store, v.now, op).sends
    ensures var v := Run(derive, w, ops);
      && (Along(derive, w, ops, NotLost) ==> r.token == v.live)
      && (Along(derive, w, ops, Orderly) ==> SignedAsPaired(v, r))
      && (Along(derive, w, ops, InPlace) ==> r.server == v.issuer)
  {
    InstalledIsSafe(derive, w);
    EveryRunIsSafe(derive, w, ops);
    RequestsCarryTheLiveToken(derive, Run(derive, w, ops), op, r);
    if Along(derive, w, ops, NotLost) { LiveTokenInEveryRun(derive, w, ops); }
    if Along(derive, w, ops, Orderly) { PairingsMatch(derive, w, ops); }
    if Along(derive, w, ops, InPlace) { IssuersMatch(derive, w, ops); }
  }

  /* ---- When the lock falls due ---- */

  /** What is unlocked was unlocked, or used, when it says. */
  ghost predicate Awake(s: Store, active: Option<int>) {
    s.unlocked.Some? ==> active == Some(s.unlocked.value.lastActive)
  }

  lemma TokenAwake(s: Store, now: int, touch: bool)
    requires UnlockedMatches(s)
    ensures var c := CurrentToken(s, now, touch);
      var t := ApplyAll(s, c.writes);
      t.unlocked.Some? ==> s.unlocked.Some? && t.unlocked.value.lastActive == if c.used then now else s.unlocked.value.lastActive
  {
    Steps(s, LockIfIdle(s, now));
    Steps(s, CurrentToken(s, now, touch).writes);
  }

  lemma CallAwake<T>(s: Store, now: int, passive: bool, reply: Reply<T>, farewell: Reply<()>)
    requires UnlockedMatches(s)
    ensures var c := Call(s, now, passive, reply, farewell);
      var t := ApplyAll(s, c.writes);
      t.unlocked.Some? ==> s.unlocked.Some? && t.unlocked.value.lastActive == if c.used then now else s.unlocked.value.lastActive
  {
    var current := CurrentToken(s, now, !passive);
    SigningOutLeaves(s, farewell);
    TokenAwake(s, now, !passive);
    ApplyConcat(s, current.writes, Settled(reply).0);
    ClearingLeaves(ApplyAll(s, current.writes));
  }

  lemma StoringAwake(s: Store, token: string, expiresAt: int)
    ensures var t := ApplyAll(s, ReplaceToken(s, token, expiresAt));
      t.unlocked.Some? ==> s.unlocked.Some? && t.unlocked.value.lastActive == s.unlocked.value.lastActive
  {
    Steps(s, ReplaceToken(s, token, expiresAt));
  }

  lemma AskingAwake(s: Store, now: int, reply: Reply<Renewal>, farewell: Reply<()>)
    requires UnlockedMatches(s)
    ensures var a := AskRenewal(s, now, reply, farewell);
      var t := ApplyAll(s, a.writes);
      t.unlocked.Some? ==> s.unlocked.Some? && t.unlocked.value.lastActive == if a.used then now else s.unlocked.value.lastActive
  {
    var c := Call(s, now, false, reply, farewell);
    CallAwake(s, now, false, reply, farewell);
    ApplyConcat(s, c.writes, Stored(s, c));
    if c.result.Done? { StoringAwake(ApplyAll(s, c.writes), c.result.value.token, c.result.value.expiresAt); }
  }

  lemma RenewingAwake(s: Store, now: int, reply: Reply<Renewal>, farewell: Reply<()>)
    requires UnlockedMatches(s)
    ensures var p := RenewIfDue(s, now, reply, farewell);
      var t := ApplyAll(s, p.writes);
      t.unlocked.Some? ==> s.unlocked.Some? && t.unlocked.value.lastActive == if p.used then now else s.unlocked.value.lastActive
  {
    if s.pairing.Some? {
      RenewalInTwo(s, now, reply, farewell);
      TokenAwake(s, now, true);
      TokenLeaves(s, now, true);
      AskingAwake(ApplyAll(s, RenewalCheck(s, now).writes), now, reply, farewell);
    }
  }

  lemma TryingAwake(derive: Derive, w: World, op: Op)
    requires TellsApart(derive) && Safe(derive, w) && op.Try? && Awake(w.store, w.active)
    ensures var v := Step(derive, w, op); Awake(v.store, v.active)
  {
    Steps(w.store, Unlock(derive, w.store, w.now, op.secret).1);
    if w.store.lock.Some? { OnlyTheSecretOpens(derive, w.store, w.now, w.secret, w.held, op.secret); }
  }

  lemma TurningOnAwake(derive: Derive, w: World, op: Op)
    requires Safe(derive, w) && op.TurnOn? && Awake(w.store, w.active)
    ensures var v := Step(derive, w, op); Awake(v.store, v.active)
  {
    TokenAwake(w.store, w.now, true);
    if Enable(derive, w.store, w.now, op.how, op.secret, op.salt).ok { EnabledWhole(derive, w.store, w.now, op.how, op.secret, op.salt); }
  }

  lemma TurningOffAwake(derive: Derive, w: World, op: Op)
    requires TellsApart(derive) && Safe(derive, w) && op.TurnOff? && Awake(w.store, w.active)
    ensures var v := Step(derive, w, op); Awake(v.store, v.active)
  {
    TryLeaves(derive, w.store, w.now, w.secret, w.held, w.wrong, op.secret);
    var first := Unlock(derive, w.store, w.now, op.secret).1;
    var t := ApplyAll(w.store, first);
    ApplyConcat(w.store, first, PutBack(t));
    Steps(t, PutBack(t));
  }

  /** Pairing, and changing the address or the settings, leaves what is unlocked as it was or locks it. */
  lemma PairingAwake(derive: Derive, w: World, op: Op)
    requires Awake(w.store, w.active) && (op.Address? || op.Change? || op.Start? || op.Finish? || op.TabClosed?)
    ensures var v := Step(derive, w, op); Awake(v.store, v.active)
  {
    match op
    case Address(origin) => AddressLeaves(w.store, origin);
    case Change(minutes, action) => Steps(w.store, ChangeSettings(w.store, minutes, action));
    case Start(key, state, tab, title) => StartLeaves(w.store, key, state, tab, title);
    case Finish(sender, origin, m) => FinishLeaves(w.store, w.now, sender, origin, m);
    case TabClosed(closed) => Steps(w.store, TabRemoved(w.store, closed));
  }

  /** Every step keeps the time of the last unlock or use with what is unlocked. */
  lemma StepAwake(derive: Derive, w: World, op: Op)
    requires TellsApart(derive) && Safe(derive, w) && Possible(w, op) && Awake(w.store, w.active)
    ensures var v := Step(derive, w, op); Awake(v.store, v.active)
  {
    match op
    case TurnOn(_, _, _) => TurningOnAwake(derive, w, op);
    case Try(_) => TryingAwake(derive, w, op);
    case TurnOff(_) => TurningOffAwake(derive, w, op);
    case LockNow => Steps(w.store, [SetUnlocked(None)]);
    case MakeCall(passive, answer, farewell) => CallAwake(w.store, w.now, passive, answer, farewell);
    case Renew(reply, _, farewell) => RenewingAwake(w.store, w.now, reply, farewell);
    case Leave(farewell) => SigningOutLeaves(w.store, farewell);
    case Alarm(farewell) => AlarmLeaves(w.store, w.now, farewell);
    case Restart(reply, _, farewell) => RestartingAwake(derive, w, op);
    case Address(_) => PairingAwake(derive, w, op);
    case Change(_, _) => PairingAwake(derive, w, op);
    case Start(_, _, _, _) => PairingAwake(derive, w, op);
    case Finish(_, _, _) => PairingAwake(derive, w, op);
    case TabClosed(_) => PairingAwake(derive, w, op);
    case _ =>
  }

  lemma RestartingAwake(derive: Derive, w: World, op: Op)
    requires Safe(derive, w) && op.Restart?
    ensures Step(derive, w, op).store.unlocked.None?
  {
    StartupRenews(Closed(w.store), w.now, op.reply, op.farewell);
    RenewingAwake(Closed(w.store), w.now, op.reply, op.farewell);
  }

  lemma {:induction false} AwakeInEveryRun(derive: Derive, w: World, ops: seq<Op>)
    requires TellsApart(derive) && Installed(w) && Along(derive, w, ops, Possible)
    ensures var v := Run(derive, w, ops); Awake(v.store, v.active)
  {
    if ops != [] {
      var front := ops[..|ops| - 1];
      AlongFront(derive, w, ops, Possible);
      InstalledIsSafe(derive, w);
      EveryRunIsSafe(derive, w, front);
      AwakeInEveryRun(derive, w, front);
      StepAwake(derive, Run(derive, w, front), ops[|ops| - 1]);
    }
  }

  /** The minute's alarm leaves the lock closed, and no token is handed out, to a person or to a page. */
  ghost predicate FallsLocked(derive: Derive, v: World, farewell: Reply<()>) {
    && Step(derive, v, Alarm(farewell)).store == v.store.(unlocked := None)
    && forall touch :: CurrentToken(v.store, v.now, touch).token == None
  }

  /** The alarm leaves everything, and the token is handed out. */
  ghost predicate StaysOpen(derive: Derive, v: World, farewell: Reply<()>) {
    && Step(derive, v, Alarm(farewell)) == v
    && forall touch :: CurrentToken(v.store, v.now, touch).token == Some(v.held)
  }

  lemma FallsLockedWhenDue(derive: Derive, v: World, farewell: Reply<()>)
    requires TimeoutDue(v.store, v.now) == Some(LockIt)
    ensures FallsLocked(derive, v, farewell)
  {
    AlarmLeaves(v.store, v.now, farewell);
    forall touch ensures CurrentToken(v.store, v.now, touch).token == None { NoTokenOnceDue(v.store, v.now, touch); }
  }

  lemma StaysOpenUntilDue(derive: Derive, v: World, farewell: Reply<()>)
    requires Safe(derive, v) && v.store.unlocked.Some? && TimeoutDue(v.store, v.now).None?
    ensures StaysOpen(derive, v, farewell)
  {
    AlarmLeaves(v.store, v.now, farewell);
    forall touch ensures CurrentToken(v.store, v.now, touch).token == Some(v.held) {
      Steps(v.store, LockIfIdle(v.store, v.now));
      TokenIsTheOne(derive, v.store, v.now, touch, v.secret, v.held);
    }
  }

  lemma LockDueExactly(v: World)
    requires v.store.lock.Some? && v.store.unlocked.Some? && Awake(v.store, v.active)
    ensures var (minutes, action) := EffectiveSettings(v.store);
      action.LockIt? ==> TimeoutDue(v.store, v.now) == if minutes > 0 && v.now - v.active.value > minutes * 60_000 then Some(LockIt) else None
  {
  }

  /**
   * Over any run, while a lock is on and open and the timeout is to lock it:
   * it falls locked once more than the minutes set have passed since the last
   * unlock or use, and until then, and with no minutes set, it stays open.
   */
  lemma LockFollowsUse(derive: Derive, w: World, ops: seq<Op>, farewell: Reply<()>)
    requires TellsApart(derive) && Installed(w) && Along(derive, w, ops, Possible)
    ensures var v := Run(derive, w, ops);
      var (minutes, action) := EffectiveSettings(v.store);
      v.store.lock.Some? && v.store.unlocked.Some? && action.LockIt? ==>
        && v.active.Some?
        && if minutes > 0 && v.now - v.active.value > minutes * 60_000 then FallsLocked(derive, v, farewell) else StaysOpen(derive, v, farewell)
  {
    InstalledIsSafe(derive, w);
    EveryRunIsSafe(derive, w, ops);
    AwakeInEveryRun(derive, w, ops);
    var v := Run(derive, w, ops);
    if v.store.lock.Some? && v.store.unlocked.Some? && EffectiveSettings(v.store).1.LockIt? {
      LockDueExactly(v);
      if TimeoutDue(v.store, v.now).Some? { FallsLockedWhenDue(derive, v, farewell); } else { StaysOpenUntilDue(derive, v, farewell); }
    }
  }

  /** Over any run, a sign-out falls due no sooner than the limit less the throttle after the last use, and once the limit is passed. */
  lemma SignOutFollowsUse(derive: Derive, w: World, ops: seq<Op>)
    requires TellsApart(derive) && Installed(w) && Along(derive, w, ops, Possible)
    ensures var v := Run(derive, w, ops);
      var (minutes, action) := EffectiveSettings(v.store);
      v.store.pairing.Some? && action.SignOut? && minutes > 0 ==>
        && v.lastUse.Some?
        && (TimeoutDue(v.store, v.now) == Some(SignOut) ==> v.now - v.lastUse.value > minutes * 60_000 - 30_000)
        && (v.now - v.lastUse.value > minutes * 60_000 ==> TimeoutDue(v.store, v.now) == Some(SignOut))
  {
    InstalledIsSafe(derive, w);
    EveryRunIsSafe(derive, w, ops);
  }
}
