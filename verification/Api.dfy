/**
 * Calling Helm, signing out and renewing (extension/src/api.ts, the alarm and
 * startup handlers of background.ts, the address form of settings.ts). Each
 * operation is what it writes, in order, and what it sends; Helm's answers
 * are parameters.
 */
module Api {
  import opened Names
  import opened ExtensionStore
  import opened Lock

  datatype Request = Request(server: string, key: DeviceKey, token: string)

  datatype Reply<T> = NoAnswer | Refused(status: nat) | Answered(value: T)

  datatype Result<T> = Done(value: T) | NotPaired | SignedOut | Locked | Failed(status: nat)

  datatype Plan<T> = Plan(writes: seq<Write>, sends: seq<Request>, used: bool, result: Result<T>)

  /** The caller has an address, a pairing and a key. */
  predicate Paired(s: Store) {
    Usable(s.server) && s.pairing.Some? && s.deviceKey.Some?
  }

  /** A 401 means that the pairing is gone, and it is forgotten here too. */
  function Settled<T>(reply: Reply<T>): (seq<Write>, Result<T>) {
    match reply
    case Answered(v) => ([], Done(v))
    case Refused(status) => if status == 401 then (ClearPairing(), NotPaired) else ([], Failed(status))
    case NoAnswer => ([], Failed(0))
  }

  function SignOutNow(s: Store, farewell: Reply<()>): Plan<()> {
    var token := TokenForSignOut(s);
    if Usable(s.server) && s.deviceKey.Some? && Usable(token) then
      Plan(Settled(farewell).0 + ClearPairing(), [Request(s.server.value, s.deviceKey.value, token.value)], false, Done(()))
    else Plan(ClearPairing(), [], false, Done(()))
  }

  function Call<T>(s: Store, now: int, passive: bool, reply: Reply<T>, farewell: Reply<()>): Plan<T> {
    if !Paired(s) then Plan([], [], false, NotPaired)
    else if TimeoutDue(s, now) == Some(SignOut) then
      var out := SignOutNow(s, farewell);
      Plan(out.writes, out.sends, false, SignedOut)
    else
      var current := CurrentToken(s, now, !passive);
      if !Usable(current.token) then Plan(current.writes, [], current.used, Locked)
      else
        var (writes, result) := Settled(reply);
        Plan(current.writes + writes, [Request(s.server.value, s.deviceKey.value, current.token.value)], current.used, result)
  }

  datatype Renewal = Renewal(token: string, expiresAt: int)

  const WEEK: int := 7 * 24 * 60 * 60 * 1000

  /** With a lock on, asking whether it is locked asks for the token, and that counts as a use. */
  function RenewalCheck(s: Store, now: int): TokenResult {
    if s.lock.Some? then CurrentToken(s, now, true) else TokenResult(None, [], false)
  }

  function Stored(t: Store, c: Plan<Renewal>): seq<Write> {
    if c.result.Done? then ReplaceToken(ApplyAll(t, c.writes), c.result.value.token, c.result.value.expiresAt) else []
  }

  function AskRenewal(t: Store, now: int, reply: Reply<Renewal>, farewell: Reply<()>): Plan<()> {
    var c := Call(t, now, false, reply, farewell);
    Plan(c.writes + Stored(t, c), c.sends, c.used, Done(()))
  }

  function RenewIfDue(s: Store, now: int, reply: Reply<Renewal>, farewell: Reply<()>): Plan<()> {
    if s.pairing.None? then Plan([], [], false, Done(()))
    else
      var check := RenewalCheck(s, now);
      if (s.lock.Some? && !Usable(check.token)) || s.pairing.value.expiresAt - now > WEEK then
        Plan(check.writes, [], check.used, Done(()))
      else
        var asked := AskRenewal(ApplyAll(s, check.writes), now, reply, farewell);
        Plan(check.writes + asked.writes, asked.sends, check.used || asked.used, Done(()))
  }

  /** A renewal's request goes out: this much does not depend on what Helm answers. */
  predicate RenewalAsked(s: Store, now: int) {
    var check := RenewalCheck(s, now);
    var t := ApplyAll(s, check.writes);
    && s.pairing.Some? && s.pairing.value.expiresAt - now <= WEEK && (s.lock.Some? ==> Usable(check.token))
    && Paired(t) && TimeoutDue(t, now) != Some(SignOut) && Usable(CurrentToken(t, now, true).token)
  }

  predicate StartupAsks(s: Store, now: int) {
    var (minutes, action) := EffectiveSettings(s);
    !(action.SignOut? && (minutes == 0 || TimeoutDue(s, now) == Some(SignOut))) && RenewalAsked(s, now)
  }

  /** A renewal is its check, and then asking Helm if there is something to renew and a token to ask with. */
  lemma RenewalInTwo(s: Store, now: int, reply: Reply<Renewal>, farewell: Reply<()>)
    requires s.pairing.Some?
    ensures var check, p := RenewalCheck(s, now), RenewIfDue(s, now, reply, farewell);
      var asked := AskRenewal(ApplyAll(s, check.writes), now, reply, farewell);
      if (s.lock.Some? && !Usable(check.token)) || s.pairing.value.expiresAt - now > WEEK then
        p.writes == check.writes && p.sends == []
      else
        p.writes == check.writes + asked.writes && p.sends == asked.sends
        && ApplyAll(s, p.writes) == ApplyAll(ApplyAll(s, check.writes), asked.writes)
  {
    var check := RenewalCheck(s, now);
    ApplyConcat(s, check.writes, AskRenewal(ApplyAll(s, check.writes), now, reply, farewell).writes);
  }

  /** Once a minute: lock, or sign out, if the timeout says so. */
  function IdleAlarm(s: Store, now: int, farewell: Reply<()>): Plan<()> {
    if TimeoutDue(s, now) == Some(SignOut) then SignOutNow(s, farewell)
    else Plan(LockIfIdle(s, now), [], false, Done(()))
  }

  /** The browser starts. A timeout of 0 minutes means now. */
  function Startup(s: Store, now: int, reply: Reply<Renewal>, farewell: Reply<()>): Plan<()> {
    var (minutes, action) := EffectiveSettings(s);
    var idle := LockIfIdle(s, now);
    var t := ApplyAll(s, idle);
    var next := if action.SignOut? && (minutes == 0 || TimeoutDue(s, now) == Some(SignOut))
      then SignOutNow(t, farewell) else RenewIfDue(t, now, reply, farewell);
    Plan(idle + next.writes, next.sends, next.used, Done(()))
  }

  /** The address form: another Helm's pairing does not outlive its address. */
  function SaveServer(s: Store, origin: string): seq<Write> {
    if origin == "" then []
    else if Usable(s.server) && s.server.value != origin then ClearPairing() + [SetServer(origin)]
    else [SetServer(origin)]
  }

  /* ---- What each leaves ---- */

  function Unpaired(s: Store): Store {
    s.(pairing := None, lock := None, lastActive := None, unlocked := None, deviceKey := None)
  }

  lemma ClearingLeaves(s: Store)
    ensures ApplyAll(s, ClearPairing()) == Unpaired(s)
  {
    Steps(s, ClearPairing());
  }

  lemma SigningOutLeaves(s: Store, farewell: Reply<()>)
    ensures ApplyAll(s, SignOutNow(s, farewell).writes) == Unpaired(s)
  {
    ClearingLeaves(s);
    ClearingLeaves(Unpaired(s));
    ApplyConcat(s, Settled(farewell).0, ClearPairing());
  }

  lemma UnpairedAfterClocks(s: Store, t: Store)
    requires SameButClocks(s, t)
    ensures Unpaired(t) == Unpaired(s)
  {
  }

  /** A use leaves the stamp where the throttle puts it; anything else leaves it alone. */
  ghost predicate Stamped(s: Store, t: Store, now: int, used: bool) {
    t.lastActive == if used && (s.lastActive.None? || now - s.lastActive.value > THROTTLE) then Some(now) else s.lastActive
  }

  lemma TokenLeaves(s: Store, now: int, touch: bool)
    ensures var c := CurrentToken(s, now, touch);
      var t := ApplyAll(s, c.writes);
      SameButClocks(s, t) && Stamped(s, t, now, c.used)
  {
    var c := CurrentToken(s, now, touch);
    CurrentTokenKeeps(s, now, touch, |c.writes|);
    Steps(s, LockIfIdle(s, now));
    Steps(s, c.writes);
  }

  /** An unlocked record the token came from is still there, and stays within its time. */
  lemma TokenStays(s: Store, now: int, touch: bool)
    ensures var c := CurrentToken(s, now, touch);
      var t := ApplyAll(s, c.writes);
      c.token.Some? && s.lock.Some? ==> s.unlocked.Some? && t.unlocked.Some? && c.token.value == s.unlocked.value.token
  {
    Steps(s, LockIfIdle(s, now));
    Steps(s, CurrentToken(s, now, touch).writes);
  }

  /** A call ends in one of two ways: the pairing forgotten, or everything as it was but the clocks. */
  lemma CallLeaves<T>(s: Store, now: int, passive: bool, reply: Reply<T>, farewell: Reply<()>)
    ensures var c := Call(s, now, passive, reply, farewell);
      var t := ApplyAll(s, c.writes);
      && (c.result.SignedOut? || (c.result.NotPaired? && Paired(s)) ==> t == Unpaired(s))
      && (c.result.Done? || c.result.Locked? || c.result.Failed? || !Paired(s) ==> SameButClocks(s, t) && Stamped(s, t, now, c.used))
      && (c.result.Done? && s.lock.Some? ==> t.unlocked.Some?)
      && (c.result.Done? ==> Paired(s))
  {
    SigningOutLeaves(s, farewell);
    TokenLeaves(s, now, !passive);
    TokenStays(s, now, !passive);
    var current := CurrentToken(s, now, !passive);
    var t := ApplyAll(s, current.writes);
    ApplyConcat(s, current.writes, Settled(reply).0);
    ClearingLeaves(t);
    UnpairedAfterClocks(s, t);
  }

  /** What a request may carry: the address, the key and the token that are stored, in either of its two places. */
  ghost predicate CarriesStored(s: Store, r: Request) {
    && s.server == Some(r.server) && s.deviceKey == Some(r.key)
    && (if s.lock.Some? then s.unlocked.Some? && s.unlocked.value.token == r.token else s.pairing.Some? && s.pairing.value.token == r.token)
  }

  /** There is this token to call Helm with: the unlocked one with a lock on, and the pairing's with none. */
  ghost predicate AtHand(s: Store, token: string) {
    token != "" && if s.lock.Some? then s.unlocked.Some? && s.unlocked.value.token == token else s.pairing.Some? && s.pairing.value.token == token
  }

  lemma SignOutSends(s: Store, farewell: Reply<()>)
    ensures forall r <- SignOutNow(s, farewell).sends :: CarriesStored(s, r)
  {
  }

  /** Signing out tells Helm, once, exactly when there is an address, a device key and a token at hand. */
  lemma SignOutTells(s: Store, farewell: Reply<()>)
    ensures var sends := SignOutNow(s, farewell).sends;
      && (sends != [] <==> s.server.Some? && s.server.value != "" && s.deviceKey.Some? && exists token :: AtHand(s, token))
      && (sends != [] ==> |sends| == 1 && s.server == Some(sends[0].server) && s.deviceKey == Some(sends[0].key) && AtHand(s, sends[0].token))
  {
    var token := TokenForSignOut(s);
    if Usable(token) { assert AtHand(s, token.value); }
  }

  /** A call is sent exactly when the browser is paired, nothing is due and there is a token at hand; it then says what Helm said. */
  lemma CallAsks<T>(s: Store, now: int, passive: bool, reply: Reply<T>, farewell: Reply<()>)
    requires TimeoutDue(s, now) != Some(SignOut)
    ensures var c := Call(s, now, passive, reply, farewell);
      && (c.sends != [] <==> Paired(s) && TimeoutDue(s, now).None? && exists token :: AtHand(s, token))
      && (c.sends != [] ==> |c.sends| == 1 && s.server == Some(c.sends[0].server) && s.deviceKey == Some(c.sends[0].key) && AtHand(s, c.sends[0].token))
      && (c.sends != [] ==> c.result == match reply
            case Answered(value) => Done(value)
            case Refused(status) => if status == 401 then NotPaired else Failed(status)
            case NoAnswer => Failed(0))
      && (c.sends == [] ==> c.result == if Paired(s) then Locked else NotPaired)
  {
    Steps(s, LockIfIdle(s, now));
    var token := CurrentToken(s, now, !passive).token;
    if Paired(s) && Usable(token) { assert AtHand(s, token.value); }
  }

  /** A call is a use exactly when it is the person's, the browser is paired, nothing is due, and it is unlocked or has a token and no lock. */
  lemma CallIsUse<T>(s: Store, now: int, passive: bool, reply: Reply<T>, farewell: Reply<()>)
    ensures Call(s, now, passive, reply, farewell).used
      <==> !passive && Paired(s) && TimeoutDue(s, now).None? && if s.lock.Some? then s.unlocked.Some? else s.pairing.value.token != ""
  {
    Steps(s, LockIfIdle(s, now));
  }

  lemma CallSends<T>(s: Store, now: int, passive: bool, reply: Reply<T>, farewell: Reply<()>)
    ensures var c := Call(s, now, passive, reply, farewell);
      && |c.sends| <= 1
      && (forall r <- c.sends :: CarriesStored(s, r))
      && (c.result.Done? ==> |c.sends| == 1)
      && (s.pairing.None? ==> c.sends == [])
  {
    SignOutSends(s, farewell);
    TokenStays(s, now, !passive);
    Steps(s, LockIfIdle(s, now));
  }

  /** Past the timeout a call sends nothing but, for signing out, the unpairing. */
  lemma DueCallsAreNotSent<T>(s: Store, now: int, passive: bool, reply: Reply<T>, farewell: Reply<()>)
    requires TimeoutDue(s, now).Some? && Paired(s)
    ensures var c := Call(s, now, passive, reply, farewell);
      && (TimeoutDue(s, now) == Some(LockIt) ==> c.result == Locked && c.sends == [])
      && (TimeoutDue(s, now) == Some(SignOut) ==> c.result == SignedOut && ApplyAll(s, c.writes) == Unpaired(s))
  {
    NoTokenOnceDue(s, now, !passive);
    SigningOutLeaves(s, farewell);
  }

  /** A call made by a page loading moves no clock. */
  lemma PassiveCallsAreNoUse<T>(s: Store, now: int, reply: Reply<T>, farewell: Reply<()>)
    ensures var c := Call(s, now, true, reply, farewell);
      var t := ApplyAll(s, c.writes);
      && !c.used
      && (t.lastActive == s.lastActive || t.lastActive.None?)
      && (t.unlocked == s.unlocked || t.unlocked.None?)
  {
    CallLeaves(s, now, true, reply, farewell);
    PassiveNeverPostpones(s, now, now);
    ApplyConcat(s, CurrentToken(s, now, false).writes, Settled(reply).0);
    ClearingLeaves(ApplyAll(s, CurrentToken(s, now, false).writes));
  }

  /**
   * What a renewal leaves: the pairing forgotten; or the new token stored, when
   * Helm was asked and answered with one; or nothing changed but the clocks.
   */
  lemma RenewalLeaves(s: Store, now: int, reply: Reply<Renewal>, farewell: Reply<()>)
    requires s.pairing.Some?
    ensures var p := RenewIfDue(s, now, reply, farewell);
      var t := ApplyAll(s, p.writes);
      t == Unpaired(s) || Renewed(s, t, now, p.used, p.sends != [], reply)
  {
    var check := RenewalCheck(s, now);
    TokenLeaves(s, now, true);
    if !((s.lock.Some? && !Usable(check.token)) || s.pairing.value.expiresAt - now > WEEK) {
      var t := ApplyAll(s, check.writes);
      RenewalCallLeaves(s, t, now, check.used, reply, farewell);
      ApplyConcat(s, check.writes, AskRenewal(t, now, reply, farewell).writes);
    }
  }

  lemma RenewalCallLeaves(s: Store, t: Store, now: int, used: bool, reply: Reply<Renewal>, farewell: Reply<()>)
    requires SameButClocks(s, t) && Stamped(s, t, now, used)
    ensures var a := AskRenewal(t, now, reply, farewell);
      var v := ApplyAll(t, a.writes);
      v == Unpaired(s) || Renewed(s, v, now, used || a.used, a.sends != [], reply)
  {
    var c := Call(t, now, false, reply, farewell);
    var u := ApplyAll(t, c.writes);
    CallLeaves(t, now, false, reply, farewell);
    CallSends(t, now, false, reply, farewell);
    ApplyConcat(t, c.writes, Stored(t, c));
    if c.result.Done? {
      assert RenewedOver(s, u, ApplyAll(u, Stored(t, c)), now, used || c.used, reply.value);
    } else {
      UnpairedAfterClocks(s, t);
    }
  }

  ghost predicate Renewed(s: Store, t: Store, now: int, used: bool, sent: bool, reply: Reply<Renewal>) {
    if sent && reply.Answered? then RenewedFrom(s, t, now, used, reply.value)
    else SameButClocks(s, t) && Stamped(s, t, now, used)
  }

  /** The renewed token was put over a store that differs from s only in its clocks, with nothing in the way of storing it. */
  ghost predicate RenewedFrom(s: Store, t: Store, now: int, used: bool, r: Renewal) {
    exists u :: RenewedOver(s, u, t, now, used, r)
  }

  ghost predicate RenewedOver(s: Store, u: Store, t: Store, now: int, used: bool, r: Renewal) {
    && SameButClocks(s, u) && Stamped(s, u, now, used)
    && (u.lock.Some? ==> u.unlocked.Some?)
    && t == ApplyAll(u, ReplaceToken(u, r.token, r.expiresAt))
  }

  /** Asked to renew, Helm alone decides: a 401 unpairs, and any other answer or none leaves the pairing. */
  lemma AskedLeaves(s: Store, now: int, reply: Reply<Renewal>, farewell: Reply<()>)
    requires RenewalAsked(s, now)
    ensures var p := RenewIfDue(s, now, reply, farewell);
      p.sends != [] && (ApplyAll(s, p.writes).pairing.None? <==> reply == Refused(401))
  {
    var check := RenewalCheck(s, now);
    var t := ApplyAll(s, check.writes);
    RenewalInTwo(s, now, reply, farewell);
    TokenLeaves(s, now, true);
    AskingLeaves(t, now, reply, farewell);
  }

  lemma AskingLeaves(t: Store, now: int, reply: Reply<Renewal>, farewell: Reply<()>)
    requires Paired(t) && TimeoutDue(t, now) != Some(SignOut) && Usable(CurrentToken(t, now, true).token)
    ensures var a := AskRenewal(t, now, reply, farewell);
      a.sends != [] && (ApplyAll(t, a.writes).pairing.None? <==> reply == Refused(401))
  {
    var c := Call(t, now, false, reply, farewell);
    var u := ApplyAll(t, c.writes);
    CallLeaves(t, now, false, reply, farewell);
    ApplyConcat(t, c.writes, Stored(t, c));
    if c.result.Done? { Steps(u, Stored(t, c)); }
  }

  /** Not asked to renew, Helm was sent nothing, or the browser signed out. */
  lemma NotAskedLeaves(s: Store, now: int, reply: Reply<Renewal>, farewell: Reply<()>)
    requires !RenewalAsked(s, now) && s.pairing.Some?
    ensures var p := RenewIfDue(s, now, reply, farewell);
      p.sends == [] || ApplyAll(s, p.writes).pairing.None?
  {
    var check := RenewalCheck(s, now);
    var t := ApplyAll(s, check.writes);
    RenewalInTwo(s, now, reply, farewell);
    var c := Call(t, now, false, reply, farewell);
    CallLeaves(t, now, false, reply, farewell);
    ApplyConcat(t, c.writes, Stored(t, c));
  }

  /** A renewal sends at most once, and what it sends carries what was stored before it. */
  lemma RenewalSends(s: Store, now: int, reply: Reply<Renewal>, farewell: Reply<()>)
    ensures var p := RenewIfDue(s, now, reply, farewell);
      |p.sends| <= 1 && forall r <- p.sends :: CarriesStored(s, r)
  {
    if s.pairing.Some? {
      var t := ApplyAll(s, RenewalCheck(s, now).writes);
      TokenLeaves(s, now, true);
      CallSends(t, now, false, reply, farewell);
    }
  }

  /**
   * Use is meant to be any call to Helm, but a renewal that sends nothing
   * still counts as one, and holds off the timeout, exactly when an unlocked
   * lock is on, no timeout is due, and there is nothing to renew yet or
   * nothing to renew with.
   */
  lemma RenewalCheckCountsAsUse(s: Store, now: int, reply: Reply<Renewal>, farewell: Reply<()>)
    requires s.pairing.Some?
    ensures var p := RenewIfDue(s, now, reply, farewell);
      (p.used && p.sends == []) <==>
        && s.lock.Some? && s.unlocked.Some? && TimeoutDue(s, now).None?
        && (s.pairing.value.expiresAt - now > 604_800_000 || s.unlocked.value.token == "" || !Paired(s))
  {
    var check := RenewalCheck(s, now);
    Steps(s, LockIfIdle(s, now));
    TokenLeaves(s, now, true);
    TokenStays(s, now, true);
    CheckedAgain(s, now);
  }

  /** With no timeout due Helm is asked to renew, once, exactly in the pairing's last week and while there is a token to ask with. */
  lemma RenewsInLastWeek(s: Store, now: int, reply: Reply<Renewal>, farewell: Reply<()>)
    requires s.pairing.Some? && TimeoutDue(s, now).None?
    ensures var sends := RenewIfDue(s, now, reply, farewell).sends;
      && (sends != [] <==> s.pairing.value.expiresAt - now <= 604_800_000 && Paired(s) && exists token :: AtHand(s, token))
      && (sends != [] ==> |sends| == 1 && s.server == Some(sends[0].server) && s.deviceKey == Some(sends[0].key) && AtHand(s, sends[0].token))
  {
    var t := ApplyAll(s, RenewalCheck(s, now).writes);
    RenewalInTwo(s, now, reply, farewell);
    CheckedStays(s, now);
    CallAsks(t, now, false, reply, farewell);
  }

  /** Asking whether it is locked leaves what there is to ask with. */
  lemma CheckedStays(s: Store, now: int)
    requires TimeoutDue(s, now).None?
    ensures var c := RenewalCheck(s, now);
      var t := ApplyAll(s, c.writes);
      && TimeoutDue(t, now).None? && (Paired(t) <==> Paired(s)) && t.server == s.server && t.deviceKey == s.deviceKey
      && (forall token :: AtHand(t, token) <==> AtHand(s, token))
      && (s.lock.Some? && !Usable(c.token) ==> forall token :: !AtHand(s, token))
  {
    Steps(s, LockIfIdle(s, now));
    Steps(s, CurrentToken(s, now, true).writes);
  }

  /** A token just handed out is handed out again at the same moment. */
  lemma CheckedAgain(s: Store, now: int)
    ensures var t := ApplyAll(s, RenewalCheck(s, now).writes);
      RenewalCheck(s, now).used ==> CurrentToken(t, now, true).token == RenewalCheck(s, now).token && TimeoutDue(t, now).None?
  {
    Steps(s, LockIfIdle(s, now));
    Steps(s, CurrentToken(s, now, true).writes);
    var t := ApplyAll(s, RenewalCheck(s, now).writes);
    Steps(t, LockIfIdle(t, now));
  }

  /** A minute's alarm signs out, locks, or does nothing, as is due; and nothing ever without minutes set, or with nothing to lose. */
  lemma AlarmLeaves(s: Store, now: int, farewell: Reply<()>)
    ensures var p := IdleAlarm(s, now, farewell);
      var due := TimeoutDue(s, now);
      && ApplyAll(s, p.writes) == (if due == Some(SignOut) then Unpaired(s) else if due == Some(LockIt) then s.(unlocked := None) else s)
      && (due != Some(SignOut) ==> p.sends == [])
      && (EffectiveSettings(s).0 <= 0 || (s.pairing.None? && s.unlocked.None?) ==> p.writes == [] && p.sends == [])
  {
    SigningOutLeaves(s, farewell);
    Steps(s, LockIfIdle(s, now));
  }

  /** The browser starts with nothing unlocked; a sign-out that is due, or due at every start, happens, and with a lock on nothing is sent. */
  lemma StartupLeaves(s: Store, now: int, reply: Reply<Renewal>, farewell: Reply<()>)
    requires s.unlocked.None?
    ensures var (minutes, action) := EffectiveSettings(s);
      var p := Startup(s, now, reply, farewell);
      var t := ApplyAll(s, p.writes);
      && (action.SignOut? && minutes == 0 ==> t == Unpaired(s))
      && (TimeoutDue(s, now) == Some(SignOut) ==> t == Unpaired(s))
      && (s.lock.Some? ==> p.sends == [] && t.unlocked.None? && (t == s || t == Unpaired(s)))
  {
    SigningOutLeaves(s, farewell);
    var idle := LockIfIdle(s, now);
    assert idle == [];
    assert [] + SignOutNow(s, farewell).writes == SignOutNow(s, farewell).writes;
    assert [] + RenewIfDue(s, now, reply, farewell).writes == RenewIfDue(s, now, reply, farewell).writes;
  }
}
