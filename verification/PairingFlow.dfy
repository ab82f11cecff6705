/**
 * Pairing this browser (startPairing in extension/src/settings.ts, and
 * finishPairing and the tab handler in background.ts): a key and a random
 * state go out in a tab's address, and the page in that tab sends back the
 * state with a token.
 */
module PairingFlow {
  import opened Names
  import opened ExtensionStore
  import opened Lock

  /** The key and the state go to Helm in the tab's address; a tab may come back without an id. */
  function StartPairing(s: Store, key: DeviceKey, state: string, tab: Option<nat>, title: string): seq<Write> {
    if !Usable(s.server) then []
    else
      [SetPendingKey(Some(key))]
      + (if tab.Some? then [SetPending(Some(PendingPairing(state, tab.value, s.server.value, title)))] else [])
  }

  datatype PairMessage = PairMessage(state: string, token: Option<string>, installId: string, expiresAt: int, tenantName: string)

  predicate Accepts(s: Store, tab: nat, origin: string, m: PairMessage) {
    && s.pending.Some? && s.pending.value.tabId == tab && s.pending.value.origin == origin
    && s.pending.value.state == m.state && m.token.Some?
    && s.pendingKey.Some?
  }

  function FinishPairing(s: Store, now: int, tab: nat, origin: string, m: PairMessage): seq<Write> {
    if !Accepts(s, tab, origin, m) then []
    else
      [SetDeviceKey(s.pendingKey), SetPendingKey(None)] + ClearLock()
      + [SetPairing(Pairing(m.installId, m.token.value, m.expiresAt, m.tenantName, s.pending.value.title)), SetPending(None)]
      + NoteActivity(s, now)
  }

  function TabRemoved(s: Store, tab: nat): seq<Write> {
    if s.pending.Some? && s.pending.value.tabId == tab then [SetPending(None)] else []
  }

  function Granted(s: Store, m: PairMessage): Pairing
    requires s.pending.Some? && m.token.Some?
  {
    Pairing(m.installId, m.token.value, m.expiresAt, m.tenantName, s.pending.value.title)
  }

  /** The store with the new pairing in place of the old one and its lock. */
  function WithGranted(s: Store, now: int, m: PairMessage): Store
    requires s.pending.Some? && m.token.Some?
  {
    s.(deviceKey := s.pendingKey, pendingKey := None, lock := None, unlocked := None,
       pairing := Some(Granted(s, m)), pending := None, lastActive := ApplyAll(s, NoteActivity(s, now)).lastActive)
  }

  /** The first four writes of finishing, then the next two, then the stamp. */
  lemma FinishSteps(s: Store, now: int, tab: nat, origin: string, m: PairMessage, k: nat)
    requires Accepts(s, tab, origin, m) && k <= |FinishPairing(s, now, tab, origin, m)|
    ensures 6 <= |FinishPairing(s, now, tab, origin, m)| <= 7
    ensures var t := After(s, FinishPairing(s, now, tab, origin, m), k);
      && t.deviceKey == (if k >= 1 then s.pendingKey else s.deviceKey)
      && t.pendingKey == (if k >= 2 then None else s.pendingKey)
      && t.lock == (if k >= 3 then None else s.lock)
      && t.unlocked == (if k >= 4 then None else s.unlocked)
      && t.pairing == (if k >= 5 then Some(Granted(s, m)) else s.pairing)
      && t.pending == (if k >= 6 then None else s.pending)
      && t.lastActive == (if k >= 7 then Some(now) else s.lastActive)
      && t.server == s.server && t.settings == s.settings
  {
    if k > 0 { FinishSteps(s, now, tab, origin, m, k - 1); }
  }

  lemma FinishLeaves(s: Store, now: int, tab: nat, origin: string, m: PairMessage)
    ensures ApplyAll(s, FinishPairing(s, now, tab, origin, m)) == if Accepts(s, tab, origin, m) then WithGranted(s, now, m) else s
  {
    if Accepts(s, tab, origin, m) {
      FinishSteps(s, now, tab, origin, m, |FinishPairing(s, now, tab, origin, m)|);
      Steps(s, NoteActivity(s, now));
    }
  }

  lemma StartLeaves(s: Store, key: DeviceKey, state: string, tab: Option<nat>, title: string)
    ensures var t := ApplyAll(s, StartPairing(s, key, state, tab, title));
      t == if !Usable(s.server) then s
        else s.(pendingKey := Some(key), pending := if tab.Some? then Some(PendingPairing(state, tab.value, s.server.value, title)) else s.pending)
  {
    Steps(s, StartPairing(s, key, state, tab, title));
  }

  /** Closing the tab a pairing was started in drops its record, so that nothing sent for it is accepted; closing any other changes nothing. */
  lemma ClosingDrops(s: Store, closed: nat, tab: nat, origin: string, m: PairMessage)
    ensures var t := ApplyAll(s, TabRemoved(s, closed));
      && (s.pending.Some? && s.pending.value.tabId == closed ==> t == s.(pending := None) && !Accepts(t, tab, origin, m))
      && (s.pending.None? || s.pending.value.tabId != closed ==> t == s)
  {
    Steps(s, TabRemoved(s, closed));
  }

  /** A stored pairing can be used: its token is to be had, and the device key is the one it was bound to. */
  ghost predicate Works(derive: Derive, s: Store, secret: string, token: string, key: Option<DeviceKey>) {
    s.pairing.Some? ==> Recoverable(derive, s, secret, token) && s.deviceKey == key
  }

  /**
   * Pairing again is not safe to stop part-way. What is left works, as the old
   * pairing or as the new one, exactly when no write was made, or the new
   * pairing had been stored, or there was no pairing before.
   */
  lemma FinishIsCrashSafeWhen(derive: Derive, s: Store, now: int, tab: nat, origin: string, m: PairMessage,
                              secret: string, token: string, k: nat)
    requires Accepts(s, tab, origin, m) && k <= |FinishPairing(s, now, tab, origin, m)|
    requires Works(derive, s, secret, token, s.deviceKey)
    requires s.pairing.Some? ==> s.pairing.value.token in ["", token] && s.deviceKey != s.pendingKey
    requires m.token != Some("") && m.token != Some(token)
    ensures var t := CrashAfter(s, FinishPairing(s, now, tab, origin, m), k);
      (Works(derive, t, secret, token, s.deviceKey) || Works(derive, t, secret, m.token.value, s.pendingKey))
      <==> (k == 0 || k >= 5 || s.pairing.None?)
  {
    FinishSteps(s, now, tab, origin, m, k);
  }
}
