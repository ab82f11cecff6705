/**
 * What the browser extension keeps and the single writes it makes to it
 * (extension/src/store.ts): local storage, session storage, two key slots.
 * A write is one await; an operation is the list of writes it makes in order.
 */
module ExtensionStore {
  import opened Names
  import opened Base64Url

  datatype Pairing = Pairing(installId: string, token: string, expiresAt: int, tenantName: string, title: string)

  datatype TimeoutAction = LockIt | SignOut

  /** The two settings the lock and the timeout read; None is one never stored. */
  datatype Settings = Settings(timeoutMinutes: Option<int>, timeoutAction: Option<TimeoutAction>)

  datatype LockMethod = Pin | Password

  /** Ideal sealing: a box opens under the key it was made with and no other. */
  datatype Box = Box(key: seq<byte>, token: string)

  datatype Sealed = Sealed(salt: string, box: Box, iterations: nat)

  datatype LockConfig = LockConfig(how: LockMethod, idleMinutes: Option<int>, failures: nat, sealed: Sealed)

  datatype Unlocked = Unlocked(token: string, key: string, lastActive: int)

  datatype PendingPairing = PendingPairing(state: string, tabId: nat, origin: string, title: string)

  /** A device key pair, known by its public half. */
  datatype DeviceKey = DeviceKey(publicKey: string)

  datatype Store = Store(
    server: Option<string>, pairing: Option<Pairing>, settings: Option<Settings>, lock: Option<LockConfig>, lastActive: Option<int>,
    unlocked: Option<Unlocked>, pending: Option<PendingPairing>,
    pendingKey: Option<DeviceKey>, deviceKey: Option<DeviceKey>)

  const Empty := Store(None, None, None, None, None, None, None, None, None)

  datatype Write =
    | SetServer(origin: string)
    | SetPairing(pairing: Pairing)
    | SetSettings(settings: Settings)
    | SetLock(lock: Option<LockConfig>)
    | SetLastActive(at: int)
    | RemovePairing                    // pairing, lock and activity stamp, in one call
    | SetUnlocked(unlocked: Option<Unlocked>)
    | SetPending(pending: Option<PendingPairing>)
    | SetPendingKey(key: Option<DeviceKey>)
    | SetDeviceKey(key: Option<DeviceKey>)

  function Apply(s: Store, w: Write): Store {
    match w
    case SetServer(origin) => s.(server := Some(origin))
    case SetPairing(p) => s.(pairing := Some(p))
    case SetSettings(t) => s.(settings := Some(t))
    case SetLock(l) => s.(lock := l)
    case SetLastActive(at) => s.(lastActive := Some(at))
    case RemovePairing => s.(pairing := None, lock := None, lastActive := None)
    case SetUnlocked(u) => s.(unlocked := u)
    case SetPending(p) => s.(pending := p)
    case SetPendingKey(k) => s.(pendingKey := k)
    case SetDeviceKey(k) => s.(deviceKey := k)
  }

  /** The store once the first k of these writes have been made. */
  function After(s: Store, ws: seq<Write>, k: nat): Store
    requires k <= |ws|
  {
    if k == 0 then s else Apply(After(s, ws, k - 1), ws[k - 1])
  }

  function ApplyAll(s: Store, ws: seq<Write>): Store { After(s, ws, |ws|) }

  lemma {:induction false} AfterFirst(s: Store, a: seq<Write>, b: seq<Write>, k: nat)
    requires k <= |a|
    ensures After(s, a + b, k) == After(s, a, k)
  {
    if k > 0 { AfterFirst(s, a, b, k - 1); }
  }

  lemma {:induction false} AfterBoth(s: Store, a: seq<Write>, b: seq<Write>, k: nat)
    requires k <= |b|
    ensures After(s, a + b, |a| + k) == After(ApplyAll(s, a), b, k)
  {
    if k == 0 { AfterFirst(s, a, b, |a|); } else { AfterBoth(s, a, b, k - 1); }
  }

  lemma ApplyConcat(s: Store, a: seq<Write>, b: seq<Write>)
    ensures ApplyAll(s, a + b) == ApplyAll(ApplyAll(s, a), b)
  {
    AfterBoth(s, a, b, |b|);
  }

  /** The states on the way through a short list. */
  lemma Steps(s: Store, ws: seq<Write>)
    ensures After(s, ws, 0) == s
    ensures |ws| >= 1 ==> After(s, ws, 1) == Apply(s, ws[0])
    ensures |ws| >= 2 ==> After(s, ws, 2) == Apply(Apply(s, ws[0]), ws[1])
    ensures |ws| >= 3 ==> After(s, ws, 3) == Apply(Apply(Apply(s, ws[0]), ws[1]), ws[2])
  {
    if |ws| >= 1 { assert After(s, ws, 1) == Apply(After(s, ws, 0), ws[0]); }
    if |ws| >= 2 { assert After(s, ws, 2) == Apply(After(s, ws, 1), ws[1]); }
    if |ws| >= 3 { assert After(s, ws, 3) == Apply(After(s, ws, 2), ws[2]); }
  }

  /** The browser closes: session storage is gone, the rest is not. */
  function Closed(s: Store): Store { s.(unlocked := None, pending := None) }

  /** A lock from before settings held the timeout brings its own. */
  function EffectiveSettings(s: Store): (int, TimeoutAction) {
    var stored := if s.settings.Some? then s.settings.value else Settings(None, None);
    var legacy := s.lock.Some? && stored.timeoutAction.None?;
    ( if stored.timeoutMinutes.Some? then stored.timeoutMinutes.value
      else if legacy then (if s.lock.value.idleMinutes.Some? then s.lock.value.idleMinutes.value else 0)
      else -1,
      if stored.timeoutAction.Some? then stored.timeoutAction.value else if legacy then LockIt else SignOut )
  }

  /** Both stored, they hold; never stored, it is never and to sign out; and a lock set before there was an action brings its own minutes, or none, to lock. */
  lemma SettingsInEffect(s: Store, minutes: int)
    ensures s.settings.Some? && s.settings.value.timeoutMinutes == Some(minutes) && s.settings.value.timeoutAction.Some? ==>
      EffectiveSettings(s) == (minutes, s.settings.value.timeoutAction.value)
    ensures s.settings.None? && s.lock.None? ==> EffectiveSettings(s) == (-1, SignOut)
    ensures s.settings.None? && s.lock.Some? && s.lock.value.idleMinutes == Some(minutes) ==> EffectiveSettings(s) == (minutes, LockIt)
    ensures s.settings.None? && s.lock.Some? && s.lock.value.idleMinutes.None? ==> EffectiveSettings(s) == (0, LockIt)
  {
  }

  function ClearPairing(): seq<Write> {
    [RemovePairing, SetUnlocked(None), SetDeviceKey(None)]
  }

  /** Changes the given settings and stores the rest as they are in effect. */
  function ChangeSettings(s: Store, minutes: Option<int>, action: Option<TimeoutAction>): seq<Write> {
    var (m, a) := EffectiveSettings(s);
    [SetSettings(Settings(if minutes.Some? then minutes else Some(m), if action.Some? then action else Some(a)))]
  }

  /** After a change the settings in effect are those given and, for the rest, those in effect before, a lock or none. */
  lemma ChangeKeepsTheRest(s: Store, minutes: Option<int>, action: Option<TimeoutAction>)
    ensures var t := ApplyAll(s, ChangeSettings(s, minutes, action));
      && t == s.(settings := t.settings)
      && EffectiveSettings(t) == EffectiveSettings(t.(lock := None))
      && EffectiveSettings(t).0 == (if minutes.Some? then minutes.value else EffectiveSettings(s).0)
      && EffectiveSettings(t).1 == (if action.Some? then action.value else EffectiveSettings(s).1)
  {
    Steps(s, ChangeSettings(s, minutes, action));
  }
}
