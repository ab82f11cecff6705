/**
 * The extension's storage as it is changed in place, one awaited write at a
 * time (extension/src/store.ts, lock.ts, api.ts, background.ts, settings.ts).
 * The ghost log holds the writes in the order they were made, so each
 * operation is held to the order of its writes and not only to where it ends.
 */
module Extension {
  import opened Names
  import opened Base64Url
  import opened ExtensionStore
  import opened Lock
  import opened Api
  import opened PairingFlow

  lemma InTurn<T>(before: seq<T>, a: seq<T>, b: seq<T>)
    ensures (before + a) + b == before + (a + b) && before + [] == before
  {
  }

  class Browser {
    var server: Option<string>
    var pairing: Option<Pairing>
    var settings: Option<Settings>
    var lock: Option<LockConfig>
    var lastActive: Option<int>
    var unlocked: Option<Unlocked>
    var pending: Option<PendingPairing>
    var pendingKey: Option<DeviceKey>
    var deviceKey: Option<DeviceKey>
    ghost var log: seq<Write>
    ghost var sent: seq<Request>

    function Now(): Store
      reads this
    {
      Store(server, pairing, settings, lock, lastActive, unlocked, pending, pendingKey, deviceKey)
    }

    constructor ()
      ensures Now() == Empty && log == [] && sent == []
    {
      server, pairing, settings, lock, lastActive, unlocked, pending, pendingKey, deviceKey := None, None, None, None, None, None, None, None, None;
      log, sent := [], [];
    }

    /** These writes were made, in this order, and these requests sent. */
    twostate predicate Did(ws: seq<Write>, rs: seq<Request>)
      reads this
    {
      log == old(log) + ws && sent == old(sent) + rs && Now() == ApplyAll(old(Now()), ws)
    }

    /** This one write was made. */
    twostate predicate Wrote(w: Write)
      reads this
    {
      log == old(log) + [w] && sent == old(sent) && Now() == Apply(old(Now()), w)
    }

    /* ---- store.ts ---- */

    method SetPairing(p: Pairing)
      modifies this
      ensures Wrote(Write.SetPairing(p))
    {
      pairing := Some(p);
      log := log + [Write.SetPairing(p)];
    }

    method SetLock(l: Option<LockConfig>)
      modifies this
      ensures Wrote(Write.SetLock(l))
    {
      lock := l;
      log := log + [Write.SetLock(l)];
    }

    method SetUnlocked(u: Option<Unlocked>)
      modifies this
      ensures Wrote(Write.SetUnlocked(u))
    {
      unlocked := u;
      log := log + [Write.SetUnlocked(u)];
    }

    method SetPending(p: Option<PendingPairing>)
      modifies this
      ensures Wrote(Write.SetPending(p))
    {
      pending := p;
      log := log + [Write.SetPending(p)];
    }

    method Change(minutes: Option<int>, action: Option<TimeoutAction>)
      modifies this
      ensures Did(ChangeSettings(old(Now()), minutes, action), [])
    {
      var (m, a) := EffectiveSettings(Now());
      settings := Some(Settings(if minutes.Some? then minutes else Some(m), if action.Some? then action else Some(a)));
      log := log + [SetSettings(settings.value)];
      Steps(old(Now()), ChangeSettings(old(Now()), minutes, action));
    }

    method PutPendingKey(k: Option<DeviceKey>)
      modifies this
      ensures Wrote(SetPendingKey(k))
    {
      pendingKey := k;
      log := log + [SetPendingKey(k)];
    }

    method PutDeviceKey(k: Option<DeviceKey>)
      modifies this
      ensures Wrote(SetDeviceKey(k))
    {
      deviceKey := k;
      log := log + [SetDeviceKey(k)];
    }

    method ForgetPairing()
      modifies this
      ensures Did(ClearPairing(), [])
    {
      pairing, lock, lastActive := None, None, None;
      log := log + [RemovePairing];
      SetUnlocked(None);
      PutDeviceKey(None);
      Steps(old(Now()), ClearPairing());
    }

    method NoteUse(now: int)
      modifies this
      ensures Did(NoteActivity(old(Now()), now), [])
    {
      if lastActive.None? || now - lastActive.value > THROTTLE {
        lastActive := Some(now);
        log := log + [SetLastActive(now)];
      }
      Steps(old(Now()), NoteActivity(old(Now()), now));
    }

    /* ---- lock.ts ---- */

    method LockWhenIdle(now: int) returns (due: Option<TimeoutAction>)
      modifies this
      ensures due == TimeoutDue(old(Now()), now)
      ensures Did(LockIfIdle(old(Now()), now), [])
    {
      due := TimeoutDue(Now(), now);
      Steps(Now(), LockIfIdle(Now(), now));
      if due == Some(LockIt) { SetUnlocked(None); }
    }

    method Token(now: int, touch: bool) returns (token: Option<string>)
      modifies this
      ensures token == CurrentToken(old(Now()), now, touch).token
      ensures Did(CurrentToken(old(Now()), now, touch).writes, [])
    {
      ghost var s := Now();
      var due := LockWhenIdle(now);
      ghost var t := Now();
      if due == Some(SignOut) { return None; }
      if lock.None? {
        token := if pairing.Some? then Some(pairing.value.token) else None;
        if Usable(token) && touch {
          NoteUse(now);
          ApplyConcat(s, LockIfIdle(s, now), NoteActivity(t, now));
        }
        return;
      }
      if unlocked.None? { return None; }
      token := Some(unlocked.value.token);
      if touch {
        var u := Some(unlocked.value.(lastActive := now));
        SetUnlocked(u);
        Steps(t, [Write.SetUnlocked(u)]);
        NoteUse(now);
        ApplyConcat(s, LockIfIdle(s, now), [Write.SetUnlocked(u)]);
        ApplyConcat(s, LockIfIdle(s, now) + [Write.SetUnlocked(u)], NoteActivity(t, now));
      }
    }

    /** The lock, the unlocked record, and last the plain token goes. */
    method StoreLock(l: LockConfig, now: int, p: Pairing)
      modifies this
      ensures Did(LockWrites(l, now, p), [])
    {
      ghost var t := Now();
      SetLock(Some(l));
      SetUnlocked(Some(Unlocked(l.sealed.box.token, Encode(l.sealed.box.key), now)));
      SetPairing(p.(token := ""));
      Steps(t, LockWrites(l, now, p));
    }

    /** ok is false where there is nothing to lock. */
    method EnableLock(derive: Derive, now: int, how: LockMethod, secret: string, salt: seq<byte>) returns (ok: bool)
      modifies this
      ensures ok == Enable(derive, old(Now()), now, how, secret, salt).ok
      ensures Did(Enable(derive, old(Now()), now, how, secret, salt).writes, [])
    {
      ghost var s := Now();
      ghost var current := CurrentToken(s, now, true).writes;
      CurrentTokenKeeps(s, now, true, |current|);
      var token := Token(now, true);
      if !Usable(token) || pairing.None? { return false; }
      var p := pairing.value;
      var l := NewLock(derive, how, secret, salt, token.value);
      StoreLock(l, now, p);
      ApplyConcat(s, current, LockWrites(l, now, p));
      InTurn(old(log), current, LockWrites(l, now, p));
      ok := true;
    }

    method TryUnlock(derive: Derive, now: int, secret: string) returns (result: UnlockResult)
      modifies this
      ensures result == Unlock(derive, old(Now()), now, secret).0
      ensures Did(Unlock(derive, old(Now()), now, secret).1, [])
    {
      ghost var s := Now();
      if lock.None? { return Opened; }
      var l := lock.value;
      var key := KeyFor(derive, secret, l.sealed.salt, l.sealed.iterations);
      if key.None? { return Threw; }
      Steps(s, Unlock(derive, s, now, secret).1);
      var token := OpenBox(l.sealed.box, key.value);
      if token.None? {
        var failures := l.failures + 1;
        if failures >= MAX_FAILURES {
          ForgetPairing();
          return Forgotten;
        }
        SetLock(Some(l.(failures := failures)));
        return Wrong;
      }
      SetLock(Some(l.(failures := 0)));
      SetUnlocked(Some(Unlocked(token.value, Encode(key.value), now)));
      result := Opened;
    }

    method DisableLock(derive: Derive, now: int, secret: string) returns (result: UnlockResult)
      modifies this
      ensures result == Disable(derive, old(Now()), now, secret).0
      ensures Did(Disable(derive, old(Now()), now, secret).1, [])
    {
      ghost var s := Now();
      result := TryUnlock(derive, now, secret);
      if !result.Opened? { return; }
      ghost var t := Now();
      if pairing.Some? && unlocked.Some? { SetPairing(pairing.value.(token := unlocked.value.token)); }
      SetLock(None);
      SetUnlocked(None);
      Steps(t, PutBack(t));
      ApplyConcat(s, Unlock(derive, s, now, secret).1, PutBack(t));
    }

    method StoreRenewed(token: string, expiresAt: int)
      modifies this
      ensures Did(ReplaceToken(old(Now()), token, expiresAt), [])
    {
      ghost var s := Now();
      Steps(s, ReplaceToken(s, token, expiresAt));
      if pairing.None? { return; }
      var p := pairing.value;
      if lock.None? {
        SetPairing(p.(token := token, expiresAt := expiresAt));
        return;
      }
      if unlocked.None? { return; }
      var key := Decode(unlocked.value.key);
      if key.None? { return; }
      var u, l := unlocked.value, lock.value;
      SetLock(Some(l.(sealed := Seal(key.value, token, l.sealed.salt, l.sealed.iterations))));
      SetUnlocked(Some(u.(token := token)));
      SetPairing(p.(expiresAt := expiresAt));
    }

    /* ---- api.ts ---- */

    /** A request as it is sent, and what Helm's answer does here. */
    method Send<T>(request: Request, reply: Reply<T>) returns (result: Result<T>)
      modifies this
      ensures result == Settled(reply).1
      ensures Did(Settled(reply).0, [request])
    {
      sent := sent + [request];
      match reply
      case Answered(v) => return Done(v);
      case Refused(status) =>
        if status == 401 {
          ForgetPairing();
          return NotPaired;
        }
        return Failed(status);
      case NoAnswer => return Failed(0);
    }

    method LeaveHelm(farewell: Reply<()>)
      modifies this
      ensures Did(SignOutNow(old(Now()), farewell).writes, SignOutNow(old(Now()), farewell).sends)
    {
      ghost var s := Now();
      var token := TokenForSignOut(Now());
      if Usable(server) && deviceKey.Some? && Usable(token) {
        var _ := Send(Request(server.value, deviceKey.value, token.value), farewell);
        ApplyConcat(s, Settled(farewell).0, ClearPairing());
      }
      ForgetPairing();
    }

    method CallHelm<T>(now: int, passive: bool, reply: Reply<T>, farewell: Reply<()>) returns (result: Result<T>)
      modifies this
      ensures var c := Call(old(Now()), now, passive, reply, farewell); result == c.result && Did(c.writes, c.sends)
    {
      ghost var s := Now();
      if !Usable(server) || pairing.None? || deviceKey.None? { return NotPaired; }
      if TimeoutDue(Now(), now) == Some(SignOut) {
        LeaveHelm(farewell);
        return SignedOut;
      }
      var address, key := server.value, deviceKey.value;
      var token := Token(now, !passive);
      if !Usable(token) { return Locked; }
      result := Send(Request(address, key, token.value), reply);
      ApplyConcat(s, CurrentToken(s, now, !passive).writes, Settled(reply).0);
    }

    method RequestRenewal(now: int, reply: Reply<Renewal>, farewell: Reply<()>)
      modifies this
      ensures var a := AskRenewal(old(Now()), now, reply, farewell); Did(a.writes, a.sends)
    {
      ghost var t := Now();
      ghost var c := Call(t, now, false, reply, farewell);
      var result := CallHelm(now, false, reply, farewell);
      if result.Done? {
        StoreRenewed(result.value.token, result.value.expiresAt);
      }
      ApplyConcat(t, c.writes, Stored(t, c));
      InTurn(old(log), c.writes, Stored(t, c));
    }

    method RenewWhenDue(now: int, reply: Reply<Renewal>, farewell: Reply<()>)
      modifies this
      ensures var p := RenewIfDue(old(Now()), now, reply, farewell); Did(p.writes, p.sends)
    {
      ghost var s := Now();
      if pairing.None? { return; }
      RenewalInTwo(s, now, reply, farewell);
      var expiresAt := pairing.value.expiresAt;
      if lock.Some? {
        var token := Token(now, true);
        if !Usable(token) { return; }
      }
      if expiresAt - now > WEEK { return; }
      ghost var check := RenewalCheck(s, now).writes;
      ghost var asked := AskRenewal(ApplyAll(s, check), now, reply, farewell);
      RequestRenewal(now, reply, farewell);
      InTurn(old(log), check, asked.writes);
      InTurn(old(sent), [], asked.sends);
    }

    /* ---- background.ts and settings.ts ---- */

    method OnIdleAlarm(now: int, farewell: Reply<()>)
      modifies this
      ensures var p := IdleAlarm(old(Now()), now, farewell); Did(p.writes, p.sends)
    {
      var due := LockWhenIdle(now);
      if due == Some(SignOut) { LeaveHelm(farewell); }
    }

    /** Session storage is empty when the browser starts. */
    method OnStartup(now: int, reply: Reply<Renewal>, farewell: Reply<()>)
      modifies this
      ensures var p := Startup(Closed(old(Now())), now, reply, farewell);
        log == old(log) + p.writes && sent == old(sent) + p.sends && Now() == ApplyAll(Closed(old(Now())), p.writes)
    {
      unlocked, pending := None, None;
      ghost var s := Now();
      var (minutes, action) := EffectiveSettings(Now());
      var due := LockWhenIdle(now);
      ghost var t := Now();
      ghost var idle := LockIfIdle(s, now);
      if action.SignOut? && (minutes == 0 || due == Some(SignOut)) {
        LeaveHelm(farewell);
        ghost var out := SignOutNow(t, farewell);
        ApplyConcat(s, idle, out.writes);
        InTurn(old(log), idle, out.writes);
        InTurn(old(sent), [], out.sends);
      } else {
        RenewWhenDue(now, reply, farewell);
        ghost var renewed := RenewIfDue(t, now, reply, farewell);
        ApplyConcat(s, idle, renewed.writes);
        InTurn(old(log), idle, renewed.writes);
        InTurn(old(sent), [], renewed.sends);
      }
    }

    method SaveAddress(origin: string)
      modifies this
      ensures Did(SaveServer(old(Now()), origin), [])
    {
      ghost var s := Now();
      if origin == "" { return; }
      if Usable(server) && server.value != origin {
        ForgetPairing();
        ApplyConcat(s, ClearPairing(), [SetServer(origin)]);
      }
      ghost var t := Now();
      server := Some(origin);
      log := log + [SetServer(origin)];
      Steps(t, [SetServer(origin)]);
    }

    method BeginPairing(key: DeviceKey, state: string, tab: Option<nat>, title: string)
      modifies this
      ensures Did(StartPairing(old(Now()), key, state, tab, title), [])
    {
      Steps(Now(), StartPairing(Now(), key, state, tab, title));
      if !Usable(server) { return; }
      var origin := server.value;
      PutPendingKey(Some(key));
      if tab.None? { return; }
      SetPending(Some(PendingPairing(state, tab.value, origin, title)));
    }

    /** The key, the lock and the pairing, in that order. */
    method TakePairing(p: Pairing)
      modifies this
      ensures Did([SetDeviceKey(old(pendingKey)), SetPendingKey(None)] + ClearLock() + [Write.SetPairing(p), Write.SetPending(None)], [])
    {
      ghost var s := Now();
      PutDeviceKey(pendingKey);
      PutPendingKey(None);
      ghost var promoted := [SetDeviceKey(s.pendingKey), SetPendingKey(None)];
      Steps(s, promoted);
      ghost var t := Now();
      SetLock(None);
      SetUnlocked(None);
      Steps(t, ClearLock());
      ghost var u := Now();
      SetPairing(p);
      SetPending(None);
      ghost var stored := [Write.SetPairing(p), Write.SetPending(None)];
      Steps(u, stored);
      ApplyConcat(s, promoted, ClearLock());
      ApplyConcat(s, promoted + ClearLock(), stored);
    }

    method CompletePairing(now: int, tab: nat, origin: string, m: PairMessage)
      modifies this
      ensures Did(FinishPairing(old(Now()), now, tab, origin, m), [])
    {
      ghost var s := Now();
      if pending.None? || pending.value.tabId != tab { return; }
      if pending.value.origin != origin { return; }
      if m.state != pending.value.state || m.token.None? { return; }
      if pendingKey.None? { return; }
      var p := Pairing(m.installId, m.token.value, m.expiresAt, m.tenantName, pending.value.title);
      FinishSteps(s, now, tab, origin, m, 6);
      ghost var taken := [SetDeviceKey(s.pendingKey), SetPendingKey(None)] + ClearLock() + [Write.SetPairing(p), Write.SetPending(None)];
      AfterFirst(s, taken, NoteActivity(s, now), 6);
      TakePairing(p);
      NoteUse(now);
      ApplyConcat(s, taken, NoteActivity(s, now));
    }

    method OnTabRemoved(tab: nat)
      modifies this
      ensures Did(TabRemoved(old(Now()), tab), [])
    {
      Steps(Now(), TabRemoved(Now(), tab));
      if pending.Some? && pending.value.tabId == tab { SetPending(None); }
    }
  }
}
