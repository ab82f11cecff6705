/**
 * Runs of the extension in which what is expected of it does not hold, from
 * an extension just installed: what the conditions in Lock, Api, PairingFlow
 * and ExtensionRuns shut out does come about.
 */
module ExtensionCases {
  import opened Names
  import opened Base64Url
  import opened ExtensionStore
  import opened Lock
  import opened Api
  import opened PairingFlow
  import opened ExtensionRuns

  const HELM := "https://helm.example"
  const OTHER := "https://other.example"
  const KeyOne := DeviceKey("first key")
  const KeyTwo := DeviceKey("second key")
  const MessageOne := PairMessage("one", Some("token"), "install", 2 * WEEK, "tenant")
  const MessageTwo := PairMessage("two", Some("another token"), "install", 2 * WEEK, "tenant")

  const JustInstalled := World(Empty, 0, "", "", "", 0, None, None, map[], [], "")
  const Addressed := JustInstalled.(store := Empty.(server := Some(HELM)))
  const Asked := Addressed.(
    store := Addressed.store.(pendingKey := Some(KeyOne), pending := Some(PendingPairing("one", 1, HELM, "browser"))),
    offered := map["one" := KeyOne])
  const GrantedOne := Pairing("install", "token", 2 * WEEK, "tenant", "browser")
  const OncePaired := World(
    Empty.(server := Some(HELM), pairing := Some(GrantedOne), deviceKey := Some(KeyOne), lastActive := Some(0)),
    0, "token", "token", "", 0, Some(0), Some(0), map["one" := KeyOne], ["one"], HELM)

  const ToAddress := [] + [Address(HELM)]
  const ToAsk := ToAddress + [Start(KeyOne, "one", Some(1), "browser")]
  const ToPair := ToAsk + [Finish(1, HELM, MessageOne)]

  /** One more possible step. */
  lemma Goes(derive: Derive, ops: seq<Op>, w: World, op: Op, v: World)
    requires Run(derive, JustInstalled, ops) == w && Along(derive, JustInstalled, ops, Possible) && Possible(w, op) && Step(derive, w, op) == v
    ensures Run(derive, JustInstalled, ops + [op]) == v && Along(derive, JustInstalled, ops + [op], Possible)
  {
    var more := ops + [op];
    assert more[..|ops|] == ops;
    forall i | 0 <= i < |more| ensures Possible(Run(derive, JustInstalled, more[..i]), more[i]) {
      if i < |ops| { assert more[..i] == ops[..i]; }
    }
  }

  lemma ReachesAddress(derive: Derive)
    ensures Installed(JustInstalled) && Run(derive, JustInstalled, ToAddress) == Addressed && Along(derive, JustInstalled, ToAddress, Possible)
  {
    AddressLeaves(Empty, HELM);
    Goes(derive, [], JustInstalled, Address(HELM), Addressed);
  }

  lemma ReachesAsked(derive: Derive)
    ensures Run(derive, JustInstalled, ToAsk) == Asked && Along(derive, JustInstalled, ToAsk, Possible)
  {
    ReachesAddress(derive);
    StartLeaves(Addressed.store, KeyOne, "one", Some(1), "browser");
    Goes(derive, ToAddress, Addressed, Start(KeyOne, "one", Some(1), "browser"), Asked);
  }

  lemma ReachesPaired(derive: Derive)
    ensures Run(derive, JustInstalled, ToPair) == OncePaired && Along(derive, JustInstalled, ToPair, Possible)
  {
    ReachesAsked(derive);
    FinishLeaves(Asked.store, 0, 1, HELM, MessageOne);
    Steps(Asked.store, NoteActivity(Asked.store, 0));
    Goes(derive, ToAsk, Asked, Finish(1, HELM, MessageOne), OncePaired);
  }

  /** Started again in a tab without an id, and then the first pairing finished: the second key is stored for the first state. */
  lemma AnotherKeyStored(derive: Derive)
    ensures var ops := ToAsk + [Start(KeyTwo, "two", None, "browser")] + [Finish(1, HELM, MessageOne)];
      var v := Run(derive, JustInstalled, ops);
      && Along(derive, JustInstalled, ops, Possible)
      && v.accepted == ["one"] && v.store.pairing.Some? && v.store.deviceKey == Some(KeyTwo) && KeyOf(v, "one", Some(KeyOne))
  {
    ReachesAsked(derive);
    var again := Start(KeyTwo, "two", None, "browser");
    StartLeaves(Asked.store, KeyTwo, "two", None, "browser");
    assert KeyOne.publicKey[0] == 'f' && KeyTwo.publicKey[0] == 's';
    var u := Step(derive, Asked, again);
    Goes(derive, ToAsk, Asked, again, u);
    Goes(derive, ToAsk + [again], u, Finish(1, HELM, MessageOne), Step(derive, u, Finish(1, HELM, MessageOne)));
    FinishingStoresAnotherKey(derive, Asked, again, MessageOne);
  }

  const Astray := World(
    OncePaired.store.(server := Some(OTHER)), 0, "token", "token", "", 0, Some(0), Some(0), map["one" := KeyOne], ["one"], HELM)

  lemma FinishesAstray(derive: Derive)
    ensures Step(derive, Moved, Finish(1, HELM, MessageOne)) == Astray
  {
    FinishLeaves(Moved.store, 0, 1, HELM, MessageOne);
    Steps(Moved.store, NoteActivity(Moved.store, 0));
  }

  lemma MovesAway(derive: Derive)
    ensures Step(derive, Asked, Address(OTHER)) == Moved && HELM != OTHER
  {
    assert HELM[8] == 'h' && OTHER[8] == 'o';
    AddressLeaves(Asked.store, OTHER);
  }

  /** The address changed between starting a pairing and finishing it: the pairing is the first Helm's, the address another's. */
  lemma AnotherAddress(derive: Derive)
    ensures var ops := ToAsk + [Address(OTHER)] + [Finish(1, HELM, MessageOne)];
      var v := Run(derive, JustInstalled, ops);
      && Along(derive, JustInstalled, ops, Possible)
      && v.store.pairing.Some? && v.issuer == HELM && v.store.server == Some(OTHER) && HELM != OTHER
  {
    ReachesAsked(derive);
    MovesAway(derive);
    FinishesAstray(derive);
    Goes(derive, ToAsk, Asked, Address(OTHER), Moved);
    Goes(derive, ToAsk + [Address(OTHER)], Moved, Finish(1, HELM, MessageOne), Astray);
  }

  const Moved := Asked.(store := Asked.store.(server := Some(OTHER)))

  lemma PairedIsSafe(derive: Derive)
    requires TellsApart(derive)
    ensures Safe(derive, OncePaired) && LiveKept(derive, OncePaired) && Hidden(OncePaired.store)
  {
    assert KeyOne.publicKey != "";
    assert HELM[0] == 'h';
  }

  lemma PairedToken(now: int)
    ensures TimeoutDue(OncePaired.store, now).None?
    ensures CurrentToken(OncePaired.store, 0, true) == TokenResult(Some("token"), [], true)
  {
    assert "token"[0] == 't';
  }

  const Unanswered := Renew(NoAnswer, Some(Renewal("new", 5 * WEEK)), NoAnswer)

  const AWeekLeft := OncePaired.(now := WEEK)

  lemma RenewedUnanswered(derive: Derive)
    requires TellsApart(derive)
    ensures var v := Step(derive, AWeekLeft, Unanswered);
      && Possible(AWeekLeft, Unanswered)
      && v.store.pairing.Some? && v.live == "new" && v.held == "token" && Safe(derive, v) && !LiveKept(derive, v)
  {
    PairedIsSafe(derive);
    PairedToken(WEEK);
    assert "new"[0] == 'n' && "token"[0] == 't' && HELM[0] == 'h';
    assert RenewalAsked(AWeekLeft.store, WEEK);
    AskedLeaves(AWeekLeft.store, WEEK, NoAnswer, NoAnswer);
    EveryStepKeeps(derive, AWeekLeft, Unanswered);
    LiveTokenKeptExactly(derive, AWeekLeft, Unanswered);
  }

  /** A week before the pairing lapses Helm renews it, and the answer does not arrive: the extension holds a token Helm refuses. */
  lemma AnswerLost(derive: Derive)
    requires TellsApart(derive)
    ensures var ops := ToPair + [Wait(WEEK)] + [Unanswered];
      var v := Run(derive, JustInstalled, ops);
      && Along(derive, JustInstalled, ops, Possible)
      && v.store.pairing.Some? && v.live == "new" && v.held == "token" && Safe(derive, v) && !LiveKept(derive, v)
  {
    ReachesPaired(derive);
    RenewedUnanswered(derive);
    Goes(derive, ToPair, OncePaired, Wait(WEEK), AWeekLeft);
    Goes(derive, ToPair + [Wait(WEEK)], AWeekLeft, Unanswered, Step(derive, AWeekLeft, Unanswered));
  }

  /** The lock turned on, and the browser closed once the lock was stored: the plain token lies beside it. */
  lemma TokenExposed(derive: Derive)
    requires TellsApart(derive)
    ensures var ops := ToPair + [TurnOnStopped(Pin, "1111", [], 1)];
      var v := Run(derive, JustInstalled, ops);
      && Along(derive, JustInstalled, ops, Possible)
      && v.store.lock.Some? && v.store.pairing.Some? && v.store.pairing.value.token != ""
  {
    ReachesPaired(derive);
    PairedIsSafe(derive);
    PairedToken(0);
    var op := TurnOnStopped(Pin, "1111", [], 1);
    assert "token"[0] == 't';
    HiddenKeptExactly(derive, OncePaired, op);
    EveryStepKeeps(derive, OncePaired, op);
    Goes(derive, ToPair, OncePaired, op, Step(derive, OncePaired, op));
  }

  /** Paired and asked again, and stopped after the first write: the new key beside the old pairing, which works with neither. */
  lemma PairingHalfDone(derive: Derive)
    ensures var s := OncePaired.store.(pendingKey := Some(KeyTwo), pending := Some(PendingPairing("two", 1, HELM, "browser")));
      var t := CrashAfter(s, FinishPairing(s, 0, 1, HELM, MessageTwo), 1);
      && Accepts(s, 1, HELM, MessageTwo)
      && !Works(derive, t, "", "token", Some(KeyOne)) && !Works(derive, t, "", "another token", Some(KeyTwo))
  {
    var s := OncePaired.store.(pendingKey := Some(KeyTwo), pending := Some(PendingPairing("two", 1, HELM, "browser")));
    assert KeyOne.publicKey[0] == 'f' && KeyTwo.publicKey[0] == 's';
    assert "token"[0] == 't' && "another token"[0] == 'a';
    FinishSteps(s, 0, 1, HELM, MessageTwo, 0);
    FinishIsCrashSafeWhen(derive, s, 0, 1, HELM, MessageTwo, "", "token", 1);
  }

  /** The lock of a paired browser, just turned on. */
  function OnceLocked(derive: Derive): Store { ApplyAll(OncePaired.store, Enable(derive, OncePaired.store, 0, Pin, "1111", []).writes) }

  /** That store: the lock with its box, the unlocked record, and a pairing without its token. */
  lemma LockedIs(derive: Derive)
    ensures var lock := NewLock(derive, Pin, "1111", [], "token");
      && Enable(derive, OncePaired.store, 0, Pin, "1111", []).ok && lock.sealed.box == Box(derive("1111", [], ITERATIONS), "token")
      && OnceLocked(derive) == OncePaired.store.(
           lock := Some(lock), unlocked := Some(Unlocked("token", Encode(lock.sealed.box.key), 0)), pairing := Some(GrantedOne.(token := "")))
  {
    PairedToken(0);
    assert "token"[0] == 't';
    RoundTrip([]);
    var lock := NewLock(derive, Pin, "1111", [], "token");
    assert [] + LockWrites(lock, 0, GrantedOne) == LockWrites(lock, 0, GrantedOne);
    LockWritesAfter(OncePaired.store, lock, 0, GrantedOne, 3);
  }

  lemma LockedFits(derive: Derive)
    ensures var s := OnceLocked(derive);
      && Recoverable(derive, s, "1111", "token") && UnlockedMatches(s) && TimeoutDue(s, 0).None?
      && CurrentToken(s, 0, true) == TokenResult(Some("token"), [SetUnlocked(s.unlocked)], true)
  {
    LockedIs(derive);
    RoundTrip(derive("1111", [], ITERATIONS));
    NewLockOpens(derive, Pin, "1111", [], "token");
  }

  /** Another secret set over it and interrupted once the lock was stored; the next renewal seals what the new secret does not open. */
  lemma SecretOpensNothing(derive: Derive)
    requires TellsApart(derive)
    ensures var s := OnceLocked(derive);
      var ws := Enable(derive, s, 0, Pin, "2222", []).writes;
      |ws| == 4
      && var u := After(s, ws, 2);
         !Intact(derive, u, "2222", "token") && !Recoverable(derive, ApplyAll(u, ReplaceToken(u, "new", 5 * WEEK)), "2222", "new")
  {
    var s := OnceLocked(derive);
    LockedIs(derive);
    LockedFits(derive);
    assert "1111"[0] == '1' && "2222"[0] == '2' && "token"[0] == 't';
    RoundTrip([]);
    EnableInterrupted(derive, s, 0, Pin, "2222", [], "1111", "token", 2);
    LockedOut(derive, s, 0, Pin, "2222", [], "new", 5 * WEEK, "2222", "new");
  }

  /** A renewed token sealed and no more: the old one, which Helm has ended, is what the extension goes on using. */
  lemma OldTokenStillUnlocked(derive: Derive)
    ensures var s := OnceLocked(derive);
      var ws := ReplaceToken(s, "new", 5 * WEEK);
      |ws| == 3
      && var u := After(s, ws, 1);
         Recoverable(derive, u, "1111", "new") && u.unlocked.Some? && u.unlocked.value.token == "token"
  {
    var s := OnceLocked(derive);
    LockedIs(derive);
    RoundTrip(derive("1111", [], ITERATIONS));
    RoundTrip([]);
    Steps(s, ReplaceToken(s, "new", 5 * WEEK));
  }

  /** Nothing is due for renewal, nothing is sent, and the check is a use of Helm all the same. */
  lemma SilentUse(derive: Derive)
    ensures var p := RenewIfDue(OnceLocked(derive), 0, NoAnswer, NoAnswer); p.used && p.sends == []
  {
    LockedIs(derive);
    LockedFits(derive);
    RenewalCheckCountsAsUse(OnceLocked(derive), 0, NoAnswer, NoAnswer);
  }
}
