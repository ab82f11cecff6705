/**
 * Searching as one types: the counter that lets the latest search win, in the
 * dependency editor (src/components/dependency-editor.tsx) and in the
 * extension's popup (extension/src/popup.ts). Replies arrive in any order.
 */
module Search {
  import opened Names
  import Manifest

  datatype Hit = Hit(nodeId: Option<string>, title: string, subtitle: Option<string>)

  datatype Candidate = Candidate(nodeId: string, title: string, subtitle: Option<string>)

  datatype Reply<T> = Found(hits: seq<T>) | Failed

  /* ---- The dependency editor ---- */

  /** Only what is a node of the graph can be linked, and not to itself. */
  function Linkable(hits: seq<Hit>, self: string): seq<Candidate> {
    if hits == [] then []
    else
      var last := hits[|hits| - 1];
      Linkable(hits[..|hits| - 1], self)
      + (if last.nodeId.Some? && last.nodeId.value != self then [Candidate(last.nodeId.value, last.title, last.subtitle)] else [])
  }

  lemma {:induction false} LinkableAre(hits: seq<Hit>, self: string, c: Candidate)
    ensures c in Linkable(hits, self) <==> c.nodeId != self && Hit(Some(c.nodeId), c.title, c.subtitle) in hits
  {
    if hits != [] {
      var front, last := hits[..|hits| - 1], hits[|hits| - 1];
      LinkableAre(front, self, c);
      assert hits == front + [last];
    }
  }

  /** flying are the searches Helm has yet to answer; from is the search the list was last set by. */
  datatype Picker = Picker(seqNo: nat, candidates: seq<Candidate>, searching: bool, flying: set<nat>, from: nat)

  datatype Event = Search(term: string) | Answer(n: nat, reply: Reply<Hit>) | Reset

  const Opened := Picker(0, [], false, {}, 0)

  predicate TooShort(term: string) { |Manifest.Trim(term)| < 2 }

  function Step(p: Picker, self: string, e: Event): Picker {
    match e
    case Search(term) =>
      var n := p.seqNo + 1;
      if TooShort(term) then p.(seqNo := n, candidates := [], from := n)
      else p.(seqNo := n, searching := true, flying := p.flying + {n})
    case Answer(n, reply) =>
      var q := if reply.Found? && n == p.seqNo then p.(candidates := Linkable(reply.hits, self), from := n) else p;
      q.(flying := p.flying - {n}, searching := p.searching && n != p.seqNo)
    case Reset => p.(candidates := [])
  }

  predicate Legal(p: Picker, e: Event) { e.Answer? ==> e.n in p.flying }

  function Run(p: Picker, self: string, es: seq<Event>): Picker {
    if es == [] then p else Step(Run(p, self, es[..|es| - 1]), self, es[|es| - 1])
  }

  ghost predicate AllLegal(p: Picker, self: string, es: seq<Event>) {
    forall i :: 0 <= i < |es| ==> Legal(Run(p, self, es[..i]), es[i])
  }

  lemma FrontLegal(p: Picker, self: string, es: seq<Event>)
    requires AllLegal(p, self, es) && es != []
    ensures AllLegal(p, self, es[..|es| - 1]) && Legal(Run(p, self, es[..|es| - 1]), es[|es| - 1])
  {
    var front := es[..|es| - 1];
    forall i | 0 <= i < |front| ensures Legal(Run(p, self, front[..i]), front[i]) { assert front[..i] == es[..i]; }
  }

  predicate Sane(p: Picker) { p.from <= p.seqNo && forall n <- p.flying :: n <= p.seqNo }

  lemma StepsOn(p: Picker, self: string, e: Event)
    requires Sane(p)
    ensures Sane(Step(p, self, e)) && p.from <= Step(p, self, e).from
  {
  }

  /** A search is made of two characters or more, under the next number; anything shorter empties the list and asks nothing. */
  lemma SearchIsMade(p: Picker, self: string, term: string)
    ensures var q := Step(p, self, Search(term));
      && q.seqNo == p.seqNo + 1
      && (|Manifest.Trim(term)| >= 2 ==> q == p.(seqNo := q.seqNo, searching := true, flying := p.flying + {q.seqNo}))
      && (|Manifest.Trim(term)| < 2 ==> q == p.(seqNo := q.seqNo, candidates := [], from := q.seqNo))
  {
  }

  /** The list only ever moves on to a later search. */
  lemma {:induction false} NeverBack(p: Picker, self: string, es: seq<Event>, k: nat)
    requires Sane(p) && k <= |es|
    ensures Sane(Run(p, self, es)) && Run(p, self, es[..k]).from <= Run(p, self, es).from
  {
    assert k == |es| ==> es[..k] == es;
    if es != [] {
      var front := es[..|es| - 1];
      NeverBack(p, self, front, if k < |es| then k else k - 1);
      StepsOn(Run(p, self, front), self, es[|es| - 1]);
      assert k < |es| ==> front[..k] == es[..k];
    }
  }

  function Searches(es: seq<Event>): nat {
    if es == [] then 0 else Searches(es[..|es| - 1]) + (if es[|es| - 1].Search? then 1 else 0)
  }

  lemma {:induction false} Numbered(self: string, es: seq<Event>)
    ensures Run(Opened, self, es).seqNo == Searches(es)
  {
    if es != [] { Numbered(self, es[..|es| - 1]); }
  }

  /** The i-th event answered what was then the newest search, and the list shows its answer. */
  ghost predicate ShowsAnswer(p: Picker, self: string, es: seq<Event>, i: nat) {
    && i < |es| && es[i].Answer? && es[i].reply.Found?
    && es[i].n == Searches(es[..i]) == p.from
    && p.candidates == Linkable(es[i].reply.hits, self)
  }

  /** What is listed is always the whole answer to one search, which was the newest when it was answered. */
  lemma {:induction false} ListsOneAnswer(self: string, es: seq<Event>)
    ensures var p := Run(Opened, self, es); p.candidates == [] || exists i: nat :: ShowsAnswer(p, self, es, i)
  {
    if es != [] {
      var front, e := es[..|es| - 1], es[|es| - 1];
      ListsOneAnswer(self, front);
      Numbered(self, front);
      var q, p := Run(Opened, self, front), Run(Opened, self, es);
      if e.Answer? && e.reply.Found? && e.n == q.seqNo {
        assert ShowsAnswer(p, self, es, |front|);
      } else if p.candidates != [] {
        var i: nat :| ShowsAnswer(q, self, front, i);
        assert front[..i] == es[..i];
        assert ShowsAnswer(p, self, es, i);
      }
    }
  }

  predicate NoSearch(es: seq<Event>) { forall e <- es :: !e.Search? }

  lemma QuietFront(es: seq<Event>)
    requires NoSearch(es) && es != []
    ensures NoSearch(es[..|es| - 1]) && !es[|es| - 1].Search?
  {
    assert es[|es| - 1] in es;
  }

  /** Cleared, or cut too short to search, the list stays empty whatever answers arrive, until the next search. */
  lemma {:induction false} ShortStaysEmpty(p: Picker, self: string, term: string, es: seq<Event>)
    requires Sane(p) && TooShort(term) && NoSearch(es)
    requires AllLegal(Step(p, self, Search(term)), self, es)
    ensures var q := Run(Step(p, self, Search(term)), self, es);
      q.candidates == [] && q.seqNo == p.seqNo + 1 && q.seqNo !in q.flying
  {
    if es != [] {
      QuietFront(es);
      FrontLegal(Step(p, self, Search(term)), self, es);
      ShortStaysEmpty(p, self, term, es[..|es| - 1]);
    }
  }

  predicate OnlyAnswers(es: seq<Event>) { forall e <- es :: e.Answer? }

  lemma AnswersFront(es: seq<Event>)
    requires OnlyAnswers(es) && es != []
    ensures OnlyAnswers(es[..|es| - 1]) && es[|es| - 1].Answer?
  {
    assert es[|es| - 1] in es;
  }

  /** The list after some answers: that of the newest search if it was among them and came, and what it was before otherwise. */
  ghost predicate AfterAnswers(p: Picker, self: string, es: seq<Event>, q: Picker) {
    && q.seqNo == p.seqNo
    && (p.seqNo in q.flying ==> p.seqNo in p.flying && q.candidates == p.candidates && q.searching == p.searching)
    && (p.seqNo !in p.flying ==> q.candidates == p.candidates && q.searching == p.searching)
    && (p.seqNo in p.flying && p.seqNo !in q.flying ==> !q.searching && exists i: nat :: AnsweredAt(p, self, es, q, i))
  }

  ghost predicate AnsweredAt(p: Picker, self: string, es: seq<Event>, q: Picker, i: nat) {
    && i < |es| && es[i].Answer? && es[i].n == p.seqNo
    && q.candidates == if es[i].reply.Found? then Linkable(es[i].reply.hits, self) else p.candidates
  }

  /** Once the newest search is answered its results are listed, whatever else arrives before or after. */
  lemma {:induction false} NewestIsListed(p: Picker, self: string, es: seq<Event>)
    requires OnlyAnswers(es) && AllLegal(p, self, es)
    ensures AfterAnswers(p, self, es, Run(p, self, es))
  {
    if es != [] {
      var front, e := es[..|es| - 1], es[|es| - 1];
      AnswersFront(es);
      FrontLegal(p, self, es);
      NewestIsListed(p, self, front);
      var r, q := Run(p, self, front), Run(p, self, es);
      if p.seqNo in p.flying && p.seqNo !in q.flying {
        if e.n == p.seqNo {
          assert AnsweredAt(p, self, es, q, |front|);
        } else {
          var i: nat :| AnsweredAt(p, self, front, r, i);
          assert AnsweredAt(p, self, es, q, i);
        }
      }
    }
  }

  /**
   * Closing the editor clears the list but not the search in flight: answers
   * arriving before the next search fill it again exactly when one of them
   * answers the newest search with something to link.
   */
  lemma {:induction false} ResetIsOverwritten(p: Picker, self: string, es: seq<Event>)
    requires OnlyAnswers(es) && AllLegal(Step(p, self, Reset), self, es)
    ensures Run(Step(p, self, Reset), self, es).candidates != [] <==> exists i: nat :: Refills(p, self, es, i)
  {
    if es != [] {
      var z := Step(p, self, Reset);
      AnswersFront(es);
      FrontLegal(z, self, es);
      ResetIsOverwritten(p, self, es[..|es| - 1]);
      NewestIsListed(z, self, es[..|es| - 1]);
      RefillsFront(p, self, es);
    }
  }

  lemma RefillsFront(p: Picker, self: string, es: seq<Event>)
    requires es != []
    ensures var front := es[..|es| - 1];
      (exists i: nat :: Refills(p, self, es, i)) <==> (exists i: nat :: Refills(p, self, front, i)) || Refills(p, self, es, |front|)
  {
    var front := es[..|es| - 1];
    forall i: nat ensures Refills(p, self, front, i) <==> Refills(p, self, es, i) && i < |front| {
    }
  }

  ghost predicate Refills(p: Picker, self: string, es: seq<Event>, i: nat) {
    i < |es| && es[i].Answer? && es[i].n == p.seqNo && es[i].reply.Found? && Linkable(es[i].reply.hits, self) != []
  }

  /**
   * The busy sign, once every answer has arrived: it stays on for good exactly
   * when the last search was too short and cut off one still under way.
   */
  lemma BusySignSticks(p: Picker, self: string, term: string, es: seq<Event>)
    requires Sane(p) && OnlyAnswers(es) && AllLegal(Step(p, self, Search(term)), self, es)
    requires Run(Step(p, self, Search(term)), self, es).flying == {}
    ensures Run(Step(p, self, Search(term)), self, es).searching <==> TooShort(term) && p.searching
  {
    NewestIsListed(Step(p, self, Search(term)), self, es);
  }

  const OneHit := Hit(Some("node"), "title", None)
  const Chosen := Candidate("node", "title", None)

  lemma SearchedOnce(term: string)
    requires !TooShort(term)
    ensures Step(Opened, "self", Search(term)) == Picker(1, [], true, {1}, 0)
  {
  }

  lemma OneIsLinked()
    ensures Linkable([OneHit], "self") == [Chosen]
  {
    assert "node"[0] == 'n' && "self"[0] == 's';
    assert [OneHit][..0] == [];
  }

  /** Searched, closed, and filled again by the answer. */
  lemma FilledAfterClosing(term: string)
    requires !TooShort(term)
    ensures var p := Step(Step(Opened, "self", Search(term)), "self", Reset);
      Legal(p, Answer(1, Found([OneHit]))) && Step(p, "self", Answer(1, Found([OneHit]))).candidates == [Chosen]
  {
    SearchedOnce(term);
    OneIsLinked();
  }

  /** Searched, cut too short, and answered: nothing is under way and the sign stays on. */
  lemma BusyWithNothing(term: string, cut: string)
    requires !TooShort(term) && TooShort(cut)
    ensures var p := Step(Step(Opened, "self", Search(term)), "self", Search(cut));
      Legal(p, Answer(1, Failed)) && var q := Step(p, "self", Answer(1, Failed)); q.flying == {} && q.searching
  {
    SearchedOnce(term);
  }

  /** The editor's component, its state overwritten as replies arrive. */
  class LinkPicker {
    const self: string
    var seqNo: nat
    var candidates: seq<Candidate>
    var searching: bool
    ghost var flying: set<nat>
    ghost var from: nat

    ghost function Now(): Picker
      reads this
    {
      Picker(seqNo, candidates, searching, flying, from)
    }

    constructor (self: string)
      ensures Now() == Opened && this.self == self
    {
      this.self := self;
      seqNo, candidates, searching, flying, from := 0, [], false, {}, 0;
    }

    /** Up to the request going out; answer is given its number. */
    method RunSearch(term: string) returns (asked: Option<nat>)
      modifies this
      ensures Now() == Step(old(Now()), self, Search(term))
      ensures asked == if TooShort(term) then None else Some(seqNo)
    {
      seqNo := seqNo + 1;
      if |Manifest.Trim(term)| < 2 {
        candidates, from := [], seqNo;
        return None;
      }
      searching := true;
      flying := flying + {seqNo};
      asked := Some(seqNo);
    }

    /** From the answer on: stale and failed answers change nothing but may end the busy sign. */
    method OnAnswer(n: nat, reply: Reply<Hit>)
      modifies this
      ensures Now() == Step(old(Now()), self, Answer(n, reply))
    {
      flying := flying - {n};
      if reply.Found? && n == seqNo {
        candidates := [];
        var i := 0;
        while i < |reply.hits|
          invariant 0 <= i <= |reply.hits|
          invariant candidates == Linkable(reply.hits[..i], self)
          invariant Now() == old(Now()).(candidates := candidates, flying := old(flying) - {n})
        {
          assert reply.hits[..i + 1][..i] == reply.hits[..i];
          var hit := reply.hits[i];
          if hit.nodeId.Some? && hit.nodeId.value != self {
            candidates := candidates + [Candidate(hit.nodeId.value, hit.title, hit.subtitle)];
          }
          i := i + 1;
        }
        assert reply.hits[..i] == reply.hits;
        from := n;
      }
      if n == seqNo { searching := false; }
    }

    method Clear()
      modifies this
      ensures Now() == Step(old(Now()), self, Reset)
    {
      candidates := [];
    }
  }

  /* ---- The popup ---- */

  /** What the popup shows: the site's own entries, one search's results, or another of its views. */
  datatype View<T> = Site | Results(n: nat, hits: seq<T>) | Elsewhere

  /** waiting is the text a search will be made of once the typing pauses. */
  datatype Popup<T> = Popup(seqNo: nat, waiting: Option<string>, view: View<T>, flying: set<nat>)

  datatype PopupEvent<T> = Typed(text: string) | Paused | Came(n: nat, reply: Reply<T>) | Opens

  function PopupStep<T>(p: Popup<T>, e: PopupEvent<T>): Popup<T> {
    match e
    case Typed(text) =>
      if Manifest.Trim(text) == "" then p.(waiting := None, seqNo := p.seqNo + 1, view := Site)
      else p.(waiting := Some(Manifest.Trim(text)))
    case Paused => if p.waiting.Some? then p.(waiting := None, seqNo := p.seqNo + 1, flying := p.flying + {p.seqNo + 1}) else p
    case Came(n, reply) =>
      p.(flying := p.flying - {n}, view := if n == p.seqNo && reply.Found? then Results(n, reply.hits) else p.view)
    case Opens => p.(view := Elsewhere)
  }

  function PopupRun<T>(p: Popup<T>, es: seq<PopupEvent<T>>): Popup<T> {
    if es == [] then p else PopupStep(PopupRun(p, es[..|es| - 1]), es[|es| - 1])
  }

  ghost predicate CameInFlight<T>(p: Popup<T>, es: seq<PopupEvent<T>>) {
    forall i :: 0 <= i < |es| ==> OneInFlight(PopupRun(p, es[..i]), es[i])
  }

  predicate OneInFlight<T>(p: Popup<T>, e: PopupEvent<T>) { e.Came? ==> e.n in p.flying }

  lemma PopupFront<T>(p: Popup<T>, es: seq<PopupEvent<T>>)
    requires CameInFlight(p, es) && es != []
    ensures CameInFlight(p, es[..|es| - 1]) && OneInFlight(PopupRun(p, es[..|es| - 1]), es[|es| - 1])
  {
    var front := es[..|es| - 1];
    forall i | 0 <= i < |front| ensures OneInFlight(PopupRun(p, front[..i]), front[i]) { assert front[..i] == es[..i]; }
  }

  predicate PopupSane<T>(p: Popup<T>) {
    (forall n <- p.flying :: n <= p.seqNo) && (p.view.Results? ==> p.view.n <= p.seqNo)
  }

  lemma {:induction false} StaysSane<T>(p: Popup<T>, es: seq<PopupEvent<T>>)
    requires PopupSane(p) && CameInFlight(p, es)
    ensures PopupSane(PopupRun(p, es))
  {
    if es != [] {
      PopupFront(p, es);
      StaysSane(p, es[..|es| - 1]);
    }
  }

  predicate NoLater<T>(a: View<T>, b: View<T>) { a.Results? && b.Results? ==> a.n <= b.n }

  /** Results shown later are of the same search or a later one. */
  lemma {:induction false} ResultsNeverGoBack<T>(p: Popup<T>, es: seq<PopupEvent<T>>, k: nat)
    requires PopupSane(p) && k <= |es| && CameInFlight(p, es)
    ensures var q, r := PopupRun(p, es[..k]), PopupRun(p, es); PopupSane(q) && q.seqNo <= r.seqNo && NoLater(q.view, r.view)
  {
    if k == |es| {
      assert es[..k] == es;
      StaysSane(p, es);
    } else {
      PopupFront(p, es);
      ResultsNeverGoBack(p, es[..|es| - 1], k);
      assert es[..|es| - 1][..k] == es[..k];
    }
  }

  predicate Untyped<T>(es: seq<PopupEvent<T>>) { forall i :: 0 <= i < |es| ==> !es[i].Typed? && !es[i].Opens? }

  /** An emptied box shows the site and goes on showing it, whatever was still waiting or under way. */
  lemma {:induction false} EmptiedShowsTheSite<T>(p: Popup<T>, text: string, es: seq<PopupEvent<T>>)
    requires PopupSane(p) && Manifest.Trim(text) == "" && Untyped(es)
    requires CameInFlight(PopupStep(p, Typed(text)), es)
    ensures var q := PopupRun(PopupStep(p, Typed(text)), es);
      q.view == Site && q.waiting.None? && q.seqNo == p.seqNo + 1 && q.seqNo !in q.flying
  {
    if es != [] {
      PopupFront(PopupStep(p, Typed(text)), es);
      EmptiedShowsTheSite(p, text, es[..|es| - 1]);
    }
  }

  /** Since the i-th event nothing has been typed and the typing has not paused. */
  predicate SinceTyped<T>(es: seq<PopupEvent<T>>, i: nat) { forall j :: i < j < |es| ==> !es[j].Typed? && !es[j].Paused? }

  /** The text waiting to be searched for is the last one typed, without the white space at its ends, whatever came and was opened since. */
  lemma {:induction false} WaitsForLastTyped<T>(p: Popup<T>, es: seq<PopupEvent<T>>, i: nat)
    requires i < |es| && es[i].Typed? && SinceTyped(es, i)
    ensures PopupRun(p, es).waiting == if Manifest.Trim(es[i].text) == "" then None else Some(Manifest.Trim(es[i].text))
  {
    if i < |es| - 1 { WaitsForLastTyped(p, es[..|es| - 1], i); }
  }

  /** A pause makes the search waiting, once, under the next number; without one it does nothing. */
  lemma PauseSearchesOnce<T>(p: Popup<T>)
    ensures var q := PopupStep(p, Paused);
      && PopupStep(q, Paused) == q
      && q.view == p.view && q.waiting.None?
      && (p.waiting.Some? ==> q.seqNo == p.seqNo + 1 && q.flying == p.flying + {q.seqNo})
      && (p.waiting.None? ==> q == p)
  {
  }

  /** A search answered is not answered again, and a stale or failed answer changes nothing shown. */
  lemma AnsweredOnce<T>(p: Popup<T>, n: nat, reply: Reply<T>)
    ensures var q := PopupStep(p, Came(n, reply));
      && (forall again: Reply<T> :: !OneInFlight(q, Came(n, again))) && q.flying + {n} == p.flying + {n}
      && (n != p.seqNo || reply.Failed? ==> q.view == p.view)
  {
  }

  /** Answers, and the typing timer. */
  predicate NoneTyped<T>(es: seq<PopupEvent<T>>) { forall i :: 0 <= i < |es| ==> es[i].Came? || es[i].Paused? }

  /** The newest search once these events have happened: the typing timer makes at most one more of them. */
  function NewestAfter<T>(p: Popup<T>, es: seq<PopupEvent<T>>): nat {
    if p.waiting.Some? && AnyPause(es) then p.seqNo + 1 else p.seqNo
  }

  predicate AnyPause<T>(es: seq<PopupEvent<T>>) { exists i :: 0 <= i < |es| && es[i].Paused? }

  /** A good answer to what was the newest search when it came. */
  ghost predicate TakesOver<T>(p: Popup<T>, es: seq<PopupEvent<T>>, i: nat) {
    i < |es| && es[i].Came? && es[i].n == NewestAfter(p, es[..i]) && es[i].reply.Found?
  }

  /** The last of those, or none. */
  ghost predicate LastToTakeOver<T>(p: Popup<T>, es: seq<PopupEvent<T>>, i: nat) {
    TakesOver(p, es, i) && forall j: nat :: i < j ==> !TakesOver(p, es, j)
  }

  lemma TakesOverFront<T>(p: Popup<T>, es: seq<PopupEvent<T>>, i: nat)
    requires es != []
    ensures var front := es[..|es| - 1]; i < |front| ==> (TakesOver(p, front, i) <==> TakesOver(p, es, i))
  {
    var front := es[..|es| - 1];
    if i < |front| { assert front[..i] == es[..i]; }
  }

  lemma {:induction false} SeqNoAfter<T>(p: Popup<T>, es: seq<PopupEvent<T>>)
    requires NoneTyped(es)
    ensures var q := PopupRun(p, es);
      q.seqNo == NewestAfter(p, es) && q.waiting == if AnyPause(es) then None else p.waiting
  {
    if es != [] {
      var front, e := es[..|es| - 1], es[|es| - 1];
      SeqNoAfter(p, front);
      assert AnyPause(es) <==> AnyPause(front) || e.Paused? by {
        if AnyPause(front) {
          var i :| 0 <= i < |front| && front[i].Paused?;
          assert es[i].Paused?;
        }
      }
    }
  }

  /** What is shown after answers and a pause: the results of the last good answer that was the newest search's, or what was shown before. */
  lemma {:induction false} NewestTakesTheView<T>(p: Popup<T>, es: seq<PopupEvent<T>>)
    requires NoneTyped(es)
    ensures var q := PopupRun(p, es);
      && ((forall i: nat :: !TakesOver(p, es, i)) ==> q.view == p.view)
      && (forall i: nat :: LastToTakeOver(p, es, i) ==> q.view == Results(es[i].n, es[i].reply.hits))
      && ((exists i: nat :: TakesOver(p, es, i)) ==> exists i: nat :: LastToTakeOver(p, es, i))
  {
    if es != [] {
      var k := |es| - 1;
      var front := es[..k];
      NewestTakesTheView(p, front);
      SeqNoAfter(p, front);
      forall i: nat ensures i < k ==> (TakesOver(p, front, i) <==> TakesOver(p, es, i)) { TakesOverFront(p, es, i); }
      if TakesOver(p, es, k) {
        assert LastToTakeOver(p, es, k);
      } else {
        forall i: nat ensures LastToTakeOver(p, es, i) <==> LastToTakeOver(p, front, i) { LastFront(p, es, i); }
      }
    }
  }

  lemma LastFront<T>(p: Popup<T>, es: seq<PopupEvent<T>>, i: nat)
    requires es != [] && !TakesOver(p, es, |es| - 1)
    ensures LastToTakeOver(p, es, i) <==> LastToTakeOver(p, es[..|es| - 1], i)
  {
    var front := es[..|es| - 1];
    forall j: nat ensures TakesOver(p, es, j) <==> TakesOver(p, front, j) { TakesOverFront(p, es, j); }
  }

  /**
   * Settings opened over a search, or over a word just typed: results take
   * their place exactly when a good answer comes to what is then the newest
   * search, the typing timer's own included.
   */
  lemma OtherViewsAreOverwritten<T>(p: Popup<T>, es: seq<PopupEvent<T>>)
    requires NoneTyped(es)
    ensures PopupRun(PopupStep(p, Opens), es).view != Elsewhere <==> exists i: nat :: TakesOver(p, es, i)
  {
    var z := PopupStep(p, Opens);
    NewestTakesTheView(z, es);
    forall i: nat ensures TakesOver(z, es, i) <==> TakesOver(p, es, i) { }
    if i: nat :| TakesOver(p, es, i) {
      var j: nat :| LastToTakeOver(z, es, j);
    }
  }

  /** A word typed, settings opened before the pause, and put away by the answer to the search the pause made. */
  lemma SettingsPutAway(text: string, hits: seq<Hit>)
    requires Manifest.Trim(text) != ""
    ensures var p := PopupStep(Popup(0, None, Site, {}), Typed(text));
      var q := PopupStep(PopupStep(p, Opens), Paused);
      OneInFlight(q, Came(1, Found(hits))) && PopupStep(q, Came(1, Found(hits))).view == Results(1, hits)
  {
  }

  class PopupSearch<T> {
    var seqNo: nat
    var waiting: Option<string>
    var view: View<T>
    ghost var flying: set<nat>

    ghost function Now(): Popup<T>
      reads this
    {
      Popup(seqNo, waiting, view, flying)
    }

    constructor ()
      ensures Now() == Popup(0, None, Site, {})
    {
      seqNo, waiting, view, flying := 0, None, Site, {};
    }

    /** A key in the search box; an emptied box asks nothing and takes back what was asked. */
    method OnInput(text: string)
      modifies this
      ensures Now() == PopupStep(old(Now()), Typed(text))
    {
      waiting := None;
      var q := Manifest.Trim(text);
      if q == "" {
        seqNo := seqNo + 1;
        view := Site;
        return;
      }
      waiting := Some(q);
    }

    method OnPause() returns (asked: Option<string>)
      modifies this
      ensures Now() == PopupStep(old(Now()), Paused) && asked == old(waiting)
    {
      asked := waiting;
      if waiting.Some? {
        waiting, seqNo := None, seqNo + 1;
        flying := flying + {seqNo};
      }
    }

    method OnAnswer(n: nat, reply: Reply<T>)
      modifies this
      ensures Now() == PopupStep(old(Now()), Came(n, reply))
    {
      flying := flying - {n};
      if n != seqNo || reply.Failed? { return; }
      view := Results(n, reply.hits);
    }

    method OpenElsewhere()
      modifies this
      ensures Now() == PopupStep(old(Now()), Opens)
    {
      view := Elsewhere;
    }
  }
}
