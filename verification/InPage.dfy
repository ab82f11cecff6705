/**
 * The background's half of the in-page menu and the save prompt
 * (extension/src/inpage.ts), its handlers taken one at a time. The ghost
 * fields remember what was handed out: which frame a menu's token was opened
 * over, what Helm listed for which host, and what was typed under a token.
 */
module InPage {
  import opened Names
  import Fill

  const CAPTURE_TTL: int := 5 * 60_000
  const MENU_TTL: int := 10 * 60_000
  const MATCH_TTL: int := 60_000
  const STEP_TTL: int := 120_000

  datatype Url = Url(scheme: string, host: string, path: string)

  function Origin(u: Url): string { u.scheme + "//" + u.host }

  /** What the browser says of a message's sender. */
  datatype Sender = Sender(own: bool, tab: nat, url: Option<Url>, document: Option<string>, frame: Option<nat>)

  datatype PageFrame = PageFrame(tab: nat, frame: nat, document: string, url: Url)

  datatype EntryKind = Client | Personal

  datatype Entry = Entry(kind: EntryKind, id: string, name: string, username: Option<string>, hasPassword: bool, hasTotp: bool,
                         passwordCopyable: bool, requiresReason: bool, secretId: string, organizationName: Option<string>)

  datatype Menu = Menu(frame: PageFrame, entries: seq<Entry>, at: int)

  datatype CheckState = New | Changed | Known

  datatype Check = Check(state: CheckState, entry: Option<Entry>, canSave: bool)

  /** Where a login may be saved. */
  datatype Destinations = Destinations(canSave: bool, organizations: seq<string>)

  /** What the save prompt shows. */
  datatype Prompt = Prompt(changes: bool, host: string, username: string, suggestedName: string,
                           entry: Option<(string, string)>, destinations: Destinations)

  datatype Login = Login(token: string, tab: nat, url: Url, username: string, password: string, at: int, check: Check, shown: bool)

  datatype Seen = Seen(host: string, username: string, at: int)

  datatype Match = Match(at: int, entries: seq<Entry>)

  datatype Destination = Own | OfClient(organizationId: string, siteId: Option<string>)

  datatype SaveRequest = SaveRequest(destination: Destination, name: string, tags: seq<string>)

  /** What is sent to Helm. */
  datatype Ask =
    | AskMatches(url: Url)
    | AskCheck(url: Url, username: string, password: string)
    | Reveal(entry: Entry)
    | CodeFor(entry: Entry)
    | SaveLogin(request: SaveRequest, username: string, password: string, origin: string)
    | UpdateLogin(url: Url, kind: EntryKind, id: string, password: string)
    | AskDestinations

  /** A page frame: https, in a tab, with a document. JavaScript takes tab 0 for none. */
  function PageOf(s: Sender): Option<PageFrame> {
    if s.own && s.tab != 0 && s.url.Some? && s.document.Some? && s.url.value.scheme == "https:" then
      Some(PageFrame(s.tab, if s.frame.Some? then s.frame.value else 0, s.document.value, s.url.value))
    else None
  }

  function HostOf(s: Sender): set<string> { if PageOf(s).Some? then {PageOf(s).value.url.host} else {} }

  /** One of the extension's own pages, inside a tab. */
  predicate IsOwn(s: Sender, page: string) {
    s.own && s.tab != 0 && s.url.Some? && s.url.value.scheme == "chrome-extension:" && s.url.value.path == "/" + page
  }

  lemma NeverBoth(s: Sender, page: string)
    ensures IsOwn(s, page) ==> PageOf(s).None?
    ensures !(IsOwn(s, "menu.html") && IsOwn(s, "notify.html"))
  {
    assert "/menu.html"[1] != "/notify.html"[1];
    assert "/" + "menu.html" == "/menu.html" && "/" + "notify.html" == "/notify.html";
    assert "https:"[0] != "chrome-extension:"[0];
  }

  /** A page's frame is known from what the browser says: this extension's script, in a tab, over https, in a document. */
  lemma PageIs(s: Sender, f: PageFrame)
    ensures PageOf(s) == Some(f) <==>
      && s.own && s.tab > 0 && f.tab == s.tab
      && s.url == Some(f.url) && f.url.scheme == "https:" && s.document == Some(f.document)
      && (s.frame == Some(f.frame) || (s.frame.None? && f.frame == 0))
  {
  }

  /** And the extension's own frames from their address, never from anything the message says. */
  lemma OwnIs(s: Sender)
    ensures IsOwn(s, "menu.html") <==> s.own && s.tab > 0 && s.url.Some? && s.url.value == Url("chrome-extension:", s.url.value.host, "/menu.html")
    ensures IsOwn(s, "notify.html") <==> s.own && s.tab > 0 && s.url.Some? && s.url.value == Url("chrome-extension:", s.url.value.host, "/notify.html")
  {
    assert "/" + "menu.html" == "/menu.html" && "/" + "notify.html" == "/notify.html";
  }

  /* ---- What a fill asks for and writes ---- */

  function KindText(k: EntryKind): string { if k.Client? then "client" else "personal" }

  function EntryKey(e: Entry): string { KindText(e.kind) + ":" + e.id }

  /** A key names one entry: kind and id can be read back from it. */
  lemma KeysTellEntriesApart(a: Entry, b: Entry)
    ensures EntryKey(a) == EntryKey(b) <==> a.kind == b.kind && a.id == b.id
  {
    var x, y := EntryKey(a), EntryKey(b);
    assert x[0] == (if a.kind.Client? then 'c' else 'p');
    assert y[0] == (if b.kind.Client? then 'c' else 'p');
    assert x[|KindText(a.kind) + ":"|..] == a.id && y[|KindText(b.kind) + ":"|..] == b.id;
  }

  function Find(entries: seq<Entry>, key: string): (e: Option<Entry>)
    ensures e.Some? ==> e.value in entries && EntryKey(e.value) == key
    ensures e.None? ==> forall x <- entries :: EntryKey(x) != key
  {
    if entries == [] then None else if EntryKey(entries[0]) == key then Some(entries[0]) else Find(entries[1..], key)
  }

  predicate Given(t: Option<string>) { t.Some? && t.value != "" }

  /** For a form found: the asks made, and the values, unless something stands in the way. */
  function Prepare(e: Entry, p: Fill.Probe, revealed: Option<string>, code: Option<string>): (seq<Ask>, Option<Fill.Values>) {
    var username := if p.username && Given(e.username) then e.username else None;
    if p.password && !e.passwordCopyable then ([], None)
    else
      var first := if p.password then [Reveal(e)] else [];
      if p.password && revealed.None? then (first, None)
      else
        var coded := p.code && e.hasTotp;
        var asks := first + (if coded then [CodeFor(e)] else []);
        if coded && code.None? then (asks, None)
        else
          var v := Fill.Values(username, if p.password then revealed else None, if coded then code else None);
          (asks, if v == Fill.Values(None, None, None) then None else Some(v))
  }

  /**
   * A secret is asked for only when its field was found, so a form never
   * costs more than one, and the values are for fields found and no others.
   */
  lemma AsksOnlyForFields(e: Entry, host: string, xs: seq<Fill.Input>, revealed: Option<string>, code: Option<string>)
    ensures var p := Fill.Report(host, xs, 0);
      var (asks, v) := Prepare(e, p, revealed, code);
      && |asks| <= 1
      && (Reveal(e) in asks ==> p.password && e.passwordCopyable)
      && (CodeFor(e) in asks ==> p.code && !p.password && e.hasTotp)
      && (v.Some? ==> Fill.Probed(p, v.value) && v.value != Fill.Values(None, None, None))
  {
    Fill.FieldsDiffer(xs);
  }

  /** What was listed is filled: the values are the entry's username and what Helm gave for that entry. */
  lemma ValuesAreTheEntrys(e: Entry, p: Fill.Probe, revealed: Option<string>, code: Option<string>)
    ensures var (asks, v) := Prepare(e, p, revealed, code);
      && (forall a <- asks :: a == Reveal(e) || a == CodeFor(e))
      && (v.Some? ==>
            && (v.value.username.Some? ==> v.value.username == e.username && p.username)
            && (v.value.password.Some? ==> v.value.password == revealed && Reveal(e) in asks)
            && (v.value.code.Some? ==> v.value.code == code && CodeFor(e) in asks))
  {
    if p.password && revealed.Some? && p.code && e.hasTotp {
      assert ([Reveal(e)] + [CodeFor(e)])[0] == Reveal(e) && ([Reveal(e)] + [CodeFor(e)])[1] == CodeFor(e);
    }
  }

  /** Something stands in the way of a fill: a password that stays in Helm, or one or a code that Helm did not give. */
  predicate Blocked(e: Entry, p: Fill.Probe, revealed: Option<string>, code: Option<string>) {
    (p.password && (!e.passwordCopyable || revealed.None?)) || (p.code && e.hasTotp && code.None?)
  }

  /** Unless something stands in the way, each field found gets what the entry has for it; the password's is always asked for, the code's if there is one. */
  lemma PreparesAll(e: Entry, p: Fill.Probe, revealed: Option<string>, code: Option<string>)
    requires !Blocked(e, p, revealed, code)
    ensures var (asks, v) := Prepare(e, p, revealed, code);
      var filled := if v.Some? then v.value else Fill.Values(None, None, None);
      && filled.username == (if p.username && e.username.Some? && e.username != Some("") then e.username else None)
      && filled.password == (if p.password then revealed else None)
      && filled.code == (if p.code && e.hasTotp then code else None)
      && (Reveal(e) in asks <==> p.password) && (CodeFor(e) in asks <==> p.code && e.hasTotp)
  {
    if p.password && p.code && e.hasTotp {
      assert ([Reveal(e)] + [CodeFor(e)])[0] == Reveal(e) && ([Reveal(e)] + [CodeFor(e)])[1] == CodeFor(e);
    }
  }

  /** With something in the way nothing is filled; a password that may be copied is still asked for. */
  lemma BlockedFillsNothing(e: Entry, p: Fill.Probe, revealed: Option<string>, code: Option<string>)
    requires Blocked(e, p, revealed, code)
    ensures Prepare(e, p, revealed, code).1 == None
    ensures Reveal(e) in Prepare(e, p, revealed, code).0 <==> p.password && e.passwordCopyable
  {
    if p.password && p.code && e.hasTotp {
      assert ([Reveal(e)] + [CodeFor(e)])[0] == Reveal(e);
    }
  }

  /** This sends the login to be saved, at the site it was typed on. */
  predicate SaveOf(l: Login, request: SaveRequest, a: Ask) {
    a == SaveLogin(request, l.username, l.password, "https://" + l.url.host)
  }

  lemma HttpsOrigin(u: Url)
    requires u.scheme == "https:"
    ensures Origin(u) == "https://" + u.host
  {
    assert "https:" + "//" == "https://";
  }

  /** This changes the entry Helm named for the login to the password typed. */
  predicate UpdateOf(l: Login, a: Ask) {
    l.check.entry.Some? && a == UpdateLogin(l.url, l.check.entry.value.kind, l.check.entry.value.id, l.password)
  }

  function WhereIs(e: Entry): string { if e.organizationName.Some? then e.organizationName.value else "My passwords" }

  function WithoutWww(host: string): string { if |host| >= 4 && host[..4] == "www." then host[4..] else host }

  /** The suggested name is the host, less a www. it begins with. */
  lemma WithoutWwwIs(host: string, rest: string)
    ensures WithoutWww("www." + rest) == rest
    ensures (forall tail: string :: host != "www." + tail) ==> WithoutWww(host) == host
  {
    assert ("www." + rest)[..4] == "www.";
    if |host| >= 4 && host[..4] == "www." { assert host == "www." + host[4..]; }
  }

  /**
   * The prompt for a login: its own host and username, the entry Helm named
   * with where it is, and where it may be saved: what Helm gave for a new
   * login, or else no more than whether its check allows it.
   */
  ghost predicate PromptsFor(l: Login, env: Env, prompt: Prompt) {
    && (prompt.changes <==> l.check.state == Changed)
    && prompt.host == l.url.host && prompt.username == l.username && prompt.suggestedName == WithoutWww(l.url.host)
    && (prompt.entry.Some? <==> l.check.entry.Some?)
    && (prompt.entry.Some? ==>
          && prompt.entry.value.0 == l.check.entry.value.name
          && (l.check.entry.value.organizationName.Some? ==> Some(prompt.entry.value.1) == l.check.entry.value.organizationName)
          && (l.check.entry.value.organizationName.None? ==> prompt.entry.value.1 == "My passwords"))
    && (!prompt.changes && env.destinations.Some? ==> Some(prompt.destinations) == env.destinations)
    && (prompt.changes || env.destinations.None? ==> prompt.destinations == Destinations(l.check.canSave, []))
  }

  type Target = (nat, string)

  /** The documents open in the browser, by tab and document id. */
  type Pages = map<Target, seq<Fill.Input>>

  /** Everything a handler is told while it runs: the time, the state of the rest of the extension, Helm's answers, the pages. */
  datatype Env = Env(
    now: int, paired: bool, locked: bool, helmHost: Option<string>, newToken: string,
    matches: Option<seq<Entry>>, check: Option<Check>, revealed: Option<string>, code: Option<string>, saved: bool,
    destinations: Option<Destinations>, probe: Option<Fill.Probe>, pages: Pages)

  datatype Message =
    | AskStatus
    | Open
    | Closed(token: string)
    | Typed(username: string, password: string)
    | StepSeen(username: string)
    | BarPending
    | View(token: string)
    | FillIt(token: string, key: string)
    | Dismiss(token: string)
    | ViewPrompt(token: string)
    | Save(token: string, request: SaveRequest)
    | Update(token: string)
    | DismissPrompt(token: string, never: bool)

  function EntriesOr(found: Option<seq<Entry>>): seq<Entry> { if found.Some? then found.value else [] }

  datatype Status = Status(show: bool, count: nat, locked: bool)

  /** Every login waiting is what was typed under its token, in its tab, the latest there, and not answered. */
  ghost predicate LoginsFit(captured: map<nat, Login>, latest: map<nat, string>, typed: map<string, Login>, answered: set<string>) {
    && (forall tab <- captured :: tab in latest && Waiting(captured[tab], tab, latest[tab], typed, answered))
    && (forall tab <- latest :: latest[tab] in typed && typed[latest[tab]].tab == tab)
    && (forall t <- answered :: t in typed)
    && (forall t <- typed :: typed[t].url.scheme == "https:")
  }

  ghost predicate Waiting(c: Login, tab: nat, token: string, typed: map<string, Login>, answered: set<string>) {
    c.token == token && token in typed && token !in answered && c.tab == tab && c == typed[token].(shown := c.shown)
  }

  /** A login typed under a new token takes its tab. */
  lemma LoginTakesTab(captured: map<nat, Login>, latest: map<nat, string>, typed: map<string, Login>, answered: set<string>, l: Login)
    requires LoginsFit(captured, latest, typed, answered) && l.token !in typed && l.url.scheme == "https:"
    ensures LoginsFit(captured[l.tab := l], latest[l.tab := l.token], typed[l.token := l], answered)
  {
  }

  function SeenIn(usernames: map<nat, Seen>, tab: nat): Option<Seen> { if tab in usernames then Some(usernames[tab]) else None }

  function AtMost320(s: string): string { if |s| <= 320 then s else s[..320] }

  /**
   * Whose login it is taken to be: the username typed with it, and if none was
   * the one seen in the tab in the last five minutes, on this host or, in the
   * last two, on any; and failing that nobody's.
   */
  predicate NamedFor(typedUsername: string, seen: Option<Seen>, host: string, now: int, u: string) {
    if typedUsername != "" then u == AtMost320(typedUsername)
    else if seen.Some? && now - seen.value.at <= 300_000 && (seen.value.host == host || now - seen.value.at < 120_000)
      then u == AtMost320(seen.value.username)
    else u == ""
  }

  /** A password typed on this page may be kept: prompts are on, the page is not Helm's own or one never to save for, and Helm can be asked. */
  predicate MayBeKept(sender: Sender, password: string, env: Env, offerToSave: bool, neverSave: set<string>) {
    var page := PageOf(sender);
    && page.Some? && offerToSave && password != "" && |password| <= 4096
    && env.helmHost != Some(page.value.url.host) && page.value.url.host !in neverSave && env.paired && !env.locked
  }

  /** A page's icon asks Helm for matches exactly where it shows, unlocked, and what was found before is a minute old. */
  predicate StatusAsks(sender: Sender, env: Env, inlineMenu: bool, matches: map<string, Match>, asks: seq<Ask>) {
    var page := PageOf(sender);
    if page.Some? && inlineMenu && env.paired && env.helmHost != Some(page.value.url.host) && !env.locked
       && !(page.value.url.host in matches && env.now - matches[page.value.url.host].at < 60_000)
    then asks == [AskMatches(page.value.url)] else asks == []
  }

  /* ---- What a message may change ---- */

  /** What is kept about menus, and about logins. */
  datatype MenusKept = MenusKept(menus: map<string, Menu>, matches: map<string, Match>, listed: set<(string, Entry)>, openedOver: map<string, PageFrame>)

  datatype LoginsKept = LoginsKept(captured: map<nat, Login>, usernames: map<nat, Seen>, latest: map<nat, string>,
                                   typed: map<string, Login>, answered: set<string>, neverSave: set<string>)

  function Stale(menus: map<string, Menu>, env: Env): set<string> {
    set t | t in menus && env.now - menus[t].at > MENU_TTL
  }

  function HostUnder(menus: map<string, Menu>, token: string): set<string> {
    if token in menus then {menus[token].frame.url.host} else {}
  }

  function ClosableBy(menus: map<string, Menu>, token: string, sender: Sender): set<string> {
    if token in menus && menus[token].frame.tab == sender.tab then {token} else {}
  }

  /** The menus a message may take, change or hand out. */
  function Tokens(m: Message, sender: Sender, env: Env, menus: map<string, Menu>): set<string> {
    match m
    case Open => if PageOf(sender).Some? then {env.newToken} + Stale(menus, env) else {}
    case Closed(token) => ClosableBy(menus, token, sender)
    case View(token) => if IsOwn(sender, "menu.html") then {token} else {}
    case FillIt(token, _) => if IsOwn(sender, "menu.html") then {token} else {}
    case Dismiss(token) => if IsOwn(sender, "menu.html") then {token} else {}
    case _ => {}
  }

  /** The hosts a message may look up. */
  function Hosts(m: Message, sender: Sender, menus: map<string, Menu>): set<string> {
    match m
    case AskStatus => HostOf(sender)
    case Open => HostOf(sender)
    case View(token) => if IsOwn(sender, "menu.html") then HostUnder(menus, token) else {}
    case _ => {}
  }

  /** Only these tokens' menus are taken, changed or handed out; one that stays keeps its frame and its time. */
  ghost predicate OnlyThese(tokens: set<string>, a: map<string, Menu>, b: map<string, Menu>) {
    && (forall t :: t !in tokens ==> (t in b <==> t in a) && (t in b ==> b[t] == a[t]))
    && (forall t <- b :: t in a ==> b[t].frame == a[t].frame && b[t].at == a[t].at)
  }

  /** For these hosts at most the matches changed, and only Helm's answer was listed for them. */
  ghost predicate LookedUpFor(hosts: set<string>, env: Env, a: MenusKept, b: MenusKept) {
    && b.matches - hosts == a.matches - hosts && a.listed <= b.listed
    && (forall p <- b.listed :: p in a.listed || (p.0 in hosts && p.1 in EntriesOr(env.matches)))
  }

  /** A login saved from this tab drops its host's matches, and nothing else about menus. */
  predicate Dropped(tab: nat, waiting: map<nat, Login>, a: MenusKept, b: MenusKept) {
    tab in waiting && b == a.(matches := a.matches - {waiting[tab].url.host})
  }

  /** At most the message's own menus and the matches of its own hosts change. */
  ghost predicate MenusFrame(m: Message, sender: Sender, env: Env, waiting: map<nat, Login>, a: MenusKept, b: MenusKept) {
    || a == b
    || (m.Save? && IsOwn(sender, "notify.html") && Dropped(sender.tab, waiting, a, b))
    || (OnlyThese(Tokens(m, sender, env, a.menus), a.menus, b.menus) && LookedUpFor(Hosts(m, sender, a.menus), env, a, b)
        && (b.openedOver == a.openedOver
            || (m.Open? && PageOf(sender).Some? && b.openedOver == a.openedOver[env.newToken := PageOf(sender).value])))
  }

  function LoginIn(captured: map<nat, Login>, tab: nat, now: int): Option<Login> {
    if tab in captured && now - captured[tab].at <= CAPTURE_TTL then Some(captured[tab]) else None
  }

  /** The login waiting in this tab still is, unless it had expired. */
  ghost predicate Survives(tab: nat, env: Env, a: LoginsKept, b: LoginsKept) {
    LoginIn(a.captured, tab, env.now).Some? ==> tab in b.captured && b.captured[tab] == a.captured[tab].(shown := b.captured[tab].shown)
  }

  /** The messages that read the login waiting in their tab. */
  predicate ReadsLogin(m: Message, sender: Sender) {
    m.BarPending? || (IsOwn(sender, "notify.html") && (m.ViewPrompt? || m.Save? || m.Update?))
  }

  /**
   * At most the sender's own tab's login and username change, and one token is
   * answered, its own. A login goes for one typed later, for its answer or a
   * dismissal, or because it had expired.
   */
  ghost predicate LoginsFrame(m: Message, sender: Sender, env: Env, a: LoginsKept, b: LoginsKept) {
    a == b
    || (WithinTab(sender.tab, a, b) && AnsweredOwn(m, sender, a, b)
        && (b.captured != a.captured ==>
              || (m.Typed? && PageOf(sender).Some?)
              || (ReadsLogin(m, sender) && (Survives(sender.tab, env, a, b) || b.answered != a.answered))
              || (IsOwn(sender, "notify.html") && m.DismissPrompt?))
        && (b.usernames != a.usernames ==>
              m.StepSeen? && PageOf(sender).Some? && SeenIn(b.usernames, sender.tab) == Some(Seen(PageOf(sender).value.url.host, m.username, env.now)))
        && (b.neverSave != a.neverSave ==> IsOwn(sender, "notify.html") && m.DismissPrompt? && m.never)
        && ((b.typed == a.typed && b.latest == a.latest) || (m.Typed? && PageOf(sender).Some? && TypedAnew(env.newToken, a, b))))
  }

  ghost predicate WithinTab(tab: nat, a: LoginsKept, b: LoginsKept) {
    b.captured - {tab} == a.captured - {tab} && b.latest - {tab} == a.latest - {tab} && b.usernames - {tab} == a.usernames - {tab}
  }

  predicate AnsweredOwn(m: Message, sender: Sender, a: LoginsKept, b: LoginsKept) {
    b.answered != a.answered ==>
      IsOwn(sender, "notify.html") && (m.Save? || m.Update? || m.DismissPrompt?) && b.answered == a.answered + {m.token}
  }

  ghost predicate TypedAnew(token: string, a: LoginsKept, b: LoginsKept) {
    token in b.typed && b.typed == a.typed[token := b.typed[token]]
  }

  /** What was ever handed out is not forgotten or rewritten. */
  ghost predicate Remembered(a: MenusKept, b: MenusKept, c: LoginsKept, d: LoginsKept) {
    && a.listed <= b.listed && c.answered <= d.answered
    && (forall t <- a.openedOver :: t in b.openedOver && b.openedOver[t] == a.openedOver[t])
    && (forall t <- c.typed :: t in d.typed && d.typed[t] == c.typed[t])
  }

  lemma FramesRemember(m: Message, sender: Sender, env: Env, a: MenusKept, b: MenusKept, c: LoginsKept, d: LoginsKept)
    requires MenusFrame(m, sender, env, c.captured, a, b) && LoginsFrame(m, sender, env, c, d)
    requires env.newToken !in a.openedOver && env.newToken !in c.typed
    ensures Remembered(a, b, c, d)
  {
  }

  lemma TypedFrames(m: Message, sender: Sender, env: Env, a: LoginsKept, b: LoginsKept, l: Login)
    requires m.Typed? && PageOf(sender).Some? && l.tab == sender.tab
    requires b == a.(captured := a.captured[l.tab := l], typed := a.typed[env.newToken := l], latest := a.latest[l.tab := env.newToken])
    ensures LoginsFrame(m, sender, env, a, b)
  {
  }

  lemma StepFrames(m: Message, sender: Sender, env: Env, a: LoginsKept, b: LoginsKept, seen: Seen)
    requires m.StepSeen? && PageOf(sender).Some? && b == a.(usernames := a.usernames[sender.tab := seen])
    requires seen == Seen(PageOf(sender).value.url.host, m.username, env.now)
    ensures LoginsFrame(m, sender, env, a, b)
  {
  }

  /** An expired login dropped as it was read, or one read and shown. */
  lemma ReadFrames(m: Message, sender: Sender, env: Env, a: LoginsKept, b: LoginsKept)
    requires ReadsLogin(m, sender) && b == a.(captured := b.captured)
    requires
      if LoginIn(a.captured, sender.tab, env.now).None? then b.captured == a.captured - {sender.tab}
      else b.captured == a.captured || b.captured == a.captured[sender.tab := a.captured[sender.tab].(shown := true)]
    ensures LoginsFrame(m, sender, env, a, b)
  {
  }

  /** A login answered goes, and its token with it. */
  lemma AnswerFrames(m: Message, sender: Sender, env: Env, a: LoginsKept, b: LoginsKept)
    requires IsOwn(sender, "notify.html") && (m.Save? || m.Update?) && m.token !in a.answered
    requires b == a.(captured := a.captured - {sender.tab}, answered := a.answered + {m.token})
    ensures LoginsFrame(m, sender, env, a, b)
  {
  }

  lemma DismissFrames(m: Message, sender: Sender, env: Env, a: LoginsKept, b: LoginsKept)
    requires IsOwn(sender, "notify.html") && m.DismissPrompt? && b.captured == a.captured - {sender.tab}
    requires b == a.(captured := b.captured, answered := b.answered, neverSave := b.neverSave)
    requires (b.answered == a.answered || b.answered == a.answered + {m.token}) && (b.neverSave == a.neverSave || m.never)
    ensures LoginsFrame(m, sender, env, a, b)
  {
  }

  class Background {
    var menus: map<string, Menu>
    var captured: map<nat, Login>
    var usernames: map<nat, Seen>
    var matches: map<string, Match>
    var inlineMenu: bool
    var offerToSave: bool
    var neverSave: set<string>
    ghost var openedOver: map<string, PageFrame>
    ghost var listed: set<(string, Entry)>
    ghost var typed: map<string, Login>
    ghost var latest: map<nat, string>
    ghost var answered: set<string>

    ghost predicate AllListed(host: string, entries: seq<Entry>)
      reads this`listed
    {
      forall e <- entries :: (host, e) in listed
    }

    /** Every menu is over the frame its token was opened for and holds only what Helm listed for that frame's host. */
    ghost predicate MenusValid()
      reads this`menus, this`openedOver, this`matches, this`listed
    {
      && (forall t <- menus :: t in openedOver && menus[t].frame == openedOver[t] && AllListed(openedOver[t].url.host, menus[t].entries))
      && (forall h <- matches :: AllListed(h, matches[h].entries))
    }

    ghost predicate LoginsValid()
      reads this`captured, this`latest, this`typed, this`answered
    {
      LoginsFit(captured, latest, typed, answered)
    }

    ghost predicate Valid()
      reads this
    {
      MenusValid() && LoginsValid()
    }

    constructor ()
      ensures Valid() && menus == map[] && captured == map[] && openedOver == map[] && listed == {} && typed == map[] && answered == {}
    {
      menus, captured, usernames, matches, inlineMenu, offerToSave, neverSave := map[], map[], map[], map[], false, false, {};
      openedOver, listed, typed, latest, answered := map[], {}, map[], map[], {};
    }

    twostate predicate Remembers()
      reads this
    {
      Remembered(old(Menus()), Menus(), old(Logins()), Logins())
    }

    ghost function Menus(): MenusKept
      reads this`menus, this`matches, this`listed, this`openedOver
    {
      MenusKept(menus, matches, listed, openedOver)
    }

    ghost function Logins(): LoginsKept
      reads this`captured, this`usernames, this`latest, this`typed, this`answered, this`neverSave
    {
      LoginsKept(captured, usernames, latest, typed, answered, neverSave)
    }

    twostate predicate OnlyMenus(tokens: set<string>)
      reads this`menus
    {
      OnlyThese(tokens, old(menus), menus)
    }

    /* ---- The icon and the menu ---- */

    predicate Cached(host: string, now: int)
      reads this`matches
    {
      host in matches && now - matches[host].at < MATCH_TTL
    }

    /** What a look-up finds: what was found less than a minute ago, or else what Helm answers. */
    function FoundFor(host: string, env: Env): Option<seq<Entry>>
      reads this`matches
    {
      if Cached(host, env.now) then Some(matches[host].entries) else env.matches
    }

    twostate predicate LookedUp(hosts: set<string>, env: Env)
      reads this`menus, this`matches, this`listed, this`openedOver
    {
      LookedUpFor(hosts, env, old(Menus()), Menus())
    }

    /** The matches for a host, from Helm at most once a minute; asked without counting as a use. */
    method Lookup(url: Url, env: Env) returns (found: Option<seq<Entry>>, asks: seq<Ask>)
      requires Valid()
      modifies this`matches, this`listed
      ensures Valid()
      ensures found == old(FoundFor(url.host, env)) && (found.Some? ==> AllListed(url.host, found.value))
      ensures var recent := url.host in old(matches) && env.now - old(matches)[url.host].at < 60_000;
        found == (if recent then Some(old(matches)[url.host].entries) else env.matches) && asks == if recent then [] else [AskMatches(url)]
      ensures LookedUp({url.host}, env)
      ensures matches == if asks != [] && found.Some? then old(matches)[url.host := Match(env.now, found.value)] else old(matches)
    {
      if Cached(url.host, env.now) {
        return Some(matches[url.host].entries), [];
      }
      asks := [AskMatches(url)];
      found := env.matches;
      if found.Some? {
        listed := listed + set e | e in found.value :: (url.host, e);
        matches := matches[url.host := Match(env.now, found.value)];
      }
    }

    /** The icon shows on a page that is not Helm's own, with the menu turned on and the browser paired: with how many matches there are, or locked. */
    method InlineStatus(sender: Sender, env: Env) returns (status: Status, asks: seq<Ask>)
      requires Valid()
      modifies this`matches, this`listed
      ensures Valid()
      ensures var page := PageOf(sender);
        if page.None? || !inlineMenu || !env.paired || env.helmHost == Some(page.value.url.host) then status == Status(false, 0, false) && asks == []
        else if env.locked then status == Status(true, 0, true)
        else var n := |EntriesOr(old(FoundFor(page.value.url.host, env)))|; status == Status(n > 0, n, false)
      ensures forall a <- asks :: a.AskMatches? && !env.locked && env.paired
      ensures StatusAsks(sender, env, old(inlineMenu), old(matches), asks)
      ensures LookedUp(HostOf(sender), env)
    {
      var frame := PageOf(sender);
      status, asks := Status(false, 0, false), [];
      if frame.None? || !inlineMenu || !env.paired || Some(frame.value.url.host) == env.helmHost { return; }
      if env.locked { return Status(true, 0, true), []; }
      var found;
      found, asks := Lookup(frame.value.url, env);
      var count := if found.Some? then |found.value| else 0;
      status := Status(count > 0, count, false);
    }

    /** Menus never closed are dropped once stale. */
    method PruneMenus(env: Env)
      requires Valid()
      modifies this`menus
      ensures Valid() && menus == old(menus) - Stale(old(menus), env)
      ensures forall t <- old(menus) :: t in menus <==> env.now - old(menus)[t].at <= 600_000
    {
      menus := menus - Stale(menus, env);
    }

    method HandOut(token: string, frame: PageFrame, entries: seq<Entry>, env: Env)
      requires Valid() && token !in openedOver && AllListed(frame.url.host, entries)
      modifies this`menus, this`openedOver
      ensures Valid()
      ensures openedOver == old(openedOver)[token := frame]
      ensures menus == old(menus)[token := Menu(frame, entries, env.now)]
    {
      openedOver := openedOver[token := frame];
      menus := menus[token := Menu(frame, entries, env.now)];
    }

    /** A new token for a list over the sender's frame; stale lists go. */
    method OpenMenu(sender: Sender, env: Env) returns (token: Option<string>, asks: seq<Ask>)
      requires Valid() && env.newToken !in openedOver
      modifies this`menus, this`matches, this`listed, this`openedOver
      ensures Valid()
      ensures token == if PageOf(sender).Some? && inlineMenu then Some(env.newToken) else None
      ensures token.Some? ==> openedOver == old(openedOver)[env.newToken := PageOf(sender).value]
      ensures token.Some? ==> env.newToken in menus && menus[env.newToken].frame == PageOf(sender).value && menus[env.newToken].at == env.now
      ensures token.Some? && env.locked ==> menus[env.newToken].entries == []
      ensures token.Some? && !env.locked ==> menus[env.newToken].entries == EntriesOr(old(FoundFor(PageOf(sender).value.url.host, env)))
      ensures token.None? ==> menus == old(menus) && openedOver == old(openedOver)
      ensures token.Some? ==> menus - {env.newToken} == old(menus) - Stale(old(menus), env)
      ensures OnlyMenus({env.newToken} + Stale(old(menus), env))
      ensures LookedUp(HostOf(sender), env)
      ensures forall a <- asks :: a.AskMatches? && !env.locked
    {
      token, asks := None, [];
      var frame := PageOf(sender);
      if frame.None? || !inlineMenu { return; }
      PruneMenus(env);
      var entries;
      entries, asks := EntriesFor(frame.value.url, env);
      HandOut(env.newToken, frame.value, entries, env);
      token := Some(env.newToken);
    }

    /** What to list for a page: nothing while locked, and otherwise its matches. */
    method EntriesFor(url: Url, env: Env) returns (entries: seq<Entry>, asks: seq<Ask>)
      requires Valid()
      modifies this`matches, this`listed
      ensures Valid() && AllListed(url.host, entries)
      ensures entries == if env.locked then [] else EntriesOr(old(FoundFor(url.host, env)))
      ensures LookedUp({url.host}, env)
      ensures forall a <- asks :: a.AskMatches? && !env.locked
    {
      if env.locked { return [], []; }
      var found;
      found, asks := Lookup(url, env);
      entries := EntriesOr(found);
    }

    function MenuNow(token: string, now: int): Option<Menu>
      reads this`menus
    {
      if token in menus && now - menus[token].at <= MENU_TTL then Some(menus[token]) else None
    }

    /** The list as it is shown; opened while locked and unlocked since, it looks again. */
    method MenuView(token: string, env: Env) returns (shown: Option<seq<Entry>>, asks: seq<Ask>)
      requires Valid()
      modifies this`menus, this`matches, this`listed
      ensures Valid()
      ensures shown.Some? <==> token in old(menus) && env.now - old(menus)[token].at <= 600_000
      ensures shown.None? || env.locked ==> menus == old(menus)
      ensures shown.Some? && env.locked ==> shown.value == []
      ensures shown.Some? && !env.locked ==> menus == old(menus)[token := old(menus)[token].(entries := shown.value)]
      ensures shown.Some? && !env.locked && old(menus)[token].entries != [] ==> shown.value == old(menus)[token].entries
      ensures shown.Some? && !env.locked && old(menus)[token].entries == [] ==> shown.value == EntriesOr(old(FoundFor(menus[token].frame.url.host, env)))
      ensures shown.Some? ==> token in openedOver && AllListed(openedOver[token].url.host, shown.value)
      ensures LookedUp(HostUnder(old(menus), token), env) && OnlyMenus({token})
      ensures forall a <- asks :: a.AskMatches? && !env.locked
    {
      asks := [];
      var menu := MenuNow(token, env.now);
      if menu.None? { return None, []; }
      if env.locked { return Some([]), []; }
      var entries := menu.value.entries;
      if entries == [] {
        var found;
        found, asks := Lookup(menu.value.frame.url, env);
        entries := EntriesOr(found);
        menus := menus[token := menu.value.(entries := entries)];
      }
      shown := Some(entries);
    }

    /** What may be written, and where, for a menu's token and an entry's key. */
    ghost predicate FillAllowed(token: string, key: string, env: Env, e: Entry)
      reads this
    {
      && token in openedOver && MenuNow(token, env.now).Some?
      && (openedOver[token].url.host, e) in listed && EntryKey(e) == key
      && env.probe.Some? && env.probe.value.host == openedOver[token].url.host
    }

    /** The entry with this key in the token's list, not expired, and the frame still on the host the list was for. */
    ghost predicate FillDue(token: string, key: string, env: Env, e: Entry)
      reads this`menus
    {
      && token in menus && env.now - menus[token].at <= 600_000
      && Find(menus[token].entries, key) == Some(e)
      && env.probe.Some? && env.probe.value.host == menus[token].frame.url.host
    }

    /** A fill asks for what its entry needs, and writes it wherever there is a field for it. */
    twostate predicate FillDone(token: string, key: string, env: Env, asks: seq<Ask>, new pages: Pages)
      reads this`menus
    {
      forall e :: old(FillDue(token, key, env, e)) ==>
        var target := (old(menus)[token].frame.tab, old(menus)[token].frame.document);
        && asks == Prepare(e, env.probe.value, env.revealed, env.code).0
        && (WritesInto(e, target, env) ==> WroteInto(e, target, env, pages))
    }

    /**
     * Fill one login from the menu. Whatever is written goes into the document
     * the token was opened over, still on that host, with an entry Helm listed
     * for that host; whatever is asked for is that entry's.
     */
    method FillFromMenu(token: string, key: string, env: Env) returns (ok: bool, asks: seq<Ask>, pages: Pages)
      requires Valid()
      modifies this`menus
      ensures Valid() && OnlyMenus({token})
      ensures pages != env.pages || asks != [] || ok ==> exists e ::
        old(FillAllowed(token, key, env, e)) && FilledWith(e, old(openedOver)[token], env, asks, pages)
      ensures FillDone(token, key, env, asks, pages)
      ensures ok ==> menus == old(menus) - {token} && pages.Keys == env.pages.Keys
      ensures !ok ==> menus == old(menus) && pages == env.pages
    {
      ok, asks, pages := false, [], env.pages;
      var menu := MenuNow(token, env.now);
      if menu.None? { return; }
      var e := Find(menu.value.entries, key);
      if e.None? { return; }
      if env.probe.None? || env.probe.value.host != menu.value.frame.url.host { return; }
      assert FillAllowed(token, key, env, e.value);
      ok, asks, pages := FillEntry(token, e.value, env);
      assert old(FillAllowed(token, key, env, e.value)) && FilledWith(e.value, old(openedOver)[token], env, asks, pages);
    }

    method FillEntry(token: string, e: Entry, env: Env) returns (ok: bool, asks: seq<Ask>, pages: Pages)
      requires Valid() && token in menus && env.probe.Some?
      modifies this`menus
      ensures Valid() && asks == Prepare(e, env.probe.value, env.revealed, env.code).0
      ensures var target := (old(menus)[token].frame.tab, old(menus)[token].frame.document);
        && (ok <==> WritesInto(e, target, env)) && (ok ==> WroteInto(e, target, env, pages))
      ensures menus == if ok then old(menus) - {token} else old(menus)
      ensures !ok ==> pages == env.pages
    {
      ok, pages := false, env.pages;
      var prepared := Prepare(e, env.probe.value, env.revealed, env.code);
      asks := prepared.0;
      if prepared.1.Some? {
        var target := (menus[token].frame.tab, menus[token].frame.document);
        if target in pages && Fill.Written(pages[target], prepared.1.value) > 0 {
          pages := pages[target := Fill.Filled(pages[target], prepared.1.value)];
          menus := menus - {token};
          ok := true;
        }
      }
    }

    /** A page may say its menu closed; only the tab it was opened in is heard. */
    method MenuClosed(token: string, sender: Sender, env: Env)
      requires Valid()
      modifies this`menus
      ensures Valid() && OnlyMenus(ClosableBy(old(menus), token, sender))
      ensures menus == if old(MenuNow(token, env.now)).Some? && sender.tab != 0 && old(menus)[token].frame.tab == sender.tab then old(menus) - {token} else old(menus)
    {
      var menu := MenuNow(token, env.now);
      if menu.Some? && sender.tab != 0 && menu.value.frame.tab == sender.tab { menus := menus - {token}; }
    }

    method MenuDismissed(token: string, env: Env)
      requires Valid()
      modifies this`menus
      ensures Valid() && OnlyMenus({token})
      ensures menus == if old(MenuNow(token, env.now)).Some? then old(menus) - {token} else old(menus)
    {
      if MenuNow(token, env.now).Some? { menus := menus - {token}; }
    }

    /* ---- Save and update ---- */

    function LoginNow(tab: nat, now: int): Option<Login>
      reads this`captured
    {
      LoginIn(captured, tab, now)
    }

    /** A login waits in this tab under this token. */
    predicate Waits(tab: nat, token: string, env: Env)
      reads this`captured
    {
      LoginNow(tab, env.now).Some? && captured[tab].token == token
    }

    /** Reading a login drops one that has waited too long. */
    method ReadLogin(tab: nat, env: Env) returns (login: Option<Login>)
      requires Valid()
      modifies this`captured
      ensures Valid() && login == old(LoginNow(tab, env.now))
      ensures login == if tab in old(captured) && env.now - old(captured)[tab].at <= 300_000 then Some(old(captured)[tab]) else None
      ensures captured == if login.None? then old(captured) - {tab} else old(captured)
    {
      login := LoginNow(tab, env.now);
      if login.None? { captured := captured - {tab}; }
    }

    function SeenUsername(tab: nat, host: string, now: int): Option<string>
      reads this
    {
      if tab !in usernames || now - usernames[tab].at > CAPTURE_TTL then None
      else if usernames[tab].host == host || now - usernames[tab].at < STEP_TTL then Some(usernames[tab].username)
      else None
    }

    method UsernameSeen(sender: Sender, username: string, env: Env)
      requires Valid()
      modifies this`usernames
      ensures Valid()
      ensures usernames == if PageOf(sender).Some? && |username| <= 320
        then old(usernames)[PageOf(sender).value.tab := Seen(PageOf(sender).value.url.host, username, env.now)] else old(usernames)
    {
      var frame := PageOf(sender);
      if frame.Some? && |username| <= 320 {
        usernames := usernames[frame.value.tab := Seen(frame.value.url.host, username, env.now)];
      }
    }

    /** The username is the one typed, or else the one seen a step before, cut to length. */
    function UsernameFor(f: PageFrame, typedUsername: string, now: int): (u: string)
      reads this
      ensures |u| <= 320
    {
      var seen := SeenUsername(f.tab, f.url.host, now);
      var u := if typedUsername != "" then typedUsername else if seen.Some? then seen.value else "";
      if |u| > 320 then u[..320] else u
    }

    /** Helm is asked about the login typed on this page, under the name it is taken to be for. */
    ghost predicate ChecksTyped(sender: Sender, typedUsername: string, password: string, seen: map<nat, Seen>, env: Env, a: Ask) {
      && PageOf(sender).Some? && a.AskCheck? && a.url == PageOf(sender).value.url && a.password == password
      && NamedFor(typedUsername, SeenIn(seen, sender.tab), a.url.host, env.now, a.username)
    }

    /** A login typed on a page is kept, under a new token, if it is one Helm does not have as it is. */
    method LoginTyped(sender: Sender, typedUsername: string, password: string, env: Env) returns (asks: seq<Ask>)
      requires Valid() && env.newToken !in typed
      modifies this`captured, this`typed, this`latest
      ensures Valid()
      ensures asks != [] <==> MayBeKept(sender, password, env, offerToSave, old(neverSave))
      ensures asks != [] ==> |asks| == 1 && ChecksTyped(sender, typedUsername, password, old(usernames), env, asks[0])
      ensures var kept := asks != [] && env.check.Some? && !env.check.value.state.Known?;
        if kept then
          var f := PageOf(sender).value;
          var l := Login(env.newToken, f.tab, f.url, asks[0].username, password, env.now, env.check.value, false);
          captured == old(captured)[f.tab := l] && typed == old(typed)[env.newToken := l] && latest == old(latest)[f.tab := env.newToken]
        else captured == old(captured) && typed == old(typed) && latest == old(latest)
    {
      var page := PageOf(sender);
      if page.None? || !offerToSave || password == "" || |password| > 4096 { return []; }
      if Some(page.value.url.host) == env.helmHost || page.value.url.host in neverSave { return []; }
      if !env.paired || env.locked { return []; }
      var f := page.value;
      var username := UsernameFor(f, typedUsername, env.now);
      asks := [AskCheck(f.url, username, password)];
      if env.check.None? || env.check.value.state.Known? { return; }
      var l := Login(env.newToken, f.tab, f.url, username, password, env.now, env.check.value, false);
      Keep(l);
    }

    method Keep(l: Login)
      requires Valid() && l.token !in typed && l.url.scheme == "https:"
      modifies this`captured, this`typed, this`latest
      ensures Valid()
      ensures captured == old(captured)[l.tab := l] && typed == old(typed)[l.token := l] && latest == old(latest)[l.tab := l.token]
    {
      LoginTakesTab(captured, latest, typed, answered, l);
      captured, typed, latest := captured[l.tab := l], typed[l.token := l], latest[l.tab := l.token];
    }

    /** The prompt's token goes to the tab's top frame. */
    method OfferBar(tab: nat, env: Env) returns (token: Option<string>)
      requires Valid()
      modifies this`captured
      ensures Valid()
      ensures token == if old(LoginNow(tab, env.now)).Some? then Some(old(captured)[tab].token) else None
      ensures token.None? ==> captured == old(captured) - {tab}
      ensures token.Some? ==> captured == old(captured)[tab := old(captured)[tab].(shown := true)]
    {
      var login := ReadLogin(tab, env);
      if login.None? { return None; }
      captured := captured[tab := login.value.(shown := true)];
      token := Some(login.value.token);
    }

    /** The login a prompt in this tab with this token is about. */
    method LoginFor(tab: nat, token: string, env: Env) returns (login: Option<Login>)
      requires Valid()
      modifies this`captured
      ensures Valid()
      ensures captured == if old(LoginNow(tab, env.now)).None? then old(captured) - {tab} else old(captured)
      ensures login == if old(Waits(tab, token, env)) then Some(old(captured)[tab]) else None
      ensures login.Some? <==> tab in old(captured) && env.now - old(captured)[tab].at <= 300_000 && old(captured)[tab].token == token
      ensures login.Some? ==> tab in captured && AsTyped(tab, token, env, login.value)
    {
      login := ReadLogin(tab, env);
      if login.Some? && login.value.token != token { login := None; }
    }

    /** A login exactly as typed under this token, in this tab, not expired, not superseded, not answered. */
    ghost predicate AsTyped(tab: nat, token: string, env: Env, l: Login)
      reads this`typed, this`latest, this`answered
    {
      && token in typed && l == typed[token].(shown := l.shown)
      && l.tab == tab && env.now - l.at <= CAPTURE_TTL
      && tab in latest && latest[tab] == token && token !in answered
    }

    ghost predicate SavesTyped(tab: nat, token: string, request: SaveRequest, env: Env, a: Ask)
      reads this`typed, this`latest, this`answered
    {
      exists l :: AsTyped(tab, token, env, l) && SaveOf(l, request, a)
    }

    ghost predicate UpdatesTyped(tab: nat, token: string, env: Env, a: Ask)
      reads this`typed, this`latest, this`answered
    {
      exists l :: AsTyped(tab, token, env, l) && UpdateOf(l, a)
    }

    /** The pages differ in one document, by the leave there was for this token and key before. */
    twostate predicate FillsInto(token: string, key: string, env: Env, new pages: Pages)
      reads this
    {
      exists e :: old(FillAllowed(token, key, env, e)) && WroteInto(e, (old(openedOver[token].tab), old(openedOver[token].document)), env, pages)
    }

    /** The prompt for a login, with where it may be saved asked of Helm only for a new one. */
    method ViewBar(tab: nat, token: string, env: Env) returns (prompt: Option<Prompt>, asks: seq<Ask>)
      requires Valid()
      modifies this`captured
      ensures Valid()
      ensures captured == if old(LoginNow(tab, env.now)).None? then old(captured) - {tab} else old(captured)
      ensures prompt.Some? <==> old(Waits(tab, token, env))
      ensures prompt.Some? ==> PromptsFor(old(captured)[tab], env, prompt.value)
      ensures asks == if prompt.Some? && !prompt.value.changes then [AskDestinations] else []
    {
      prompt, asks := None, [];
      var login := LoginFor(tab, token, env);
      if login.None? { return; }
      var changes := login.value.check.state.Changed?;
      if !changes { asks := [AskDestinations]; }
      var l := login.value;
      var entry := if l.check.entry.Some? then Some((l.check.entry.value.name, WhereIs(l.check.entry.value))) else None;
      var destinations := if !changes && env.destinations.Some? then env.destinations.value else Destinations(l.check.canSave, []);
      prompt := Some(Prompt(changes, l.url.host, l.username, WithoutWww(l.url.host), entry, destinations));
    }

    /** The prompt is answered: its login goes, and its token never brings one back. */
    method Answer(tab: nat, ghost token: string)
      requires Valid() && tab in captured && captured[tab].token == token
      modifies this`captured, this`answered
      ensures Valid() && captured == old(captured) - {tab} && answered == old(answered) + {token}
    {
      captured := captured - {tab};
      answered := answered + {token};
    }

    /** The host's matches have changed and are to be asked for again. */
    method Renew(host: string)
      requires Valid()
      modifies this`matches
      ensures Valid() && matches == old(matches) - {host}
    {
      matches := matches - {host};
    }

    /** A login saved: answered, and its host to be looked up again. */
    method Saved(tab: nat, ghost token: string)
      requires Valid() && tab in captured && captured[tab].token == token
      modifies this`captured, this`matches, this`answered
      ensures Valid() && captured == old(captured) - {tab} && answered == old(answered) + {token}
      ensures Dropped(tab, old(captured), old(Menus()), Menus())
    {
      var host := captured[tab].url.host;
      Answer(tab, token);
      Renew(host);
    }

    /** Save what was typed under the token, as it was typed, or send nothing. */
    method SaveFromBar(tab: nat, token: string, request: SaveRequest, env: Env) returns (ok: bool, asks: seq<Ask>)
      requires Valid()
      modifies this`captured, this`matches, this`answered
      ensures Valid()
      ensures asks != [] <==> old(Waits(tab, token, env))
      ensures |asks| <= 1 && forall a <- asks :: old(SavesTyped(tab, token, request, env, a))
      ensures ok <==> asks != [] && env.saved
      ensures answered == if ok then old(answered) + {token} else old(answered)
      ensures captured == if ok || old(LoginNow(tab, env.now)).None? then old(captured) - {tab} else old(captured)
      ensures if ok then Dropped(tab, old(captured), old(Menus()), Menus()) else Menus() == old(Menus())
    {
      ok, asks := false, [];
      var login := LoginFor(tab, token, env);
      if login.Some? {
        assert old(AsTyped(tab, token, env, login.value));
        HttpsOrigin(login.value.url);
        asks := [SaveLogin(request, login.value.username, login.value.password, Origin(login.value.url))];
        if env.saved {
          Saved(tab, token);
          ok := true;
        }
      }
    }

    /** Change the entry Helm named when the login was typed, to the password typed, or send nothing. */
    method UpdateFromBar(tab: nat, token: string, env: Env) returns (ok: bool, asks: seq<Ask>)
      requires Valid()
      modifies this`captured, this`answered
      ensures Valid()
      ensures asks != [] <==> old(Waits(tab, token, env)) && old(captured)[tab].check.entry.Some?
      ensures |asks| <= 1 && forall a <- asks :: old(UpdatesTyped(tab, token, env, a))
      ensures ok <==> asks != [] && env.saved
      ensures answered == if ok then old(answered) + {token} else old(answered)
      ensures captured == if ok || old(LoginNow(tab, env.now)).None? then old(captured) - {tab} else old(captured)
    {
      ok, asks := false, [];
      var login := LoginFor(tab, token, env);
      if login.Some? && login.value.check.entry.Some? {
        assert old(AsTyped(tab, token, env, login.value));
        var entry := login.value.check.entry.value;
        asks := [UpdateLogin(login.value.url, entry.kind, entry.id, login.value.password)];
        if env.saved {
          Answer(tab, token);
          ok := true;
        }
      }
    }

    /**
     * Dismissing drops whatever login the tab has waiting. That login is lost
     * without its own prompt being answered exactly when a later one had taken
     * the tab by then.
     */
    method DismissBar(tab: nat, token: string, never: bool, env: Env)
      requires Valid()
      modifies this`captured, this`answered, this`neverSave
      ensures Valid()
      ensures captured == old(captured) - {tab}
      ensures old(LoginNow(tab, env.now)).Some? ==> (old(latest)[tab] !in answered <==> old(latest)[tab] != token)
      ensures answered == if old(Waits(tab, token, env)) then old(answered) + {token} else old(answered)
      ensures neverSave == if old(Waits(tab, token, env)) && never then old(neverSave) + {old(captured)[tab].url.host} else old(neverSave)
    {
      if Waits(tab, token, env) {
        Dismissed(tab, token, never);
      } else {
        Drop(tab);
      }
    }

    method Dismissed(tab: nat, token: string, never: bool)
      requires Valid() && tab in captured && captured[tab].token == token
      modifies this`captured, this`answered, this`neverSave
      ensures Valid() && captured == old(captured) - {tab} && answered == old(answered) + {token}
      ensures neverSave == if never then old(neverSave) + {old(captured)[tab].url.host} else old(neverSave)
    {
      if never { neverSave := neverSave + {captured[tab].url.host}; }
      Answer(tab, token);
    }

    method Drop(tab: nat)
      requires Valid()
      modifies this`captured
      ensures Valid() && captured == old(captured) - {tab}
    {
      captured := captured - {tab};
    }

    /* ---- The rest of the extension ---- */

    method ForgetTab(tab: nat)
      requires Valid()
      modifies this`captured, this`usernames
      ensures Valid() && captured == old(captured) - {tab} && usernames == old(usernames) - {tab}
    {
      captured, usernames := captured - {tab}, usernames - {tab};
    }

    method ClearMatches()
      requires Valid()
      modifies this`matches
      ensures Valid() && matches == map[]
    {
      matches := map[];
    }

    /** Session storage and the worker's memory are empty when the browser starts. */
    method BrowserStarts()
      requires Valid()
      modifies this`menus, this`captured, this`usernames, this`matches
      ensures Valid() && menus == map[] && captured == map[] && usernames == map[] && matches == map[]
    {
      menus, captured, usernames, matches := map[], map[], map[], map[];
    }

    /* ---- Who may ask what ---- */

    /** A page's message may lead to a look-up or a check, and the extension's own two pages to the rest. */
    ghost predicate Permitted(m: Message, sender: Sender, env: Env, a: Ask)
      reads this
    {
      match a
      case AskMatches(_) => m.AskStatus? || m.Open? || (m.View? && IsOwn(sender, "menu.html"))
      case AskCheck(_, _, _) => m.Typed? && ChecksTyped(sender, m.username, m.password, usernames, env, a)
      case Reveal(e) => m.FillIt? && IsOwn(sender, "menu.html") && FillAllowed(m.token, m.key, env, e)
      case CodeFor(e) => m.FillIt? && IsOwn(sender, "menu.html") && FillAllowed(m.token, m.key, env, e)
      case SaveLogin(_, _, _, _) => m.Save? && IsOwn(sender, "notify.html") && SavesTyped(sender.tab, m.token, m.request, env, a)
      case AskDestinations => m.ViewPrompt? && IsOwn(sender, "notify.html") && Waits(sender.tab, m.token, env)
      case UpdateLogin(_, _, _, _) => m.Update? && IsOwn(sender, "notify.html") && UpdatesTyped(sender.tab, m.token, env, a)
    }

    /** What a message may do to what is kept; the settings that turn the menu and the prompt on are not its to change. */
    twostate predicate Proper(m: Message, sender: Sender, env: Env)
      reads this
    {
      && MenusFrame(m, sender, env, old(captured), old(Menus()), Menus())
      && LoginsFrame(m, sender, env, old(Logins()), Logins())
      && inlineMenu == old(inlineMenu) && offerToSave == old(offerToSave)
    }

    /** What each message about menus is there to do. */
    twostate predicate DoneForMenus(m: Message, sender: Sender, env: Env, asks: seq<Ask>)
      reads this
    {
      match m
      case AskStatus => StatusAsks(sender, env, inlineMenu, old(matches), asks)
      case Open => PageOf(sender).Some? && inlineMenu ==>
        && env.newToken in menus && menus[env.newToken].frame == PageOf(sender).value && menus[env.newToken].at == env.now
        && menus[env.newToken].entries == if env.locked then [] else EntriesOr(old(FoundFor(PageOf(sender).value.url.host, env)))
      case Closed(token) => sender.tab != 0 && old(MenuNow(token, env.now)).Some? && old(menus)[token].frame.tab == sender.tab ==> token !in menus
      case Dismiss(token) => IsOwn(sender, "menu.html") && old(MenuNow(token, env.now)).Some? ==> token !in menus
      case View(token) => IsOwn(sender, "menu.html") && old(MenuNow(token, env.now)).Some? && !env.locked && old(menus)[token].entries == [] ==>
        token in menus && menus[token].entries == EntriesOr(old(FoundFor(menus[token].frame.url.host, env)))
      case _ => true
    }

    twostate predicate DoneForFill(m: Message, sender: Sender, env: Env, asks: seq<Ask>, new pages: Pages)
      reads this
    {
      m.FillIt? && IsOwn(sender, "menu.html") ==> FillDone(m.token, m.key, env, asks, pages)
    }

    /** What each message about logins is there to do. */
    twostate predicate DoneForLogins(m: Message, sender: Sender, env: Env, asks: seq<Ask>)
      reads this
    {
      match m
      case Typed(_, password) =>
        && (asks != [] <==> MayBeKept(sender, password, env, offerToSave, old(neverSave)))
        && (asks != [] && env.check.Some? && !env.check.value.state.Known? ==>
              sender.tab in captured && captured[sender.tab].token == env.newToken && captured[sender.tab].password == password)
      case StepSeen(username) => PageOf(sender).Some? && |username| <= 320 ==>
        SeenIn(usernames, sender.tab) == Some(Seen(PageOf(sender).value.url.host, username, env.now))
      case BarPending => PageOf(sender).Some? && PageOf(sender).value.frame == 0 && old(LoginNow(sender.tab, env.now)).Some? ==>
        sender.tab in captured && captured[sender.tab].shown
      case ViewPrompt(token) => IsOwn(sender, "notify.html") && old(Waits(sender.tab, token, env)) ==>
        (asks == [AskDestinations] <==> !old(captured)[sender.tab].check.state.Changed?)
      case Save(token, _) => IsOwn(sender, "notify.html") ==>
        && (asks != [] <==> old(Waits(sender.tab, token, env))) && (asks != [] && env.saved ==> token in answered && sender.tab !in captured)
      case Update(token) => IsOwn(sender, "notify.html") ==>
        && (asks != [] <==> old(Waits(sender.tab, token, env)) && old(captured)[sender.tab].check.entry.Some?)
        && (asks != [] && env.saved ==> token in answered && sender.tab !in captured)
      case DismissPrompt(token, never) => IsOwn(sender, "notify.html") ==>
        && sender.tab !in captured && (never && old(Waits(sender.tab, token, env)) ==> old(captured)[sender.tab].url.host in neverSave)
      case _ => true
    }

    method AboutMenus(m: Message, sender: Sender, env: Env) returns (asks: seq<Ask>)
      requires Valid() && env.newToken !in openedOver && (m.AskStatus? || m.Open? || m.Closed?)
      modifies this`menus, this`matches, this`listed, this`openedOver
      ensures Valid() && MenusFrame(m, sender, env, old(captured), old(Menus()), Menus()) && DoneForMenus(m, sender, env, asks)
      ensures forall a <- asks :: old(Permitted(m, sender, env, a))
    {
      asks := [];
      match m {
        case AskStatus =>
          var status;
          status, asks := InlineStatus(sender, env);
        case Open =>
          var token;
          token, asks := OpenMenu(sender, env);
        case Closed(token) => MenuClosed(token, sender, env);
      }
    }

    method OnTyped(m: Message, sender: Sender, env: Env) returns (asks: seq<Ask>)
      requires Valid() && env.newToken !in typed && m.Typed?
      modifies this`captured, this`typed, this`latest
      ensures Valid() && LoginsFrame(m, sender, env, old(Logins()), Logins()) && DoneForLogins(m, sender, env, asks)
      ensures forall a <- asks :: old(Permitted(m, sender, env, a))
    {
      asks := LoginTyped(sender, m.username, m.password, env);
      if captured != old(captured) { TypedFrames(m, sender, env, old(Logins()), Logins(), captured[sender.tab]); }
    }

    method OnStep(m: Message, sender: Sender, env: Env)
      requires Valid() && (m.StepSeen? || m.BarPending?)
      modifies this`captured, this`usernames
      ensures Valid() && LoginsFrame(m, sender, env, old(Logins()), Logins()) && DoneForLogins(m, sender, env, [])
    {
      if m.StepSeen? {
        UsernameSeen(sender, m.username, env);
        if usernames != old(usernames) { StepFrames(m, sender, env, old(Logins()), Logins(), usernames[sender.tab]); }
      } else if PageOf(sender).Some? && PageOf(sender).value.frame == 0 {
        var _ := OfferBar(sender.tab, env);
        ReadFrames(m, sender, env, old(Logins()), Logins());
      }
    }

    method OnMenu(m: Message, sender: Sender, env: Env) returns (asks: seq<Ask>)
      requires Valid() && IsOwn(sender, "menu.html") && (m.View? || m.Dismiss?)
      modifies this`menus, this`matches, this`listed
      ensures Valid() && MenusFrame(m, sender, env, old(captured), old(Menus()), Menus()) && DoneForMenus(m, sender, env, asks)
      ensures forall a <- asks :: old(Permitted(m, sender, env, a))
    {
      asks := [];
      if m.View? {
        var shown;
        shown, asks := MenuView(m.token, env);
      } else {
        MenuDismissed(m.token, env);
      }
    }

    method OnFill(m: Message, sender: Sender, env: Env) returns (asks: seq<Ask>, pages: Pages)
      requires Valid() && IsOwn(sender, "menu.html") && m.FillIt?
      modifies this`menus
      ensures Valid() && MenusFrame(m, sender, env, old(captured), old(Menus()), Menus())
      ensures forall a <- asks :: old(Permitted(m, sender, env, a))
      ensures DoneForFill(m, sender, env, asks, pages)
      ensures pages != env.pages ==> FillsInto(m.token, m.key, env, pages)
    {
      asks, pages := HandleFill(m.token, m.key, env);
    }

    method OnViewPrompt(m: Message, sender: Sender, env: Env) returns (asks: seq<Ask>)
      requires Valid() && IsOwn(sender, "notify.html") && m.ViewPrompt?
      modifies this`captured
      ensures Valid() && LoginsFrame(m, sender, env, old(Logins()), Logins()) && DoneForLogins(m, sender, env, asks)
      ensures forall a <- asks :: old(Permitted(m, sender, env, a))
    {
      var prompt;
      prompt, asks := ViewBar(sender.tab, m.token, env);
      ReadFrames(m, sender, env, old(Logins()), Logins());
    }

    method OnDismissPrompt(m: Message, sender: Sender, env: Env)
      requires Valid() && IsOwn(sender, "notify.html") && m.DismissPrompt?
      modifies this`captured, this`answered, this`neverSave
      ensures Valid() && LoginsFrame(m, sender, env, old(Logins()), Logins()) && DoneForLogins(m, sender, env, [])
    {
      DismissBar(sender.tab, m.token, m.never, env);
      DismissFrames(m, sender, env, old(Logins()), Logins());
    }

    method OnSave(m: Message, sender: Sender, env: Env) returns (asks: seq<Ask>)
      requires Valid() && IsOwn(sender, "notify.html") && m.Save?
      modifies this`captured, this`matches, this`answered
      ensures Valid() && LoginsFrame(m, sender, env, old(Logins()), Logins()) && DoneForLogins(m, sender, env, asks)
      ensures MenusFrame(m, sender, env, old(captured), old(Menus()), Menus())
      ensures forall a <- asks :: old(Permitted(m, sender, env, a))
    {
      var ok;
      ok, asks := SaveFromBar(sender.tab, m.token, m.request, env);
      if ok { AnswerFrames(m, sender, env, old(Logins()), Logins()); } else { ReadFrames(m, sender, env, old(Logins()), Logins()); }
    }

    method OnUpdate(m: Message, sender: Sender, env: Env) returns (asks: seq<Ask>)
      requires Valid() && IsOwn(sender, "notify.html") && m.Update?
      modifies this`captured, this`answered
      ensures Valid() && LoginsFrame(m, sender, env, old(Logins()), Logins()) && DoneForLogins(m, sender, env, asks)
      ensures forall a <- asks :: old(Permitted(m, sender, env, a))
    {
      var ok;
      ok, asks := UpdateFromBar(sender.tab, m.token, env);
      if ok { AnswerFrames(m, sender, env, old(Logins()), Logins()); } else { ReadFrames(m, sender, env, old(Logins()), Logins()); }
    }

    /** Every message, whoever it is from, leads to nothing it should not, and no token's past is rewritten. */
    method Handle(m: Message, sender: Sender, env: Env) returns (asks: seq<Ask>, pages: Pages)
      requires Valid() && env.newToken !in openedOver && env.newToken !in typed
      modifies this
      ensures Valid() && Remembers() && Proper(m, sender, env)
      ensures DoneForMenus(m, sender, env, asks) && DoneForLogins(m, sender, env, asks) && DoneForFill(m, sender, env, asks, pages)
      ensures forall a <- asks :: old(Permitted(m, sender, env, a))
      ensures pages != env.pages ==> m.FillIt? && IsOwn(sender, "menu.html") && FillsInto(m.token, m.key, env, pages)
    {
      asks, pages := Route(m, sender, env);
      FramesRemember(m, sender, env, old(Menus()), Menus(), old(Logins()), Logins());
    }

    method Route(m: Message, sender: Sender, env: Env) returns (asks: seq<Ask>, pages: Pages)
      requires Valid() && env.newToken !in openedOver && env.newToken !in typed
      modifies this
      ensures Valid() && Proper(m, sender, env)
      ensures DoneForMenus(m, sender, env, asks) && DoneForLogins(m, sender, env, asks) && DoneForFill(m, sender, env, asks, pages)
      ensures forall a <- asks :: old(Permitted(m, sender, env, a))
      ensures pages != env.pages ==> m.FillIt? && IsOwn(sender, "menu.html") && FillsInto(m.token, m.key, env, pages)
    {
      pages := env.pages;
      if IsOwn(sender, "menu.html") && (m.View? || m.Dismiss? || m.FillIt?) {
        asks, pages := FromMenu(m, sender, env);
      } else if IsOwn(sender, "notify.html") && (m.ViewPrompt? || m.DismissPrompt? || m.Save? || m.Update?) {
        asks := FromPrompt(m, sender, env);
      } else {
        asks := FromPage(m, sender, env);
      }
    }

    /** What any sender may ask, and nothing for the messages of the extension's own frames. */
    method FromPage(m: Message, sender: Sender, env: Env) returns (asks: seq<Ask>)
      requires Valid() && env.newToken !in openedOver && env.newToken !in typed
      requires !IsOwn(sender, "menu.html") || !(m.View? || m.Dismiss? || m.FillIt?)
      requires !IsOwn(sender, "notify.html") || !(m.ViewPrompt? || m.DismissPrompt? || m.Save? || m.Update?)
      modifies this
      ensures Valid() && Proper(m, sender, env)
      ensures DoneForMenus(m, sender, env, asks) && DoneForLogins(m, sender, env, asks)
      ensures forall a <- asks :: old(Permitted(m, sender, env, a))
    {
      asks := [];
      if m.AskStatus? || m.Open? || m.Closed? {
        asks := AboutMenus(m, sender, env);
      } else if m.Typed? {
        asks := OnTyped(m, sender, env);
      } else if m.StepSeen? || m.BarPending? {
        OnStep(m, sender, env);
      }
    }

    method FromMenu(m: Message, sender: Sender, env: Env) returns (asks: seq<Ask>, pages: Pages)
      requires Valid() && IsOwn(sender, "menu.html") && (m.View? || m.Dismiss? || m.FillIt?)
      modifies this`menus, this`matches, this`listed
      ensures Valid() && Proper(m, sender, env)
      ensures DoneForMenus(m, sender, env, asks) && DoneForFill(m, sender, env, asks, pages)
      ensures forall a <- asks :: old(Permitted(m, sender, env, a))
      ensures pages != env.pages ==> m.FillIt? && IsOwn(sender, "menu.html") && FillsInto(m.token, m.key, env, pages)
    {
      pages := env.pages;
      if m.FillIt? {
        asks, pages := OnFill(m, sender, env);
      } else {
        asks := OnMenu(m, sender, env);
      }
    }

    method FromPrompt(m: Message, sender: Sender, env: Env) returns (asks: seq<Ask>)
      requires Valid() && IsOwn(sender, "notify.html") && (m.ViewPrompt? || m.DismissPrompt? || m.Save? || m.Update?)
      modifies this`captured, this`matches, this`answered, this`neverSave
      ensures Valid() && Proper(m, sender, env)
      ensures DoneForLogins(m, sender, env, asks)
      ensures forall a <- asks :: old(Permitted(m, sender, env, a))
    {
      asks := [];
      if m.Save? || m.Update? {
        asks := OnAnswer(m, sender, env);
      } else if m.ViewPrompt? {
        asks := OnViewPrompt(m, sender, env);
      } else {
        OnDismissPrompt(m, sender, env);
      }
    }

    method OnAnswer(m: Message, sender: Sender, env: Env) returns (asks: seq<Ask>)
      requires Valid() && IsOwn(sender, "notify.html") && (m.Save? || m.Update?)
      modifies this`captured, this`matches, this`answered
      ensures Valid() && LoginsFrame(m, sender, env, old(Logins()), Logins()) && DoneForLogins(m, sender, env, asks)
      ensures MenusFrame(m, sender, env, old(captured), old(Menus()), Menus())
      ensures forall a <- asks :: old(Permitted(m, sender, env, a))
    {
      if m.Save? { asks := OnSave(m, sender, env); } else { asks := OnUpdate(m, sender, env); }
    }

    method HandleFill(token: string, key: string, env: Env) returns (asks: seq<Ask>, pages: Pages)
      requires Valid()
      modifies this`menus
      ensures Valid() && OnlyMenus({token})
      ensures forall a <- asks :: (a.Reveal? || a.CodeFor?) && old(FillAllowed(token, key, env, a.entry))
      ensures FillDone(token, key, env, asks, pages)
      ensures pages != env.pages ==> FillsInto(token, key, env, pages)
    {
      var ok;
      ok, asks, pages := FillFromMenu(token, key, env);
      if pages != env.pages || asks != [] {
        ghost var e :| old(FillAllowed(token, key, env, e)) && FilledWith(e, old(openedOver)[token], env, asks, pages);
        ValuesAreTheEntrys(e, env.probe.value, env.revealed, env.code);
      }
    }
  }

  /** These asks and these pages are what filling with this entry over this frame leads to. */
  ghost predicate FilledWith(e: Entry, f: PageFrame, env: Env, asks: seq<Ask>, pages: Pages) {
    && env.probe.Some?
    && asks == Prepare(e, env.probe.value, env.revealed, env.code).0
    && (pages != env.pages ==> WroteInto(e, (f.tab, f.document), env, pages))
  }

  /** The entry has something for the form, and the document is there with a field for some of it. */
  ghost predicate WritesInto(e: Entry, target: Target, env: Env)
    requires env.probe.Some?
  {
    var v := Prepare(e, env.probe.value, env.revealed, env.code).1;
    v.Some? && target in env.pages && Fill.Written(env.pages[target], v.value) > 0
  }

  ghost predicate WroteInto(e: Entry, target: Target, env: Env, pages: Pages)
    requires env.probe.Some?
  {
    var v := Prepare(e, env.probe.value, env.revealed, env.code).1;
    && target in env.pages && v.Some?
    && Fill.Written(env.pages[target], v.value) > 0
    && pages == env.pages[target := Fill.Filled(env.pages[target], v.value)]
  }
}
