/**
 * Finding and filling a sign-in form in one frame (extension/src/fill.ts), and
 * choosing the frame to fill (extension/src/popup.ts). What the patterns over
 * an input's autocomplete, name, id, placeholder and label say are flags of it.
 */
module Fill {
  import opened Names

  datatype Kind = Text | Email | Tel | Number | Password | Other

  datatype Hints = Hints(oneTimeCode: bool, newPassword: bool, userAutocomplete: bool, codeWords: bool, userWords: bool)

  /** id tells one element of a page from another. */
  datatype Input = Input(id: nat, kind: Kind, enabled: bool, writable: bool, drawn: bool, visible: bool, hints: Hints, value: string)

  datatype Values = Values(username: Option<string>, password: Option<string>, code: Option<string>)

  datatype Which = TheUsername | ThePassword | TheCode

  /** A value written, and into which element. */
  datatype Landing = Landing(which: Which, id: nat, value: string)

  datatype Probe = Probe(host: string, username: bool, password: bool, code: bool, filled: nat)

  predicate Shown(i: Input) { i.enabled && i.writable && i.drawn && i.visible }

  predicate Textual(i: Input) { i.kind.Text? || i.kind.Email? || i.kind.Tel? }

  predicate IsCode(i: Input) { i.hints.oneTimeCode || i.hints.codeWords }

  predicate IsPassword(i: Input) { Shown(i) && i.kind.Password? && !i.hints.newPassword }

  predicate MayBeUser(i: Input) { Shown(i) && Textual(i) && !IsCode(i) }

  predicate SaysUser(i: Input) { i.hints.userAutocomplete || i.kind.Email? || i.hints.userWords }

  predicate IsNamedUser(i: Input) { MayBeUser(i) && SaysUser(i) }

  predicate IsCodeField(i: Input) { Shown(i) && (Textual(i) || i.kind.Number?) && IsCode(i) }

  function First(xs: seq<Input>, want: Input -> bool): (r: Option<nat>)
    ensures r.Some? ==> r.value < |xs| && want(xs[r.value]) && forall j :: 0 <= j < r.value ==> !want(xs[j])
    ensures r.None? ==> forall j :: 0 <= j < |xs| ==> !want(xs[j])
  {
    if xs == [] then None
    else
      var front := First(xs[..|xs| - 1], want);
      if front.Some? then front else if want(xs[|xs| - 1]) then Some(|xs| - 1) else None
  }

  function Last(xs: seq<Input>, want: Input -> bool): (r: Option<nat>)
    ensures r.Some? ==> r.value < |xs| && want(xs[r.value]) && forall j :: r.value < j < |xs| ==> !want(xs[j])
    ensures r.None? ==> forall j :: 0 <= j < |xs| ==> !want(xs[j])
  {
    if xs == [] then None
    else if want(xs[|xs| - 1]) then Some(|xs| - 1)
    else Last(xs[..|xs| - 1], want)
  }

  function PasswordField(xs: seq<Input>): Option<nat> { First(xs, IsPassword) }

  /** Beside a password only what comes before it may be the username. */
  function BeforePassword(xs: seq<Input>): seq<Input> {
    var p := PasswordField(xs);
    if p.Some? then xs[..p.value] else xs
  }

  function UsernameField(xs: seq<Input>): (r: Option<nat>)
    ensures r.Some? ==> r.value < |xs| && MayBeUser(xs[r.value])
  {
    var named := First(BeforePassword(xs), IsNamedUser);
    if named.Some? then named
    else if PasswordField(xs).Some? then Last(BeforePassword(xs), MayBeUser) else None
  }

  function CodeField(xs: seq<Input>): (r: Option<nat>)
    ensures r.Some? ==> r.value < |xs| && IsCodeField(xs[r.value]) && PasswordField(xs).None?
  {
    if PasswordField(xs).Some? then None else First(xs, IsCodeField)
  }

  function Put(xs: seq<Input>, at: Option<nat>, value: Option<string>): seq<Input> {
    if at.Some? && value.Some? && at.value < |xs| then xs[at.value := xs[at.value].(value := value.value)] else xs
  }

  /** The inputs after a fill, the three writes one after the other. */
  function Filled(xs: seq<Input>, v: Values): seq<Input> {
    Put(Put(Put(xs, UsernameField(xs), v.username), PasswordField(xs), v.password), CodeField(xs), v.code)
  }

  function Count(at: Option<nat>, value: Option<string>): nat { if at.Some? && value.Some? then 1 else 0 }

  function Written(xs: seq<Input>, v: Values): nat {
    Count(UsernameField(xs), v.username) + Count(PasswordField(xs), v.password) + Count(CodeField(xs), v.code)
  }

  function Report(host: string, xs: seq<Input>, filled: nat): Probe {
    Probe(host, UsernameField(xs).Some?, PasswordField(xs).Some?, CodeField(xs).Some?, filled)
  }

  function Chosen(xs: seq<Input>, w: Which): (r: Option<nat>)
    ensures r.Some? ==> r.value < |xs|
  {
    match w
    case TheUsername => UsernameField(xs)
    case ThePassword => PasswordField(xs)
    case TheCode => CodeField(xs)
  }

  function ValueFor(v: Values, w: Which): Option<string> {
    match w
    case TheUsername => v.username
    case ThePassword => v.password
    case TheCode => v.code
  }

  function Lands(xs: seq<Input>, v: Values, w: Which): seq<Landing> {
    var at := Chosen(xs, w);
    if at.Some? && ValueFor(v, w).Some? then [Landing(w, xs[at.value].id, ValueFor(v, w).value)] else []
  }

  /** Everything a fill writes, in order. */
  function Landings(xs: seq<Input>, v: Values): seq<Landing> {
    Lands(xs, v, TheUsername) + Lands(xs, v, ThePassword) + Lands(xs, v, TheCode)
  }

  method Write(inputs: array<Input>, at: Option<nat>, value: Option<string>, ghost which: Which)
    returns (wrote: nat, ghost landed: seq<Landing>)
    requires at.Some? ==> at.value < inputs.Length
    modifies inputs
    ensures inputs[..] == Put(old(inputs[..]), at, value) && wrote == Count(at, value)
    ensures landed == if at.Some? && value.Some? then [Landing(which, old(inputs[at.value]).id, value.value)] else []
  {
    if at.None? || value.None? { return 0, []; }
    landed := [Landing(which, inputs[at.value].id, value.value)];
    inputs[at.value] := inputs[at.value].(value := value.value);
    wrote := 1;
  }

  /** With no values, look; with values, fill. landed is what was written as it was written. */
  method FormInPage(host: string, inputs: array<Input>, values: Option<Values>) returns (probe: Probe, ghost landed: seq<Landing>)
    modifies inputs
    ensures values.None? ==> inputs[..] == old(inputs[..]) && probe == Report(host, old(inputs[..]), 0) && landed == []
    ensures values.Some? ==>
      inputs[..] == Filled(old(inputs[..]), values.value)
      && probe == Report(host, old(inputs[..]), Written(old(inputs[..]), values.value))
      && landed == Landings(old(inputs[..]), values.value)
  {
    if values.Some? {
      probe, landed := FillIn(host, inputs, values.value);
    } else {
      var username, password, code := UsernameField(inputs[..]), PasswordField(inputs[..]), CodeField(inputs[..]);
      probe, landed := Probe(host, username.Some?, password.Some?, code.Some?, 0), [];
    }
  }

  /** The three fields are chosen before anything is written. */
  method FillIn(host: string, inputs: array<Input>, v: Values) returns (probe: Probe, ghost landed: seq<Landing>)
    modifies inputs
    ensures inputs[..] == Filled(old(inputs[..]), v)
    ensures probe == Report(host, old(inputs[..]), Written(old(inputs[..]), v)) && landed == Landings(old(inputs[..]), v)
  {
    ghost var xs := inputs[..];
    var username, password, code := UsernameField(inputs[..]), PasswordField(inputs[..]), CodeField(inputs[..]);
    ghost var a, b, d;
    var u, p, c;
    u, a := Write(inputs, username, v.username, TheUsername);
    ghost var first := Put(xs, username, v.username);
    SameIds(xs, username, v.username);
    assert a == Lands(xs, v, TheUsername);
    p, b := Write(inputs, password, v.password, ThePassword);
    SameIds(first, password, v.password);
    assert b == Lands(xs, v, ThePassword);
    c, d := Write(inputs, code, v.code, TheCode);
    assert d == Lands(xs, v, TheCode);
    probe := Probe(host, username.Some?, password.Some?, code.Some?, u + p + c);
    landed := a + b + d;
  }

  lemma SameIds(xs: seq<Input>, at: Option<nat>, value: Option<string>)
    ensures var ys := Put(xs, at, value); |ys| == |xs| && forall j :: 0 <= j < |xs| ==> ys[j].id == xs[j].id
  {
  }

  /** The three fields are different inputs, and a code is looked for only where there is no password. */
  lemma FieldsDiffer(xs: seq<Input>)
    ensures var u, p, c := UsernameField(xs), PasswordField(xs), CodeField(xs);
      && (u.Some? ==> u.value < |xs| && MayBeUser(xs[u.value]) && u != p && u != c)
      && (p.Some? ==> p.value < |xs| && IsPassword(xs[p.value]) && c.None?)
      && (c.Some? ==> c.value < |xs| && IsCodeField(xs[c.value]))
      && (u.Some? && p.Some? ==> u.value < p.value)
  {
    if PasswordField(xs).Some? {
      assert forall j :: 0 <= j < |BeforePassword(xs)| ==> BeforePassword(xs)[j] == xs[j];
    }
  }

  /** Which input is the username: a named one, or else the last that may be before the password. */
  lemma UsernameIs(xs: seq<Input>, u: nat)
    requires u < |xs|
    ensures UsernameField(xs) == Some(u) <==>
      && MayBeUser(xs[u])
      && (forall j :: 0 <= j <= u ==> !IsPassword(xs[j]))
      && (if SaysUser(xs[u]) then forall j :: 0 <= j < u ==> !IsNamedUser(xs[j])
          else PasswordField(xs).Some? && NoneBetween(xs, u, PasswordField(xs).value) && NoneNamedBefore(xs, PasswordField(xs).value))
  {
    var b := BeforePassword(xs);
    assert forall j :: 0 <= j < |b| ==> b[j] == xs[j];
    if u < |b| {
      assert b[u] == xs[u];
    } else {
      assert IsPassword(xs[|b|]);
    }
  }

  ghost predicate NoneBetween(xs: seq<Input>, u: nat, p: nat) {
    forall j :: u < j < p && j < |xs| ==> !MayBeUser(xs[j])
  }

  ghost predicate NoneNamedBefore(xs: seq<Input>, p: nat) {
    forall j :: 0 <= j < p && j < |xs| ==> !IsNamedUser(xs[j])
  }

  /** The value an input has after a fill. */
  ghost predicate Meant(xs: seq<Input>, v: Values, j: nat, value: string)
    requires j < |xs|
  {
    value == if UsernameField(xs) == Some(j) && v.username.Some? then v.username.value
             else if PasswordField(xs) == Some(j) && v.password.Some? then v.password.value
             else if CodeField(xs) == Some(j) && v.code.Some? then v.code.value
             else xs[j].value
  }

  /** A fill gives each of the three fields its own value and touches no other input, none hidden, none read-only, no new password. */
  lemma FillsExactly(xs: seq<Input>, v: Values)
    ensures |Filled(xs, v)| == |xs| && forall j: nat :: j < |xs| ==> FilledAt(xs, v, j)
  {
    forall j: nat | j < |xs| ensures FilledAt(xs, v, j) { FillsAt(xs, v, j); }
  }

  ghost predicate FilledAt(xs: seq<Input>, v: Values, j: nat)
    requires j < |xs|
  {
    var ys := Filled(xs, v);
    && |ys| == |xs| && ys[j] == xs[j].(value := ys[j].value) && Meant(xs, v, j, ys[j].value)
    && (ys[j] != xs[j] ==> xs[j].enabled && xs[j].writable && xs[j].drawn && xs[j].visible && TypedFits(xs, j))
  }

  /** No password goes into a new password, no username or code where there is no text, and no username into a code. */
  ghost predicate TypedFits(xs: seq<Input>, j: nat)
    requires j < |xs|
  {
    var i := xs[j];
    if i.kind.Password? then PasswordField(xs) == Some(j) && !i.hints.newPassword
    else if UsernameField(xs) == Some(j) then i.kind in {Text, Email, Tel} && !i.hints.oneTimeCode && !i.hints.codeWords
    else CodeField(xs) == Some(j) && i.kind in {Text, Email, Tel, Number} && (i.hints.oneTimeCode || i.hints.codeWords)
  }

  lemma FillsAt(xs: seq<Input>, v: Values, j: nat)
    requires j < |xs|
    ensures FilledAt(xs, v, j)
  {
    FieldsDiffer(xs);
    var first := Put(xs, UsernameField(xs), v.username);
    PutAt(xs, UsernameField(xs), v.username, j);
    PutAt(first, PasswordField(xs), v.password, j);
    PutAt(Put(first, PasswordField(xs), v.password), CodeField(xs), v.code, j);
  }

  lemma PutAt(xs: seq<Input>, at: Option<nat>, value: Option<string>, j: nat)
    requires j < |xs|
    ensures |Put(xs, at, value)| == |xs|
    ensures Put(xs, at, value)[j] == if at == Some(j) && value.Some? then xs[j].(value := value.value) else xs[j]
  {
  }

  /** A look reports a password exactly when the page has one to type into that is not asking for a new one. */
  lemma PasswordFound(host: string, xs: seq<Input>, n: nat)
    ensures Report(host, xs, n).password <==>
      exists i <- xs :: i.kind == Password && !i.hints.newPassword && i.enabled && i.writable && i.drawn && i.visible
  {
    if PasswordField(xs).Some? { assert xs[PasswordField(xs).value] in xs; }
  }

  /** A code, exactly when it reports no password and there is a text or number to type into that says it is one. */
  lemma CodeFound(host: string, xs: seq<Input>, n: nat)
    ensures var p := Report(host, xs, n);
      p.code <==> !p.password && exists i <- xs ::
        && i.kind in {Text, Email, Tel, Number} && (i.hints.oneTimeCode || i.hints.codeWords)
        && i.enabled && i.writable && i.drawn && i.visible
  {
    if CodeField(xs).Some? { assert xs[CodeField(xs).value] in xs; }
  }

  /** A text to type into with no password up to it, not a code, and named for a username. */
  ghost predicate UserAt(xs: seq<Input>, j: nat) {
    j < |xs| && xs[j].kind in {Text, Email, Tel} && !xs[j].hints.oneTimeCode && !xs[j].hints.codeWords
    && xs[j].enabled && xs[j].writable && xs[j].drawn && xs[j].visible
    && forall i :: 0 <= i <= j ==> !IsPassword(xs[i])
  }

  ghost predicate NamedAt(xs: seq<Input>, j: nat) {
    UserAt(xs, j) && (xs[j].kind.Email? || xs[j].hints.userAutocomplete || xs[j].hints.userWords)
  }

  /** A username, exactly when such a text is named for one, or there is such a text and then a password. */
  lemma UsernameFound(host: string, xs: seq<Input>, n: nat)
    ensures var p := Report(host, xs, n);
      p.username <==> (exists j: nat :: NamedAt(xs, j)) || (p.password && exists j: nat :: UserAt(xs, j))
  {
    var b := BeforePassword(xs);
    assert forall j :: 0 <= j < |b| ==> b[j] == xs[j];
    forall j: nat | UserAt(xs, j) ensures j < |b| { assert |b| < |xs| ==> IsPassword(xs[|b|]); }
    forall j: nat | j < |b| && MayBeUser(b[j]) ensures UserAt(xs, j) && (SaysUser(b[j]) ==> NamedAt(xs, j)) {}
    forall j: nat | UserAt(xs, j) ensures MayBeUser(b[j]) && (NamedAt(xs, j) ==> IsNamedUser(b[j])) {}
  }

  const SignUp := [
    Input(1, Email, true, true, true, true, Hints(false, false, false, false, false), ""),
    Input(2, Password, true, true, true, true, Hints(false, true, false, false, false), "")]

  /** On a sign-up form the username goes in, and no password anywhere. */
  lemma SignUpGetsNoPassword(v: Values)
    ensures Report("host", SignUp, 0) == Probe("host", true, false, false, 0)
    ensures Filled(SignUp, v) == if v.username.Some? then [SignUp[0].(value := v.username.value), SignUp[1]] else SignUp
  {
    PasswordFound("host", SignUp, 0);
    CodeFound("host", SignUp, 0);
    assert NamedAt(SignUp, 0);
    UsernameIs(SignUp, 0);
  }

  /** Inputs that differ only in what is typed in them. */
  ghost predicate SameForm(xs: seq<Input>, ys: seq<Input>) {
    |xs| == |ys| && forall j :: 0 <= j < |xs| ==> ys[j] == xs[j].(value := ys[j].value)
  }

  lemma {:induction false} SameFirst(xs: seq<Input>, ys: seq<Input>, want: Input -> bool)
    requires SameForm(xs, ys) && forall i: Input, value :: want(i) == want(i.(value := value))
    ensures First(xs, want) == First(ys, want) && Last(xs, want) == Last(ys, want)
  {
    assert forall j :: 0 <= j < |xs| ==> want(ys[j]) == want(xs[j].(value := ys[j].value));
    assert forall j :: 0 <= j < |xs| ==> want(ys[j]) == want(xs[j]);
  }

  lemma {:induction false} SameBefore(xs: seq<Input>, ys: seq<Input>)
    requires SameForm(xs, ys)
    ensures PasswordField(xs) == PasswordField(ys) && SameForm(BeforePassword(xs), BeforePassword(ys))
  {
    SameFirst(xs, ys, IsPassword);
  }

  /** What is typed does not change which fields are found: looking again after a fill, or filling twice, finds the same ones. */
  lemma {:induction false} FoundAgain(xs: seq<Input>, ys: seq<Input>)
    requires SameForm(xs, ys)
    ensures UsernameField(xs) == UsernameField(ys) && PasswordField(xs) == PasswordField(ys) && CodeField(xs) == CodeField(ys)
  {
    SameBefore(xs, ys);
    SameFirst(xs, ys, IsCodeField);
    SameFirst(BeforePassword(xs), BeforePassword(ys), IsNamedUser);
    SameFirst(BeforePassword(xs), BeforePassword(ys), MayBeUser);
  }

  /** Values only for the fields a look found. */
  predicate Probed(p: Probe, v: Values) {
    (v.username.Some? ==> p.username) && (v.password.Some? ==> p.password) && (v.code.Some? ==> p.code)
  }

  ghost predicate FirstPassword(ys: seq<Input>, j: nat) {
    j < |ys| && IsPassword(ys[j]) && forall i :: 0 <= i < j ==> !IsPassword(ys[i])
  }

  /** The j-th input is the one for this value, said of the page alone. */
  ghost predicate IsThe(ys: seq<Input>, w: Which, j: nat) {
    j < |ys| &&
    match w
    case ThePassword => FirstPassword(ys, j)
    case TheCode => IsCodeField(ys[j]) && (forall i :: 0 <= i < j ==> !IsCodeField(ys[i])) && forall i :: 0 <= i < |ys| ==> !IsPassword(ys[i])
    case TheUsername => MayBeUser(ys[j]) && (forall i :: 0 <= i <= j ==> !IsPassword(ys[i])) && (NamedFirst(ys, j) || LastBeforeAPassword(ys, j))
  }

  ghost predicate NamedFirst(ys: seq<Input>, j: nat)
    requires j < |ys|
  {
    SaysUser(ys[j]) && forall i :: 0 <= i < j ==> !IsNamedUser(ys[i])
  }

  /** Unnamed, with a password after it, and before that nothing named and no other text field. */
  ghost predicate LastBeforeAPassword(ys: seq<Input>, j: nat)
    requires j < |ys|
  {
    !SaysUser(ys[j]) && exists p: nat :: FirstPassword(ys, p) && NoneBetween(ys, j, p) && NoneNamedBefore(ys, p)
  }

  lemma PasswordIs(ys: seq<Input>, j: nat)
    ensures PasswordField(ys) == Some(j) <==> IsThe(ys, ThePassword, j)
  {
  }

  lemma CodeIs(ys: seq<Input>, j: nat)
    ensures CodeField(ys) == Some(j) <==> IsThe(ys, TheCode, j)
  {
  }

  /** What is chosen is what the page's inputs alone say. */
  lemma ChosenIs(ys: seq<Input>, w: Which, j: nat)
    ensures Chosen(ys, w) == Some(j) <==> IsThe(ys, w, j)
  {
    match w
    case ThePassword => PasswordIs(ys, j);
    case TheCode => CodeIs(ys, j);
    case TheUsername =>
      if j < |ys| {
        UsernameIs(ys, j);
        if PasswordField(ys).Some? { PasswordIs(ys, PasswordField(ys).value); }
        forall p: nat | FirstPassword(ys, p) ensures PasswordField(ys) == Some(p) { PasswordIs(ys, p); }
      }
  }

  /** The element found for a value is still the one for it. */
  ghost predicate StillThe(xs: seq<Input>, ys: seq<Input>, w: Which) {
    exists i: nat, j: nat :: IsThe(xs, w, i) && IsThe(ys, w, j) && xs[i].id == ys[j].id
  }

  /** The page has nothing for this value now. */
  ghost predicate NoneNow(ys: seq<Input>, w: Which) { forall j: nat :: !IsThe(ys, w, j) }

  lemma LandsWhereFound(xs: seq<Input>, ys: seq<Input>, v: Values, w: Which)
    requires ValueFor(v, w).Some? ==> Chosen(xs, w).Some?
    ensures Lands(ys, v, w) == Lands(xs, v, w) <==> (ValueFor(v, w).Some? ==> StillThe(xs, ys, w))
    ensures Lands(ys, v, w) == [] <==> (ValueFor(v, w).Some? ==> NoneNow(ys, w))
  {
    if Chosen(xs, w).Some? { ChosenIs(xs, w, Chosen(xs, w).value); }
    if Chosen(ys, w).Some? { ChosenIs(ys, w, Chosen(ys, w).value); }
    forall j: nat | IsThe(xs, w, j) ensures Chosen(xs, w) == Some(j) { ChosenIs(xs, w, j); }
    forall j: nat | IsThe(ys, w, j) ensures Chosen(ys, w) == Some(j) { ChosenIs(ys, w, j); }
  }

  lemma InLandings(xs: seq<Input>, v: Values, l: Landing)
    ensures l in Landings(xs, v) <==> l in Lands(xs, v, l.which)
  {
  }

  /** What a fill of ys writes is what a fill of xs would have, into the same elements. */
  ghost predicate SameLandings(xs: seq<Input>, ys: seq<Input>, v: Values) {
    forall l: Landing :: l in Landings(ys, v) <==> l in Landings(xs, v)
  }

  /** A fill of ys writes nothing but that. */
  ghost predicate NoOtherLandings(xs: seq<Input>, ys: seq<Input>, v: Values) {
    forall l: Landing :: l in Landings(ys, v) ==> l in Landings(xs, v)
  }

  lemma LandsIn(xs: seq<Input>, ys: seq<Input>, v: Values, w: Which)
    requires NoOtherLandings(xs, ys, v)
    ensures Lands(ys, v, w) == [] || Lands(ys, v, w) == Lands(xs, v, w)
  {
    if Lands(ys, v, w) != [] {
      var l := Lands(ys, v, w)[0];
      InLandings(ys, v, l);
      InLandings(xs, v, l);
    }
  }

  lemma LandsEach(xs: seq<Input>, ys: seq<Input>, v: Values)
    ensures NoOtherLandings(xs, ys, v) <==> EachSameOrNone(xs, ys, v)
  {
    if NoOtherLandings(xs, ys, v) {
      forall w ensures Lands(ys, v, w) == [] || Lands(ys, v, w) == Lands(xs, v, w) { LandsIn(xs, ys, v, w); }
    } else {
      var l :| l in Landings(ys, v) && l !in Landings(xs, v);
      InLandings(ys, v, l);
      InLandings(xs, v, l);
      assert !(Lands(ys, v, l.which) == [] || Lands(ys, v, l.which) == Lands(xs, v, l.which));
    }
  }

  lemma LandsBoth(xs: seq<Input>, ys: seq<Input>, v: Values)
    ensures SameLandings(xs, ys, v) <==> EachSame(xs, ys, v)
  {
    LandsEach(xs, ys, v);
    LandsEach(ys, xs, v);
    assert SameLandings(xs, ys, v) <==> NoOtherLandings(xs, ys, v) && NoOtherLandings(ys, xs, v);
  }

  ghost predicate EachSame(xs: seq<Input>, ys: seq<Input>, v: Values) {
    forall w :: Lands(ys, v, w) == Lands(xs, v, w)
  }

  ghost predicate EachStill(xs: seq<Input>, ys: seq<Input>, v: Values) {
    forall w :: ValueFor(v, w).Some? ==> StillThe(xs, ys, w)
  }

  ghost predicate EachSameOrNone(xs: seq<Input>, ys: seq<Input>, v: Values) {
    forall w :: Lands(ys, v, w) == [] || Lands(ys, v, w) == Lands(xs, v, w)
  }

  ghost predicate EachStillOrNone(xs: seq<Input>, ys: seq<Input>, v: Values) {
    forall w :: ValueFor(v, w).Some? ==> StillThe(xs, ys, w) || NoneNow(ys, w)
  }

  lemma EachLands(xs: seq<Input>, ys: seq<Input>, v: Values)
    requires Probed(Report("", xs, 0), v)
    ensures EachSame(xs, ys, v) <==> EachStill(xs, ys, v)
    ensures EachSameOrNone(xs, ys, v) <==> EachStillOrNone(xs, ys, v)
  {
    forall w
      ensures Lands(ys, v, w) == Lands(xs, v, w) <==> (ValueFor(v, w).Some? ==> StillThe(xs, ys, w))
      ensures (Lands(ys, v, w) == [] || Lands(ys, v, w) == Lands(xs, v, w))
        <==> (ValueFor(v, w).Some? ==> StillThe(xs, ys, w) || NoneNow(ys, w))
    {
      FoundLands(xs, ys, v, w);
    }
  }

  /**
   * Look at one form, then fill whatever form is there. What is written, and
   * into which elements, is what the look found exactly when each of those
   * elements is still the one for its value; and nothing is written anywhere
   * else exactly when each is, or the page now has nothing for that value.
   */
  lemma FillsWhatWasFound(host: string, xs: seq<Input>, ys: seq<Input>, v: Values)
    requires Probed(Report(host, xs, 0), v)
    ensures SameLandings(xs, ys, v) <==> EachStill(xs, ys, v)
    ensures NoOtherLandings(xs, ys, v) <==> EachStillOrNone(xs, ys, v)
  {
    LandsBoth(xs, ys, v);
    LandsEach(xs, ys, v);
    EachLands(xs, ys, v);
  }

  lemma FoundLands(xs: seq<Input>, ys: seq<Input>, v: Values, w: Which)
    requires Probed(Report("", xs, 0), v)
    ensures Lands(ys, v, w) == Lands(xs, v, w) <==> (ValueFor(v, w).Some? ==> StillThe(xs, ys, w))
    ensures (Lands(ys, v, w) == [] || Lands(ys, v, w) == Lands(xs, v, w))
      <==> (ValueFor(v, w).Some? ==> StillThe(xs, ys, w) || NoneNow(ys, w))
  {
    LandsWhereFound(xs, ys, v, w);
  }

  function Asked(v: Values): nat {
    (if v.username.Some? then 1 else 0) + (if v.password.Some? then 1 else 0) + (if v.code.Some? then 1 else 0)
  }

  /** Every value is written exactly when the page has a field for each, and a count of none means that nothing changed. */
  lemma CountsWhatIsThere(host: string, ys: seq<Input>, v: Values)
    ensures Written(ys, v) == Asked(v) <==> Probed(Report(host, ys, 0), v)
    ensures Written(ys, v) == 0 ==> Filled(ys, v) == ys
    ensures Written(ys, v) == |Landings(ys, v)|
  {
  }

  /** The same form, whatever has been typed in it since, is filled where it was found. */
  lemma SameFormIsFilled(xs: seq<Input>, ys: seq<Input>, v: Values)
    requires SameForm(xs, ys)
    ensures Landings(ys, v) == Landings(xs, v)
  {
    FoundAgain(xs, ys);
  }

  const Signing := Input(1, Password, true, true, true, true, Hints(false, false, false, false, false), "")

  /** A page that has swapped its password input for another gets the password in that other. */
  lemma AnotherFormIsFilled()
    ensures var xs, ys, v := [Signing], [Signing.(id := 2)], Values(None, Some("secret"), None);
      && Probed(Report("host", xs, 0), v)
      && Landings(xs, v) == [Landing(ThePassword, 1, "secret")] && Landings(ys, v) == [Landing(ThePassword, 2, "secret")]
  {
    PasswordIs([Signing], 0);
    PasswordIs([Signing.(id := 2)], 0);
  }

  /* ---- Which frame the popup fills ---- */

  datatype Frame = Frame(frameId: nat, documentId: string, probe: Probe)

  function Rank(p: Probe): nat { if p.password then 3 else if p.username then 2 else if p.code then 1 else 0 }

  predicate Fillable(f: Frame, host: string) { f.probe.host == host && Rank(f.probe) > 0 }

  /** A password form before a username form before a code form, and then the outer frame first. */
  predicate Before(a: Frame, b: Frame) {
    Rank(a.probe) > Rank(b.probe) || (Rank(a.probe) == Rank(b.probe) && a.frameId < b.frameId)
  }

  function BestFrame(frames: seq<Frame>, host: string): Option<Frame> {
    if frames == [] then None
    else
      var best, last := BestFrame(frames[..|frames| - 1], host), frames[|frames| - 1];
      if !Fillable(last, host) then best
      else if best.None? || Before(last, best.value) then Some(last) else best
  }

  /** There is something on this site to fill. */
  ghost predicate HasForm(f: Frame, host: string) {
    f.probe.host == host && (f.probe.password || f.probe.username || f.probe.code)
  }

  /** best has the password if f has one, or else the username if f has one; and where they have the same it is no further in. */
  ghost predicate NoWorse(best: Frame, f: Frame) {
    && (f.probe.password ==> best.probe.password)
    && (f.probe.username && !best.probe.password ==> best.probe.username)
    && (f.probe.password == best.probe.password && (!f.probe.password ==> f.probe.username == best.probe.username) ==> best.frameId <= f.frameId)
  }

  /** A frame is chosen exactly when one on the tab's own site has a form, and it is such a frame that no other betters. */
  lemma {:induction false} BestFrameIsBest(frames: seq<Frame>, host: string)
    ensures var best := BestFrame(frames, host);
      && (best.Some? <==> exists f <- frames :: HasForm(f, host))
      && (best.Some? ==> best.value in frames && HasForm(best.value, host))
      && (best.Some? ==> forall f <- frames :: HasForm(f, host) ==> NoWorse(best.value, f))
  {
    if frames != [] {
      var front, last := frames[..|frames| - 1], frames[|frames| - 1];
      BestFrameIsBest(front, host);
      assert frames == front + [last] && last in frames;
      assert forall f <- front :: f in frames;
      assert forall f :: HasForm(f, host) <==> Fillable(f, host);
    }
  }
}
