/** The invite engine (`AMInvite`): issuing share links, one-off invites with an
    optional invitation email, lookup by email or phone, acceptance with
    conflict resolution, click recording and windowed statistics.

    The store is an in-memory sequence of invite records whose id is their
    index. Time is an integer day number handed in as `now`; the mailer's
    outcome is handed in as a boolean. */
module Invites {
  import opened Wrappers

  type UserId = nat

  /** A day number. */
  type Time = int

  /** `days || 7`: the window used when no (or a zero) number of days is given. */
  const DefaultWindowDays: int := 7

  /** The inviter or the new user as far as this engine looks at them:
      its id, `name` and `local.email`. */
  datatype User = User(id: UserId, name: Option<string>, localEmail: Option<string>)

  /** One entry of the list handed to `addInvites`. */
  datatype Person = Person(email: Option<string>, phone: Option<string>)

  /** The invite record. */
  datatype Invite = Invite(
    id: nat,
    user: UserId,
    email: Option<string>,
    phone: Option<string>,
    main: bool,
    accepted: bool,
    acceptedAt: Option<Time>,
    userAccepted: Option<UserId>,
    clicks: seq<Time>,
    clickCount: nat,
    createdAt: Time)

  /** `AMInvite.config`. */
  datatype Config = Config(baseUrlAndRoute: string, sendEmail: bool)

  /** The part of `AMMailing.config` the invitation email reads. */
  datatype MailingConfig = MailingConfig(fromName: string, appName: Option<string>)

  /** What is handed to the mailer. */
  datatype Email = Email(to: string, subject: string, text: string, html: string)

  datatype InviteError =
    | NotConfigured  // `AMInvite.config` is still null when a link is built
    | NotFound       // `accept` on an id the store does not hold

  /** A freshly created record: pending, no clicks, created now. */
  function NewInvite(id: nat, user: UserId, email: Option<string>, phone: Option<string>,
                     main: bool, now: Time): Invite
  {
    Invite(id, user, email, phone, main, false, None, None, [], 0, now)
  }

  // ------------------------------------------------------------------
  // Store invariants
  // ------------------------------------------------------------------

  /** Per record: the click counter matches the click log, and the acceptance
      fields are present exactly when the record is accepted. */
  predicate Consistent(inv: Invite) {
    && inv.clickCount == |inv.clicks|
    && inv.accepted == inv.acceptedAt.Some?
    && inv.accepted == inv.userAccepted.Some?
  }

  predicate IsMainOf(user: UserId, inv: Invite) {
    inv.user == user && inv.main
  }

  /** Ids are the positions, every record is consistent, and no inviter owns
      two main links. */
  predicate WellFormed(s: seq<Invite>) {
    && (forall i :: 0 <= i < |s| ==> s[i].id == i && Consistent(s[i]))
    && (forall i, j :: 0 <= i < j < |s| && s[i].main && s[j].main ==> s[i].user != s[j].user)
  }

  lemma InStore(s: seq<Invite>, x: Invite)
    requires WellFormed(s) && x in s
    ensures x.id < |s| && s[x.id] == x
  {
    var k :| 0 <= k < |s| && s[k] == x;
  }

  // ------------------------------------------------------------------
  // Lookup (`findOne` on the store)
  // ------------------------------------------------------------------

  /** The first record, in store order, that satisfies `p`. */
  function FindFirst(s: seq<Invite>, p: Invite -> bool): (r: Option<nat>)
    ensures r.Some? ==> r.value < |s| && p(s[r.value])
    ensures r.Some? ==> forall j :: 0 <= j < r.value ==> !p(s[j])
    ensures r.None? ==> forall j :: 0 <= j < |s| ==> !p(s[j])
  {
    if s == [] then None
    else if p(s[0]) then Some(0)
    else
      match FindFirst(s[1..], p)
      case None => None
      case Some(k) => Some(k + 1)
  }

  /** `findOne({user, main: true})`. */
  function FindMain(s: seq<Invite>, user: UserId): Option<nat> {
    FindFirst(s, (inv: Invite) => IsMainOf(user, inv))
  }

  function FindByEmail(s: seq<Invite>, email: string): Option<nat> {
    FindFirst(s, (inv: Invite) => inv.email == Some(email))
  }

  function FindByPhone(s: seq<Invite>, phone: string): Option<nat> {
    FindFirst(s, (inv: Invite) => inv.phone == Some(phone))
  }

  /** `findInviteByEmailPhone`: an email match if there is one, else a phone
      match, else nothing; an absent or empty email or phone is skipped. */
  function FindInviteByEmailPhone(s: seq<Invite>, email: Option<string>, phone: Option<string>)
    : (r: Option<Invite>)
    ensures r.Some? ==> r.value in s
    ensures r.Some? ==> (Truthy(email) && r.value.email == email) || (Truthy(phone) && r.value.phone == phone)
    ensures Truthy(email) && (exists i :: 0 <= i < |s| && s[i].email == email) ==>
              r.Some? && r.value.email == email
    ensures r.None? ==>
              (Truthy(email) ==> forall i :: 0 <= i < |s| ==> s[i].email != email) &&
              (Truthy(phone) ==> forall i :: 0 <= i < |s| ==> s[i].phone != phone)
  {
    var byEmail := if Truthy(email) then FindByEmail(s, email.value) else None;
    var byPhone := if Truthy(phone) then FindByPhone(s, phone.value) else None;
    if byEmail.Some? then Some(s[byEmail.value])
    else if byPhone.Some? then Some(s[byPhone.value])
    else None
  }

  // ------------------------------------------------------------------
  // Links
  // ------------------------------------------------------------------

  function Digit(d: nat): char
    requires d < 10
  {
    "0123456789"[d]
  }

  function DigitValue(c: char): int {
    c as int - '0' as int
  }

  /** The textual form of a record id, as it appears in a link. */
  function DecimalString(n: nat): (r: string)
    ensures |r| > 0
    ensures forall k :: 0 <= k < |r| ==> '0' <= r[k] <= '9'
  {
    if n < 10 then [Digit(n)] else DecimalString(n / 10) + [Digit(n % 10)]
  }

  /** Reads a decimal string back into a number. */
  function ParseDecimal(s: string): (n: int) {
    if s == [] then 0 else ParseDecimal(s[..|s| - 1]) * 10 + DigitValue(s[|s| - 1])
  }

  lemma {:induction false} DecimalRoundTrip(n: nat)
    ensures ParseDecimal(DecimalString(n)) == n
  {
    var d := DecimalString(n);
    if n >= 10 {
      DecimalRoundTrip(n / 10);
      assert d[..|d| - 1] == DecimalString(n / 10);
    }
  }

  /** `baseUrlAndRoute + '/' + invite._id`. */
  function Link(base: string, id: nat): string {
    base + "/" + DecimalString(id)
  }

  /** The link `getUserLink` answers for record `id`; without a configuration
      there is no base URL to build it from. */
  function LinkFor(config: Option<Config>, id: nat): (r: Result<string, InviteError>)
    ensures r.Success? <==> config.Some?
    ensures r.Success? ==> r.value == Link(config.value.baseUrlAndRoute, id)
    ensures r.Failure? ==> r.error == NotConfigured
  {
    if config.Some? then Success(Link(config.value.baseUrlAndRoute, id)) else Failure(NotConfigured)
  }

  /** A link names exactly one record: different records get different links. */
  lemma LinkDeterminesInvite(base: string, i: nat, j: nat)
    requires Link(base, i) == Link(base, j)
    ensures i == j
  {
    var p := base + "/";
    assert Link(base, i)[|p|..] == DecimalString(i);
    assert Link(base, j)[|p|..] == DecimalString(j);
    DecimalRoundTrip(i);
    DecimalRoundTrip(j);
  }

  /** `getUserLink` on the store: the new store and the id of the linked record. */
  function LinkStep(s: seq<Invite>, user: UserId, unique: bool, now: Time): (r: (seq<Invite>, nat)) {
    if unique && FindMain(s, user).Some? then
      (s, FindMain(s, user).value)
    else
      (s + [NewInvite(|s|, user, None, None, unique, now)], |s|)
  }

  /** The linked record belongs to the inviter, is the main one exactly when
      `unique` was asked for, and the store stays well formed. */
  lemma LinkStepWellFormed(s: seq<Invite>, user: UserId, unique: bool, now: Time)
    requires WellFormed(s)
    ensures var (s', id) := LinkStep(s, user, unique, now);
      && WellFormed(s')
      && id < |s'|
      && s'[id].user == user
      && s'[id].main == unique
  {
    var (s', id) := LinkStep(s, user, unique, now);
    if unique && FindMain(s, user).Some? {
    } else {
      assert forall j :: 0 <= j < |s| ==> s'[j] == s[j];
      if unique {
        assert forall j :: 0 <= j < |s| ==> !IsMainOf(user, s[j]);
      }
    }
  }

  /** With `unique`, the store afterwards holds exactly one main record of the
      inviter, the linked one; a record was added only if none existed. */
  lemma UniqueLinkIsTheOnlyMain(s: seq<Invite>, user: UserId, now: Time)
    requires WellFormed(s)
    ensures var (s', id) := LinkStep(s, user, true, now);
      && id < |s'| && IsMainOf(user, s'[id])
      && (forall j :: 0 <= j < |s'| && j != id ==> !IsMainOf(user, s'[j]))
      && |s'| == |s| + (if FindMain(s, user).None? then 1 else 0)
  {
    LinkStepWellFormed(s, user, true, now);
  }

  /** Asking twice for the unique link gives the same record and adds nothing
      the second time. */
  lemma UniqueLinkIdempotent(s: seq<Invite>, user: UserId, t1: Time, t2: Time)
    requires WellFormed(s)
    ensures var (s1, id1) := LinkStep(s, user, true, t1);
      LinkStep(s1, user, true, t2) == (s1, id1)
  {
    var (s1, id1) := LinkStep(s, user, true, t1);
    UniqueLinkIsTheOnlyMain(s, user, t1);
    var f := FindMain(s1, user);
    assert IsMainOf(user, s1[id1]);
    assert f.Some? && f.value == id1;
  }

  /** Without `unique`, a new pending non-main record is always appended. */
  lemma OneOffLinkAlwaysNew(s: seq<Invite>, user: UserId, now: Time)
    ensures var (s', id) := LinkStep(s, user, false, now);
      && s' == s + [NewInvite(|s|, user, None, None, false, now)]
      && id == |s|
  {
  }

  // ------------------------------------------------------------------
  // One-off invites and the invitation email
  // ------------------------------------------------------------------

  /** The record `addInvite` creates. */
  function OneOff(id: nat, user: UserId, email: Option<string>, phone: Option<string>, now: Time)
    : (r: Invite)
    ensures r.id == id && r.user == user && r.email == email && r.phone == phone && r.createdAt == now
    ensures !r.main && !r.accepted && r.clicks == [] && Consistent(r)
  {
    NewInvite(id, user, email, phone, false, now)
  }

  lemma AppendOneOffWellFormed(s: seq<Invite>, user: UserId, email: Option<string>,
                               phone: Option<string>, now: Time)
    requires WellFormed(s)
    ensures WellFormed(s + [OneOff(|s|, user, email, phone, now)])
  {
  }

  /** The mail is attempted: a configuration with `sendEmail` and a truthy email. */
  predicate EmailsInvitee(config: Option<Config>, email: Option<string>) {
    config.Some? && config.value.sendEmail && Truthy(email)
  }

  /** `addInvite` returns the record: the configuration was readable, and the
      mailer, when used, succeeded. */
  predicate Delivered(config: Option<Config>, email: Option<string>, mailOk: bool) {
    config.Some? && (EmailsInvitee(config, email) ==> mailOk)
  }

  function InviterName(u: User): string {
    if Truthy(u.name) then u.name.value else ""
  }

  /** `user.local.email` concatenated into a string. */
  function InviterEmail(u: User): string {
    match u.localEmail
    case Some(e) => e
    case None => "undefined"
  }

  function AppName(m: MailingConfig): string {
    if Truthy(m.appName) then m.appName.value else m.fromName
  }

  function InviteSubject(m: MailingConfig): string {
    "[" + m.fromName + "] Você recebeu um convite"
  }

  /** The text up to the blank line. */
  function TextHead(m: MailingConfig, u: User): string {
    "Seu amigo " + InviterName(u) + " (" + InviterEmail(u) + ") " +
    " convidou você para usar o aplicativo " + AppName(m)
  }

  /** The text after the blank line: the call to action with the link. */
  function TextTail(c: Config, id: nat): (r: string)
    ensures EndsWith(r, Link(c.baseUrlAndRoute, id))
  {
    "Para aceitar o convite, entre no link: " + Link(c.baseUrlAndRoute, id)
  }

  function InviteText(c: Config, m: MailingConfig, u: User, id: nat): string {
    TextHead(m, u) + ". " + "\n\n" + TextTail(c, id)
  }

  /** `text.replace(/(?:\r\n|\r|\n)/g, '<br/>')`: each CRLF, CR or LF becomes `<br/>`. */
  function ToHtml(text: string): (html: string) {
    if text == [] then []
    else if |text| >= 2 && text[0] == '\r' && text[1] == '\n' then "<br/>" + ToHtml(text[2..])
    else if text[0] == '\r' || text[0] == '\n' then "<br/>" + ToHtml(text[1..])
    else [text[0]] + ToHtml(text[1..])
  }

  predicate NoLineBreaks(s: string) {
    forall k :: 0 <= k < |s| ==> s[k] != '\r' && s[k] != '\n'
  }

  /** The email handed to the mailer for invite `id`. */
  function InviteEmail(c: Config, m: MailingConfig, u: User, id: nat, to: string): (e: Email)
    ensures e.to == to && e.subject == InviteSubject(m)
  {
    var text := InviteText(c, m, u, id);
    Email(to, InviteSubject(m), text, ToHtml(text))
  }

  /** The invitation's text ends with the invite's link, and its HTML holds
      no line break. */
  lemma InviteEmailShape(c: Config, m: MailingConfig, u: User, id: nat, to: string)
    ensures EndsWith(InviteEmail(c, m, u, id, to).text, Link(c.baseUrlAndRoute, id))
    ensures NoLineBreaks(InviteEmail(c, m, u, id, to).html)
  {
    ToHtmlRemovesBreaks(InviteText(c, m, u, id));
    EndsWithAppend(TextHead(m, u) + ". " + "\n\n", TextTail(c, id), Link(c.baseUrlAndRoute, id));
  }

  lemma EndsWithAppend(a: string, b: string, x: string)
    requires EndsWith(b, x)
    ensures EndsWith(a + b, x)
  {
    assert (a + b)[|a + b| - |x|..] == b[|b| - |x|..];
  }

  /** The HTML version holds no line break characters. */
  lemma {:induction false} ToHtmlRemovesBreaks(text: string)
    ensures NoLineBreaks(ToHtml(text))
  {
    if text == [] {
    } else if |text| >= 2 && text[0] == '\r' && text[1] == '\n' {
      ToHtmlRemovesBreaks(text[2..]);
    } else {
      ToHtmlRemovesBreaks(text[1..]);
    }
  }

  /** A plain character is copied through. */
  lemma ToHtmlPlainCons(c: char, t: string)
    requires c != '\r' && c != '\n'
    ensures ToHtml([c] + t) == [c] + ToHtml(t)
  {
    var ct := [c] + t;
    assert ct[0] == c && ct[1..] == t;
  }

  /** A lone line feed becomes one `<br/>`. */
  lemma ToHtmlLineFeed(t: string)
    ensures ToHtml("\n" + t) == "<br/>" + ToHtml(t)
  {
    var lt := "\n" + t;
    assert lt[0] == '\n' && lt[1..] == t;
  }

  /** Text without line breaks passes through unchanged, in front of anything. */
  lemma {:induction false} ToHtmlKeepsPlainPrefix(a: string, b: string)
    requires NoLineBreaks(a)
    ensures ToHtml(a + b) == a + ToHtml(b)
  {
    if a != [] {
      assert a + b == [a[0]] + (a[1..] + b);
      ToHtmlPlainCons(a[0], a[1..] + b);
      ToHtmlKeepsPlainPrefix(a[1..], b);
      assert [a[0]] + a[1..] == a;
    } else {
      assert a + b == b;
    }
  }

  lemma ToHtmlKeepsPlainText(a: string)
    requires NoLineBreaks(a)
    ensures ToHtml(a) == a
  {
    ToHtmlKeepsPlainPrefix(a, []);
    assert a + [] == a;
  }

  /** Two lines separated by a blank line become two `<br/>` between them. */
  lemma ToHtmlBlankLine(a: string, b: string)
    requires NoLineBreaks(a) && NoLineBreaks(b)
    ensures ToHtml(a + "\n\n" + b) == a + "<br/><br/>" + b
  {
    var tail := "\n\n" + b;
    assert a + "\n\n" + b == a + tail;
    ToHtmlKeepsPlainPrefix(a, tail);
    assert tail == "\n" + ("\n" + b);
    ToHtmlLineFeed("\n" + b);
    ToHtmlLineFeed(b);
    ToHtmlKeepsPlainText(b);
  }

  lemma NoLineBreaksConcat(a: string, b: string)
    requires NoLineBreaks(a) && NoLineBreaks(b)
    ensures NoLineBreaks(a + b)
  {
  }

  /** The text after the blank line holds no line break when the base URL holds none. */
  lemma TextTailPlain(c: Config, id: nat)
    requires NoLineBreaks(c.baseUrlAndRoute)
    ensures NoLineBreaks(TextTail(c, id))
  {
    NoLineBreaksConcat(c.baseUrlAndRoute, "/");
    NoLineBreaksConcat(c.baseUrlAndRoute + "/", DecimalString(id));
    NoLineBreaksConcat("Para aceitar o convite, entre no link: ", Link(c.baseUrlAndRoute, id));
  }

  /** The invitation's HTML: the blank line becomes two `<br/>`, the rest is
      the text itself, as long as the inserted names and base URL hold no
      line break. */
  lemma InviteHtml(c: Config, m: MailingConfig, u: User, id: nat, to: string)
    requires NoLineBreaks(TextHead(m, u)) && NoLineBreaks(c.baseUrlAndRoute)
    ensures InviteEmail(c, m, u, id, to).html == TextHead(m, u) + ". <br/><br/>" + TextTail(c, id)
  {
    var head := TextHead(m, u) + ". ";
    var tail := TextTail(c, id);
    NoLineBreaksConcat(TextHead(m, u), ". ");
    TextTailPlain(c, id);
    assert InviteText(c, m, u, id) == head + "\n\n" + tail;
    ToHtmlBlankLine(head, tail);
  }

  // ------------------------------------------------------------------
  // Acceptance
  // ------------------------------------------------------------------

  /** Sets the acceptance fields. */
  function Mark(inv: Invite, newUser: UserId, now: Time): Invite {
    inv.(accepted := true, acceptedAt := Some(now), userAccepted := Some(newUser))
  }

  /** `accept` on the store: a pending record is marked; an accepted one is left
      alone and a new record of the same inviter is created and marked instead.
      Gives the new store and the record handed back to the caller. */
  function AcceptStep(s: seq<Invite>, id: nat, newUser: UserId, now: Time): (r: (seq<Invite>, Invite))
    requires id < |s|
  {
    if s[id].accepted then
      var sibling := Mark(NewInvite(|s|, s[id].user, None, None, false, now), newUser, now);
      (s + [sibling], sibling)
    else
      var marked := Mark(s[id], newUser, now);
      (s[id := marked], marked)
  }

  /** The returned record is stored, belongs to the original inviter and is
      accepted now by the new user; the store stays well formed. */
  lemma AcceptStepWellFormed(s: seq<Invite>, id: nat, newUser: UserId, now: Time)
    requires WellFormed(s) && id < |s|
    ensures var (s', r) := AcceptStep(s, id, newUser, now);
      && WellFormed(s')
      && r.id < |s'| && s'[r.id] == r
      && r.user == s[id].user
      && r.accepted && r.acceptedAt == Some(now) && r.userAccepted == Some(newUser)
  {
  }

  /** A pending record is marked in place; nothing else changes. */
  lemma AcceptPending(s: seq<Invite>, id: nat, newUser: UserId, now: Time)
    requires WellFormed(s) && id < |s| && !s[id].accepted
    ensures var (s', r) := AcceptStep(s, id, newUser, now);
      && r.id == id && |s'| == |s|
      && r == s[id].(accepted := true, acceptedAt := Some(now), userAccepted := Some(newUser))
      && (forall j :: 0 <= j < |s| && j != id ==> s'[j] == s[j])
  {
  }

  /** Accepting an accepted record leaves it unchanged and spawns a sibling of
      the same inviter at the end of the store. */
  lemma AcceptConflictSpawnsSibling(s: seq<Invite>, id: nat, newUser: UserId, now: Time)
    requires WellFormed(s) && id < |s| && s[id].accepted
    ensures var (s', r) := AcceptStep(s, id, newUser, now);
      && s'[..|s|] == s
      && |s'| == |s| + 1
      && r.id == |s| && r.user == s[id].user && !r.main
  {
    var (s', r) := AcceptStep(s, id, newUser, now);
    assert s'[..|s|] == s;
  }

  /** Acceptance is one way: an accepted record is never changed by `accept`. */
  lemma AcceptedRecordsAreFinal(s: seq<Invite>, id: nat, newUser: UserId, now: Time)
    requires WellFormed(s) && id < |s|
    ensures var (s', _) := AcceptStep(s, id, newUser, now);
      |s'| >= |s| && forall j :: 0 <= j < |s| && s[j].accepted ==> s'[j] == s[j]
  {
  }

  /** Two accepts of one pending link: the first marks it; the second leaves it
      as the first left it and hands out a new record of the same inviter. */
  lemma DoubleAccept(s: seq<Invite>, id: nat, x: UserId, y: UserId, t1: Time, t2: Time)
    requires WellFormed(s) && id < |s| && !s[id].accepted
    ensures var (s1, a) := AcceptStep(s, id, x, t1);
      && id < |s1|
      && var (s2, b) := AcceptStep(s1, id, y, t2);
      && a.id == id && a.userAccepted == Some(x)
      && s2[id] == a
      && b.id == |s| && b.user == s[id].user && b.accepted && b.userAccepted == Some(y)
  {
    AcceptPending(s, id, x, t1);
    var (s1, a) := AcceptStep(s, id, x, t1);
    AcceptStepWellFormed(s, id, x, t1);
    AcceptConflictSpawnsSibling(s1, id, y, t2);
  }

  // ------------------------------------------------------------------
  // Clicks
  // ------------------------------------------------------------------

  /** `addClick` on the store: `$push clicks now` and `$inc clickCount 1` in one
      update; an unknown id matches nothing. */
  function ClickStep(s: seq<Invite>, id: nat, now: Time): (s': seq<Invite>) {
    if id < |s| then
      s[id := s[id].(clicks := s[id].clicks + [now], clickCount := s[id].clickCount + 1)]
    else s
  }

  /** The click log grows by `now`, the counter stays equal to its length, and
      nothing else in the store changes. */
  lemma ClickStepWellFormed(s: seq<Invite>, id: nat, now: Time)
    requires WellFormed(s)
    ensures var s' := ClickStep(s, id, now);
      && WellFormed(s')
      && |s'| == |s|
      && (id < |s| ==> s'[id] == s[id].(clicks := s[id].clicks + [now], clickCount := |s[id].clicks| + 1))
      && (forall j :: 0 <= j < |s| && j != id ==> s'[j] == s[j])
      && (id >= |s| ==> s' == s)
  {
  }

  /** Clicks recorded one after the other. */
  function ClickAll(s: seq<Invite>, id: nat, times: seq<Time>): seq<Invite>
    decreases |times|
  {
    if times == [] then s else ClickAll(ClickStep(s, id, times[0]), id, times[1..])
  }

  /** After clicks at `times` the log has gained exactly `times`, in order, and
      the counter has grown by as many. */
  lemma {:induction false} ClickAllLogsEveryClick(s: seq<Invite>, id: nat, times: seq<Time>)
    requires WellFormed(s) && id < |s|
    ensures var s' := ClickAll(s, id, times);
      && WellFormed(s') && |s'| == |s|
      && s'[id].clicks == s[id].clicks + times
      && s'[id].clickCount == s[id].clickCount + |times|
    decreases |times|
  {
    if times != [] {
      var s1 := ClickStep(s, id, times[0]);
      ClickStepWellFormed(s, id, times[0]);
      ClickAllLogsEveryClick(s1, id, times[1..]);
      assert s[id].clicks + [times[0]] + times[1..] == s[id].clicks + times;
    }
  }

  // ------------------------------------------------------------------
  // Statistics
  // ------------------------------------------------------------------

  /** `getStartDate(days)`: `days` days before now, 7 when `days` is absent or 0. */
  function StartDate(days: Option<int>, now: Time): (start: Time)
    ensures days.None? || days == Some(0) ==> start == now - DefaultWindowDays
    ensures days.Some? && days.value != 0 ==> start + days.value == now
  {
    if days.None? || days.value == 0 then now - DefaultWindowDays else now - days.value
  }

  /** The sum of `f` over the store. */
  function Sum(s: seq<Invite>, f: Invite -> nat): (total: nat) {
    if s == [] then 0 else Sum(s[..|s| - 1], f) + f(s[|s| - 1])
  }

  lemma SumAppend(s: seq<Invite>, x: Invite, f: Invite -> nat)
    ensures Sum(s + [x], f) == Sum(s, f) + f(x)
  {
    assert (s + [x])[..|s|] == s;
  }

  /** Replacing one record changes the sum by the difference of its weights. */
  lemma {:induction false} SumUpdate(s: seq<Invite>, i: nat, x: Invite, f: Invite -> nat)
    requires i < |s|
    ensures Sum(s[i := x], f) + f(s[i]) == Sum(s, f) + f(x)
  {
    var n := |s| - 1;
    if i == n {
      assert s[i := x][..n] == s[..n];
    } else {
      SumUpdate(s[..n], i, x, f);
      assert s[i := x][..n] == s[..n][i := x];
    }
  }

  lemma {:induction false} SumZeroIff(s: seq<Invite>, f: Invite -> nat)
    ensures Sum(s, f) == 0 <==> forall i :: 0 <= i < |s| ==> f(s[i]) == 0
  {
    if s != [] {
      var n := |s| - 1;
      SumZeroIff(s[..n], f);
      assert forall i :: 0 <= i < n ==> s[..n][i] == s[i];
    }
  }

  /** Pointwise smaller weights give a smaller sum. */
  lemma {:induction false} SumMonotone(s: seq<Invite>, f: Invite -> nat, g: Invite -> nat)
    requires forall i :: 0 <= i < |s| ==> f(s[i]) <= g(s[i])
    ensures Sum(s, f) <= Sum(s, g)
  {
    if s != [] {
      var n := |s| - 1;
      assert forall i :: 0 <= i < n ==> s[..n][i] == s[i];
      SumMonotone(s[..n], f, g);
    }
  }

  /** With weights of at most one, the sum is at most the number of records. */
  lemma {:induction false} SumAtMostCount(s: seq<Invite>, f: Invite -> nat)
    requires forall i :: 0 <= i < |s| ==> f(s[i]) <= 1
    ensures Sum(s, f) <= |s|
  {
    if s != [] {
      var n := |s| - 1;
      assert forall i :: 0 <= i < n ==> s[..n][i] == s[i];
      SumAtMostCount(s[..n], f);
    }
  }

  /** `created_at >= start`. */
  predicate SentSince(inv: Invite, start: Time) {
    inv.createdAt >= start
  }

  /** `accepted: true, acceptedAt >= start`. */
  predicate AcceptedSince(inv: Invite, start: Time) {
    inv.accepted && inv.acceptedAt.Some? && inv.acceptedAt.value >= start
  }

  /** The number of clicks at or after `start`. */
  function ClicksSince(clicks: seq<Time>, start: Time): (n: nat) {
    if clicks == [] then 0
    else ClicksSince(clicks[..|clicks| - 1], start) + (if clicks[|clicks| - 1] >= start then 1 else 0)
  }

  function SentWeight(start: Time): Invite -> nat {
    (inv: Invite) => if SentSince(inv, start) then 1 else 0
  }

  function AcceptedWeight(start: Time): Invite -> nat {
    (inv: Invite) => if AcceptedSince(inv, start) then 1 else 0
  }

  function ClickWeight(start: Time): Invite -> nat {
    (inv: Invite) => ClicksSince(inv.clicks, start)
  }

  /** No record holds a click at or after `start`. */
  predicate NoClickSince(s: seq<Invite>, start: Time) {
    forall i, k :: 0 <= i < |s| && 0 <= k < |s[i].clicks| ==> s[i].clicks[k] < start
  }

  lemma {:induction false} ClicksSinceZeroIff(clicks: seq<Time>, start: Time)
    ensures ClicksSince(clicks, start) == 0 <==> forall k :: 0 <= k < |clicks| ==> clicks[k] < start
  {
    if clicks != [] {
      var n := |clicks| - 1;
      ClicksSinceZeroIff(clicks[..n], start);
      assert forall k :: 0 <= k < n ==> clicks[..n][k] == clicks[k];
    }
  }

  lemma ClicksSinceAppend(clicks: seq<Time>, t: Time, start: Time)
    ensures ClicksSince(clicks + [t], start) == ClicksSince(clicks, start) + (if t >= start then 1 else 0)
  {
    assert (clicks + [t])[..|clicks|] == clicks;
  }

  lemma TotalClicksZeroIff(s: seq<Invite>, start: Time)
    ensures Sum(s, ClickWeight(start)) == 0 <==> NoClickSince(s, start)
  {
    SumZeroIff(s, ClickWeight(start));
    forall i | 0 <= i < |s|
      ensures ClickWeight(start)(s[i]) == 0 <==> forall k :: 0 <= k < |s[i].clicks| ==> s[i].clicks[k] < start
    {
      ClicksSinceZeroIff(s[i].clicks, start);
    }
  }

  /** `amountSentSinceDays`: records created inside the window. */
  function AmountSentSinceDays(s: seq<Invite>, days: Option<int>, now: Time): (n: nat)
    ensures n <= |s|
  {
    SumAtMostCount(s, SentWeight(StartDate(days, now)));
    Sum(s, SentWeight(StartDate(days, now)))
  }

  /** `amountAcceptedSinceDays`: records accepted inside the window. */
  function AmountAcceptedSinceDays(s: seq<Invite>, days: Option<int>, now: Time): (n: nat)
    ensures n <= |s|
  {
    SumAtMostCount(s, AcceptedWeight(StartDate(days, now)));
    Sum(s, AcceptedWeight(StartDate(days, now)))
  }

  /** `amountClickedSinceDays` as written: the sum of in-window clicks over the
      records that have one; with no such record the aggregation yields no
      group and `amount[0].count` fails, modelled as `None`. */
  function AmountClickedSinceDays(s: seq<Invite>, days: Option<int>, now: Time): (r: Option<nat>)
    ensures r.None? <==> NoClickSince(s, StartDate(days, now))
    ensures r.Some? ==> r.value >= 1 && r.value == Sum(s, ClickWeight(StartDate(days, now)))
  {
    var total := Sum(s, ClickWeight(StartDate(days, now)));
    TotalClicksZeroIff(s, StartDate(days, now));
    if total == 0 then None else Some(total)
  }

  /** The clicked statistic as intended: the number of in-window clicks, 0 when
      there are none. */
  function AmountClickedOrZero(s: seq<Invite>, days: Option<int>, now: Time): (n: nat)
    ensures n == 0 <==> NoClickSince(s, StartDate(days, now))
    ensures AmountClickedSinceDays(s, days, now).Some? ==> n == AmountClickedSinceDays(s, days, now).value
  {
    TotalClicksZeroIff(s, StartDate(days, now));
    Sum(s, ClickWeight(StartDate(days, now)))
  }

  /** On an empty store the sent and accepted counts are 0, while the clicked
      statistic as written fails; the intended one gives 0. */
  lemma EmptyStoreStatistics(days: Option<int>, now: Time)
    ensures AmountSentSinceDays([], days, now) == 0
    ensures AmountAcceptedSinceDays([], days, now) == 0
    ensures AmountClickedSinceDays([], days, now) == None
    ensures AmountClickedOrZero([], days, now) == 0
  {
  }

  /** A record clicked 10 days and 2 days ago: one click in the default week,
      two in a 14-day window. */
  lemma ClickWindowExample(u: UserId, now: Time)
    ensures var inv := NewInvite(0, u, None, None, false, now - 20).(clicks := [now - 10, now - 2], clickCount := 2);
      && AmountClickedSinceDays([inv], Some(7), now) == Some(1)
      && AmountClickedSinceDays([inv], None, now) == Some(1)
      && AmountClickedSinceDays([inv], Some(14), now) == Some(2)
  {
    var inv := NewInvite(0, u, None, None, false, now - 20).(clicks := [now - 10, now - 2], clickCount := 2);
    assert [inv][..0] == [];
    assert [now - 10, now - 2][..1] == [now - 10];
    assert inv.clicks[..1] == [now - 10] && [now - 10][..0] == [];
    assert ClicksSince([now - 10], now - 7) == 0;
    assert ClicksSince([now - 10], now - 14) == 1;
    assert ClicksSince(inv.clicks, now - 7) == 1;
    assert ClicksSince(inv.clicks, now - 14) == 2;
    assert Sum([inv], ClickWeight(now - 7)) == 1;
    assert Sum([inv], ClickWeight(now - 14)) == 2;
  }

  /** A wider window counts at least as much (days counted as positive). */
  lemma WiderWindowCountsMore(s: seq<Invite>, d1: int, d2: int, now: Time)
    requires 0 < d1 <= d2
    ensures AmountSentSinceDays(s, Some(d1), now) <= AmountSentSinceDays(s, Some(d2), now)
    ensures AmountAcceptedSinceDays(s, Some(d1), now) <= AmountAcceptedSinceDays(s, Some(d2), now)
    ensures AmountClickedOrZero(s, Some(d1), now) <= AmountClickedOrZero(s, Some(d2), now)
  {
    var a, b := StartDate(Some(d1), now), StartDate(Some(d2), now);
    SumMonotone(s, SentWeight(a), SentWeight(b));
    SumMonotone(s, AcceptedWeight(a), AcceptedWeight(b));
    forall i | 0 <= i < |s| ensures ClickWeight(a)(s[i]) <= ClickWeight(b)(s[i]) {
      ClicksSinceMonotone(s[i].clicks, a, b);
    }
    SumMonotone(s, ClickWeight(a), ClickWeight(b));
  }

  lemma {:induction false} ClicksSinceMonotone(clicks: seq<Time>, a: Time, b: Time)
    requires b <= a
    ensures ClicksSince(clicks, a) <= ClicksSince(clicks, b)
  {
    if clicks != [] {
      ClicksSinceMonotone(clicks[..|clicks| - 1], a, b);
    }
  }

  // ------------------------------------------------------------------
  // How the operations move the statistics
  // ------------------------------------------------------------------

  /** Every accept adds exactly one acceptance to the accepted count of any
      window containing `now`, whether it marks the record or spawns a sibling. */
  lemma AcceptCountsOnce(s: seq<Invite>, id: nat, newUser: UserId, now: Time, start: Time)
    requires WellFormed(s) && id < |s|
    ensures Sum(AcceptStep(s, id, newUser, now).0, AcceptedWeight(start))
         == Sum(s, AcceptedWeight(start)) + (if now >= start then 1 else 0)
  {
    var (s', r) := AcceptStep(s, id, newUser, now);
    if s[id].accepted {
      SumAppend(s, r, AcceptedWeight(start));
    } else {
      SumUpdate(s, id, r, AcceptedWeight(start));
    }
  }

  /** Marking a pending record does not change the sent count; a spawned
      sibling is a new record created now. */
  lemma AcceptSentEffect(s: seq<Invite>, id: nat, newUser: UserId, now: Time, start: Time)
    requires WellFormed(s) && id < |s|
    ensures Sum(AcceptStep(s, id, newUser, now).0, SentWeight(start))
         == Sum(s, SentWeight(start)) + (if s[id].accepted && now >= start then 1 else 0)
  {
    var (s', r) := AcceptStep(s, id, newUser, now);
    if s[id].accepted {
      SumAppend(s, r, SentWeight(start));
    } else {
      SumUpdate(s, id, r, SentWeight(start));
    }
  }

  /** A click on a known record adds one to the clicked total of any window
      containing `now`, and leaves the sent and accepted counts alone. */
  lemma ClickCountsOnce(s: seq<Invite>, id: nat, now: Time, start: Time)
    ensures Sum(ClickStep(s, id, now), ClickWeight(start))
         == Sum(s, ClickWeight(start)) + (if id < |s| && now >= start then 1 else 0)
    ensures Sum(ClickStep(s, id, now), SentWeight(start)) == Sum(s, SentWeight(start))
    ensures Sum(ClickStep(s, id, now), AcceptedWeight(start)) == Sum(s, AcceptedWeight(start))
  {
    if id < |s| {
      var x := s[id].(clicks := s[id].clicks + [now], clickCount := s[id].clickCount + 1);
      SumUpdate(s, id, x, ClickWeight(start));
      ClicksSinceAppend(s[id].clicks, now, start);
      SumUpdate(s, id, x, SentWeight(start));
      SumUpdate(s, id, x, AcceptedWeight(start));
    }
  }

  /** A one-off invite is counted as sent in every window containing `now`. */
  lemma OneOffCountsAsSent(s: seq<Invite>, user: UserId, email: Option<string>,
                           phone: Option<string>, now: Time, start: Time)
    ensures Sum(s + [OneOff(|s|, user, email, phone, now)], SentWeight(start))
         == Sum(s, SentWeight(start)) + (if now >= start then 1 else 0)
  {
    SumAppend(s, OneOff(|s|, user, email, phone, now), SentWeight(start));
  }

  // ------------------------------------------------------------------
  // The engine
  // ------------------------------------------------------------------

  /** `AMInvite`: its configuration, its accept callback and the invite
      collection it writes to. `acceptLog` records every record handed to the
      accept callback. */
  class InviteEngine {
    var config: Option<Config>
    var acceptCallback: bool
    var invites: seq<Invite>
    ghost var acceptLog: seq<Invite>

    ghost predicate Valid()
      reads this
    {
      && WellFormed(invites)
      && forall k :: 0 <= k < |acceptLog| ==> acceptLog[k].accepted
    }

    /** The state before `setup`: `AMInvite.config = null`, no callback. */
    constructor ()
      ensures Valid()
      ensures config == None && !acceptCallback && invites == [] && acceptLog == []
    {
      config := None;
      acceptCallback := false;
      invites := [];
      acceptLog := [];
    }

    /** `isActive`: `setup` has stored a configuration, so links can be built. */
    predicate IsActive()
      reads this
      ensures IsActive() ==> forall id: nat :: LinkFor(config, id).Success?
      ensures !IsActive() ==> forall id: nat :: LinkFor(config, id) == Failure(NotConfigured)
    {
      config != None
    }

    /** `setup(config)`. */
    method Setup(c: Config) returns (ok: bool)
      requires Valid()
      modifies this
      ensures Valid() && ok
      ensures config == Some(c) && IsActive()
      ensures acceptCallback == old(acceptCallback) && invites == old(invites) && acceptLog == old(acceptLog)
    {
      config := Some(c);
      ok := true;
    }

    /** `setAcceptCallback(cb)`: whether a callback is registered. */
    method SetAcceptCallback(registered: bool)
      requires Valid()
      modifies this
      ensures Valid()
      ensures acceptCallback == registered
      ensures config == old(config) && invites == old(invites) && acceptLog == old(acceptLog)
    {
      acceptCallback := registered;
    }

    /** `getUserLink(user, unique)`. The record is created before the link is
        built, so without a configuration it stays and the call fails. */
    method GetUserLink(user: UserId, unique: bool, now: Time) returns (r: Result<string, InviteError>)
      requires Valid()
      modifies this
      ensures Valid()
      ensures invites == LinkStep(old(invites), user, unique, now).0
      ensures var id := LinkStep(old(invites), user, unique, now).1;
        r == LinkFor(config, id)
      ensures config == old(config) && acceptCallback == old(acceptCallback) && acceptLog == old(acceptLog)
    {
      LinkStepWellFormed(invites, user, unique, now);
      var found: Option<nat> := None;
      if unique {
        found := FindMain(invites, user);
      }
      var id: nat;
      if found.Some? {
        id := found.value;
      } else {
        id := |invites|;
        invites := invites + [NewInvite(id, user, None, None, unique, now)];
      }
      if config.None? {
        return Failure(NotConfigured);
      }
      r := Success(Link(config.value.baseUrlAndRoute, id));
    }

    /** `addInvite(user, email, phone)`. The record is created first and kept
        whatever happens next; a missing configuration or a failed mail makes
        the call return nothing. `mail` is what was handed to the mailer. */
    method AddInvite(inviter: User, email: Option<string>, phone: Option<string>,
                     mailing: MailingConfig, mailOk: bool, now: Time)
      returns (r: Option<Invite>, mail: Option<Email>)
      requires Valid()
      modifies this
      ensures Valid()
      ensures |invites| == |old(invites)| + 1
      ensures invites == old(invites) + [OneOff(|old(invites)|, inviter.id, email, phone, now)]
      ensures r == if Delivered(config, email, mailOk) then Some(invites[|old(invites)|]) else None
      ensures mail.Some? <==> EmailsInvitee(config, email)
      ensures mail.Some? ==> mail.value == InviteEmail(config.value, mailing, inviter, |old(invites)|, email.value)
      ensures config == old(config) && acceptCallback == old(acceptCallback) && acceptLog == old(acceptLog)
    {
      var invite := OneOff(|invites|, inviter.id, email, phone, now);
      AppendOneOffWellFormed(invites, inviter.id, email, phone, now);
      invites := invites + [invite];
      mail := None;
      if config.None? {
        r := None;
        return;
      }
      if config.value.sendEmail && Truthy(email) {
        mail := Some(InviteEmail(config.value, mailing, inviter, invite.id, email.value));
        if !mailOk {
          r := None;
          return;
        }
      }
      r := Some(invite);
    }

    /** `addInvites(user, persons)`: one `addInvite` per person, in order; the
        i-th result belongs to the i-th person. `mailOutcomes[i]` is the
        mailer's answer for the i-th person. */
    method AddInvites(inviter: User, persons: seq<Person>, mailing: MailingConfig,
                      mailOutcomes: seq<bool>, now: Time)
      returns (rs: seq<Option<Invite>>)
      requires Valid()
      requires |mailOutcomes| == |persons|
      modifies this
      ensures Valid()
      ensures |rs| == |persons|
      ensures |invites| == |old(invites)| + |persons|
      ensures invites[..|old(invites)|] == old(invites)
      ensures forall i :: 0 <= i < |persons| ==>
                invites[|old(invites)| + i]
                == OneOff(|old(invites)| + i, inviter.id, persons[i].email, persons[i].phone, now)
      ensures forall i :: 0 <= i < |persons| ==>
                rs[i] == if Delivered(config, persons[i].email, mailOutcomes[i])
                         then Some(invites[|old(invites)| + i]) else None
      ensures config == old(config) && acceptCallback == old(acceptCallback) && acceptLog == old(acceptLog)
    {
      ghost var base := |invites|;
      rs := [];
      var i := 0;
      while i < |persons|
        invariant 0 <= i <= |persons|
        invariant Valid()
        invariant config == old(config) && acceptCallback == old(acceptCallback) && acceptLog == old(acceptLog)
        invariant |rs| == i
        invariant |invites| == base + i
        invariant invites[..base] == old(invites)
        invariant forall k :: 0 <= k < i ==>
                    invites[base + k] == OneOff(base + k, inviter.id, persons[k].email, persons[k].phone, now)
        invariant forall k :: 0 <= k < i ==>
                    rs[k] == if Delivered(config, persons[k].email, mailOutcomes[k])
                             then Some(invites[base + k]) else None
      {
        ghost var before := invites;
        var r, _ := AddInvite(inviter, persons[i].email, persons[i].phone, mailing, mailOutcomes[i], now);
        assert invites[..base] == before[..base];
        rs := rs + [r];
        i := i + 1;
      }
    }

    /** `accept(id, newUser)`: see `AcceptStep`; the callback, when registered,
        receives the returned record. An unknown id is `NotFound`. */
    method Accept(id: nat, newUser: UserId, now: Time) returns (r: Result<Invite, InviteError>)
      requires Valid()
      modifies this
      ensures Valid()
      ensures id >= |old(invites)| ==>
                r == Failure(NotFound) && invites == old(invites) && acceptLog == old(acceptLog)
      ensures id < |old(invites)| ==>
                var (s', inv) := AcceptStep(old(invites), id, newUser, now);
                && invites == s' && r == Success(inv)
                && acceptLog == old(acceptLog) + (if acceptCallback then [inv] else [])
      ensures config == old(config) && acceptCallback == old(acceptCallback)
    {
      if id >= |invites| {
        return Failure(NotFound);
      }
      AcceptStepWellFormed(invites, id, newUser, now);
      var obj := invites[id];
      if obj.accepted {
        var sibling := NewInvite(|invites|, obj.user, None, None, false, now);
        invites := invites + [sibling];
        obj := sibling;
      }
      obj := Mark(obj, newUser, now);
      invites := invites[obj.id := obj];
      if acceptCallback {
        acceptLog := acceptLog + [obj];
      }
      r := Success(obj);
    }

    /** `checkInvite(user)`: the invite found by the new user's email, if any,
        is accepted for that user; otherwise nothing happens. */
    method CheckInvite(user: User, now: Time)
      requires Valid()
      modifies this
      ensures Valid()
      ensures var found := FindInviteByEmailPhone(old(invites), user.localEmail, None);
        && (found.None? ==> invites == old(invites) && acceptLog == old(acceptLog))
        && (found.Some? ==>
              && found.value.id < |old(invites)|
              && var (s', inv) := AcceptStep(old(invites), found.value.id, user.id, now);
              && invites == s'
              && acceptLog == old(acceptLog) + (if acceptCallback then [inv] else []))
      ensures config == old(config) && acceptCallback == old(acceptCallback)
    {
      var found := FindInviteByEmailPhone(invites, user.localEmail, None);
      if found.Some? {
        InStore(invites, found.value);
        var _ := Accept(found.value.id, user.id, now);
      }
    }

    /** `addClick(id)`. */
    method AddClick(id: nat, now: Time)
      requires Valid()
      modifies this
      ensures Valid()
      ensures invites == ClickStep(old(invites), id, now)
      ensures config == old(config) && acceptCallback == old(acceptCallback) && acceptLog == old(acceptLog)
    {
      ClickStepWellFormed(invites, id, now);
      if id < |invites| {
        var inv := invites[id];
        invites := invites[id := inv.(clicks := inv.clicks + [now], clickCount := inv.clickCount + 1)];
      }
    }
  }
}
