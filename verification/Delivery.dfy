/** The life of notification deliveries: created with a notification, moved on by tasks that may run any number
    of times, and by provider webhooks. */
module Delivery {
  import opened Base
  import opened Preferences

  type Id = string

  datatype Status = Pending | Sent | Delivered | Failed | Skipped

  datatype Row = Row(channel: Channel, status: Status,
                     sentAt: Option<nat>, deliveredAt: Option<nat>, failedAt: Option<nat>, providerId: Option<string>,
                     failureCode: string, permanent: bool, attempts: nat, skipped: Option<SkipReason>)

  function NewRow(ch: Channel, status: Status, reason: Option<SkipReason>): Row {
    Row(ch, status, None, None, None, None, "", false, 0, reason)
  }

  // ---------------------------------------------------------------------------------- creation

  /** The delivery made for one supported channel. */
  function FirstRow(prefs: Resolved, ch: Channel): Row {
    if prefs.blocked then NewRow(ch, Skipped, if prefs.reason.Some? then prefs.reason else Some(GlobalDisabled))
    else if !prefs.Enabled(ch) then NewRow(ch, Skipped, Some(ChannelDisabled))
    else NewRow(ch, Pending, None)
  }

  /** Exactly one delivery for each supported channel, in the state its preference asks for. */
  ghost predicate OnePerChannel(t: NotificationType, prefs: Resolved, rows: seq<Row>) {
    && (forall k :: 0 <= k < |rows| ==> t.Supports(rows[k].channel) && rows[k] == FirstRow(prefs, rows[k].channel))
    && (forall i, j :: 0 <= i < j < |rows| ==> rows[i].channel != rows[j].channel)
    && (forall ch :: t.Supports(ch) ==> FirstRow(prefs, ch) in rows)
  }

  /** The delivery list of `create_notification`. */
  method BuildDeliveries(t: NotificationType, prefs: Resolved) returns (rows: seq<Row>)
    ensures OnePerChannel(t, prefs, rows)
  {
    rows := [];
    if t.supportsPush {
      rows := rows + [FirstRow(prefs, Push)];
    }
    if t.supportsEmail {
      rows := rows + [FirstRow(prefs, Email)];
    }
    if t.supportsWebsocket {
      rows := rows + [FirstRow(prefs, Websocket)];
    }
    forall ch | t.Supports(ch) ensures FirstRow(prefs, ch) in rows {
      match ch
      case Push => assert rows[0] == FirstRow(prefs, Push);
      case Email => assert rows[if t.supportsPush then 1 else 0] == FirstRow(prefs, Email);
      case Websocket => assert rows[|rows| - 1] == FirstRow(prefs, Websocket);
    }
  }

  /** Its last loop: one task for each pending delivery and for no other. */
  method EnqueuePending(rows: seq<Row>) returns (enqueued: seq<Channel>)
    requires forall i, j :: 0 <= i < j < |rows| ==> rows[i].channel != rows[j].channel
    ensures forall k :: 0 <= k < |rows| ==> (rows[k].channel in enqueued <==> rows[k].status.Pending?)
    ensures forall ch :: ch in enqueued ==> exists k :: 0 <= k < |rows| && rows[k].channel == ch
    ensures forall i, j :: 0 <= i < j < |enqueued| ==> enqueued[i] != enqueued[j]
  {
    enqueued := [];
    for k := 0 to |rows|
      invariant forall j :: 0 <= j < k ==> (rows[j].channel in enqueued <==> rows[j].status.Pending?)
      invariant forall ch :: ch in enqueued ==> exists j :: 0 <= j < k && rows[j].channel == ch
      invariant forall i, j :: 0 <= i < j < |enqueued| ==> enqueued[i] != enqueued[j]
    {
      if rows[k].status.Pending? {
        assert rows[k].channel !in enqueued;
        enqueued := enqueued + [rows[k].channel];
      }
    }
  }

  /** Creation end to end: a task is enqueued exactly for the supported channels the preferences leave on. */
  method CreateDeliveries(t: NotificationType, prefs: Resolved) returns (rows: seq<Row>, enqueued: seq<Channel>)
    ensures OnePerChannel(t, prefs, rows)
    ensures forall ch :: ch in enqueued <==> t.Supports(ch) && prefs.Enabled(ch)
    ensures forall i, j :: 0 <= i < j < |enqueued| ==> enqueued[i] != enqueued[j]
  {
    rows := BuildDeliveries(t, prefs);
    enqueued := EnqueuePending(rows);
    forall ch ensures ch in enqueued <==> t.Supports(ch) && prefs.Enabled(ch) {
      assert FirstRow(prefs, ch).channel == ch;
      if t.Supports(ch) {
        var k :| 0 <= k < |rows| && rows[k] == FirstRow(prefs, ch);
        assert rows[k].channel in enqueued <==> rows[k].status.Pending?;
      }
    }
  }

  /** From the preference tables to the new delivery: pending exactly when nothing speaks against it, and
      otherwise skipped with the highest level that does. */
  lemma CreatedFor(db: Db, u: User, t: NotificationType, ch: Channel)
    requires t.Supports(ch)
    ensures var r := FirstRow(ResolveFromDb(db, u, t), ch);
            var pref := Lookup(db.types, (u, t.id));
            && r.channel == ch && (r.status == if r.skipped.None? then Pending else Skipped)
            && r.sentAt.None? && r.deliveredAt.None? && r.failedAt.None? && r.providerId.None? && r.attempts == 0
            && r.skipped ==
                 if Lookup(db.globals, u) == Some(true) then Some(GlobalDisabled)
                 else if Lookup(db.categories, (u, t.category)) == Some(true) then Some(CategoryDisabled)
                 else if pref.Some? && pref.value.disabled then Some(TypeDisabled)
                 else if pref.Some? && pref.value.Override(ch) == Some(false) then Some(ChannelDisabled)
                 else None
  {
    HierarchyMeaning(db, u, t, ch);
  }

  // ---------------------------------------------------------------------------------- tasks and webhooks

  /** How the provider answers a send. */
  datatype Answer = Accepted | PermanentError(code: string) | TransientError

  function ProviderId(ch: Channel, id: Id): string {
    (if ch.Push? then "stub-push-" else "stub-email-") + id
  }

  function MarkSent(r: Row, providerId: string, now: nat): Row {
    r.(status := Sent, sentAt := Some(now), providerId := Some(providerId), attempts := r.attempts + 1)
  }

  function MarkFailed(r: Row, code: string, now: nat): Row {
    r.(status := Failed, failedAt := Some(now), failureCode := code, permanent := true, attempts := r.attempts + 1)
  }

  function MarkSkipped(r: Row, reason: SkipReason): Row {
    r.(status := Skipped, skipped := Some(reason))
  }

  /** The push task on its delivery; every status but PENDING makes it a no-op. */
  function SendPush(id: Id, r: Row, answer: Answer, now: nat): Row {
    if !r.status.Pending? then r
    else match answer
      case Accepted => MarkSent(r, ProviderId(Push, id), now)
      case PermanentError(code) => MarkFailed(r, code, now)
      case TransientError => r.(attempts := r.attempts + 1)
  }

  function SendEmail(id: Id, r: Row, hasAddress: bool, answer: Answer, now: nat): Row {
    if !r.status.Pending? then r
    else if !hasAddress then MarkSkipped(r, NoEmail)
    else match answer
      case Accepted => MarkSent(r, ProviderId(Email, id), now)
      case PermanentError(code) => MarkFailed(r, code, now)
      case TransientError => r.(attempts := r.attempts + 1)
  }

  /** The websocket task: it knows no permanent failure, and delivery is confirmed at once. */
  function Broadcast(r: Row, connected: bool, works: bool, now: nat): Row {
    if !r.status.Pending? then r
    else if !connected then MarkSkipped(r, NoConnections)
    else if works then r.(status := Delivered, sentAt := Some(now), deliveredAt := Some(now),
        attempts := r.attempts + 1)
    else r.(attempts := r.attempts + 1)
  }

  const PERMANENT_CODES: set<string> := {"unregistered", "invalid_token", "invalid_email", "hard_bounce"}

  datatype Report = ReportDelivered | ReportFailed(code: string)

  function ApplyReport(r: Row, report: Report, now: nat): Row {
    match report
    case ReportDelivered => r.(status := Delivered, deliveredAt := Some(now))
    case ReportFailed(code) => r.(status := Failed, failedAt := Some(now), failureCode := code,
        permanent := code in PERMANENT_CODES)
  }

  /** `EmailWebhookView`: which report an email event becomes; an unknown event is ignored. */
  function EmailReport(event: string, code: string): Option<Report> {
    if event == "delivered" then Some(ReportDelivered)
    else if event == "bounced" then Some(ReportFailed(if code != "" then code else "hard_bounce"))
    else if event == "complained" then Some(ReportFailed("complaint"))
    else if event == "dropped" then Some(ReportFailed(if code != "" then code else "dropped"))
    else None
  }

  /** Which email events confirm, which fail, and which of the failures are final: a bounce without a code, or a
      bounce or drop with a code known as permanent; never a complaint. */
  lemma EmailEventMeaning(r: Row, event: string, code: string, now: nat)
    ensures EmailReport(event, code).Some? <==> event in {"delivered", "bounced", "complained", "dropped"}
    ensures EmailReport(event, code).Some? ==>
              var s := ApplyReport(r, EmailReport(event, code).value, now);
              && (s.status == if event == "delivered" then Delivered else Failed)
              && (event != "delivered" ==>
                    (s.permanent <==>
                        (event == "bounced" && code == "") || (event != "complained" && code in PERMANENT_CODES)))
  {
  }

  predicate UntouchedBy(r: Row, s: Row) {
    s.channel == r.channel && s.deliveredAt == r.deliveredAt && s.providerId == r.providerId
    && s.failureCode == r.failureCode && s.permanent == r.permanent
  }

  /** What the provider's answer makes of a pending delivery: sent with the id given, failed for good with the code
      given, or one more attempt and still pending. */
  predicate Answered(r: Row, s: Row, answer: Answer, providerId: string, now: nat) {
    && s.channel == r.channel && s.attempts == r.attempts + 1
    && s.deliveredAt == r.deliveredAt && s.skipped == r.skipped
    && match answer
       case Accepted =>
         && s.status == Sent && s.sentAt == Some(now) && s.providerId == Some(providerId)
         && (s.failedAt, s.failureCode, s.permanent) == (r.failedAt, r.failureCode, r.permanent)
       case PermanentError(code) =>
         && s.status == Failed && s.failedAt == Some(now) && s.failureCode == code && s.permanent
         && (s.sentAt, s.providerId) == (r.sentAt, r.providerId)
       case TransientError =>
         && s.status == r.status && (s.sentAt, s.providerId) == (r.sentAt, r.providerId)
         && (s.failedAt, s.failureCode, s.permanent) == (r.failedAt, r.failureCode, r.permanent)
  }

  class NotificationDelivery {
    const id: Id
    const channel: Channel
    var status: Status
    var sentAt: Option<nat>
    var deliveredAt: Option<nat>
    var failedAt: Option<nat>
    var providerId: Option<string>
    var failureCode: string
    var permanent: bool
    var attempts: nat
    var skipped: Option<SkipReason>

    function State(): Row
      reads this
    {
      Row(channel, status, sentAt, deliveredAt, failedAt, providerId, failureCode, permanent, attempts, skipped)
    }

    constructor (id: Id, r: Row)
      ensures State() == r && this.id == id
    {
      this.id, channel, status := id, r.channel, r.status;
      sentAt, deliveredAt, failedAt, providerId := r.sentAt, r.deliveredAt, r.failedAt, r.providerId;
      failureCode, permanent, attempts, skipped := r.failureCode, r.permanent, r.attempts, r.skipped;
    }

    ghost predicate Valid()
      reads this
    {
      RowOk(id, State())
    }

    method SetSent(provider: string, now: nat)
      modifies this
      ensures State() == MarkSent(old(State()), provider, now)
    {
      status := Sent;
      sentAt := Some(now);
      providerId := Some(provider);
      attempts := attempts + 1;
    }

    method SetFailed(code: string, now: nat)
      modifies this
      ensures State() == MarkFailed(old(State()), code, now)
    {
      status := Failed;
      failedAt := Some(now);
      failureCode := code;
      permanent := true;
      attempts := attempts + 1;
    }

    method SetSkipped(reason: SkipReason)
      modifies this
      ensures State() == MarkSkipped(old(State()), reason)
    {
      status := Skipped;
      skipped := Some(reason);
    }

    method SendPushNotification(answer: Answer, now: nat)
      modifies this
      ensures State() == SendPush(id, old(State()), answer, now)
      ensures old(Valid()) && channel.Push? ==> Valid() && Moves(old(State()), State(), RunPush(id, answer))
      ensures !old(status).Pending? ==> State() == old(State())
      ensures old(status).Pending? ==> Answered(old(State()), State(), answer, "stub-push-" + id, now)
    {
      if status != Pending { return; }
      match answer
      case Accepted => SetSent(ProviderId(Push, id), now);
      case PermanentError(code) => SetFailed(code, now);
      case TransientError => attempts := attempts + 1;
    }

    method SendEmailNotification(hasAddress: bool, answer: Answer, now: nat)
      modifies this
      ensures State() == SendEmail(id, old(State()), hasAddress, answer, now)
      ensures old(Valid()) && channel.Email? ==>
                Valid() && Moves(old(State()), State(), RunEmail(id, hasAddress, answer))
      ensures !old(status).Pending? ==> State() == old(State())
      ensures old(status).Pending? && hasAddress ==> Answered(old(State()), State(), answer, "stub-email-" + id, now)
      ensures old(status).Pending? && !hasAddress ==>
                status == Skipped && skipped == Some(NoEmail) && UntouchedBy(old(State()), State())
                && attempts == old(attempts) && sentAt == old(sentAt) && failedAt == old(failedAt)
    {
      if status != Pending { return; }
      if !hasAddress {
        SetSkipped(NoEmail);
        return;
      }
      match answer
      case Accepted => SetSent(ProviderId(Email, id), now);
      case PermanentError(code) => SetFailed(code, now);
      case TransientError => attempts := attempts + 1;
    }

    method BroadcastWebsocketNotification(connected: bool, works: bool, now: nat)
      modifies this
      ensures State() == Broadcast(old(State()), connected, works, now)
      ensures old(Valid()) && channel.Websocket? ==>
                && Valid() && (old(status).Pending? ==> !status.Sent?)
                && Moves(old(State()), State(), RunSocket(id, connected, works))
      ensures !old(status).Pending? ==> State() == old(State())
      ensures old(status).Pending? && !connected ==>
                status == Skipped && skipped == Some(NoConnections) && attempts == old(attempts)
      ensures old(status).Pending? && connected && works ==>
                && status == Delivered && sentAt == deliveredAt == Some(now) && attempts == old(attempts) + 1
                && skipped == old(skipped)
      ensures old(status).Pending? && connected && !works ==>
                status == Pending && attempts == old(attempts) + 1 && sentAt == old(sentAt)
    {
      if status != Pending { return; }
      if !connected {
        SetSkipped(NoConnections);
        return;
      }
      if works {
        status := Delivered;
        sentAt := Some(now);
        deliveredAt := Some(now);
      }
      attempts := attempts + 1;
    }

    method UpdateDeliveryStatus(report: Report, now: nat)
      modifies this
      ensures State() == ApplyReport(old(State()), report, now)
      ensures status == Reported(report)
      ensures sentAt == old(sentAt) && providerId == old(providerId) && attempts == old(attempts)
      ensures skipped == old(skipped)
      ensures deliveredAt == if report.ReportDelivered? then Some(now) else old(deliveredAt)
      ensures failedAt == if report.ReportFailed? then Some(now) else old(failedAt)
      ensures report.ReportFailed? ==>
                && failureCode == report.code
                && (permanent <==> report.code in {"unregistered", "invalid_token", "invalid_email", "hard_bounce"})
      ensures report.ReportDelivered? ==> failureCode == old(failureCode) && permanent == old(permanent)
      ensures old(Valid()) && old(providerId).Some? ==> Valid() && !channel.Websocket?
    {
      match report
      case ReportDelivered =>
        status := Delivered;
        deliveredAt := Some(now);
      case ReportFailed(code) =>
        status := Failed;
        failedAt := Some(now);
        failureCode := code;
        permanent := code in PERMANENT_CODES;
    }
  }

  // ---------------------------------------------------------------------------------- runs

  /** `sent` records every hand-over to a provider or to the websocket layer. */
  datatype World = World(rows: map<Id, Row>, sent: seq<Id>, now: nat)

  datatype Action =
    | Create(ids: map<Channel, Id>, notificationType: NotificationType, prefs: Resolved)
    | RunPush(id: Id, answer: Answer)
    | RunEmail(id: Id, hasAddress: bool, answer: Answer)
    | RunSocket(id: Id, connected: bool, works: bool)
    | Hook(messageId: string, report: Report)
    | Elapse(seconds: nat)

  function Found(rows: map<Id, Row>, messageId: string): set<Id> {
    set id | id in rows && rows[id].providerId == Some(messageId)
  }

  /** New primary keys, one for each supported channel, are new and distinct. */
  predicate FreshIds(rows: map<Id, Row>, ids: map<Channel, Id>, t: NotificationType) {
    && (forall ch :: t.Supports(ch) <==> ch in ids)
    && (forall ch :: ch in ids ==> ids[ch] !in rows)
    && (forall a, b :: a in ids && b in ids && a != b ==> ids[a] != ids[b])
  }

  function ChannelOf(ids: map<Channel, Id>, id: Id): Channel {
    if Push in ids && ids[Push] == id then Push else if Email in ids && ids[Email] == id then Email else Websocket
  }

  /** The rows of one new notification, by id. */
  function Made(ids: map<Channel, Id>, prefs: Resolved): map<Id, Row> {
    map id | id in ids.Values :: FirstRow(prefs, ChannelOf(ids, id))
  }

  /** A task is run on a delivery of the channel it was enqueued for; a hook finds its delivery by the
      provider's message id, and fails without effect when none or several match. */
  ghost function Target(w: World, a: Action): Option<Id> {
    match a
    case RunPush(id, _) => if id in w.rows && w.rows[id].channel.Push? then Some(id) else None
    case RunEmail(id, _, _) => if id in w.rows && w.rows[id].channel.Email? then Some(id) else None
    case RunSocket(id, _, _) => if id in w.rows && w.rows[id].channel.Websocket? then Some(id) else None
    case Hook(m, _) =>
      var found := Found(w.rows, m);
      TheOnly(found)
    case _ => None
  }

  ghost function TheOnly(found: set<Id>): Option<Id> {
    if exists id :: found == {id} then (var id :| found == {id}; Some(id)) else None
  }

  function Applied(id: Id, r: Row, a: Action, now: nat): Row {
    match a
    case RunPush(_, answer) => SendPush(id, r, answer, now)
    case RunEmail(_, hasAddress, answer) => SendEmail(id, r, hasAddress, answer, now)
    case RunSocket(_, connected, works) => Broadcast(r, connected, works, now)
    case Hook(_, report) => ApplyReport(r, report, now)
    case _ => r
  }

  /** This application of a task handed the notification over: it attempted, and the row says sent. */
  predicate HandedOver(r: Row, s: Row, a: Action) {
    !a.Hook? && s.attempts > r.attempts && (s.status.Sent? || s.status.Delivered?)
  }

  ghost function Step(w: World, a: Action): World {
    match a
    case Create(ids, t, prefs) => if FreshIds(w.rows, ids, t) then w.(rows := w.rows + Made(ids, prefs)) else w
    case Elapse(seconds) => w.(now := w.now + seconds)
    case _ =>
      var target := Target(w, a);
      if target.None? then w
      else
        var id := target.value;
        var r := Applied(id, w.rows[id], a, w.now);
        w.(rows := w.rows[id := r],
           sent := if HandedOver(w.rows[id], r, a) then w.sent + [id] else w.sent)
  }

  ghost function Run(w: World, actions: seq<Action>): World {
    if actions == [] then w else Step(Run(w, actions[..|actions| - 1]), actions[|actions| - 1])
  }

  // ---------------------------------------------------------------------------------- the life cycle

  ghost predicate RowOk(id: Id, r: Row) {
    && (r.providerId.Some? ==>
        && !r.channel.Websocket? && r.providerId.value == ProviderId(r.channel, id) && r.sentAt.Some?
        && (r.status.Sent? || r.status.Delivered? || r.status.Failed?))
    && (r.status.Pending? ==> r.sentAt.None? && r.providerId.None?)
    && (r.status.Sent? || r.status.Delivered? ==> r.sentAt.Some?)
    && (r.status.Skipped? ==> r.sentAt.None? && r.providerId.None? && r.skipped.Some?)
  }

  ghost predicate SentOnce(w: World) {
    && (forall i, j :: 0 <= i < j < |w.sent| ==> w.sent[i] != w.sent[j])
    && (forall id :: id in w.sent <==> id in w.rows && w.rows[id].sentAt.Some?)
  }

  ghost predicate Inv(w: World) {
    && (forall id :: id in w.rows ==> RowOk(id, w.rows[id]))
    && SentOnce(w)
  }

  /** Provider ids tell channel and delivery apart. */
  lemma ProviderIdsDiffer(a: Channel, x: Id, b: Channel, y: Id)
    requires !a.Websocket? && !b.Websocket? && ProviderId(a, x) == ProviderId(b, y)
    ensures a == b && x == y
  {
    var p, q := ProviderId(a, x), ProviderId(b, y);
    assert p[5] == (if a.Push? then 'p' else 'e') && q[5] == (if b.Push? then 'p' else 'e');
    var prefix := if a.Push? then "stub-push-" else "stub-email-";
    assert x == p[|prefix|..] && y == q[|prefix|..];
  }

  /** A provider id was made for the delivery that carries it. */
  ghost predicate OwnProvider(id: Id, r: Row) {
    r.providerId.Some? ==> !r.channel.Websocket? && r.providerId.value == ProviderId(r.channel, id)
  }

  ghost predicate OwnProviders(w: World) {
    forall id :: id in w.rows ==> OwnProvider(id, w.rows[id])
  }

  lemma HealthyOwn(w: World)
    requires Inv(w)
    ensures OwnProviders(w)
  {
    forall id | id in w.rows ensures OwnProvider(id, w.rows[id]) {
      assert RowOk(id, w.rows[id]);
    }
  }

  /** So a webhook never finds more than one delivery. */
  lemma AtMostOneFound(w: World, messageId: string)
    requires OwnProviders(w)
    ensures |Found(w.rows, messageId)| <= 1
    ensures forall id :: id in Found(w.rows, messageId) ==> TheOnly(Found(w.rows, messageId)) == Some(id)
  {
    var found := Found(w.rows, messageId);
    forall x, y | x in found && y in found ensures x == y {
      assert OwnProvider(x, w.rows[x]) && OwnProvider(y, w.rows[y]);
      ProviderIdsDiffer(w.rows[x].channel, x, w.rows[y].channel, y);
    }
    if found != {} {
      var x :| x in found;
      assert found == {x};
    }
  }

  lemma TargetIsThere(w: World, a: Action)
    ensures Target(w, a).Some? ==> Target(w, a).value in w.rows
    ensures a.Hook? && Target(w, a).Some? ==> w.rows[Target(w, a).value].providerId.Some?
  {
    if a.Hook? && Target(w, a).Some? {
      var found := Found(w.rows, a.messageId);
      var id :| found == {id};
      assert TheOnly(found).value in found;
    }
  }

  /** What one task run or webhook does to a healthy row. */
  ghost predicate Moves(r: Row, s: Row, a: Action) {
    && s.channel == r.channel
    && (s.status.Pending? ==> r.status.Pending?)
    && (r.status.Skipped? ==> s == r)
    && (r.sentAt.Some? ==> s.sentAt == r.sentAt)
    && (a.Hook? && r.channel.Websocket? ==> s == r)
    && (r.status.Failed? && r.providerId.None? ==> s == r)
  }

  lemma AppliedOk(id: Id, r: Row, a: Action, now: nat)
    requires RowOk(id, r)
    requires a.RunPush? ==> r.channel.Push?
    requires a.RunEmail? ==> r.channel.Email?
    requires a.RunSocket? ==> r.channel.Websocket?
    requires a.Hook? ==> r.providerId.Some?
    ensures var s := Applied(id, r, a, now);
            RowOk(id, s) && Moves(r, s, a) && (HandedOver(r, s, a) <==> r.sentAt.None? && s.sentAt.Some?)
  {
  }

  lemma MadeOk(ids: map<Channel, Id>, t: NotificationType, prefs: Resolved, rows: map<Id, Row>)
    requires FreshIds(rows, ids, t)
    ensures forall id :: id in Made(ids, prefs) ==>
        RowOk(id, Made(ids, prefs)[id]) && Made(ids, prefs)[id].sentAt.None? && id !in rows
  {
    forall id | id in Made(ids, prefs) ensures id !in rows {
      var ch :| ch in ids && ids[ch] == id;
    }
  }

  /** The new notification has, under the id given for each supported channel, that channel's delivery. */
  lemma MadeForChannel(ids: map<Channel, Id>, t: NotificationType, prefs: Resolved, rows: map<Id, Row>, ch: Channel)
    requires FreshIds(rows, ids, t) && t.Supports(ch)
    ensures ids[ch] in Made(ids, prefs) && Made(ids, prefs)[ids[ch]] == FirstRow(prefs, ch)
  {
    assert ids[ch] in ids.Values;
    assert forall c :: c in ids && c != ch ==> ids[c] != ids[ch];
  }

  lemma CreateKeeps(w: World, a: Action)
    requires Inv(w) && a.Create?
    ensures Inv(Step(w, a))
    ensures forall id :: id in w.rows ==> id in Step(w, a).rows && Step(w, a).rows[id] == w.rows[id]
  {
    if FreshIds(w.rows, a.ids, a.notificationType) {
      MadeOk(a.ids, a.notificationType, a.prefs, w.rows);
    }
  }

  lemma StepKeeps(w: World, a: Action)
    requires Inv(w)
    ensures Inv(Step(w, a))
    ensures forall id :: id in w.rows ==> id in Step(w, a).rows && Moves(w.rows[id], Step(w, a).rows[id], a)
  {
    if a.Create? {
      CreateKeeps(w, a);
    } else if !a.Elapse? {
      TargetIsThere(w, a);
      if Target(w, a).Some? {
        var id := Target(w, a).value;
        AppliedOk(id, w.rows[id], a, w.now);
      }
    }
  }

  /** Under any re-running of tasks and any webhooks each delivery is handed over at most once, a sent or
      delivered one has its sending time, and provider ids stay with the delivery they were made for. */
  lemma {:induction false} LifeCycle(actions: seq<Action>, now: nat)
    ensures Inv(Run(World.World(map[], [], now), actions))
  {
    if actions != [] {
      LifeCycle(actions[..|actions| - 1], now);
      StepKeeps(Run(World.World(map[], [], now), actions[..|actions| - 1]), actions[|actions| - 1]);
    }
  }

  /** And over any further run: PENDING is never re-entered, SKIPPED is never left, nor is a failure found by the
      task itself, the sending time never changes, and a websocket delivery is final once delivered. */
  lemma {:induction false} NeverBack(w: World, actions: seq<Action>, id: Id)
    requires Inv(w) && id in w.rows
    ensures Inv(Run(w, actions)) && id in Run(w, actions).rows
    ensures var r, s := w.rows[id], Run(w, actions).rows[id];
            && s.channel == r.channel
            && (s.status.Pending? ==> r.status.Pending?)
            && (r.status.Skipped? || (r.status.Failed? && r.providerId.None?) ==> s == r)
            && (r.sentAt.Some? ==> s.sentAt == r.sentAt)
            && (r.channel.Websocket? && !r.status.Pending? ==> s == r)
  {
    if actions != [] {
      var d, a := Run(w, actions[..|actions| - 1]), actions[|actions| - 1];
      NeverBack(w, actions[..|actions| - 1], id);
      StepKeeps(d, a);
      if d.rows[id].channel.Websocket? && !d.rows[id].status.Pending? {
        SettledSocket(d, a, id);
      }
    }
  }

  lemma SettledSocket(w: World, a: Action, id: Id)
    requires Inv(w) && id in w.rows && w.rows[id].channel.Websocket? && !w.rows[id].status.Pending?
    ensures id in Step(w, a).rows && Step(w, a).rows[id] == w.rows[id]
  {
    if a.Create? {
      CreateKeeps(w, a);
    } else {
      TargetIsThere(w, a);
      assert RowOk(id, w.rows[id]);
    }
  }

  // ---------------------------------------------------------------------------------- what webhooks may undo

  /** What a webhook makes of the status of the delivery it finds. */
  function Reported(report: Report): Status {
    if report.ReportDelivered? then Delivered else Failed
  }

  predicate Concerns(a: Action, provider: Option<string>) {
    a.Hook? && provider == Some(a.messageId)
  }

  /** Once a delivery is not pending any more, its status moves exactly by webhooks under its provider id, each of
      which decides it alone: SENT, DELIVERED and FAILED all lead to DELIVERED and to FAILED, and back. */
  lemma NextStatus(w: World, a: Action, id: Id)
    requires Inv(w) && id in w.rows && !w.rows[id].status.Pending?
    ensures id in Step(w, a).rows
    ensures var r, s := w.rows[id], Step(w, a).rows[id];
            && s.status == (if Concerns(a, r.providerId) then Reported(a.report) else r.status)
            && s.providerId == r.providerId
  {
    if a.Create? {
      CreateKeeps(w, a);
    } else if a.Hook? {
      HealthyOwn(w);
      HookEffect(w, a, id);
    } else {
      TargetIsThere(w, a);
    }
  }

  /** A webhook applies its report to the delivery that carries the provider id, and to no other. */
  lemma HookEffect(w: World, a: Action, id: Id)
    requires OwnProviders(w) && a.Hook? && id in w.rows
    ensures id in Step(w, a).rows && Step(w, a).rows.Keys == w.rows.Keys
    ensures var r := w.rows[id];
            Step(w, a).rows[id] == if Concerns(a, r.providerId) then ApplyReport(r, a.report, w.now) else r
  {
    AtMostOneFound(w, a.messageId);
    assert id in Found(w.rows, a.messageId) <==> Concerns(a, w.rows[id].providerId);
    TargetIsThere(w, a);
    if Target(w, a).Some? && Target(w, a).value != id {
      HookTarget(w, a);
    }
  }

  lemma HookTarget(w: World, a: Action)
    requires a.Hook? && Target(w, a).Some?
    ensures Target(w, a).value in Found(w.rows, a.messageId)
  {
    var found := Found(w.rows, a.messageId);
    var id :| found == {id};
    assert TheOnly(found).value in found;
  }

  /** DELIVERED is left exactly by a webhook that reports failure under the provider id. */
  lemma DeliveredLeftExactly(w: World, a: Action, id: Id)
    requires Inv(w) && id in w.rows && w.rows[id].status.Delivered?
    ensures id in Step(w, a).rows
    ensures !Step(w, a).rows[id].status.Delivered? <==> Concerns(a, w.rows[id].providerId) && a.report.ReportFailed?
    ensures !Step(w, a).rows[id].status.Delivered? ==> Step(w, a).rows[id].status.Failed?
  {
    NextStatus(w, a, id);
  }

  /** FAILED is left exactly by one that reports delivery, which no failure found by a worker ever sees. */
  lemma FailedLeftExactly(w: World, a: Action, id: Id)
    requires Inv(w) && id in w.rows && w.rows[id].status.Failed?
    ensures id in Step(w, a).rows
    ensures !Step(w, a).rows[id].status.Failed? <==> Concerns(a, w.rows[id].providerId) && a.report.ReportDelivered?
    ensures !Step(w, a).rows[id].status.Failed? ==> Step(w, a).rows[id].status.Delivered?
    ensures w.rows[id].providerId.None? ==> Step(w, a).rows[id].status.Failed?
  {
    NextStatus(w, a, id);
  }

  /** The last report under a provider id, if any. */
  function LastReport(actions: seq<Action>, provider: Option<string>): Option<Report> {
    if actions == [] then None
    else
      var a := actions[|actions| - 1];
      if Concerns(a, provider) then Some(a.report) else LastReport(actions[..|actions| - 1], provider)
  }

  /** Over any run a settled delivery has the status of the last report under its provider id, and without one the
      status it had. */
  lemma {:induction false} StatusIsLastReport(w: World, actions: seq<Action>, id: Id)
    requires Inv(w) && id in w.rows && !w.rows[id].status.Pending?
    ensures id in Run(w, actions).rows && Inv(Run(w, actions))
    ensures var r, s := w.rows[id], Run(w, actions).rows[id];
            var last := LastReport(actions, r.providerId);
            s.providerId == r.providerId && s.status == if last.Some? then Reported(last.value) else r.status
  {
    if actions != [] {
      var init, a := actions[..|actions| - 1], actions[|actions| - 1];
      StatusIsLastReport(w, init, id);
      NextStatus(Run(w, init), a, id);
      StepKeeps(Run(w, init), a);
    }
  }

  /** A delivered row is delivered at every step of a run exactly when no webhook of the run reports failure under
      its provider id. */
  lemma DeliveredStaysExactly(w: World, actions: seq<Action>, id: Id)
    requires Inv(w) && id in w.rows && w.rows[id].status.Delivered?
    ensures forall k :: 0 <= k <= |actions| ==> id in Run(w, actions[..k]).rows
    ensures (forall k :: 0 <= k <= |actions| ==> Run(w, actions[..k]).rows[id].status.Delivered?) <==>
            (forall k :: 0 <= k < |actions| ==>
               !(Concerns(actions[k], w.rows[id].providerId) && actions[k].report.ReportFailed?))
  {
    var provider := w.rows[id].providerId;
    forall k | 0 <= k <= |actions|
      ensures id in Run(w, actions[..k]).rows && Inv(Run(w, actions[..k]))
      ensures Run(w, actions[..k]).rows[id].providerId == provider
    {
      StatusIsLastReport(w, actions[..k], id);
    }
    var good := (k: nat) => k <= |actions| && Run(w, actions[..k]).rows[id].status.Delivered?;
    var safe := (k: nat) => k < |actions| && !(Concerns(actions[k], provider) && actions[k].report.ReportFailed?);
    assert actions[..0] == [];
    forall k | 0 <= k < |actions| && good(k) ensures good(k + 1) <==> safe(k) {
      assert actions[..k + 1][..k] == actions[..k];
      DeliveredLeftExactly(Run(w, actions[..k]), actions[k], id);
    }
    Throughout(good, safe, |actions|);
    assert forall k :: 0 <= k <= |actions| ==> good(k) == Run(w, actions[..k]).rows[id].status.Delivered?;
    assert forall k :: 0 <= k < |actions| ==>
      safe(k) == !(Concerns(actions[k], provider) && actions[k].report.ReportFailed?);
  }

  /** A concrete life, from the empty table: created, sent, delivered, failed, and delivered again. */
  lemma DeliveredFailsAndReturns(now: nat)
    ensures var start := World.World(map[], [], now);
            var t := NotificationType(1, "social", true, false, false);
            var begun := [Create(map[Push := "7"], t, Resolved(true, false, false, false, None)),
                RunPush("7", Accepted)];
            var yes, no := Hook("stub-push-7", ReportDelivered), Hook("stub-push-7", ReportFailed("expired"));
            var w := Run(start, begun);
            && "7" in w.rows && w.rows["7"].status.Sent?
            && "7" in Run(w, [yes]).rows && Run(w, [yes]).rows["7"].status.Delivered?
            && "7" in Run(w, [yes, no]).rows && Run(w, [yes, no]).rows["7"].status.Failed?
            && "7" in Run(w, [yes, no, yes]).rows && Run(w, [yes, no, yes]).rows["7"].status.Delivered?
  {
    var start := World.World(map[], [], now);
    var t := NotificationType(1, "social", true, false, false);
    var prefs := Resolved(true, false, false, false, None);
    var create, send := Create(map[Push := "7"], t, prefs), RunPush("7", Accepted);
    var w := Run(start, [create, send]);
    LifeCycle([create, send], now);
    FirstSend(start, create, send);
    var yes, no := Hook("stub-push-7", ReportDelivered), Hook("stub-push-7", ReportFailed("expired"));
    StatusIsLastReport(w, [yes], "7");
    StatusIsLastReport(w, [yes, no], "7");
    StatusIsLastReport(w, [yes, no, yes], "7");
  }

  lemma FirstSend(start: World, create: Action, send: Action)
    requires start.rows == map[] && send == RunPush("7", Accepted)
    requires create == Create(map[Push := "7"], NotificationType(1, "social", true, false, false),
                              Resolved(true, false, false, false, None))
    ensures var w := Run(start, [create, send]);
            "7" in w.rows && w.rows["7"].status.Sent? && w.rows["7"].providerId == Some("stub-push-7")
  {
    assert [create, send][..1] == [create] && [create][..0] == [];
    assert Run(start, [create]) == Step(start, create);
    assert FreshIds(start.rows, create.ids, create.notificationType);
    MadeForChannel(create.ids, create.notificationType, create.prefs, start.rows, Push);
    assert Step(start, create).rows["7"] == NewRow(Push, Pending, None);
    assert "stub-push-" + "7" == "stub-push-7";
  }

  /** A worker reaches its own delivery, whatever its channel, and no other row. */
  lemma WorkersReach(w: World, id: Id, answer: Answer, hasAddress: bool, connected: bool, works: bool)
    requires id in w.rows
    ensures w.rows[id].channel.Push? ==>
              Step(w, RunPush(id, answer)).rows == w.rows[id := SendPush(id, w.rows[id], answer, w.now)]
    ensures w.rows[id].channel.Email? ==>
              Step(w, RunEmail(id, hasAddress, answer)).rows ==
                w.rows[id := SendEmail(id, w.rows[id], hasAddress, answer, w.now)]
    ensures w.rows[id].channel.Websocket? ==>
              Step(w, RunSocket(id, connected, works)).rows ==
                w.rows[id := Broadcast(w.rows[id], connected, works, w.now)]
  {
  }

  /** And every hand-over is written down. */
  lemma HandOversListed(w: World, a: Action)
    requires Inv(w)
    ensures Step(w, a).sent == w.sent ||
            exists id :: id in w.rows && Step(w, a).sent == w.sent + [id] && w.rows[id].sentAt.None?
                         && id in Step(w, a).rows && Step(w, a).rows[id].sentAt == Some(w.now)
    ensures forall id :: id in w.rows && id in Step(w, a).rows && Step(w, a).rows[id].sentAt != w.rows[id].sentAt ==>
              Step(w, a).sent == w.sent + [id]
  {
    if !a.Create? && !a.Elapse? {
      TargetIsThere(w, a);
      if Target(w, a).Some? {
        assert RowOk(Target(w, a).value, w.rows[Target(w, a).value]);
      }
    } else if a.Create? {
      CreateKeeps(w, a);
    }
  }
}
