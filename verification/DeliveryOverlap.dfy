/** The delivery workers with their read and their save apart: `_get_delivery` reads the status without a lock, so
    two workers may both find the same delivery pending. */
module DeliveryOverlap {
  import opened Base
  import P = Preferences
  import D = Delivery

  /** A worker that has read its delivery and not yet saved it. */
  datatype Ticket = Ticket(id: D.Id, seen: D.Row)

  datatype World = World(core: D.World, open: map<nat, Ticket>)

  /** `answer` is the worker's call with what its provider says: one of the three task actions. */
  datatype Action =
    | Begin(worker: nat, id: D.Id)
    | Finish(worker: nat, answer: D.Action)
    | Elsewhere(action: D.Action)

  /** The delivery of a task action, by its channel's worker. */
  predicate RunsOn(a: D.Action, t: Ticket) {
    match a
    case RunPush(id, _) => id == t.id && t.seen.channel.Push?
    case RunEmail(id, _, _) => id == t.id && t.seen.channel.Email?
    case RunSocket(id, _, _) => id == t.id && t.seen.channel.Websocket?
    case _ => false
  }

  /** `save(update_fields=...)` of the row as read: every outcome writes its own fields and no others. */
  function Saved(t: Ticket, r: D.Row, a: D.Action, now: nat): D.Row {
    var s := D.Applied(t.id, r.(status := t.seen.status, attempts := t.seen.attempts), a, now);
    if s.status.Pending? then s.(status := r.status)
    else if s.status.Skipped? then s.(attempts := r.attempts)
    else s
  }

  /** The worker handed the notification over, going by what it read. */
  predicate Sends(t: Ticket, a: D.Action, now: nat) {
    D.HandedOver(t.seen, D.Applied(t.id, t.seen, a, now), a)
  }

  ghost function Step(w: World, a: Action): World {
    match a
    case Begin(k, id) =>
      if k !in w.open && id in w.core.rows && w.core.rows[id].status.Pending?
      then w.(open := w.open[k := Ticket(id, w.core.rows[id])]) else w
    case Finish(k, answer) =>
      if k in w.open && RunsOn(answer, w.open[k]) && w.open[k].id in w.core.rows then
        var t, c := w.open[k], w.core;
        World(c.(rows := c.rows[t.id := Saved(t, c.rows[t.id], answer, c.now)],
                 sent := if Sends(t, answer, c.now) then c.sent + [t.id] else c.sent), w.open - {k})
      else w
    case Elsewhere(action) =>
      if action.Create? || action.Hook? || action.Elapse? then w.(core := D.Step(w.core, action)) else w
  }

  ghost function Run(w: World, actions: seq<Action>): World {
    if actions == [] then w else Step(Run(w, actions[..|actions| - 1]), actions[|actions| - 1])
  }

  /** A row nobody touched since it was read is saved as if the worker had run in one step. */
  lemma UndisturbedIsAtomic(t: Ticket, a: D.Action, now: nat)
    requires t.seen.status.Pending? && RunsOn(a, t)
    ensures Saved(t, t.seen, a, now) == D.Applied(t.id, t.seen, a, now)
  {
  }

  // ---------------------------------------------------------------------------------- how often it is sent

  ghost predicate Distinct(sent: seq<D.Id>) {
    forall i, j :: 0 <= i < j < |sent| ==> sent[i] != sent[j]
  }

  ghost predicate TicketOk(rows: map<D.Id, D.Row>, t: Ticket) {
    t.seen.status.Pending? && t.id in rows && rows[t.id].channel == t.seen.channel
  }

  ghost predicate Inv(w: World) {
    && (forall id :: id in w.core.sent <==> id in w.core.rows && w.core.rows[id].sentAt.Some?)
    && (forall id :: id in w.core.rows && w.core.rows[id].status.Pending? ==> w.core.rows[id].sentAt.None?)
    && (forall k :: k in w.open ==> TicketOk(w.core.rows, w.open[k]))
    && D.OwnProviders(w.core)
  }

  /** The save that nothing prevents: an accepted answer for a delivery sent since it was read. */
  ghost predicate SendsAgain(w: World, a: Action) {
    && a.Finish? && a.worker in w.open && RunsOn(a.answer, w.open[a.worker]) && w.open[a.worker].id in w.core.rows
    && Sends(w.open[a.worker], a.answer, w.core.now)
    && w.core.rows[w.open[a.worker].id].sentAt.Some?
  }

  lemma SavedOutcome(t: Ticket, r: D.Row, a: D.Action, now: nat)
    requires t.seen.status.Pending? && RunsOn(a, t)
    ensures var s, outcome := Saved(t, r, a, now), D.Applied(t.id, t.seen, a, now).status;
            && s.status == (if outcome.Pending? then r.status else outcome)
            && s.sentAt == (if Sends(t, a, now) then Some(now) else r.sentAt)
            && (Sends(t, a, now) ==> !outcome.Pending?)
  {
  }

  lemma SavedProvider(t: Ticket, r: D.Row, a: D.Action, now: nat)
    requires t.seen.status.Pending? && RunsOn(a, t)
    ensures var s := Saved(t, r, a, now);
            && s.channel == r.channel
            && (t.seen.channel == r.channel && D.OwnProvider(t.id, r) ==> D.OwnProvider(t.id, s))
  {
  }

  lemma SavedMeaning(t: Ticket, r: D.Row, a: D.Action, now: nat)
    requires t.seen.status.Pending? && RunsOn(a, t) && (r.status.Pending? ==> r.sentAt.None?)
    ensures var s := Saved(t, r, a, now);
            && s.channel == r.channel && (s.status.Pending? ==> r.status.Pending? && s.sentAt.None?)
            && (s.sentAt.Some? <==> r.sentAt.Some? || Sends(t, a, now))
            && (t.seen.channel == r.channel && D.OwnProvider(t.id, r) ==> D.OwnProvider(t.id, s))
  {
    SavedOutcome(t, r, a, now);
    SavedProvider(t, r, a, now);
  }

  lemma ElsewhereKeeps(w: World, action: D.Action)
    requires Inv(w) && (action.Create? || action.Hook? || action.Elapse?)
    ensures Inv(Step(w, Elsewhere(action))) && Step(w, Elsewhere(action)).core.sent == w.core.sent
  {
    var c, d := w.core, D.Step(w.core, action);
    if action.Hook? {
      forall id | id in c.rows
        ensures id in d.rows && d.rows[id].sentAt == c.rows[id].sentAt && d.rows[id].channel == c.rows[id].channel
        ensures D.OwnProvider(id, d.rows[id]) && (d.rows[id].status.Pending? ==> c.rows[id].status.Pending?)
      {
        assert D.OwnProvider(id, c.rows[id]);
        D.HookEffect(c, action, id);
      }
    } else if action.Create? && D.FreshIds(c.rows, action.ids, action.notificationType) {
      D.MadeOk(action.ids, action.notificationType, action.prefs, c.rows);
    }
    assert forall id :: id in c.rows ==> id in d.rows && d.rows[id].channel == c.rows[id].channel;
    assert d.rows.Keys >= c.rows.Keys && (action.Hook? ==> d.rows.Keys == c.rows.Keys) by {
      if action.Hook? && c.rows != map[] {
        var id :| id in c.rows;
        D.HookEffect(c, action, id);
      } else if action.Hook? {
        D.TargetIsThere(c, action);
      }
    }
    assert forall id :: id in d.rows && d.rows[id].sentAt.Some? <==> id in c.rows && c.rows[id].sentAt.Some?;
  }

  lemma FinishKeeps(w: World, k: nat, answer: D.Action)
    requires Inv(w) && k in w.open && RunsOn(answer, w.open[k])
    ensures Inv(Step(w, Finish(k, answer)))
  {
    var t, c := w.open[k], w.core;
    assert TicketOk(c.rows, t);
    SavedMeaning(t, c.rows[t.id], answer, c.now);
    var d := Step(w, Finish(k, answer));
    forall j | j in d.open ensures TicketOk(d.core.rows, d.open[j]) {
      assert TicketOk(c.rows, w.open[j]);
    }
  }

  lemma StepKeeps(w: World, a: Action)
    requires Inv(w)
    ensures Inv(Step(w, a))
    ensures Distinct(w.core.sent) ==> (Distinct(Step(w, a).core.sent) <==> !SendsAgain(w, a))
  {
    match a
    case Begin(k, id) =>
    case Elsewhere(action) =>
      if action.Create? || action.Hook? || action.Elapse? { ElsewhereKeeps(w, action); }
    case Finish(k, answer) =>
      if k in w.open && RunsOn(answer, w.open[k]) {
        assert TicketOk(w.core.rows, w.open[k]);
        FinishKeeps(w, k, answer);
        if Distinct(w.core.sent) { Appended(w.core.sent, w.open[k].id); }
      }
  }

  lemma Appended(sent: seq<D.Id>, id: D.Id)
    requires Distinct(sent)
    ensures Distinct(sent + [id]) <==> id !in sent
  {
    var grown := sent + [id];
    if id in sent {
      var i :| 0 <= i < |sent| && sent[i] == id;
      assert grown[i] == grown[|sent|];
    }
  }

  lemma {:induction false} RunKeeps(w: World, actions: seq<Action>)
    requires Inv(w)
    ensures Inv(Run(w, actions))
  {
    if actions != [] {
      RunKeeps(w, actions[..|actions| - 1]);
      StepKeeps(Run(w, actions[..|actions| - 1]), actions[|actions| - 1]);
    }
  }

  /** For any overlap of workers: every delivery is handed over at most once, at every step, exactly when no
      worker's accepted answer is saved to a row that was sent after the worker had read it. */
  lemma SentOnceExactly(w: World, actions: seq<Action>)
    requires Inv(w) && Distinct(w.core.sent)
    ensures (forall k :: 0 <= k <= |actions| ==> Distinct(Run(w, actions[..k]).core.sent)) <==>
            (forall k :: 0 <= k < |actions| ==> !SendsAgain(Run(w, actions[..k]), actions[k]))
  {
    var good := (k: nat) => k <= |actions| && Distinct(Run(w, actions[..k]).core.sent);
    var safe := (k: nat) => k < |actions| && !SendsAgain(Run(w, actions[..k]), actions[k]);
    assert actions[..0] == [];
    forall k | 0 <= k < |actions| && good(k) ensures good(k + 1) <==> safe(k) {
      assert actions[..k + 1][..k] == actions[..k];
      RunKeeps(w, actions[..k]);
      StepKeeps(Run(w, actions[..k]), actions[k]);
    }
    Throughout(good, safe, |actions|);
    assert forall k :: 0 <= k <= |actions| ==> good(k) == Distinct(Run(w, actions[..k]).core.sent);
    assert forall k :: 0 <= k < |actions| ==> safe(k) == !SendsAgain(Run(w, actions[..k]), actions[k]);
  }

  // ---------------------------------------------------------------------------------- one worker at a time

  /** No worker begins on a delivery another one has open. */
  predicate Alone(w: World, a: Action) {
    a.Begin? ==> forall k :: k in w.open ==> w.open[k].id != a.id
  }

  ghost predicate AllAlone(w: World, actions: seq<Action>) {
    forall k :: 0 <= k < |actions| ==> Alone(Run(w, actions[..k]), actions[k])
  }

  ghost predicate Exclusive(w: World) {
    && Inv(w) && Distinct(w.core.sent)
    && (forall j, k :: j in w.open && k in w.open && j != k ==> w.open[j].id != w.open[k].id)
    && (forall k :: k in w.open ==> w.core.rows[w.open[k].id].sentAt.None?)
  }

  lemma AloneKeeps(w: World, a: Action)
    requires Exclusive(w) && Alone(w, a)
    ensures Exclusive(Step(w, a))
  {
    StepKeeps(w, a);
    var d := Step(w, a);
    match a
    case Begin(_, _) =>
    case Elsewhere(action) =>
      if action.Create? || action.Hook? || action.Elapse? {
        ElsewhereKeeps(w, action);
        forall k | k in d.open ensures d.core.rows[d.open[k].id].sentAt.None? {
          assert TicketOk(w.core.rows, w.open[k]) && w.open[k].id !in w.core.sent;
        }
      }
    case Finish(k, answer) =>
      forall j | j in d.open ensures d.core.rows[d.open[j].id].sentAt.None? {
        assert TicketOk(w.core.rows, w.open[j]);
      }
  }

  /** One worker at a time for each delivery is enough: then nothing is handed over twice. */
  lemma {:induction false} ExclusiveSendsOnce(w: World, actions: seq<Action>)
    requires Exclusive(w) && AllAlone(w, actions)
    ensures Exclusive(Run(w, actions))
  {
    if actions != [] {
      var n := |actions| - 1;
      var init := actions[..n];
      assert forall k :: 0 <= k < n ==> init[..k] == actions[..k];
      assert AllAlone(w, init) by {
        forall k | 0 <= k < n ensures Alone(Run(w, init[..k]), init[k]) {
          assert Alone(Run(w, actions[..k]), actions[k]);
        }
      }
      ExclusiveSendsOnce(w, init);
      assert Alone(Run(w, actions[..n]), actions[n]);
      AloneKeeps(Run(w, init), actions[n]);
    }
  }

  /** And it is needed: two workers that both read the delivery pending hand it over twice. */
  lemma TwoWorkersSendTwice(id: D.Id, now: nat)
    ensures var row := D.NewRow(P.Push, D.Pending, None);
            var w := World(D.World.World(map[id := row], [], now), map[]);
            var send := D.RunPush(id, D.Accepted);
            Inv(w) && Run(w, [Begin(1, id), Begin(2, id), Finish(1, send), Finish(2, send)]).core.sent == [id, id]
  {
    var row := D.NewRow(P.Push, D.Pending, None);
    var w := World(D.World.World(map[id := row], [], now), map[]);
    var send := D.RunPush(id, D.Accepted);
    var t := Ticket(id, row);
    FourSteps(w, Begin(1, id), Begin(2, id), Finish(1, send), Finish(2, send));
    assert Step(Step(w, Begin(1, id)), Begin(2, id)) == World(w.core, map[1 := t, 2 := t]);
    BothFinish(World(w.core, map[1 := t, 2 := t]), t, send);
  }

  lemma FourSteps(w: World, a: Action, b: Action, c: Action, d: Action)
    ensures Run(w, [a, b, c, d]) == Step(Step(Step(Step(w, a), b), c), d)
  {
    assert [a, b, c, d][..3] == [a, b, c] && [a, b, c][..2] == [a, b] && [a, b][..1] == [a] && [a][..0] == [];
    assert Run(w, [a]) == Step(w, a);
    assert Run(w, [a, b]) == Step(Step(w, a), b);
  }

  lemma BothFinish(w: World, t: Ticket, send: D.Action)
    requires w.open == map[1 := t, 2 := t] && t.id in w.core.rows && w.core.sent == []
    requires t.seen == D.NewRow(P.Push, D.Pending, None) && send == D.RunPush(t.id, D.Accepted)
    ensures Step(Step(w, Finish(1, send)), Finish(2, send)).core.sent == [t.id, t.id]
  {
  }

  // ---------------------------------------------------------------------------------- what happens to a settled row

  function OutcomeOf(t: Ticket, a: D.Action, now: nat): D.Status {
    D.Applied(t.id, t.seen, a, now).status
  }

  /** A worker that read this row pending saves an outcome of its own to it (not just another attempt). */
  ghost predicate LateSave(w: World, a: Action, id: D.Id) {
    && a.Finish? && a.worker in w.open && RunsOn(a.answer, w.open[a.worker]) && w.open[a.worker].id == id
    && !OutcomeOf(w.open[a.worker], a.answer, w.core.now).Pending?
  }

  predicate Reports(w: World, a: Action, id: D.Id) {
    a.Elsewhere? && id in w.core.rows && D.Concerns(a.action, w.core.rows[id].providerId)
  }

  /** What the step makes of the status of this settled row: a report decides it, and so does such a save. */
  ghost function NextStatus(w: World, a: Action, id: D.Id): D.Status
    requires id in w.core.rows
  {
    if Reports(w, a, id) then D.Reported(a.action.report)
    else if LateSave(w, a, id) then OutcomeOf(w.open[a.worker], a.answer, w.core.now)
    else w.core.rows[id].status
  }

  ghost function NextSentAt(w: World, a: Action, id: D.Id): Option<nat>
    requires id in w.core.rows
  {
    if LateSave(w, a, id) && Sends(w.open[a.worker], a.answer, w.core.now) then Some(w.core.now)
    else w.core.rows[id].sentAt
  }

  /** For any overlap of workers: a row once settled is settled for good, and its status and sending time move exactly
      by reports under its provider id and by workers that had read it pending. */
  lemma SettledMoves(w: World, a: Action, id: D.Id)
    requires Inv(w) && id in w.core.rows && !w.core.rows[id].status.Pending?
    ensures id in Step(w, a).core.rows
    ensures var s := Step(w, a).core.rows[id];
            s.status == NextStatus(w, a, id) && s.sentAt == NextSentAt(w, a, id) && !s.status.Pending?
  {
    match a
    case Begin(_, _) =>
    case Elsewhere(action) =>
      if action.Hook? {
        D.HookEffect(w.core, action, id);
      } else if action.Create? && D.FreshIds(w.core.rows, action.ids, action.notificationType) {
        D.MadeOk(action.ids, action.notificationType, action.prefs, w.core.rows);
      }
    case Finish(k, answer) =>
      if k in w.open && RunsOn(answer, w.open[k]) {
        assert TicketOk(w.core.rows, w.open[k]);
        SavedOutcome(w.open[k], w.core.rows[w.open[k].id], answer, w.core.now);
      }
  }

  /** PENDING is never re-entered, however workers overlap. */
  lemma {:induction false} PendingIsOver(w: World, actions: seq<Action>, id: D.Id)
    requires Inv(w) && id in w.core.rows && !w.core.rows[id].status.Pending?
    ensures id in Run(w, actions).core.rows && !Run(w, actions).core.rows[id].status.Pending?
  {
    if actions != [] {
      var d := Run(w, actions[..|actions| - 1]);
      PendingIsOver(w, actions[..|actions| - 1], id);
      RunKeeps(w, actions[..|actions| - 1]);
      SettledMoves(d, actions[|actions| - 1], id);
    }
  }

  lemma DeliveredOn(w: World, actions: seq<Action>, k: nat, id: D.Id)
    requires Inv(w) && id in w.core.rows && !w.core.rows[id].status.Pending? && k < |actions|
    ensures id in Run(w, actions[..k]).core.rows && id in Run(w, actions[..k + 1]).core.rows
    ensures Run(w, actions[..k + 1]).core.rows[id].status == NextStatus(Run(w, actions[..k]), actions[k], id)
  {
    assert actions[..k + 1][..k] == actions[..k];
    RunKeeps(w, actions[..k]);
    PendingIsOver(w, actions[..k], id);
    SettledMoves(Run(w, actions[..k]), actions[k], id);
  }

  /** DELIVERED stays at every step of a run exactly when at no step a failure is reported under the row's provider
      id, and no worker that read it pending saves another outcome to it. */
  lemma DeliveredStaysExactly(w: World, actions: seq<Action>, id: D.Id)
    requires Inv(w) && id in w.core.rows && w.core.rows[id].status.Delivered?
    ensures forall k :: 0 <= k <= |actions| ==> id in Run(w, actions[..k]).core.rows
    ensures (forall k :: 0 <= k <= |actions| ==> Run(w, actions[..k]).core.rows[id].status.Delivered?) <==>
            (forall k :: 0 <= k < |actions| ==> NextStatus(Run(w, actions[..k]), actions[k], id).Delivered?)
  {
    forall k | 0 <= k <= |actions|
      ensures id in Run(w, actions[..k]).core.rows && !Run(w, actions[..k]).core.rows[id].status.Pending?
    {
      PendingIsOver(w, actions[..k], id);
    }
    var good := (k: nat) => k <= |actions| && Run(w, actions[..k]).core.rows[id].status.Delivered?;
    var safe := (k: nat) => k < |actions| && NextStatus(Run(w, actions[..k]), actions[k], id).Delivered?;
    assert actions[..0] == [];
    forall k | 0 <= k < |actions| && good(k) ensures good(k + 1) <==> safe(k) {
      DeliveredOn(w, actions, k, id);
    }
    Throughout(good, safe, |actions|);
    assert forall k :: 0 <= k <= |actions| ==> good(k) == Run(w, actions[..k]).core.rows[id].status.Delivered?;
    assert forall k :: 0 <= k < |actions| ==> safe(k) == NextStatus(Run(w, actions[..k]), actions[k], id).Delivered?;
  }

  // ---------------------------------------------------------------------------------- rows nobody has open

  ghost predicate NoTicket(w: World, id: D.Id) {
    forall k :: k in w.open ==> w.open[k].id != id
  }

  /** At this step only a report moves the status, and nothing the sending time. */
  ghost predicate OnlyReport(w: World, a: Action, id: D.Id) {
    && id in w.core.rows && id in Step(w, a).core.rows
    && var r, s := w.core.rows[id], Step(w, a).core.rows[id];
       s.sentAt == r.sentAt && s.status == if Reports(w, a, id) then D.Reported(a.action.report) else r.status
  }

  ghost predicate OnlyReports(w: World, actions: seq<Action>, id: D.Id) {
    forall k :: 0 <= k < |actions| ==> OnlyReport(Run(w, actions[..k]), actions[k], id)
  }

  lemma QuietStep(w: World, a: Action, id: D.Id)
    requires Inv(w) && id in w.core.rows && !w.core.rows[id].status.Pending? && NoTicket(w, id)
    ensures OnlyReport(w, a, id) && NoTicket(Step(w, a), id)
    ensures Step(w, a).core.rows[id].providerId == w.core.rows[id].providerId
    ensures !Step(w, a).core.rows[id].status.Pending? && Inv(Step(w, a))
  {
    SettledMoves(w, a, id);
    StepKeeps(w, a);
    if a.Elsewhere? && a.action.Hook? {
      D.HookEffect(w.core, a.action, id);
    } else if a.Elsewhere? && a.action.Create? && D.FreshIds(w.core.rows, a.action.ids, a.action.notificationType) {
      D.MadeOk(a.action.ids, a.action.notificationType, a.action.prefs, w.core.rows);
    }
  }

  /** The last report under a provider id, if any. */
  function LastReport(actions: seq<Action>, provider: Option<string>): Option<D.Report> {
    if actions == [] then None
    else
      var a := actions[|actions| - 1];
      if a.Elsewhere? && D.Concerns(a.action, provider) then Some(a.action.report)
      else LastReport(actions[..|actions| - 1], provider)
  }

  /** A settled row that no worker has open has, after any run, the status of the last report under its provider id,
      and without one the status it had; its sending time stays. */
  lemma {:induction false} StatusIsLastReport(w: World, actions: seq<Action>, id: D.Id)
    requires Inv(w) && id in w.core.rows && !w.core.rows[id].status.Pending? && NoTicket(w, id)
    ensures var d := Run(w, actions);
            && Inv(d) && id in d.core.rows && !d.core.rows[id].status.Pending? && NoTicket(d, id)
            && d.core.rows[id].providerId == w.core.rows[id].providerId
            && d.core.rows[id].sentAt == w.core.rows[id].sentAt
            && var last := LastReport(actions, w.core.rows[id].providerId);
               d.core.rows[id].status == if last.Some? then D.Reported(last.value) else w.core.rows[id].status
  {
    if actions != [] {
      StatusIsLastReport(w, actions[..|actions| - 1], id);
      QuietStep(Run(w, actions[..|actions| - 1]), actions[|actions| - 1], id);
    }
  }

  /** Over all continuations, a settled row moves only by reports exactly when no worker has it open now. */
  lemma OnlyReportsIffNoTicket(w: World, id: D.Id)
    requires Inv(w) && id in w.core.rows && !w.core.rows[id].status.Pending?
    ensures (forall actions :: OnlyReports(w, actions, id)) <==> NoTicket(w, id)
  {
    if NoTicket(w, id) {
      forall actions ensures OnlyReports(w, actions, id) {
        forall k | 0 <= k < |actions| ensures OnlyReport(Run(w, actions[..k]), actions[k], id) {
          StatusIsLastReport(w, actions[..k], id);
          QuietStep(Run(w, actions[..k]), actions[k], id);
        }
      }
    } else {
      var k :| k in w.open && w.open[k].id == id;
      var actions := [Elsewhere(D.Elapse(if w.core.rows[id].sentAt == Some(w.core.now) then 1 else 0)),
                      Finish(k, Accepts(w.open[k]))];
      assert TicketOk(w.core.rows, w.open[k]);
      assert actions[..1][..0] == [] && actions[..1][0] == actions[0];
      var d := Run(w, actions[..1]);
      assert d == Step(Run(w, actions[..1][..0]), actions[0]);
      AcceptedSaves(d, k);
      RunKeeps(w, actions[..1]);
      SettledMoves(d, actions[1], id);
      assert !OnlyReport(Run(w, actions[..1]), actions[1], id);
      assert !OnlyReports(w, actions, id);
    }
  }

  /** The provider, or the websocket layer, takes it. */
  function Accepts(t: Ticket): D.Action {
    match t.seen.channel
    case Push => D.RunPush(t.id, D.Accepted)
    case Email => D.RunEmail(t.id, true, D.Accepted)
    case Websocket => D.RunSocket(t.id, true, true)
  }

  lemma AcceptedSaves(w: World, k: nat)
    requires k in w.open && w.open[k].seen.status.Pending?
    ensures RunsOn(Accepts(w.open[k]), w.open[k]) && Sends(w.open[k], Accepts(w.open[k]), w.core.now)
    ensures LateSave(w, Finish(k, Accepts(w.open[k])), w.open[k].id)
  {
  }

  /** Over all continuations in which no worker begins on a delivery that another has open, nothing is handed over
      twice exactly when no two workers have the same delivery open now, and none an already sent one. */
  lemma SendsOnceIffApart(w: World)
    requires Inv(w) && Distinct(w.core.sent)
    ensures (forall actions :: AllAlone(w, actions) ==> Distinct(Run(w, actions).core.sent)) <==> Exclusive(w)
  {
    if Exclusive(w) {
      forall actions | AllAlone(w, actions) ensures Distinct(Run(w, actions).core.sent) {
        ExclusiveSendsOnce(w, actions);
      }
    } else if k :| k in w.open && w.core.rows[w.open[k].id].sentAt.Some? {
      SentAgain(w, k);
    } else {
      var j, k :| j in w.open && k in w.open && j != k && w.open[j].id == w.open[k].id;
      BothSend(w, j, k);
    }
  }

  /** An accepted save hands its delivery over. */
  lemma Accepted(w: World, k: nat)
    requires Inv(w) && k in w.open
    ensures var d := Step(w, Finish(k, Accepts(w.open[k])));
            && d.core.sent == w.core.sent + [w.open[k].id] && d.open == w.open - {k} && Inv(d)
  {
    assert TicketOk(w.core.rows, w.open[k]);
    AcceptedSaves(w, k);
    StepKeeps(w, Finish(k, Accepts(w.open[k])));
  }

  lemma BothSend(w: World, j: nat, k: nat)
    requires Inv(w) && j in w.open && k in w.open && j != k && w.open[j].id == w.open[k].id
    ensures var actions := [Finish(j, Accepts(w.open[j])), Finish(k, Accepts(w.open[k]))];
            AllAlone(w, actions) && !Distinct(Run(w, actions).core.sent)
  {
    var a, b := Finish(j, Accepts(w.open[j])), Finish(k, Accepts(w.open[k]));
    Accepted(w, j);
    Accepted(Step(w, a), k);
    TwoSteps(w, a, b);
    TwiceIn(Step(w, a).core.sent, w.open[k].id);
  }

  lemma SentAgain(w: World, k: nat)
    requires Inv(w) && k in w.open && w.core.rows[w.open[k].id].sentAt.Some?
    ensures var actions := [Finish(k, Accepts(w.open[k]))]; AllAlone(w, actions) && !Distinct(Run(w, actions).core.sent)
  {
    assert TicketOk(w.core.rows, w.open[k]);
    Accepted(w, k);
    OneStep(w, Finish(k, Accepts(w.open[k])));
    TwiceIn(w.core.sent, w.open[k].id);
  }

  lemma TwiceIn(sent: seq<D.Id>, id: D.Id)
    requires id in sent
    ensures !Distinct(sent + [id])
  {
    var i :| 0 <= i < |sent| && sent[i] == id;
    assert (sent + [id])[i] == (sent + [id])[|sent|];
  }

  // ---------------------------------------------------------------------------------- settled rows that move

  /** DELIVERED goes back to SENT: the second worker saves after the first one's delivery was confirmed. */
  lemma DeliveredBackToSent(id: D.Id, now: nat)
    ensures var row := D.NewRow(P.Push, D.Pending, None);
            var w := World(D.World.World(map[id := row], [], now), map[1 := Ticket(id, row), 2 := Ticket(id, row)]);
            var send, hook := D.RunPush(id, D.Accepted), D.Hook(D.ProviderId(P.Push, id), D.ReportDelivered);
            var d := Run(w, [Finish(1, send), Elsewhere(hook)]);
            && Inv(w) && id in d.core.rows && d.core.rows[id].status.Delivered?
            && id in Run(d, [Finish(2, send)]).core.rows && Run(d, [Finish(2, send)]).core.rows[id].status.Sent?
  {
    var row := D.NewRow(P.Push, D.Pending, None);
    var w := World(D.World.World(map[id := row], [], now), map[1 := Ticket(id, row), 2 := Ticket(id, row)]);
    var send, hook := D.RunPush(id, D.Accepted), D.Hook(D.ProviderId(P.Push, id), D.ReportDelivered);
    var sent := Step(w, Finish(1, send));
    StepKeeps(w, Finish(1, send));
    assert sent.core.rows[id].status.Sent? && sent.core.rows[id].providerId == Some(D.ProviderId(P.Push, id));
    TwoSteps(w, Finish(1, send), Elsewhere(hook));
    SettledMoves(sent, Elsewhere(hook), id);
    StepKeeps(sent, Elsewhere(hook));
    var d := Step(sent, Elsewhere(hook));
    OneStep(d, Finish(2, send));
    SettledMoves(d, Finish(2, send), id);
  }

  /** SKIPPED is left for SENT: the first worker found no address, the second, which read the row before, does. */
  lemma SkippedLeftForSent(id: D.Id, now: nat)
    ensures var row := D.NewRow(P.Email, D.Pending, None);
            var w := World(D.World.World(map[id := row], [], now), map[1 := Ticket(id, row), 2 := Ticket(id, row)]);
            var skip, send := D.RunEmail(id, false, D.Accepted), D.RunEmail(id, true, D.Accepted);
            var d := Run(w, [Finish(1, skip)]);
            && Inv(w) && id in d.core.rows && d.core.rows[id].status.Skipped?
            && id in Run(d, [Finish(2, send)]).core.rows && Run(d, [Finish(2, send)]).core.rows[id].status.Sent?
  {
    var row := D.NewRow(P.Email, D.Pending, None);
    var w := World(D.World.World(map[id := row], [], now), map[1 := Ticket(id, row), 2 := Ticket(id, row)]);
    var skip, send := D.RunEmail(id, false, D.Accepted), D.RunEmail(id, true, D.Accepted);
    OneStep(w, Finish(1, skip));
    SkipFirst(w, Ticket(id, row));
    OneStep(Step(w, Finish(1, skip)), Finish(2, send));
  }

  lemma SkipFirst(w: World, t: Ticket)
    requires t.seen == D.NewRow(P.Email, D.Pending, None) && w.open == map[1 := t, 2 := t]
    requires Inv(w) && t.id in w.core.rows && w.core.rows[t.id] == t.seen
    ensures var d := Step(w, Finish(1, D.RunEmail(t.id, false, D.Accepted)));
            && t.id in d.core.rows && d.core.rows[t.id].status.Skipped?
            && var e := Step(d, Finish(2, D.RunEmail(t.id, true, D.Accepted)));
               t.id in e.core.rows && e.core.rows[t.id].status.Sent?
  {
  }

  lemma OneStep(w: World, a: Action)
    ensures Run(w, [a]) == Step(w, a)
  {
    assert [a][..0] == [];
  }

  lemma TwoSteps(w: World, a: Action, b: Action)
    ensures Run(w, [a, b]) == Step(Step(w, a), b)
  {
    assert [a, b][..1] == [a];
    OneStep(w, a);
  }
}
