/** The MCP server's pending console login: one mutex-guarded manager, background waiters and
    an expiry. Source: internal/mcp/policy.go, internal/volcengine/console_login.go. */
module PendingLogin {
  import opened Wrappers

  // ---------------------------------------------------------------------------
  // The manager as a state machine over a monotone clock

  /** Ten minutes, in milliseconds. */
  const TIMEOUT := 10 * 60 * 1000
  const PROFILE := "default"
  const REGION := "cn-beijing"

  datatype Status = Pending | Failed | Succeeded

  datatype Flow = Flow(profile: string, region: string, url: string, expiresAt: int, status: Status, error: string)

  /** Every flow ever started, which one the manager points at, the flows whose waiter has not
      woken up yet, and the time. */
  datatype State = State(flows: seq<Flow>, current: Option<nat>, waiting: set<nat>, now: int)

  /** Starting a console login takes time under the mutex: it is done at `at`. */
  datatype Start = Started(url: string, at: int) | StartFailed(message: string)

  datatype Payload = Payload(profile: string, region: string, url: string, expiresAt: int, status: Status,
                             lastError: Option<string>)

  datatype Reply = LoggedIn | LoginRequired(payload: Payload) | StartError(message: string)

  datatype Event =
    | Tick(time: int)
    | Call(loaded: bool, start: Start)
    | Wake(flow: nat, error: Option<string>)

  const INITIAL := State([], None, {}, 0)

  /** `pendingPayloadLocked`. */
  function PayloadOf(f: Flow): Payload {
    Payload(f.profile, f.region, f.url, f.expiresAt, f.status, if f.error == [] then None else Some(f.error))
  }

  function NewFlow(start: Start): Flow
    requires start.Started?
  {
    Flow(PROFILE, REGION, start.url, start.at + TIMEOUT, Pending, [])
  }

  predicate Open(f: Flow, now: int) {
    f.status == Pending && now < f.expiresAt
  }

  predicate WellFormed(s: State) {
    s.current.Some? ==> s.flows != [] && s.current.value == |s.flows| - 1
  }

  /** `requireLogin`. */
  function CallStep(s: State, loaded: bool, start: Start): (r: (State, Reply))
    requires WellFormed(s)
    ensures WellFormed(r.0)
  {
    if loaded then (s, LoggedIn)
    else if s.current.Some? && s.flows[s.current.value].status == Succeeded then (s.(current := None), LoggedIn)
    else if s.current.Some? && Open(s.flows[s.current.value], s.now) then
      (s, LoginRequired(PayloadOf(s.flows[s.current.value])))
    else match start
      case StartFailed(message) => (s.(current := None), StartError(message))
      case Started(_, at) =>
        (State(s.flows + [NewFlow(start)], Some(|s.flows|), s.waiting + {|s.flows|}, at),
         LoginRequired(PayloadOf(NewFlow(start))))
  }

  /** `wait`: the waiter of flow `i` learns how its login ended. */
  function WakeStep(s: State, i: nat, error: Option<string>): (r: State)
    requires WellFormed(s)
    ensures WellFormed(r)
  {
    var woken := s.(waiting := s.waiting - {i});
    if s.current != Some(i) then woken
    else woken.(flows := s.flows[i :=
      if error.Some? then s.flows[i].(status := Failed, error := error.value)
      else s.flows[i].(status := Succeeded)])
  }

  predicate Enabled(s: State, e: Event) {
    match e
    case Tick(time) => s.now <= time
    case Call(_, start) => start.Started? ==> s.now <= start.at
    case Wake(i, _) => i in s.waiting
  }

  function Next(s: State, e: Event): (r: State)
    requires WellFormed(s)
    ensures WellFormed(r)
  {
    match e
    case Tick(time) => s.(now := time)
    case Call(loaded, start) => CallStep(s, loaded, start).0
    case Wake(i, error) => WakeStep(s, i, error)
  }

  function Replies(s: State, e: Event): seq<Reply>
    requires WellFormed(s)
  {
    if e.Call? then [CallStep(s, e.loaded, e.start).1] else []
  }

  /** The run is possible from `s`. */
  predicate Possible(s: State, events: seq<Event>)
    requires WellFormed(s)
    decreases events
  {
    events == [] || (Enabled(s, events[0]) && Possible(Next(s, events[0]), events[1..]))
  }

  function Run(s: State, events: seq<Event>): (r: State)
    requires WellFormed(s)
    ensures WellFormed(r)
    decreases events
  {
    if events == [] then s else Run(Next(s, events[0]), events[1..])
  }

  function AllReplies(s: State, events: seq<Event>): seq<Reply>
    requires WellFormed(s)
    decreases events
  {
    if events == [] then [] else Replies(s, events[0]) + AllReplies(Next(s, events[0]), events[1..])
  }

  // ---------------------------------------------------------------------------
  // At most one open flow

  predicate Inv(s: State) {
    && WellFormed(s)
    && (forall i :: 0 <= i < |s.flows| && Open(s.flows[i], s.now) ==> s.current == Some(i))
    && (forall i :: 0 <= i < |s.flows| && s.flows[i].status != Failed ==> s.flows[i].error == [])
    && (forall i :: i in s.waiting ==> i < |s.flows| && s.flows[i].status == Pending)
  }

  predicate GoodReply(r: Reply) {
    r.LoginRequired? ==> r.payload.status == Pending && r.payload.lastError.None?
  }

  lemma NextKeepsInv(s: State, e: Event)
    requires Inv(s) && Enabled(s, e)
    ensures Inv(Next(s, e)) && s.now <= Next(s, e).now
    ensures forall r :: r in Replies(s, e) ==> GoodReply(r)
  {
    var t := Next(s, e);
    forall i | 0 <= i < |t.flows| && Open(t.flows[i], t.now) ensures t.current == Some(i) {
      if i < |s.flows| && t.flows[i] == s.flows[i] {
        assert Open(s.flows[i], s.now);
      }
    }
  }

  /** In every reachable state a started flow that is still pending and unexpired is the
      manager's current one; every payload handed out is pending and carries no error. */
  lemma {:induction false} SingleOpenFlow(s: State, events: seq<Event>)
    requires Inv(s) && Possible(s, events)
    ensures Inv(Run(s, events))
    ensures forall r :: r in AllReplies(s, events) ==> GoodReply(r)
    decreases events
  {
    if events != [] {
      NextKeepsInv(s, events[0]);
      SingleOpenFlow(Next(s, events[0]), events[1..]);
    }
  }

  lemma ReachableStates(events: seq<Event>, i: nat, j: nat)
    requires Possible(INITIAL, events)
    requires i < |Run(INITIAL, events).flows| && j < |Run(INITIAL, events).flows|
    requires Open(Run(INITIAL, events).flows[i], Run(INITIAL, events).now)
    requires Open(Run(INITIAL, events).flows[j], Run(INITIAL, events).now)
    ensures i == j && Run(INITIAL, events).current == Some(i)
    ensures forall r :: r in AllReplies(INITIAL, events) ==> GoodReply(r)
  {
    SingleOpenFlow(INITIAL, events);
  }

  /** A flow is only started when no earlier one is open, and what is handed out is unexpired. */
  lemma StartsOnlyWhenNoneIsOpen(s: State, loaded: bool, start: Start)
    requires Inv(s) && Enabled(s, Call(loaded, start))
    ensures var (t, r) := CallStep(s, loaded, start);
      && (t.flows != s.flows ==> forall i :: 0 <= i < |s.flows| ==> !Open(s.flows[i], s.now))
      && (r.LoginRequired? ==>
           t.flows != [] && var last := t.flows[|t.flows| - 1]; Open(last, t.now) && r.payload == PayloadOf(last))
  {
    assert TIMEOUT > 0;
  }

  // ---------------------------------------------------------------------------
  // Inside the window of an open flow

  /** The events neither end flow `i`'s login nor let its window pass. */
  predicate WithinWindow(events: seq<Event>, i: nat, expiresAt: int) {
    forall k :: 0 <= k < |events| ==>
      (events[k].Tick? ==> events[k].time < expiresAt) && (events[k].Wake? ==> events[k].flow != i)
  }

  function RepeatedReplies(events: seq<Event>, payload: Payload): seq<Reply> {
    if events == [] then []
    else (if !events[0].Call? then [] else if events[0].loaded then [LoggedIn] else [LoginRequired(payload)])
         + RepeatedReplies(events[1..], payload)
  }

  /** Repeated calls inside the window start nothing and all return the same payload. */
  lemma {:induction false} WindowRepeats(s: State, events: seq<Event>)
    requires Inv(s) && Possible(s, events) && s.current.Some?
    requires Open(s.flows[s.current.value], s.now)
    requires WithinWindow(events, s.current.value, s.flows[s.current.value].expiresAt)
    ensures Run(s, events).flows == s.flows && Run(s, events).current == s.current
    ensures AllReplies(s, events) == RepeatedReplies(events, PayloadOf(s.flows[s.current.value]))
    decreases events
  {
    if events != [] {
      var e, t := events[0], Next(s, events[0]);
      NextKeepsInv(s, e);
      assert t.flows == s.flows && t.current == s.current;
      WindowRepeats(t, events[1..]);
    }
  }

  // ---------------------------------------------------------------------------
  // Superseded flows

  /** A flow the manager no longer points at never becomes current again, and nothing, its own
      late waiter included, changes its record. */
  lemma {:induction false} SupersededStays(s: State, events: seq<Event>, i: nat)
    requires WellFormed(s) && i < |s.flows| && s.current != Some(i)
    ensures i < |Run(s, events).flows|
    ensures Run(s, events).flows[i] == s.flows[i] && Run(s, events).current != Some(i)
    decreases events
  {
    if events != [] {
      SupersededStays(Next(s, events[0]), events[1..], i);
    }
  }

  /** Two managers that differ only in who still waits. */
  predicate SameButWaiting(s: State, t: State) {
    s.flows == t.flows && s.current == t.current && s.now == t.now
  }

  lemma {:induction false} WaitersAreInvisible(s: State, t: State, events: seq<Event>)
    requires WellFormed(s) && WellFormed(t) && SameButWaiting(s, t)
    ensures SameButWaiting(Run(s, events), Run(t, events))
    ensures AllReplies(s, events) == AllReplies(t, events)
    decreases events
  {
    if events != [] {
      var e := events[0];
      assert SameButWaiting(Next(s, e), Next(t, e)) && Replies(s, e) == Replies(t, e);
      WaitersAreInvisible(Next(s, e), Next(t, e), events[1..]);
    }
  }

  lemma {:induction false} RunConcat(s: State, a: seq<Event>, b: seq<Event>)
    requires WellFormed(s)
    ensures Run(s, a + b) == Run(Run(s, a), b)
    ensures AllReplies(s, a + b) == AllReplies(s, a) + AllReplies(Run(s, a), b)
    decreases a
  {
    if a == [] {
      assert a + b == b && [] + AllReplies(s, b) == AllReplies(s, b);
    } else {
      assert (a + b)[1..] == a[1..] + b;
      RunConcat(Next(s, a[0]), a[1..], b);
      assert Replies(s, a[0]) + (AllReplies(Next(s, a[0]), a[1..]) + AllReplies(Run(s, a), b))
          == Replies(s, a[0]) + AllReplies(Next(s, a[0]), a[1..]) + AllReplies(Run(s, a), b);
    }
  }

  /** Deleting a superseded flow's late waiter from a run changes no reply of any call before or
      after it, no flow and not the current one: whenever it comes, a flow that was superseded at
      any earlier time has no say. */
  lemma LateWaiterChangesNothing(s: State, a: seq<Event>, b: seq<Event>, c: seq<Event>, i: nat, error: Option<string>)
    requires WellFormed(s) && i < |Run(s, a).flows| && Run(s, a).current != Some(i)
    ensures SameButWaiting(Run(s, a + b + [Wake(i, error)] + c), Run(s, a + b + c))
    ensures AllReplies(s, a + b + [Wake(i, error)] + c) == AllReplies(s, a + b + c)
  {
    var wake := Wake(i, error);
    var t := Run(s, a + b);
    RunConcat(s, a, b);
    SupersededStays(Run(s, a), b, i);
    RunConcat(s, a + b, [wake] + c);
    RunConcat(s, a + b, c);
    assert a + b + [wake] + c == a + b + ([wake] + c);
    assert ([wake] + c)[1..] == c && [] + AllReplies(Next(t, wake), c) == AllReplies(Next(t, wake), c);
    WaitersAreInvisible(Next(t, wake), t, c);
  }

  // ---------------------------------------------------------------------------
  // What a call answers, from what happened before it

  /** No waiter of flow `i` has reported. */
  predicate NoReport(events: seq<Event>, i: nat) {
    forall k :: 0 <= k < |events| ==> !(events[k].Wake? && events[k].flow == i)
  }

  predicate ReportedFailure(events: seq<Event>, i: nat) {
    exists k :: 0 <= k < |events| && events[k].Wake? && events[k].flow == i && events[k].error.Some?
  }

  predicate ReportedSuccess(events: seq<Event>, i: nat) {
    Wake(i, None) in events
  }

  /** One of the calls without credentials started this flow. */
  predicate StartedIn(events: seq<Event>, f: Flow) {
    exists k :: 0 <= k < |events| && Starts(events[k], f)
  }

  predicate Starts(e: Event, f: Flow) {
    && e.Call? && !e.loaded && e.start.Started?
    && f.profile == "default" && f.region == "cn-beijing"
    && f.url == e.start.url && f.expiresAt == e.start.at + 600_000
  }

  /** The manager's records agree with the history. */
  ghost predicate Recorded(events: seq<Event>, s: State) {
    && WellFormed(s)
    && (forall i :: 0 <= i < |s.flows| ==> StartedIn(events, s.flows[i]))
    && (forall i :: i in s.waiting ==> i < |s.flows| && NoReport(events, i))
    && (forall i :: i >= |s.flows| ==> NoReport(events, i))
    && (s.current.Some? ==>
         var i := s.current.value;
         CurrentRecorded(events, s.flows[i], i, i in s.waiting))
  }

  ghost predicate CurrentRecorded(events: seq<Event>, f: Flow, i: nat, waits: bool) {
    match f.status
    case Pending => waits && f.error == []
    case Succeeded => !waits && ReportedSuccess(events, i) && !ReportedFailure(events, i)
    case Failed => !waits && ReportedFailure(events, i) && !ReportedSuccess(events, i)
  }

  lemma HistoryGrows(events: seq<Event>, e: Event, i: nat)
    ensures NoReport(events + [e], i) <==> NoReport(events, i) && !(e.Wake? && e.flow == i)
    ensures ReportedSuccess(events + [e], i) <==> ReportedSuccess(events, i) || e == Wake(i, None)
    ensures ReportedFailure(events + [e], i) <==>
      ReportedFailure(events, i) || (e.Wake? && e.flow == i && e.error.Some?)
  {
    var all := events + [e];
    assert all[|events|] == e;
    forall k | 0 <= k < |events| ensures all[k] == events[k] {}
    if NoReport(all, i) {
      forall k | 0 <= k < |events| ensures !(events[k].Wake? && events[k].flow == i) { assert all[k] == events[k]; }
    }
    if ReportedFailure(events, i) {
      var k :| 0 <= k < |events| && events[k].Wake? && events[k].flow == i && events[k].error.Some?;
      assert all[k] == events[k];
    }
  }

  lemma StartsGrow(events: seq<Event>, e: Event, f: Flow)
    requires StartedIn(events, f) || Starts(e, f)
    ensures StartedIn(events + [e], f)
  {
    var all := events + [e];
    assert all[|events|] == e;
    if StartedIn(events, f) {
      var k :| 0 <= k < |events| && Starts(events[k], f);
      assert all[k] == events[k];
    }
  }

  lemma NoReportNoOutcome(events: seq<Event>, i: nat)
    requires NoReport(events, i)
    ensures !ReportedSuccess(events, i) && !ReportedFailure(events, i)
  {
  }

  lemma CallIsRecorded(events: seq<Event>, s: State, loaded: bool, start: Start)
    requires Recorded(events, s)
    ensures Recorded(events + [Call(loaded, start)], CallStep(s, loaded, start).0)
  {
    var e, t := Call(loaded, start), CallStep(s, loaded, start).0;
    forall i: nat { HistoryGrows(events, e, i); }
    forall i | 0 <= i < |t.flows| ensures StartedIn(events + [e], t.flows[i]) {
      StartsGrow(events, e, t.flows[i]);
    }
    assert |s.flows| !in s.waiting;
  }

  lemma WakeIsRecorded(events: seq<Event>, s: State, i: nat, error: Option<string>)
    requires Recorded(events, s) && i in s.waiting
    ensures Recorded(events + [Wake(i, error)], WakeStep(s, i, error))
  {
    var e, t := Wake(i, error), WakeStep(s, i, error);
    forall j: nat { HistoryGrows(events, e, j); }
    NoReportNoOutcome(events, i);
    forall j | 0 <= j < |t.flows| ensures StartedIn(events + [e], t.flows[j]) {
      StartsGrow(events, e, s.flows[j]);
      SameStart(events + [e], s.flows[j], t.flows[j]);
    }
  }

  lemma SameStart(events: seq<Event>, f: Flow, g: Flow)
    requires StartedIn(events, f) && f.profile == g.profile && f.region == g.region
    requires f.url == g.url && f.expiresAt == g.expiresAt
    ensures StartedIn(events, g)
  {
    var k :| 0 <= k < |events| && Starts(events[k], f);
    assert Starts(events[k], g);
  }

  lemma TickIsRecorded(events: seq<Event>, s: State, time: int)
    requires Recorded(events, s)
    ensures Recorded(events + [Tick(time)], s.(now := time))
  {
    forall i: nat { HistoryGrows(events, Tick(time), i); }
    forall i | 0 <= i < |s.flows| ensures StartedIn(events + [Tick(time)], s.flows[i]) {
      StartsGrow(events, Tick(time), s.flows[i]);
    }
  }

  lemma {:induction false} PossibleConcat(s: State, a: seq<Event>, b: seq<Event>)
    requires WellFormed(s)
    ensures Possible(s, a + b) <==> Possible(s, a) && Possible(Run(s, a), b)
    decreases a
  {
    if a == [] {
      assert a + b == b;
    } else {
      assert (a + b)[1..] == a[1..] + b;
      PossibleConcat(Next(s, a[0]), a[1..], b);
    }
  }

  lemma {:induction false} RunIsRecorded(events: seq<Event>)
    requires Possible(INITIAL, events)
    ensures Recorded(events, Run(INITIAL, events))
  {
    if events != [] {
      var init, last := events[..|events| - 1], events[|events| - 1];
      assert events == init + [last];
      PossibleConcat(INITIAL, init, [last]);
      RunConcat(INITIAL, init, [last]);
      RunIsRecorded(init);
      var s := Run(INITIAL, init);
      assert Run(s, [last]) == Next(s, last) && Enabled(s, last);
      match last
      case Tick(time) => TickIsRecorded(init, s, time);
      case Call(loaded, start) => CallIsRecorded(init, s, loaded, start);
      case Wake(i, error) => WakeIsRecorded(init, s, i, error);
    }
  }

  /** The answer of a call that starts a login: the new flow's own address and expiry. */
  function FreshAnswer(start: Start): Reply {
    match start
    case StartFailed(message) => StartError(message)
    case Started(url, at) => LoginRequired(Payload("default", "cn-beijing", url, at + 600_000, Pending, None))
  }

  /** After any history, while no credentials load: a call answers that login succeeded exactly
      when the current flow's waiter reported no error; after a reported error, or with no current
      flow, it starts a login and answers with that one's address and expiry; and with no report
      yet it repeats the address and expiry of the start behind the current flow until the ten
      minutes are over, then starts anew. */
  lemma AnswersFollowHistory(events: seq<Event>, start: Start)
    requires Possible(INITIAL, events + [Call(false, start)])
    ensures var t, r := Run(INITIAL, events), AllReplies(INITIAL, events + [Call(false, start)]);
      && |r| == |AllReplies(INITIAL, events)| + 1
      && var answer, i := r[|r| - 1], t.current;
         && (answer == LoggedIn <==> i.Some? && ReportedSuccess(events, i.value))
         && (i.None? || ReportedFailure(events, i.value) ==> answer == FreshAnswer(start))
         && (i.Some? && NoReport(events, i.value) ==>
              exists k :: 0 <= k < |events| && events[k].Call? && !events[k].loaded && events[k].start.Started? &&
                answer == FreshAnswer(if t.now < events[k].start.at + 600_000 then events[k].start else start))
  {
    var call := Call(false, start);
    var t := Run(INITIAL, events);
    PossibleConcat(INITIAL, events, [call]);
    RunConcat(INITIAL, events, [call]);
    RunIsRecorded(events);
    assert AllReplies(t, [call]) == [CallStep(t, false, start).1] + AllReplies(Next(t, call), []);
    assert AllReplies(t, [call]) == [CallStep(t, false, start).1];
    if t.current.Some? {
      CurrentAnswer(events, t, start);
    }
  }

  lemma CurrentAnswer(events: seq<Event>, t: State, start: Start)
    requires Recorded(events, t) && t.current.Some?
    ensures var answer, i := CallStep(t, false, start).1, t.current.value;
      && (answer == LoggedIn <==> ReportedSuccess(events, i))
      && (ReportedFailure(events, i) ==> answer == FreshAnswer(start))
      && (NoReport(events, i) ==>
           exists k :: 0 <= k < |events| && events[k].Call? && !events[k].loaded && events[k].start.Started? &&
             answer == FreshAnswer(if t.now < events[k].start.at + 600_000 then events[k].start else start))
  {
    var i, f := t.current.value, t.flows[t.current.value];
    if i in t.waiting || NoReport(events, i) { NoReportNoOutcome(events, i); }
    var k :| 0 <= k < |events| && Starts(events[k], f);
    var told := if t.now < events[k].start.at + 600_000 then events[k].start else start;
    assert f.status.Pending? ==> CallStep(t, false, start).1 == FreshAnswer(told);
  }

  /** Time passes, and calls that find credentials. */
  predicate Quiet(events: seq<Event>) {
    forall k :: 0 <= k < |events| ==> events[k].Tick? || (events[k].Call? && events[k].loaded)
  }

  lemma {:induction false} QuietChangesNothing(s: State, events: seq<Event>)
    requires WellFormed(s) && Quiet(events)
    ensures Run(s, events).flows == s.flows && Run(s, events).current == s.current
    ensures forall r :: r in AllReplies(s, events) ==> r == LoggedIn
    decreases events
  {
    if events != [] {
      QuietChangesNothing(Next(s, events[0]), events[1..]);
    }
  }

  /** A whole login: with nothing pending a call hands out a new flow's address; its waiter
      reports; the next call that finds no credentials goes on if no error was reported, and
      otherwise hands out the address of the login it starts. */
  lemma LoginThenRetry(s: State, first: Start, wait: seq<Event>, error: Option<string>, pause: seq<Event>, next: Start)
    requires WellFormed(s) && s.current.None? && first.Started? && Quiet(wait) && Quiet(pause)
    ensures CallStep(s, false, first).1 == FreshAnswer(first)
    ensures var started := Next(s, Call(false, first));
      var told := Next(Run(started, wait), Wake(|s.flows|, error));
      CallStep(Run(told, pause), false, next).1 == if error.None? then LoggedIn else FreshAnswer(next)
  {
    var started := Next(s, Call(false, first));
    QuietChangesNothing(started, wait);
    var told := Next(Run(started, wait), Wake(|s.flows|, error));
    QuietChangesNothing(told, pause);
  }

  // ---------------------------------------------------------------------------
  // The manager as an object

  class LoginFlow {
    var profile: string
    var region: string
    var loginURL: string
    var expiresAt: int
    var status: Status
    var error: string

    constructor (start: Start)
      requires start.Started?
      ensures View() == NewFlow(start)
    {
      profile, region, loginURL := PROFILE, REGION, start.url;
      expiresAt, status, error := start.at + TIMEOUT, Pending, [];
    }

    function View(): Flow
      reads this
    {
      Flow(profile, region, loginURL, expiresAt, status, error)
    }
  }

  class LoginManager {
    var pending: LoginFlow?
    ghost var started: seq<LoginFlow>
    ghost var waiting: set<nat>
    ghost var clock: int

    ghost predicate Valid()
      reads this
    {
      && (pending != null ==> started != [] && started[|started| - 1] == pending)
      && (forall i, j :: 0 <= i < j < |started| ==> started[i] != started[j])
    }

    ghost function View(): (s: State)
      requires Valid()
      reads this, started
      ensures WellFormed(s)
    {
      State(seq(|started|, i requires 0 <= i < |started| reads this, started => started[i].View()),
            if pending == null then None else Some(|started| - 1), waiting, clock)
    }

    constructor ()
      ensures Valid() && View() == INITIAL
    {
      pending := null;
      started, waiting, clock := [], {}, 0;
    }

    /** The new flow becomes the current one and gets a waiter. */
    method Begin(start: Start)
      requires Valid() && start.Started?
      modifies this
      ensures Valid() && pending != null && pending.View() == NewFlow(start)
      ensures fresh(pending) && started == old(started) + [pending]
      ensures View() == State(old(View()).flows + [NewFlow(start)], Some(|old(started)|),
                              old(waiting) + {|old(started)|}, start.at)
    {
      ghost var before := View();
      var current := new LoginFlow(start);
      pending := current;
      waiting := waiting + {|started|};
      started := started + [current];
      clock := start.at;
      assert View().flows == before.flows + [NewFlow(start)];
    }

    /** `requireLogin`, at the time of the manager's clock. */
    method RequireLogin(loaded: bool, now: int, start: Start) returns (r: Reply)
      requires Valid() && now == clock
      modifies this
      ensures Valid() && (View(), r) == CallStep(old(View()), loaded, start)
      ensures old(started) <= started
    {
      ghost var before := View();
      if loaded {
        return LoggedIn;
      }
      if pending != null {
        assert before.flows[before.current.value] == pending.View();
        if pending.status == Succeeded {
          pending := null;
          assert View() == before.(current := None);
          return LoggedIn;
        }
        if pending.status == Pending && now < pending.expiresAt {
          return LoginRequired(PayloadOf(pending.View()));
        }
        pending := null;
      }
      assert View() == before.(current := None);
      if start.StartFailed? {
        return StartError(start.message);
      }
      Begin(start);
      return LoginRequired(PayloadOf(pending.View()));
    }

    /** `wait` after the done channel delivered: compares object identities. */
    method Wait(current: LoginFlow, ghost i: nat, error: Option<string>)
      requires Valid() && i < |started| && started[i] == current
      modifies this`waiting, current
      ensures Valid() && View() == WakeStep(old(View()), i, error)
    {
      waiting := waiting - {i};
      ghost var before := old(View());
      if pending != current {
        assert View().flows == before.flows;
        return;
      }
      assert i == |started| - 1;
      if error.Some? {
        pending.status := Failed;
        pending.error := error.value;
        assert View().flows == before.flows[i := before.flows[i].(status := Failed, error := error.value)];
        return;
      }
      pending.status := Succeeded;
      assert View().flows == before.flows[i := before.flows[i].(status := Succeeded)];
    }
  }
}
