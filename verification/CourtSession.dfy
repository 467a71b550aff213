/**
 What a court session does when its requests get through: a vote is counted and shown, the next
 case is called, a poll shows the room, and a click on a case that is over, or while the page is
 cut off, only refreshes it.
 */
module CourtSession {
  import opened Wrappers
  import opened CourtClient
  import opened CourtProtocol

  // ---------------------------------------------------------------- what the room and the page know

  /** A room holds at most a hundred ballots, and nobody has seen a later revision of it. */
  ghost predicate Bounded(s: State) {
    s.server.room.Some? ==>
      var r := s.server.room.value;
      && |r.votes| <= MAX_BALLOTS && r.round <= r.revision
      && (s.page.authority.Some? ==> NoLater(s.page.authority.value, r))
      && (forall m :: m in s.msgs && s.msgs[m].reply.Some? && s.msgs[m].reply.value.Fine? ==>
            NoLater(s.msgs[m].reply.value.snapshot, r))
  }

  predicate NoLater(snapshot: Snapshot, r: Room) {
    snapshot.epoch == r.epoch ==> snapshot.revision <= r.revision
  }

  /** What one request makes of the room. */
  lemma ProcessBounds(s: Server, player: Player, out: Outgoing, throttled: bool, full: bool)
    requires s.room.Some? ==> s.room.value.epoch + 1 == s.nextEpoch && |s.room.value.votes| <= MAX_BALLOTS
                              && s.room.value.round <= s.room.value.revision
    ensures var (after, reply) := Process(s, player, out, throttled, full);
            && (after.room.Some? ==> |after.room.value.votes| <= MAX_BALLOTS
                                     && after.room.value.round <= after.room.value.revision)
            && (s.room.Some? ==> after.room.Some? && after.room.value.epoch == s.room.value.epoch
                                 && after.room.value.revision >= s.room.value.revision)
            && (s.room.None? && after.room.Some? ==> after.room.value.epoch == s.nextEpoch)
            && (reply.Fine? ==> after.room.Some? && NoLater(reply.snapshot, after.room.value))
  {
  }

  lemma ServeKeepsBounds(s: State, m: nat, throttled: bool, full: bool)
    requires Inv(s) && Bounded(s)
    ensures Bounded(Served(s, m, throttled, full))
  {
    if m in s.msgs { ProcessBounds(s.server, ME, s.msgs[m].out, throttled, full); }
    hide Process, TasksKnown, ScreenIsShared, MutationsMatchTheScreen, CountedOnce, BallotIsBacked;
  }

  lemma OthersKeepBounds(s: State, p: Player, out: Outgoing, throttled: bool, full: bool)
    requires Inv(s) && Bounded(s)
    ensures Bounded(Apply(s, Others(p, out, throttled, full)))
  {
    ProcessBounds(s.server, p, out, throttled, full);
    hide Process, TasksKnown, ScreenIsShared, MutationsMatchTheScreen, CountedOnce, BallotIsBacked;
  }

  lemma EndKeepsBounds(s: State, task: nat, result: Option<Snapshot>)
    requires Bounded(s) && task in s.tasks
    requires result.Some? && s.server.room.Some? ==> NoLater(result.value, s.server.room.value)
    ensures Bounded(Ends(s, task, result))
  {
  }

  lemma BeginKeepsBounds(s: State, a: Action)
    requires Bounded(s)
    ensures Bounded(Begun(s, a))
  {
  }

  lemma DeliverKeepsBounds(s: State, task: nat)
    requires Bounded(s)
    ensures Bounded(Delivered(s, task))
  {
    hide Finished;
    if task in s.tasks && s.tasks[task].msg in s.msgs && s.msgs[s.tasks[task].msg].reply.Some? {
      var m := s.msgs[s.tasks[task].msg];
      match m.reply.value
      case Fine(snapshot) => EndKeepsBounds(s, task, if ValidSnapshot(snapshot) then Some(snapshot) else None);
      case Unavailable => EndKeepsBounds(s, task, None);
      case Refused => if m.out.action.Read? { EndKeepsBounds(s, task, None); }
    }
  }

  lemma StepKeepsBounds(s: State, e: Event)
    requires Inv(s) && Bounded(s)
    ensures Bounded(Apply(s, e))
  {
    match e
    case Begin(a) => BeginKeepsBounds(s, a);
    case Serve(m, throttled, full) => ServeKeepsBounds(s, m, throttled, full);
    case Deliver(t) => DeliverKeepsBounds(s, t);
    case Abort(t) => if t in s.tasks { EndKeepsBounds(s, t, None); }
    case Vanish =>
    case Others(p, out, throttled, full) => if p != ME { OthersKeepBounds(s, p, out, throttled, full); }
  }

  lemma {:induction false} RunKeepsBounds(s: State, es: seq<Event>)
    requires Inv(s) && Bounded(s)
    ensures Inv(Run(s, es)) && Bounded(Run(s, es))
    decreases |es|
  {
    hide Inv, Bounded, Apply;
    if es != [] {
      StepKeepsInv(s, es[0]);
      StepKeepsBounds(s, es[0]);
      RunKeepsBounds(Apply(s, es[0]), es[1..]);
    }
  }

  lemma Reached(es: seq<Event>)
    ensures Inv(Run(INIT, es)) && Bounded(Run(INIT, es))
  {
    InitInv();
    RunKeepsBounds(INIT, es);
    hide Run;
  }

  // ---------------------------------------------------------------- one exchange

  /** A click or poll whose request is served and answered at once. */
  function Exchanged(s: State, a: Action, throttled: bool, full: bool): State {
    Run(s, [Begin(a), Serve(s.nextId, throttled, full), Deliver(s.nextId)])
  }

  lemma ThreeEvents(s: State, a: Event, b: Event, c: Event)
    ensures Run(s, [a, b, c]) == Apply(Apply(Apply(s, a), b), c)
  {
    hide Apply;
    assert [a, b, c][1..] == [b, c] && [b, c][1..] == [c] && [c][1..] == [];
    assert Run(Apply(s, a), [b, c]) == Run(Apply(Apply(s, a), b), [c]);
    assert Run(Apply(Apply(Apply(s, a), b), c), []) == Apply(Apply(Apply(s, a), b), c);
  }

  /** An exchange leaves the room as the server made it, and shows its answer. */
  lemma ExchangeShows(s: State, a: Action, throttled: bool, full: bool)
    requires Inv(s) && !Busy(s.page, a) && !RehearsesAtOnce(s.page, a)
    ensures var (server, reply) := Process(s.server, ME, Composed(s.page, Posted(s.page, a)), throttled, full);
            var after := Exchanged(s, a, throttled, full);
            && after.server == server
            && (reply.Fine? && ValidSnapshot(reply.snapshot) ==>
                  after.page == Finished(SetBusy(s.page, a, true), a, s.page.generation, Some(reply.snapshot)))
  {
    var id := s.nextId;
    ThreeEvents(s, Begin(a), Serve(id, throttled, full), Deliver(id));
    hide Process, Run, Composed, Finished;
    assert id !in s.msgs;
    var begun := Apply(s, Begin(a));
    assert begun.msgs[id].reply.None? && begun.msgs[id].out == Composed(s.page, Posted(s.page, a));
    assert begun.tasks[id] == Task(a, s.page.generation, id);
  }

  /** The snapshot reports the room: its case, how many of its ballots are for and against, and the player's own. */
  ghost predicate Reports(snapshot: Snapshot, r: Room, player: Player) {
    && snapshot.epoch == r.epoch && snapshot.revision == r.revision && snapshot.round == r.round
    && snapshot.yes == |set p | p in r.votes && r.votes[p] == Yes|
    && snapshot.no == |set p | p in r.votes && r.votes[p] == No|
    && (if player in r.votes then snapshot.vote == Some(r.votes[player]) else snapshot.vote == None)
  }

  /** The page shows the room, connected, and nothing of the action is pending any more. */
  ghost predicate ShowsTheRoom(s: State, a: Action) {
    && s.server.room.Some? && s.page.current.Shared? && Reports(s.page.current.snapshot, s.server.room.value, ME)
    && s.page.authority == Some(s.page.current.snapshot) && !s.page.offline && !Busy(s.page, a)
  }

  /** The case on screen is the room's present case. */
  ghost predicate OnTheCase(s: State) {
    && s.server.room.Some? && s.page.authority.Some? && !s.page.offline
    && s.page.authority.value.epoch == s.server.room.value.epoch
    && s.page.authority.value.round == s.server.room.value.round
  }

  /** Numbers that JavaScript still counts exactly, after one more change. */
  predicate Countable(s: State) {
    s.server.room.Some? ==> s.server.room.value.revision < MAX_SAFE_INTEGER
  }

  lemma ReportedReports(r: Room, player: Player)
    requires |r.votes| <= MAX_BALLOTS && r.round <= r.revision <= MAX_SAFE_INTEGER
    ensures Reports(Reported(r, player), r, player) && ValidSnapshot(Reported(r, player))
  {
    EveryBallotIsTallied(r.votes);
  }

  /** An answer that reports the room is adopted and shown. */
  lemma AnswerIsShown(s: State, a: Action, posted: Action, room: Room, throttled: bool, full: bool)
    requires Inv(s) && Bounded(s) && !Busy(s.page, a) && !RehearsesAtOnce(s.page, a) && Posted(s.page, a) == posted
    requires Process(s.server, ME, Composed(s.page, posted), throttled, full)
             == (s.server.(room := Some(room), nextEpoch := if s.server.room.Some? then s.server.nextEpoch
                                                            else s.server.nextEpoch + 1), Fine(Reported(room, ME)))
    requires |room.votes| <= MAX_BALLOTS && room.round <= room.revision <= MAX_SAFE_INTEGER
    requires if s.server.room.Some? then room.epoch == s.server.room.value.epoch
                                         && room.revision >= s.server.room.value.revision
             else room.epoch == s.server.nextEpoch
    ensures var after := Exchanged(s, a, throttled, full); after.server.room == Some(room) && ShowsTheRoom(after, a)
  {
    hide Process, Exchanged, Reports, TasksKnown, ScreenIsShared, MutationsMatchTheScreen, CountedOnce, BallotIsBacked;
    ExchangeShows(s, a, throttled, full);
    ReportedReports(room, ME);
  }

  /**
   A vote on the case on screen is counted: it becomes the page's ballot in the room, the other
   ballots stay, and the page shows the room with that ballot.
   */
  lemma AVoteIsCounted(es: seq<Event>, b: Ballot, throttled: bool, full: bool)
    requires var s := Run(INIT, es);
             && OnTheCase(s) && Countable(s) && VoteControl !in s.page.pending
             && (ME in s.server.room.value.votes || |s.server.room.value.votes| < MAX_BALLOTS)
    ensures var s := Run(INIT, es); var r := s.server.room.value; var after := Exchanged(s, Vote(b), throttled, full);
            && after.server.room == Some(Room(r.epoch, r.revision + 1, r.round, r.votes[ME := b]))
            && ShowsTheRoom(after, Vote(b)) && after.page.current.snapshot.vote == Some(b)
  {
    var s := Run(INIT, es);
    Reached(es);
    hide Run, Exchanged, Inv;
    var r := s.server.room.value;
    AnswerIsShown(s, Vote(b), Vote(b), Room(r.epoch, r.revision + 1, r.round, r.votes[ME := b]), throttled, full);
  }

  /** The next case is called from the case on screen: the round goes up and the ballots are cleared. */
  lemma TheNextCaseIsCalled(es: seq<Event>, full: bool)
    requires var s := Run(INIT, es); OnTheCase(s) && Countable(s) && NextControl !in s.page.pending
    ensures var s := Run(INIT, es); var r := s.server.room.value; var after := Exchanged(s, NextCase, false, full);
            && after.server.room == Some(Room(r.epoch, r.revision + 1, r.round + 1, map[]))
            && ShowsTheRoom(after, NextCase)
  {
    var s := Run(INIT, es);
    Reached(es);
    hide Run, Exchanged, Inv;
    var r := s.server.room.value;
    AnswerIsShown(s, NextCase, NextCase, Room(r.epoch, r.revision + 1, r.round + 1, map[]), false, full);
  }

  /** The room a poll finds: the present one, or a new one if there is none. */
  function RoomFound(s: Server): Room {
    if s.room.Some? then s.room.value else Room(s.nextEpoch, 0, 0, map[])
  }

  /**
   A poll, or any action of a page that is cut off, shows the room and changes nothing in it;
   after it the page is connected.
   */
  lemma APollShowsTheRoom(es: seq<Event>, a: Action, throttled: bool)
    requires var s := Run(INIT, es); !Busy(s.page, a) && (a.Read? || s.page.offline) && Countable(s)
    ensures var s := Run(INIT, es); var after := Exchanged(s, a, throttled, false);
            after.server.room == Some(RoomFound(s.server)) && ShowsTheRoom(after, a)
  {
    var s := Run(INIT, es);
    Reached(es);
    hide Run, Exchanged, Inv;
    AnswerIsShown(s, a, Read, RoomFound(s.server), throttled, false);
  }

  // ---------------------------------------------------------------- clicks in vain

  lemma FiveEvents(s: State, a: Event, b: Event, c: Event, d: Event, e: Event)
    ensures Run(s, [a, b, c, d, e]) == Apply(Apply(Apply(Apply(Apply(s, a), b), c), d), e)
  {
    hide Apply;
    assert [a, b, c, d, e][1..] == [b, c, d, e] && [b, c, d, e][1..] == [c, d, e];
    var three := Apply(Apply(s, a), b);
    assert Run(s, [a, b, c, d, e]) == Run(Apply(s, a), [b, c, d, e]);
    assert Run(Apply(s, a), [b, c, d, e]) == Run(three, [c, d, e]);
    ThreeEvents(three, c, d, e);
  }

  /** A click whose request is refused, and the refresh that follows it by itself. */
  function Refreshed(s: State, a: Action): State {
    Run(s, [Begin(a), Serve(s.nextId, false, false), Deliver(s.nextId), Serve(s.nextId + 1, false, false),
            Deliver(s.nextId)])
  }

  /** The steps up to the posted refresh. */
  lemma RefusedAndPosted(s: State, a: Action)
    requires Inv(s) && !a.Read? && !Busy(s.page, a) && !RehearsesAtOnce(s.page, a) && !s.page.offline
    requires Process(s.server, ME, Composed(s.page, a), false, false) == (s.server, Refused)
    ensures var id := s.nextId;
            var t := Apply(Apply(Apply(s, Begin(a)), Serve(id, false, false)), Deliver(id));
            && t.server == s.server && t.counted == s.counted && t.page == SetBusy(s.page, a, true)
            && id in t.tasks && t.tasks[id] == Task(a, s.page.generation, id + 1) && id + 1 in t.msgs
            && t.msgs[id + 1].out == Composed(SetBusy(s.page, a, true), Read) && t.msgs[id + 1].reply == None
  {
    var id := s.nextId;
    assert Composed(s.page, a).action == a;
    hide Process, Composed;
    assert id !in s.msgs;
    var begun := Apply(s, Begin(a));
    assert begun.msgs[id].reply.None? && begun.msgs[id].out == Composed(s.page, a);
    var served := Apply(begun, Serve(id, false, false));
    assert served.msgs[id].reply == Some(Refused);
  }

  lemma RefreshShows(s: State, a: Action, snapshot: Snapshot)
    requires Inv(s) && !a.Read? && !Busy(s.page, a) && !RehearsesAtOnce(s.page, a) && !s.page.offline
    requires Process(s.server, ME, Composed(s.page, a), false, false) == (s.server, Refused)
    requires Process(s.server, ME, Composed(SetBusy(s.page, a, true), Read), false, false) == (s.server, Fine(snapshot))
    requires ValidSnapshot(snapshot)
    ensures var after := Refreshed(s, a);
            && after.server == s.server && after.counted == s.counted
            && after.page == Finished(SetBusy(s.page, a, true), a, s.page.generation, Some(snapshot))
  {
    hide *;
    var id := s.nextId;
    var posted := Apply(Apply(Apply(s, Begin(a)), Serve(id, false, false)), Deliver(id));
    RefreshedSteps(s, a);
    RefusedAndPosted(s, a);
    ReadIsComposed(SetBusy(s.page, a, true));
    RefreshArrives(posted, id, snapshot);
  }

  lemma RefreshedSteps(s: State, a: Action)
    ensures var id := s.nextId; var posted := Apply(Apply(Apply(s, Begin(a)), Serve(id, false, false)), Deliver(id));
            Refreshed(s, a) == Apply(Apply(posted, Serve(id + 1, false, false)), Deliver(id))
  {
    hide Apply, Run;
    var id := s.nextId;
    FiveEvents(s, Begin(a), Serve(id, false, false), Deliver(id), Serve(id + 1, false, false), Deliver(id));
  }

  lemma ReadIsComposed(p: Page)
    ensures Composed(p, Read).action == Read
  {
  }

  /** A task that waits for a posted refresh ends by what the server answers. */
  lemma RefreshArrives(s: State, t: nat, snapshot: Snapshot)
    requires t in s.tasks && s.tasks[t].msg in s.msgs && ValidSnapshot(snapshot)
    requires var m := s.msgs[s.tasks[t].msg];
             && m.reply.None? && m.out.action.Read?
             && Process(s.server, ME, m.out, false, false) == (s.server, Fine(snapshot))
    ensures var task := s.tasks[t]; var after := Apply(Apply(s, Serve(task.msg, false, false)), Deliver(t));
            && after.server == s.server && after.counted == s.counted
            && after.page == Finished(s.page, task.action, task.generation, Some(snapshot))
  {
    hide *;
    AnswerArrives(s, s.tasks[t].msg, snapshot);
    AnswerEndsTheTask(Apply(s, Serve(s.tasks[t].msg, false, false)), t, snapshot);
  }

  /** The server answers a read by its snapshot. */
  lemma AnswerArrives(s: State, m: nat, snapshot: Snapshot)
    requires m in s.msgs && s.msgs[m].reply.None? && s.msgs[m].out.action.Read?
    requires Process(s.server, ME, s.msgs[m].out, false, false) == (s.server, Fine(snapshot))
    ensures Apply(s, Serve(m, false, false)) == s.(msgs := s.msgs[m := s.msgs[m].(reply := Some(Fine(snapshot)))])
  {
    hide Process;
  }

  /** A valid answer ends the task that waits for it, whatever its action. */
  lemma AnswerEndsTheTask(s: State, t: nat, snapshot: Snapshot)
    requires t in s.tasks && s.tasks[t].msg in s.msgs && s.msgs[s.tasks[t].msg].reply == Some(Fine(snapshot))
    requires ValidSnapshot(snapshot)
    ensures var task := s.tasks[t]; var after := Apply(s, Deliver(t));
            && after.server == s.server && after.counted == s.counted
            && after.page == Finished(s.page, task.action, task.generation, Some(snapshot))
  {
    hide Finished;
  }

  /**
   A click on a case that is over is refused: nothing in the room changes, nothing is counted,
   and the refresh that follows shows the room's present case.
   */
  lemma AStaleClickOnlyRefreshes(es: seq<Event>, a: Action)
    requires var s := Run(INIT, es);
             && s.server.room.Some? && s.page.authority.Some? && !s.page.offline && !OnTheCase(s) && Countable(s)
             && !a.Read? && !Busy(s.page, a)
    ensures var s := Run(INIT, es); var after := Refreshed(s, a);
            after.server == s.server && after.counted == s.counted && ShowsTheRoom(after, a)
  {
    var s := Run(INIT, es);
    Reached(es);
    hide Run, Refreshed, Reports, TasksKnown, ScreenIsShared, MutationsMatchTheScreen, CountedOnce, BallotIsBacked;
    var r := s.server.room.value;
    ReportedReports(r, ME);
    assert s.server.(room := Some(r)) == s.server;
    RefreshShows(s, a, Reported(r, ME));
  }

  /**
   A rehearsal keeps to the case it started from: a vote is the only ballot shown, the next case
   clears it, and further polls change nothing. What is known of the shared room stays as it was.
   */
  lemma ARehearsalIsSolo(p: Page, a: Action)
    ensures var q := Rehearsed(p, a); var from := if p.offline then p.localRound else ViewRound(p.current);
            && q.offline && q.authority == p.authority && q.generation == p.generation && q.pending == p.pending
            && (!a.Read? || !p.offline ==> q.current.Solo? && q.current.round == q.localRound)
            && (a.Read? ==> q.localRound == from && Rehearsed(q, Read) == q && (p.offline ==> q.current == p.current)
                            && (!p.offline ==> q.current.yes == q.current.no == 0 && q.current.vote == None))
            && (a.Vote? ==> q.localRound == from && q.current.vote == Some(a.ballot)
                            && q.current.yes + q.current.no == 1 && (q.current.yes == 1 <==> a.ballot == Yes))
            && (a.NextCase? ==> q.current.yes == q.current.no == 0 && q.current.vote == None
                                && (from < MAX_SAFE_INTEGER ==> q.localRound == from + 1)
                                && (from == MAX_SAFE_INTEGER ==> q.localRound == 0))
  {
  }

  /**
   A request that fails shows a rehearsal of the case on screen, if the page has not moved on, and
   changes no room.
   */
  lemma AFailedRequestRehearses(s: State, a: Action)
    requires Inv(s) && !Busy(s.page, a) && !RehearsesAtOnce(s.page, a)
    ensures var after := Run(s, [Begin(a), Abort(s.nextId)]);
            after.server == s.server && after.page == SetBusy(Rehearsed(SetBusy(s.page, a, true), a), a, false)
  {
    var id := s.nextId;
    assert [Begin(a), Abort(id)][1..] == [Abort(id)] && [Abort(id)][1..] == [];
    var begun := Apply(s, Begin(a));
    assert begun.tasks[id] == Task(a, s.page.generation, id);
    assert Run(s, [Begin(a), Abort(id)]) == Run(begun, [Abort(id)]);
    assert Run(begun, [Abort(id)]) == Run(Apply(begun, Abort(id)), []);
    hide Composed, Rehearsed;
  }
}
