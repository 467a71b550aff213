/**
 One court page against the shared court server (activity/court.js with
 activity/server/court.mjs), as a state machine over arbitrary interleavings of
 clicks, polls, deliveries, failures, other jurors, room expiry and restarts.

 Posted requests live in a message soup that never shrinks: an exchange the page has
 given up on may still be processed later, but none is processed twice.
 */
module CourtProtocol {
  import opened Wrappers
  import opened CourtClient

  type Player = nat
  const ME: Player := 0

  datatype Room = Room(epoch: nat, revision: nat, round: nat, votes: map<Player, Ballot>)

  /** `nextEpoch` counts room incarnations, so no epoch recurs. */
  datatype Server = Server(room: Option<Room>, nextEpoch: nat)

  /** A posted request.  `click` and `shown` record its origin and what was on screen when it was posted. */
  datatype Message = Message(click: nat, out: Outgoing, shown: View, solo: bool, reply: Option<Reply>)

  /** A running `update`, waiting for its current request. */
  datatype Task = Task(action: Action, generation: nat, msg: nat)

  datatype State = State(page: Page, tasks: map<nat, Task>, msgs: map<nat, Message>,
                         server: Server, counted: seq<nat>, nextId: nat)

  datatype Event =
    | Begin(action: Action)
    | Serve(msg: nat, throttled: bool, full: bool)
    | Deliver(task: nat)
    | Abort(task: nat)
    | Vanish
    | Others(player: Player, out: Outgoing, throttled: bool, full: bool)

  const INIT := State(OPENING_PAGE, map[], map[], Server(None, 0), [], 0)

  // ---------------------------------------------------------------- the server

  function Tally(votes: map<Player, Ballot>, b: Ballot): nat {
    |set p | p in votes && votes[p] == b|
  }

  lemma EveryBallotIsTallied(votes: map<Player, Ballot>)
    ensures Tally(votes, Yes) + Tally(votes, No) == |votes|
  {
    var yes := set p | p in votes && votes[p] == Yes;
    var no := set p | p in votes && votes[p] == No;
    assert yes !! no && yes + no == votes.Keys;
  }

  function Reported(r: Room, player: Player): Snapshot {
    Snapshot(r.epoch, r.revision, r.round, Tally(r.votes, Yes), Tally(r.votes, No),
             if player in r.votes then Some(r.votes[player]) else None)
  }

  /** The room a request meets: an absent room is created under a fresh epoch. */
  function Opened(s: Server): Server
    ensures Opened(s).room.Some?
  {
    if s.room.Some? then s else Server(Some(Room(s.nextEpoch, 0, 0, map[])), s.nextEpoch + 1)
  }

  predicate Accepts(r: Room, player: Player, out: Outgoing, throttled: bool) {
    match out.action
    case Read => true
    case Vote(_) => out.epoch == Some(r.epoch) && out.round == Some(r.round)
                    && (player in r.votes || |r.votes| < MAX_BALLOTS)
    case NextCase => out.epoch == Some(r.epoch) && out.round == Some(r.round) && !throttled
  }

  function Mutated(r: Room, player: Player, a: Action): Room {
    match a
    case Read => r
    case Vote(b) => r.(votes := r.votes[player := b], revision := r.revision + 1)
    case NextCase => r.(round := r.round + 1, votes := map[], revision := r.revision + 1)
  }

  function Process(s: Server, player: Player, out: Outgoing, throttled: bool, full: bool): (Server, Reply) {
    if s.room.None? && full then (s, Unavailable)
    else
      var entered := Opened(s);
      var room := entered.room.value;
      if !Accepts(room, player, out, throttled) then (entered, Refused)
      else
        var after := Mutated(room, player, out.action);
        (entered.(room := Some(after)), Fine(Reported(after, player)))
  }

  // ---------------------------------------------------------------- the steps

  function Posts(s: State, task: nat, t: Task, out: Outgoing): State {
    s.(tasks := s.tasks[task := t.(msg := s.nextId)],
       msgs := s.msgs[s.nextId := Message(task, out, s.page.current, s.page.offline, None)],
       nextId := s.nextId + 1)
  }

  function Ends(s: State, task: nat, result: Option<Snapshot>): State
    requires task in s.tasks
  {
    var t := s.tasks[task];
    s.(page := Finished(s.page, t.action, t.generation, result), tasks := s.tasks - {task})
  }

  function Begun(s: State, a: Action): State {
    if Busy(s.page, a) then s
    else if RehearsesAtOnce(s.page, a) then s.(page := Rehearsed(s.page, a))
    else
      var out := Composed(s.page, Posted(s.page, a));
      Posts(s, s.nextId, Task(a, s.page.generation, s.nextId), out).(page := SetBusy(s.page, a, true))
  }

  function Served(s: State, m: nat, throttled: bool, full: bool): State {
    if m !in s.msgs || s.msgs[m].reply.Some? then s
    else
      var (server, reply) := Process(s.server, ME, s.msgs[m].out, throttled, full);
      s.(server := server, msgs := s.msgs[m := s.msgs[m].(reply := Some(reply))],
         counted := if reply.Fine? && !s.msgs[m].out.action.Read? then s.counted + [m] else s.counted)
  }

  function Delivered(s: State, task: nat): State {
    if task !in s.tasks || s.tasks[task].msg !in s.msgs || s.msgs[s.tasks[task].msg].reply.None? then s
    else
      var m := s.msgs[s.tasks[task].msg];
      match m.reply.value
      case Fine(snapshot) => Ends(s, task, if ValidSnapshot(snapshot) then Some(snapshot) else None)
      case Unavailable => Ends(s, task, None)
      case Refused =>
        if m.out.action.Read? then Ends(s, task, None)
        else Posts(s, task, s.tasks[task], Composed(s.page, Read))
  }

  function Apply(s: State, e: Event): State {
    match e
    case Begin(a) => Begun(s, a)
    case Serve(m, throttled, full) => Served(s, m, throttled, full)
    case Deliver(t) => Delivered(s, t)
    case Abort(t) => if t in s.tasks then Ends(s, t, None) else s
    case Vanish => s.(server := s.server.(room := None))
    case Others(p, out, throttled, full) =>
      if p == ME then s else s.(server := Process(s.server, p, out, throttled, full).0)
  }

  function Run(s: State, es: seq<Event>): State
    decreases |es|
  {
    if es == [] then s else Run(Apply(s, es[0]), es[1..])
  }

  // ---------------------------------------------------------------- what every step keeps

  ghost predicate AgesKnown(s: State) {
    && (s.server.room.Some? ==> s.server.room.value.epoch + 1 == s.server.nextEpoch)
    && (s.page.authority.Some? ==> s.page.authority.value.epoch < s.server.nextEpoch)
    && (forall m :: m in s.msgs && s.msgs[m].reply.Some? && s.msgs[m].reply.value.Fine? ==>
          s.msgs[m].reply.value.snapshot.epoch < s.server.nextEpoch)
  }

  ghost predicate TasksKnown(s: State) {
    && (forall m :: m in s.msgs ==> m < s.nextId && s.msgs[m].click <= m)
    && (forall t :: t in s.tasks ==>
          t < s.nextId && s.tasks[t].msg in s.msgs && s.tasks[t].generation <= s.page.generation)
  }

  /** Unless it is rehearsing, the page shows the snapshot it holds as authority. */
  ghost predicate ScreenIsShared(s: State) {
    !s.page.offline && s.page.authority.Some? ==> s.page.current == Shared(s.page.authority.value)
  }

  /** A posted mutation names the epoch and round that were on screen, as shared state, when it was posted. */
  ghost predicate MutationsMatchTheScreen(s: State) {
    forall m :: m in s.msgs && !s.msgs[m].out.action.Read? ==>
      && s.msgs[m].click == m && !s.msgs[m].solo && s.msgs[m].shown.Shared?
      && s.msgs[m].out.epoch == Some(s.msgs[m].shown.snapshot.epoch)
      && s.msgs[m].out.round == Some(s.msgs[m].shown.snapshot.round)
  }

  ghost predicate CountedOnce(s: State) {
    && (forall i, j :: 0 <= i < j < |s.counted| ==> s.counted[i] != s.counted[j])
    && (forall i :: 0 <= i < |s.counted| ==> s.counted[i] in s.msgs && !s.msgs[s.counted[i]].out.action.Read?
                                             && s.msgs[s.counted[i]].reply.Some?
                                             && s.msgs[s.counted[i]].reply.value.Fine?)
  }

  /** This page's recorded ballot came from a counted message for the room's present epoch and round. */
  ghost predicate BallotIsBacked(s: State) {
    s.server.room.Some? && ME in s.server.room.value.votes ==> exists m :: Backs(s, m, s.server.room.value)
  }

  ghost predicate Backs(s: State, m: nat, r: Room)
    requires ME in r.votes
  {
    m in s.counted && m in s.msgs && s.msgs[m].out == Outgoing(Vote(r.votes[ME]), Some(r.epoch), Some(r.round))
  }

  ghost predicate Inv(s: State) {
    AgesKnown(s) && TasksKnown(s) && ScreenIsShared(s) && MutationsMatchTheScreen(s) && CountedOnce(s)
    && BallotIsBacked(s)
  }

  lemma InitInv()
    ensures Inv(INIT)
  {
  }

  /** The server's side of the invariant survives any step that only adds messages. */
  lemma CountsSurvive(s: State, after: State)
    requires CountedOnce(s) && BallotIsBacked(s)
    requires after.server == s.server && after.counted == s.counted
    requires forall m :: m in s.msgs ==> m in after.msgs && after.msgs[m] == s.msgs[m]
    ensures CountedOnce(after) && BallotIsBacked(after)
  {
    if s.server.room.Some? && ME in s.server.room.value.votes {
      var m :| Backs(s, m, s.server.room.value);
      assert Backs(after, m, s.server.room.value);
    }
  }

  /** A request that is a read, or names what is on screen, may be posted. */
  lemma PostKeepsInv(s: State, task: nat, t: Task, out: Outgoing)
    requires Inv(s) && task <= s.nextId && t.generation <= s.page.generation
    requires !out.action.Read? ==>
               task == s.nextId && !s.page.offline && s.page.authority.Some? && out == Composed(s.page, out.action)
    ensures Inv(Posts(s, task, t, out))
  {
    var after := Posts(s, task, t, out);
    assert s.nextId !in s.msgs;
    CountsSurvive(s, after);
    assert AgesKnown(after);
    assert TasksKnown(after);
  }

  lemma PageKeepsInv(s: State, page: Page, tasks: map<nat, Task>)
    requires Inv(s) && page.generation >= s.page.generation
    requires !page.offline && page.authority.Some? ==> page.current == Shared(page.authority.value)
    requires page.authority.Some? ==> page.authority.value.epoch < s.server.nextEpoch
    requires forall t :: t in tasks ==> t in s.tasks && s.tasks[t] == tasks[t]
    ensures Inv(s.(page := page, tasks := tasks))
  {
    CountsSurvive(s, s.(page := page, tasks := tasks));
  }

  lemma BeginKeepsInv(s: State, a: Action)
    requires Inv(s)
    ensures Inv(Begun(s, a))
  {
    if Busy(s.page, a) {
    } else if RehearsesAtOnce(s.page, a) {
      PageKeepsInv(s, Rehearsed(s.page, a), s.tasks);
      assert s.(page := Rehearsed(s.page, a), tasks := s.tasks) == Begun(s, a);
    } else {
      var out := Composed(s.page, Posted(s.page, a));
      var posted := Posts(s, s.nextId, Task(a, s.page.generation, s.nextId), out);
      PostKeepsInv(s, s.nextId, Task(a, s.page.generation, s.nextId), out);
      PageKeepsInv(posted, SetBusy(s.page, a, true), posted.tasks);
      assert posted.(page := SetBusy(s.page, a, true), tasks := posted.tasks) == Begun(s, a);
    }
  }

  lemma EndKeepsInv(s: State, task: nat, result: Option<Snapshot>)
    requires Inv(s) && task in s.tasks && (result.Some? ==> result.value.epoch < s.server.nextEpoch)
    ensures Inv(Ends(s, task, result))
  {
    var t := s.tasks[task];
    PageKeepsInv(s, Finished(s.page, t.action, t.generation, result), s.tasks - {task});
  }

  /** What one request does to the room, as this page's ballot sees it. */
  lemma ProcessBacks(s: Server, out: Outgoing, throttled: bool, full: bool)
    requires s.room.Some? ==> s.room.value.epoch + 1 == s.nextEpoch
    ensures var (after, reply) := Process(s, ME, out, throttled, full);
            && after.nextEpoch >= s.nextEpoch
            && (after.room.Some? ==> after.room.value.epoch + 1 == after.nextEpoch)
            && (reply.Fine? ==> reply.snapshot.epoch < after.nextEpoch)
            && (after.room.Some? && ME in after.room.value.votes ==>
                  || (reply.Fine? && out == Outgoing(Vote(after.room.value.votes[ME]), Some(after.room.value.epoch),
                                                     Some(after.room.value.round)))
                  || (s.room.Some? && ME in s.room.value.votes && s.room.value.votes[ME] == after.room.value.votes[ME]
                      && s.room.value.epoch == after.room.value.epoch && s.room.value.round == after.room.value.round))
  {
  }

  lemma ServeKeepsBallot(s: State, m: nat, throttled: bool, full: bool)
    requires BallotIsBacked(s) && AgesKnown(s)
    ensures BallotIsBacked(Served(s, m, throttled, full))
  {
    var after := Served(s, m, throttled, full);
    if m in s.msgs && s.msgs[m].reply.None? && after.server.room.Some? && ME in after.server.room.value.votes {
      var out, room := s.msgs[m].out, after.server.room.value;
      ProcessBacks(s.server, out, throttled, full);
      if out == Outgoing(Vote(room.votes[ME]), Some(room.epoch), Some(room.round)) && after.counted != s.counted {
        assert after.counted[|s.counted|] == m;
        assert Backs(after, m, room);
      } else {
        var b :| Backs(s, b, s.server.room.value);
        assert Backs(after, b, room);
      }
    }
  }

  lemma ServeKeepsCounts(s: State, m: nat, throttled: bool, full: bool)
    requires CountedOnce(s)
    ensures CountedOnce(Served(s, m, throttled, full))
  {
  }

  lemma ServeKeepsAges(s: State, m: nat, throttled: bool, full: bool)
    requires AgesKnown(s)
    ensures AgesKnown(Served(s, m, throttled, full))
  {
    if m in s.msgs { ProcessBacks(s.server, s.msgs[m].out, throttled, full); }
    hide Process;
  }

  lemma ServeKeepsTheRest(s: State, m: nat, throttled: bool, full: bool)
    requires TasksKnown(s) && ScreenIsShared(s) && MutationsMatchTheScreen(s)
    ensures var after := Served(s, m, throttled, full);
            TasksKnown(after) && ScreenIsShared(after) && MutationsMatchTheScreen(after)
  {
    hide Process;
  }

  lemma ServeKeepsInv(s: State, m: nat, throttled: bool, full: bool)
    requires Inv(s)
    ensures Inv(Served(s, m, throttled, full))
  {
    hide Served, AgesKnown, TasksKnown, ScreenIsShared, MutationsMatchTheScreen, CountedOnce, BallotIsBacked;
    ServeKeepsBallot(s, m, throttled, full);
    ServeKeepsCounts(s, m, throttled, full);
    ServeKeepsAges(s, m, throttled, full);
    ServeKeepsTheRest(s, m, throttled, full);
  }

  lemma DeliverKeepsInv(s: State, task: nat)
    requires Inv(s)
    ensures Inv(Delivered(s, task))
  {
    if task in s.tasks && s.tasks[task].msg in s.msgs && s.msgs[s.tasks[task].msg].reply.Some? {
      var m := s.msgs[s.tasks[task].msg];
      match m.reply.value
      case Fine(snapshot) => EndKeepsInv(s, task, if ValidSnapshot(snapshot) then Some(snapshot) else None);
      case Unavailable => EndKeepsInv(s, task, None);
      case Refused =>
        if m.out.action.Read? { EndKeepsInv(s, task, None); }
        else { PostKeepsInv(s, task, s.tasks[task], Composed(s.page, Read)); }
    }
  }

  lemma OthersKeepInv(s: State, p: Player, out: Outgoing, throttled: bool, full: bool)
    requires Inv(s) && p != ME
    ensures Inv(Apply(s, Others(p, out, throttled, full)))
  {
    var after := Apply(s, Others(p, out, throttled, full));
    assert after == s.(server := after.server);
    if after.server.room.Some? && ME in after.server.room.value.votes {
      var m :| Backs(s, m, s.server.room.value);
      assert Backs(after, m, after.server.room.value);
    }
  }

  lemma StepKeepsInv(s: State, e: Event)
    requires Inv(s)
    ensures Inv(Apply(s, e))
  {
    match e
    case Begin(a) => BeginKeepsInv(s, a);
    case Serve(m, throttled, full) => ServeKeepsInv(s, m, throttled, full);
    case Deliver(t) => DeliverKeepsInv(s, t);
    case Abort(t) => if t in s.tasks { EndKeepsInv(s, t, None); }
    case Vanish =>
    case Others(p, out, throttled, full) => if p != ME { OthersKeepInv(s, p, out, throttled, full); }
  }

  lemma {:induction false} RunKeepsInv(s: State, es: seq<Event>)
    requires Inv(s)
    ensures Inv(Run(s, es))
    decreases |es|
  {
    if es != [] {
      StepKeepsInv(s, es[0]);
      RunKeepsInv(Apply(s, es[0]), es[1..]);
    }
  }

  // ---------------------------------------------------------------- the shared view

  /** `b` is no older than `a`: a later incarnation, or the same one at no lower revision. */
  ghost predicate Forward(a: Option<Snapshot>, b: Option<Snapshot>) {
    a.Some? ==> && b.Some? && (a.value.epoch < b.value.epoch
                               || (a.value.epoch == b.value.epoch && a.value.revision <= b.value.revision))
  }

  ghost predicate AlwaysForward(s: State, es: seq<Event>)
    decreases |es|
  {
    es != [] ==> Forward(s.page.authority, Apply(s, es[0]).page.authority) && AlwaysForward(Apply(s, es[0]), es[1..])
  }

  ghost predicate NeverGoesBack(s: State) {
    forall es: seq<Event> :: AlwaysForward(s, es)
  }

  /** Some outstanding request of the current generation already holds a reply from an older incarnation. */
  ghost predicate StaleReplyWaits(s: State, t: nat) {
    && t in s.tasks && s.tasks[t].generation == s.page.generation && s.tasks[t].msg in s.msgs
    && s.page.authority.Some?
    && var reply := s.msgs[s.tasks[t].msg].reply;
       && reply.Some? && reply.value.Fine? && ValidSnapshot(reply.value.snapshot)
       && reply.value.snapshot.epoch < s.page.authority.value.epoch
  }

  ghost predicate Safe(s: State) {
    s.page.authority.Some? && forall t :: !StaleReplyWaits(s, t)
  }

  lemma EndKeepsSafe(s: State, task: nat, result: Option<Snapshot>)
    requires Inv(s) && Safe(s) && task in s.tasks
    requires result.Some? && s.tasks[task].generation == s.page.generation ==>
               result.value.epoch >= s.page.authority.value.epoch
    ensures Safe(Ends(s, task, result)) && Forward(s.page.authority, Ends(s, task, result).page.authority)
  {
    var after := Ends(s, task, result);
    forall t ensures !StaleReplyWaits(after, t) {
      assert !StaleReplyWaits(s, t);
      assert t in after.tasks ==> s.tasks[t].generation <= s.page.generation;
    }
  }

  lemma PostKeepsSafe(s: State, task: nat, t: Task, out: Outgoing)
    requires Inv(s) && Safe(s)
    ensures Safe(Posts(s, task, t, out))
  {
    var after := Posts(s, task, t, out);
    forall u ensures !StaleReplyWaits(after, u) {
      assert !StaleReplyWaits(s, u);
    }
  }

  lemma BeginKeepsSafe(s: State, a: Action)
    requires Inv(s) && Safe(s)
    ensures Safe(Begun(s, a)) && Begun(s, a).page.authority == s.page.authority
  {
    if !Busy(s.page, a) {
      var posted := Posts(s, s.nextId, Task(a, s.page.generation, s.nextId), Composed(s.page, Posted(s.page, a)));
      PostKeepsSafe(s, s.nextId, Task(a, s.page.generation, s.nextId), Composed(s.page, Posted(s.page, a)));
      forall t ensures !StaleReplyWaits(Begun(s, a), t) { assert !StaleReplyWaits(posted, t); }
    }
  }

  /** A request answered now is answered by an incarnation no older than any the page has seen. */
  lemma ServeKeepsSafe(s: State, m: nat, throttled: bool, full: bool)
    requires Inv(s) && Safe(s)
    ensures Safe(Served(s, m, throttled, full)) && Served(s, m, throttled, full).page == s.page
  {
    var after := Served(s, m, throttled, full);
    forall t ensures !StaleReplyWaits(after, t) {
      assert !StaleReplyWaits(s, t);
    }
  }

  lemma DeliverKeepsSafe(s: State, task: nat)
    requires Inv(s) && Safe(s)
    ensures Safe(Delivered(s, task)) && Forward(s.page.authority, Delivered(s, task).page.authority)
  {
    assert !StaleReplyWaits(s, task);
    if task in s.tasks && s.tasks[task].msg in s.msgs && s.msgs[s.tasks[task].msg].reply.Some? {
      var m := s.msgs[s.tasks[task].msg];
      match m.reply.value
      case Fine(snapshot) => EndKeepsSafe(s, task, if ValidSnapshot(snapshot) then Some(snapshot) else None);
      case Unavailable => EndKeepsSafe(s, task, None);
      case Refused =>
        if m.out.action.Read? { EndKeepsSafe(s, task, None); }
        else { PostKeepsSafe(s, task, s.tasks[task], Composed(s.page, Read)); }
    }
  }

  lemma StepKeepsSafe(s: State, e: Event)
    requires Inv(s) && Safe(s)
    ensures Safe(Apply(s, e)) && Forward(s.page.authority, Apply(s, e).page.authority)
  {
    match e
    case Begin(a) => BeginKeepsSafe(s, a);
    case Serve(m, throttled, full) => ServeKeepsSafe(s, m, throttled, full);
    case Deliver(t) => DeliverKeepsSafe(s, t);
    case Abort(t) => if t in s.tasks { EndKeepsSafe(s, t, None); }
    case Vanish => forall t ensures !StaleReplyWaits(Apply(s, e), t) { assert !StaleReplyWaits(s, t); }
    case Others(_, _, _, _) => forall t ensures !StaleReplyWaits(Apply(s, e), t) { assert !StaleReplyWaits(s, t); }
  }

  lemma {:induction false} SafeRunsGoForward(s: State, es: seq<Event>)
    requires Inv(s) && Safe(s)
    ensures AlwaysForward(s, es) && Safe(Run(s, es)) && Forward(s.page.authority, Run(s, es).page.authority)
    decreases |es|
  {
    if es != [] {
      StepKeepsInv(s, es[0]);
      StepKeepsSafe(s, es[0]);
      SafeRunsGoForward(Apply(s, es[0]), es[1..]);
    }
  }

  lemma StaleDeliveryGoesBack(s: State, t: nat)
    requires StaleReplyWaits(s, t)
    ensures !AlwaysForward(s, [Deliver(t)]) && !NeverGoesBack(s)
  {
  }

  /**
   From a state with shared authority the view can never go back, in any interleaving,
   exactly when no outstanding request of the current generation already holds a reply
   from an older incarnation.
   */
  lemma ViewNeverGoesBackIffSafe(s: State)
    requires Inv(s) && s.page.authority.Some?
    ensures NeverGoesBack(s) <==> Safe(s)
  {
    if Safe(s) {
      forall es ensures AlwaysForward(s, es) { SafeRunsGoForward(s, es); }
    } else {
      var t :| StaleReplyWaits(s, t);
      StaleDeliveryGoesBack(s, t);
    }
  }

  /** Nothing else in flight at the first adoption is enough. */
  lemma AloneAtFirstAdoptionIsSafe(s: State, task: nat)
    requires Inv(s) && s.page.authority.None? && s.tasks.Keys == {task} && Delivered(s, task).page.authority.Some?
    ensures Safe(Delivered(s, task))
  {
  }

  /** Another request of this generation already holds a reply from before `epoch`. */
  ghost predicate HoldsOlder(s: State, t: nat, epoch: nat) {
    && t in s.tasks && s.tasks[t].generation == s.page.generation && s.tasks[t].msg in s.msgs
    && var reply := s.msgs[s.tasks[t].msg].reply;
       reply.Some? && reply.value.Fine? && ValidSnapshot(reply.value.snapshot) && reply.value.snapshot.epoch < epoch
  }

  /**
   A page in any run that adopts for the first time never goes back from there, in any
   interleaving, exactly when no other request then holds a reply from an older incarnation;
   so always when nothing else is in flight.
   */
  lemma FirstAdoptionNeverGoesBackIff(es: seq<Event>, task: nat)
    requires Run(INIT, es).page.authority.None? && Delivered(Run(INIT, es), task).page.authority.Some?
    ensures var s, after := Run(INIT, es), Delivered(Run(INIT, es), task);
            && (NeverGoesBack(after) <==>
                forall t :: t != task ==> !HoldsOlder(s, t, after.page.authority.value.epoch))
            && (s.tasks.Keys == {task} ==> NeverGoesBack(after))
  {
    InitInv();
    RunKeepsInv(INIT, es);
    var s, after := Run(INIT, es), Delivered(Run(INIT, es), task);
    hide Run, NeverGoesBack, Inv, Delivered;
    DeliverKeepsInv(s, task);
    ViewNeverGoesBackIffSafe(after);
    FirstAdoptionIsSafeIff(s, task);
    if s.tasks.Keys == {task} { AloneAtFirstAdoptionIsSafe(s, task); }
  }

  lemma FirstAdoptionIsSafeIff(s: State, task: nat)
    requires Inv(s) && s.page.authority.None? && Delivered(s, task).page.authority.Some?
    ensures var after := Delivered(s, task);
            Safe(after) <==> forall t :: t != task ==> !HoldsOlder(s, t, after.page.authority.value.epoch)
  {
    var after := Delivered(s, task);
    assert after.tasks == s.tasks - {task} && after.msgs == s.msgs && after.page.generation == s.page.generation;
    forall t | t != task ensures StaleReplyWaits(after, t) <==> HoldsOlder(s, t, after.page.authority.value.epoch) {
    }
    assert !StaleReplyWaits(after, task);
  }

  /**
   Adopting a different epoch over an earlier one starts a new generation, in which every earlier
   request is ignored.
   */
  lemma RestartAdoptionIsSafe(s: State, task: nat)
    requires Inv(s) && s.page.authority.Some? && Delivered(s, task).page.authority.Some?
    requires Delivered(s, task).page.authority.value.epoch != s.page.authority.value.epoch
    ensures Safe(Delivered(s, task)) && Delivered(s, task).page.generation == s.page.generation + 1
  {
  }

  lemma EndTasks(s: State, ended: nat, result: Option<Snapshot>, task: nat)
    requires ended in s.tasks
    ensures Ends(s, ended, result).page.generation >= s.page.generation && Ends(s, ended, result).nextId == s.nextId
    ensures task in Ends(s, ended, result).tasks ==>
              task in s.tasks && Ends(s, ended, result).tasks[task] == s.tasks[task]
  {
  }

  lemma StepTasks(s: State, e: Event, task: nat)
    requires Inv(s) && task < s.nextId
    ensures Apply(s, e).page.generation >= s.page.generation && Apply(s, e).nextId >= s.nextId
    ensures task in Apply(s, e).tasks ==>
              task in s.tasks && Apply(s, e).tasks[task].generation == s.tasks[task].generation
  {
    match e
    case Begin(_) =>
    case Serve(_, _, _) =>
    case Deliver(t) =>
      if t in s.tasks && s.tasks[t].msg in s.msgs && s.msgs[s.tasks[t].msg].reply.Some? {
        var reply := s.msgs[s.tasks[t].msg].reply.value;
        EndTasks(s, t, if reply.Fine? && ValidSnapshot(reply.snapshot) then Some(reply.snapshot) else None, task);
      }
    case Abort(t) => if t in s.tasks { EndTasks(s, t, None, task); }
    case Vanish =>
    case Others(_, _, _, _) =>
  }

  /** A running request keeps the generation it was begun in, and the page's generation never falls. */
  lemma {:induction false} GenerationsOnlyGrow(s: State, es: seq<Event>, task: nat)
    requires Inv(s) && task < s.nextId
    ensures Run(s, es).page.generation >= s.page.generation
    ensures task in Run(s, es).tasks ==>
              task in s.tasks && Run(s, es).tasks[task].generation == s.tasks[task].generation
    decreases |es|
  {
    if es != [] {
      StepKeepsInv(s, es[0]);
      StepTasks(s, es[0], task);
      GenerationsOnlyGrow(Apply(s, es[0]), es[1..], task);
    }
  }

  lemma DeliverOutdated(s: State, task: nat)
    requires task in s.tasks && s.tasks[task].generation < s.page.generation
    ensures var page := Delivered(s, task).page;
            page.authority == s.page.authority && page.current == s.page.current
            && page.offline == s.page.offline && page.generation == s.page.generation
  {
  }

  /** So a response begun before an epoch change changes nothing on screen, however late it arrives. */
  lemma OutdatedResponsesAreIgnored(s: State, es: seq<Event>, task: nat)
    requires Inv(s) && task in s.tasks && Run(s, es).page.generation > s.page.generation
    ensures var before, after := Run(s, es).page, Delivered(Run(s, es), task).page;
            after.authority == before.authority && after.current == before.current
            && after.offline == before.offline && after.generation == before.generation
  {
    TasksKnownAt(s, task);
    GenerationsOnlyGrow(s, es, task);
    if task in Run(s, es).tasks { DeliverOutdated(Run(s, es), task); }
  }

  lemma TasksKnownAt(s: State, task: nat)
    requires TasksKnown(s) && task in s.tasks
    ensures task < s.nextId && s.tasks[task].generation <= s.page.generation
  {
  }

  lemma {:induction false} RunConcat(s: State, a: seq<Event>, b: seq<Event>)
    ensures Run(s, a + b) == Run(Run(s, a), b)
    decreases |a|
  {
    if a == [] {
      assert a + b == b;
    } else {
      assert (a + b)[1..] == a[1..] + b;
      RunConcat(Apply(s, a[0]), a[1..], b);
    }
  }

  /** The opening poll fails; then a poll and a refresh are both in flight before anything was adopted. */
  const TWO_READS_IN_FLIGHT: seq<Event> := [Begin(Read), Abort(0), Begin(Read), Begin(NextCase)]
  /** A restart falls between their two answers, and the newer answer arrives first. */
  const RESTART_BETWEEN_REPLIES: seq<Event> := [Serve(1, false, false), Vanish, Serve(2, false, false), Deliver(2)]

  ghost predicate BothReadsWait(s: State) {
    && s.page == Page(None, Solo(0, 0, 0, None), 0, true, 0, {NextControl}, true)
    && 1 in s.tasks && 2 in s.tasks && s.tasks[1] == Task(Read, 0, 1) && s.tasks[2] == Task(NextCase, 0, 2)
    && 1 in s.msgs && 2 in s.msgs && s.server == Server(None, 0)
    && s.msgs[1].out == s.msgs[2].out == Outgoing(Read, None, None) && s.msgs[1].reply == s.msgs[2].reply == None
  }

  lemma TwoReadsWait()
    ensures BothReadsWait(Run(INIT, TWO_READS_IN_FLIGHT))
  {
    var es := TWO_READS_IN_FLIGHT;
    var s1 := Apply(INIT, es[0]);
    var s2 := Apply(s1, es[1]);
    var s3 := Apply(s2, es[2]);
    var s4 := Apply(s3, es[3]);
    assert s2.tasks.Keys == {} && s2.page == Page(None, Solo(0, 0, 0, None), 0, true, 0, {}, false);
    assert Run(INIT, es) == Run(s1, es[1..]) == Run(s2, es[1..][1..]) == Run(s3, es[1..][1..][1..]) == s4;
  }

  lemma EmptyRoomAnswer(s: State, m: nat)
    requires m in s.msgs && s.msgs[m].reply.None? && s.msgs[m].out.action.Read? && s.server.room.None?
    ensures var after := Served(s, m, false, false);
            && after.tasks == s.tasks && after.page == s.page && after.server.nextEpoch == s.server.nextEpoch + 1
            && after.msgs.Keys == s.msgs.Keys && (forall o :: o in s.msgs && o != m ==> after.msgs[o] == s.msgs[o])
            && after.msgs[m].reply == Some(Fine(Snapshot(s.server.nextEpoch, 0, 0, 0, 0, None)))
  {
  }

  lemma FourSteps(s: State, es: seq<Event>)
    requires |es| == 4
    ensures Run(s, es) == Apply(Apply(Apply(Apply(s, es[0]), es[1]), es[2]), es[3])
  {
    hide Apply;
    var a, b, c := es[1..], es[1..][1..], es[1..][1..][1..];
    assert a[0] == es[1] && b[0] == es[2] && c[0] == es[3] && c[1..] == [];
    var s1 := Apply(s, es[0]);
    var s2 := Apply(s1, a[0]);
    var s3 := Apply(s2, b[0]);
    assert Run(s, es) == Run(s1, a) == Run(s2, b) == Run(s3, c) == Run(Apply(s3, c[0]), c[1..]);
  }

  lemma RestartGoesBack(s: State)
    requires BothReadsWait(s)
    ensures StaleReplyWaits(Run(s, RESTART_BETWEEN_REPLIES), 1)
  {
    hide Run, Served, Delivered, StaleReplyWaits;
    FourSteps(s, RESTART_BETWEEN_REPLIES);
    EmptyRoomAnswer(s, 1);
    var vanished := Apply(Served(s, 1, false, false), Vanish);
    EmptyRoomAnswer(vanished, 2);
    var both := Served(vanished, 2, false, false);
    assert Run(s, RESTART_BETWEEN_REPLIES) == Delivered(both, 2);
    NewerReplyFirst(both);
  }

  /** The second read's answer is adopted while the first holds one from before the restart. */
  lemma NewerReplyFirst(s: State)
    requires s.page == Page(None, Solo(0, 0, 0, None), 0, true, 0, {NextControl}, true)
    requires 1 in s.tasks && 2 in s.tasks && s.tasks[1] == Task(Read, 0, 1) && s.tasks[2] == Task(NextCase, 0, 2)
    requires 1 in s.msgs && s.msgs[1].reply == Some(Fine(Snapshot(0, 0, 0, 0, 0, None)))
    requires 2 in s.msgs && s.msgs[2].reply == Some(Fine(Snapshot(1, 0, 0, 0, 0, None)))
    ensures StaleReplyWaits(Delivered(s, 2), 1)
  {
  }

  /** Without the condition the view can go back, from the very first page load. */
  lemma FirstAdoptionIsUnprotected()
    ensures !AlwaysForward(Run(INIT, TWO_READS_IN_FLIGHT + RESTART_BETWEEN_REPLIES), [Deliver(1)])
  {
    TwoReadsWait();
    RunConcat(INIT, TWO_READS_IN_FLIGHT, RESTART_BETWEEN_REPLIES);
    RestartGoesBack(Run(INIT, TWO_READS_IN_FLIGHT));
    StaleDeliveryGoesBack(Run(INIT, TWO_READS_IN_FLIGHT + RESTART_BETWEEN_REPLIES), 1);
  }

  // ---------------------------------------------------------------- ballots

  /** In every run, a mutation is posted only while shared state is on screen, names it, and counts at most once. */
  lemma EveryMutationMatchesTheScreen(es: seq<Event>)
    ensures MutationsMatchTheScreen(Run(INIT, es)) && CountedOnce(Run(INIT, es))
  {
    InitInv();
    RunKeepsInv(INIT, es);
  }

  /** A ballot the room holds for this page was clicked, once, while that very case was on screen as shared state. */
  lemma CountedBallotWasForTheCaseOnScreen(s: State)
    requires Inv(s) && s.server.room.Some? && ME in s.server.room.value.votes
    ensures exists m :: && Backs(s, m, s.server.room.value) && s.msgs[m].click == m && s.msgs[m].shown.Shared?
                        && s.msgs[m].shown.snapshot.epoch == s.server.room.value.epoch
                        && s.msgs[m].shown.snapshot.round == s.server.room.value.round
  {
    var m :| Backs(s, m, s.server.room.value);
    assert !s.msgs[m].out.action.Read?;
  }

  function Mutations(s: State): set<nat> {
    set m | m in s.msgs && !s.msgs[m].out.action.Read?
  }

  function Clicks(es: seq<Event>): nat {
    if es == [] then 0 else (if es[0].Begin? && !es[0].action.Read? then 1 else 0) + Clicks(es[1..])
  }

  /** Only a click posts a mutation, and at most one; a refusal, a refresh or a rehearsed vote never does. */
  lemma StepPostsAtMostItsClick(s: State, e: Event)
    requires Inv(s)
    ensures Mutations(s) <= Mutations(Apply(s, e)) <= Mutations(s) + {s.nextId}
    ensures Mutations(Apply(s, e)) != Mutations(s) ==>
              && e.Begin? && !e.action.Read? && !s.page.offline && s.page.authority.Some?
              && Apply(s, e).msgs[s.nextId].out.action == e.action
  {
  }

  lemma {:induction false} EachClickPostsAtMostOneMutation(s: State, es: seq<Event>)
    requires Inv(s)
    ensures |Mutations(Run(s, es))| <= |Mutations(s)| + Clicks(es)
    decreases |es|
  {
    if es != [] {
      var next := Apply(s, es[0]);
      StepKeepsInv(s, es[0]);
      StepPostsAtMostItsClick(s, es[0]);
      EachClickPostsAtMostOneMutation(next, es[1..]);
      if Mutations(next) != Mutations(s) {
        assert Mutations(next) == Mutations(s) + {s.nextId};
      }
    }
  }
}
