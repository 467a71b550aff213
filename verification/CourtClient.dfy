/**
 The court page (activity/court.js): the pure effect of each handler on the page's
 module-level variables, and a class whose methods perform those effects in place.
 */
module CourtClient {
  import opened Wrappers

  const MAX_SAFE_INTEGER := 0x1F_FFFF_FFFF_FFFF
  const MAX_BALLOTS := 100

  datatype Ballot = Yes | No
  datatype Action = Read | Vote(ballot: Ballot) | NextCase

  /** Epochs are numbered by incarnation; the page only ever compares them for equality. */
  datatype Snapshot = Snapshot(epoch: nat, revision: nat, round: nat, yes: nat, no: nat, vote: Option<Ballot>)

  /** What is on screen: a server snapshot or a solo rehearsal. */
  datatype View = Shared(snapshot: Snapshot) | Solo(round: nat, yes: nat, no: nat, vote: Option<Ballot>)

  datatype Control = VoteControl | NextControl

  datatype Page = Page(authority: Option<Snapshot>, current: View, generation: nat, offline: bool,
                       localRound: nat, pending: set<Control>, pollPending: bool)

  /** The status of one HTTP exchange, as `request` distinguishes them. */
  datatype Reply = Fine(snapshot: Snapshot) | Refused | Unavailable

  datatype Outgoing = Outgoing(action: Action, epoch: Option<nat>, round: Option<nat>)

  function ViewRound(v: View): nat {
    match v
    case Shared(s) => s.round
    case Solo(r, _, _, _) => r
  }

  predicate ValidSnapshot(s: Snapshot) {
    s.revision <= MAX_SAFE_INTEGER && s.round <= MAX_SAFE_INTEGER && s.yes + s.no <= MAX_BALLOTS
  }

  function ControlOf(a: Action): Control
    requires !a.Read?
  {
    if a.Vote? then VoteControl else NextControl
  }

  predicate Busy(p: Page, a: Action) {
    if a.Read? then p.pollPending else ControlOf(a) in p.pending
  }

  function SetBusy(p: Page, a: Action, busy: bool): Page {
    if a.Read? then p.(pollPending := busy)
    else p.(pending := if busy then p.pending + {ControlOf(a)} else p.pending - {ControlOf(a)})
  }

  const OPENING_PAGE := Page(None, Solo(0, 0, 0, None), 0, false, 0, {}, false)

  predicate Adopts(p: Page, s: Snapshot, requestGeneration: nat) {
    requestGeneration == p.generation
    && !(p.authority.Some? && p.authority.value.epoch == s.epoch && s.revision < p.authority.value.revision)
  }

  function Adopted(p: Page, s: Snapshot, requestGeneration: nat): Page {
    if !Adopts(p, s, requestGeneration) then p
    else p.(authority := Some(s), current := Shared(s), offline := false,
            generation := if p.authority.Some? && p.authority.value.epoch != s.epoch then p.generation + 1
                          else p.generation)
  }

  function Rehearsed(p: Page, a: Action): Page {
    var round := if p.offline then p.localRound else ViewRound(p.current);
    var shown := if p.offline then p.current else Solo(round, 0, 0, None);
    var next := if !a.NextCase? then round else if round == MAX_SAFE_INTEGER then 0 else round + 1;
    p.(offline := true, localRound := next,
       current := match a
                  case Read => shown
                  case NextCase => Solo(next, 0, 0, None)
                  case Vote(Yes) => Solo(next, 1, 0, Some(Yes))
                  case Vote(No) => Solo(next, 0, 1, Some(No)))
  }

  /** The body of a request made now. */
  function Composed(p: Page, a: Action): Outgoing {
    if p.authority.Some? then Outgoing(a, Some(p.authority.value.epoch), Some(p.authority.value.round))
    else Outgoing(a, None, None)
  }

  /** A click before any shared state, while nothing has failed yet, is rehearsed at once. */
  predicate RehearsesAtOnce(p: Page, a: Action) {
    !a.Read? && !p.offline && p.authority.None?
  }

  /** The action actually posted: an explicit action after a disconnection only refreshes. */
  function Posted(p: Page, a: Action): Action {
    if p.offline then Read else a
  }

  /** The catch branch of `update`. */
  function Failed(p: Page, a: Action, requestGeneration: nat): Page {
    if requestGeneration == p.generation then Rehearsed(p, a) else p
  }

  /** The rest of `update` once the exchange has produced a snapshot or thrown. */
  function Finished(p: Page, a: Action, requestGeneration: nat, result: Option<Snapshot>): Page {
    SetBusy(if result.Some? then Adopted(p, result.value, requestGeneration)
            else Failed(p, a, requestGeneration), a, false)
  }

  // ---------------------------------------------------------------- the page as an object

  class CourtPage {
    var current: View
    var pollPending: bool
    var pending: set<Control>
    var generation: nat
    var authority: Option<Snapshot>
    var localRound: nat
    var offline: bool

    constructor ()
      ensures State() == OPENING_PAGE
    {
      current, pollPending, pending := Solo(0, 0, 0, None), false, {};
      generation, authority, localRound, offline := 0, None, 0, false;
    }

    function State(): Page
      reads this
    {
      Page(authority, current, generation, offline, localRound, pending, pollPending)
    }

    method Render(v: View)
      modifies this`current
      ensures current == v
    {
      current := v;
    }

    method AdoptSnapshot(s: Snapshot, requestGeneration: nat) returns (adopted: bool)
      modifies this
      ensures State() == Adopted(old(State()), s, requestGeneration)
      ensures adopted == Adopts(old(State()), s, requestGeneration)
    {
      if requestGeneration != generation { return false; }
      if authority.Some? && authority.value.epoch == s.epoch && s.revision < authority.value.revision { return false; }
      if authority.Some? && authority.value.epoch != s.epoch { generation := generation + 1; }
      authority := Some(s);
      Render(Shared(s));
      offline := false;
      return true;
    }

    method Rehearse(a: Action)
      modifies this
      ensures State() == Rehearsed(old(State()), a)
    {
      if !offline {
        localRound := ViewRound(current);
        Render(Solo(localRound, 0, 0, None));
      }
      offline := true;
      if a.Read? { return; }
      if a.NextCase? { localRound := if localRound == MAX_SAFE_INTEGER then 0 else localRound + 1; }
      var yes, no, vote := 0, 0, None;
      if a.Vote? {
        vote := Some(a.ballot);
        if a.ballot.Yes? { yes := 1; } else { no := 1; }
      }
      Render(Solo(localRound, yes, no, vote));
    }

    /** The synchronous prefix of `update`, up to its first await: what is posted, if anything. */
    method Begin(a: Action) returns (posted: Option<Outgoing>, requestGeneration: nat)
      requires !Busy(State(), a)
      modifies this
      ensures requestGeneration == old(generation)
      ensures posted == if RehearsesAtOnce(old(State()), a) then None
                        else Some(Composed(old(State()), Posted(old(State()), a)))
      ensures State() == if posted.None? then Rehearsed(old(State()), a) else SetBusy(old(State()), a, true)
    {
      if a.Read? { pollPending := true; } else { pending := pending + {ControlOf(a)}; }
      requestGeneration := generation;
      if !a.Read? && offline {
        posted := Some(Composed(State(), Read));
      } else if !a.Read? && authority.None? {
        Rehearse(a);
        posted := None;
        pending := pending - {ControlOf(a)};
        assert pending == old(pending);
      } else {
        posted := Some(Composed(State(), a));
      }
    }

    /** The rest of `update` once the exchange has succeeded or thrown. */
    method Finish(a: Action, requestGeneration: nat, result: Option<Snapshot>)
      modifies this
      ensures State() == Finished(old(State()), a, requestGeneration, result)
    {
      if result.Some? {
        var _ := AdoptSnapshot(result.value, requestGeneration);
      } else if requestGeneration == generation {
        Rehearse(a);
      }
      if a.Read? { pollPending := false; } else { pending := pending - {ControlOf(a)}; }
    }
  }
}
