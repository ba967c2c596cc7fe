/**
 * The process-wide `rosters` map of bot.js: posted-message id to the record
 * of the roster that message shows, and the button handler that looks a
 * record up and applies a join or a leave to it.
 *
 * The pure functions state each transition on a map value; the class
 * RosterStore holds the map in a field and its methods perform the same
 * transitions step by step, proved against those functions.
 */
module Store {
  import opened Members
  import opened Engine

  /** Discord message and channel ids are snowflakes carried as strings. */
  type MsgId = string
  type ChannelId = string

  /** `{ roster, channelId, createdAt }`; `createdAt` is a clock reading in milliseconds. */
  datatype RosterRecord = RosterRecord(roster: seq<Member>, channelId: ChannelId, createdAt: nat)

  type Rosters = map<MsgId, RosterRecord>

  /** Custom ids of the two buttons under every roster message. */
  const JoinButtonId: string := "roster_join"
  const LeaveButtonId: string := "roster_leave"

  /** What a store operation replies and the map it leaves. */
  datatype StoreStep = StoreStep(outcome: Outcome, rosters: Rosters)

  /** What a button press replies (None: the handler returns without a reply) and the map it leaves. */
  datatype PressStep = PressStep(reply: Option<Outcome>, rosters: Rosters)

  /** Every tracked roster keeps the roster invariant. */
  predicate StoreValid(s: Rosters)
  {
    forall id :: id in s ==> WellFormed(s[id].roster)
  }

  /**
   * A roster message was posted (by `!roster` or by the timer): its id is
   * bound to a fresh, empty record. Map.set replaces a record already under
   * that id.
   */
  function PostRoster(s: Rosters, msgId: MsgId, channelId: ChannelId, createdAt: nat): (s': Rosters)
    ensures s'.Keys == s.Keys + {msgId}
    ensures s'[msgId] == RosterRecord([], channelId, createdAt)
    ensures forall id :: id in s && id != msgId ==> s'[id] == s[id]
    ensures StoreValid(s) ==> StoreValid(s')
  {
    s[msgId := RosterRecord([], channelId, createdAt)]
  }

  /** Join on the roster of message `msgId`. */
  function StoreJoin(s: Rosters, msgId: MsgId, m: Member): (res: StoreStep)
    // an untracked message answers "no longer active" and changes nothing
    ensures msgId !in s <==> res.outcome == NotActive
    ensures msgId !in s ==> res.rosters == s
    ensures msgId in s ==>
      var step := JoinRoster(s[msgId].roster, m);
      && res.outcome == step.outcome
      && msgId in res.rosters
      && res.rosters[msgId] == s[msgId].(roster := step.roster)
    // no message is added or dropped, and every other record is untouched
    ensures res.rosters.Keys == s.Keys
    ensures forall id :: id in s && id != msgId ==> res.rosters[id] == s[id]
    ensures StoreValid(s) ==> StoreValid(res.rosters)
  {
    if msgId !in s then StoreStep(NotActive, s)
    else
      var step := JoinRoster(s[msgId].roster, m);
      StoreStep(step.outcome, s[msgId := s[msgId].(roster := step.roster)])
  }

  /** Leave on the roster of message `msgId`. */
  function StoreLeave(s: Rosters, msgId: MsgId, uid: UserId): (res: StoreStep)
    ensures msgId !in s <==> res.outcome == NotActive
    ensures msgId !in s ==> res.rosters == s
    ensures msgId in s ==>
      var step := LeaveRoster(s[msgId].roster, uid);
      && res.outcome == step.outcome
      && msgId in res.rosters
      && res.rosters[msgId] == s[msgId].(roster := step.roster)
    ensures res.rosters.Keys == s.Keys
    ensures forall id :: id in s && id != msgId ==> res.rosters[id] == s[id]
    ensures StoreValid(s) ==> StoreValid(res.rosters)
  {
    if msgId !in s then StoreStep(NotActive, s)
    else
      var step := LeaveRoster(s[msgId].roster, uid);
      StoreStep(step.outcome, s[msgId := s[msgId].(roster := step.roster)])
  }

  /**
   * A button press on message `msgId`. The record is looked up before the
   * button id is inspected, so a press on an untracked message is answered
   * "no longer active" whatever the button; an unknown button on a tracked
   * message gets no reply.
   */
  function Press(s: Rosters, msgId: MsgId, customId: string, user: Member): (res: PressStep)
    ensures msgId !in s ==> res == PressStep(Some(NotActive), s)
    ensures customId == JoinButtonId ==>
      res == PressStep(Some(StoreJoin(s, msgId, user).outcome), StoreJoin(s, msgId, user).rosters)
    ensures customId == LeaveButtonId ==>
      res == PressStep(Some(StoreLeave(s, msgId, user.id).outcome), StoreLeave(s, msgId, user.id).rosters)
    ensures msgId in s && customId != JoinButtonId && customId != LeaveButtonId ==>
      res == PressStep(None, s)
    ensures res.rosters.Keys == s.Keys
    ensures StoreValid(s) ==> StoreValid(res.rosters)
  {
    if msgId !in s then PressStep(Some(NotActive), s)
    else if customId == JoinButtonId then
      var step := StoreJoin(s, msgId, user);
      PressStep(Some(step.outcome), step.rosters)
    else if customId == LeaveButtonId then
      var step := StoreLeave(s, msgId, user.id);
      PressStep(Some(step.outcome), step.rosters)
    else PressStep(None, s)
  }

  /**
   * The events that change the store. In each handler the lookup, the checks
   * and the update run with no `await` between them, so each change is a
   * single step; only the re-render and the reply that follow can interleave.
   */
  datatype Event =
    | Posted(msgId: MsgId, channelId: ChannelId, createdAt: nat)
    | Pressed(msgId: MsgId, customId: string, user: Member)

  /** Routes an event to its handler: a post to PostRoster, a button press to Press. */
  function Apply(s: Rosters, e: Event): (s': Rosters)
    // only a post adds a tracked message, and nothing removes one
    ensures s'.Keys == s.Keys + (if e.Posted? then {e.msgId} else {})
    // a press on an untracked message changes nothing
    ensures e.Pressed? && e.msgId !in s ==> s' == s
    ensures StoreValid(s) ==> StoreValid(s')
  {
    match e
    case Posted(msgId, channelId, createdAt) => PostRoster(s, msgId, channelId, createdAt)
    case Pressed(msgId, customId, user) => Press(s, msgId, customId, user).rosters
  }

  /** The store after the events, applied in arrival order. */
  function Run(s: Rosters, events: seq<Event>): (s': Rosters)
    // every message ever tracked stays tracked; the posted ones are added
    ensures s'.Keys >= s.Keys
    ensures forall i :: 0 <= i < |events| && events[i].Posted? ==> events[i].msgId in s'
    decreases |events|
  {
    if events == [] then s else Run(Apply(s, events[0]), events[1..])
  }

  /**
   * Whatever events arrive, every roster keeps at most 10 members and no
   * user id twice.
   */
  lemma {:induction false} RunKeepsValid(s: Rosters, events: seq<Event>)
    requires StoreValid(s)
    ensures StoreValid(Run(s, events))
    decreases |events|
  {
    if events != [] {
      RunKeepsValid(Apply(s, events[0]), events[1..]);
    }
  }

  /** Starting from the empty map of a fresh process, the invariant always holds. */
  lemma FromStartupValid(events: seq<Event>)
    ensures StoreValid(Run(map[], events))
  {
    RunKeepsValid(map[], events);
  }

  /**
   * A fresh member's join followed by their leave, on one message, restores
   * the whole store exactly.
   */
  lemma {:induction false} StoreJoinThenLeave(s: Rosters, msgId: MsgId, m: Member)
    requires msgId in s && !OnRoster(s[msgId].roster, m.id) && |s[msgId].roster| < MaxSlots
    ensures StoreJoin(s, msgId, m).outcome == Added
    ensures StoreLeave(StoreJoin(s, msgId, m).rosters, msgId, m.id) == StoreStep(Removed, s)
  {
    JoinThenLeave(s[msgId].roster, m);
    var s' := StoreJoin(s, msgId, m).rosters;
    assert s'[msgId].roster == s[msgId].roster + [m];
    assert s'[msgId := s'[msgId].(roster := s[msgId].roster)] == s;
  }

  /** The in-memory store of bot.js (`const rosters = new Map()`). */
  class RosterStore {
    var rosters: Rosters

    ghost predicate Valid()
      reads this
    {
      StoreValid(rosters)
    }

    constructor ()
      ensures Valid() && rosters == map[]
    {
      rosters := map[];
    }

    /** Track a newly posted roster message under its id, with an empty roster. */
    method Post(msgId: MsgId, channelId: ChannelId, createdAt: nat)
      requires Valid()
      modifies this
      ensures Valid()
      ensures rosters == PostRoster(old(rosters), msgId, channelId, createdAt)
    {
      var roster: seq<Member> := [];
      rosters := rosters[msgId := RosterRecord(roster, channelId, createdAt)];
    }

    /** The `roster_join` branch: duplicate check, capacity check, push. */
    method Join(msgId: MsgId, m: Member) returns (o: Outcome)
      requires Valid()
      modifies this
      ensures Valid()
      ensures StoreStep(o, rosters) == StoreJoin(old(rosters), msgId, m)
    {
      if msgId !in rosters {
        return NotActive;
      }
      var data := rosters[msgId];
      if IndexOfId(data.roster, m.id) != -1 {
        return AlreadyOn;
      }
      if |data.roster| >= MaxSlots {
        return Full;
      }
      rosters := rosters[msgId := data.(roster := data.roster + [m])];
      o := Added;
    }

    /** The `roster_leave` branch: findIndex, then splice out that one entry. */
    method Leave(msgId: MsgId, uid: UserId) returns (o: Outcome)
      requires Valid()
      modifies this
      ensures Valid()
      ensures StoreStep(o, rosters) == StoreLeave(old(rosters), msgId, uid)
    {
      if msgId !in rosters {
        return NotActive;
      }
      var data := rosters[msgId];
      var index := IndexOfId(data.roster, uid);
      if index == -1 {
        return NotOn;
      }
      rosters := rosters[msgId := data.(roster := RemoveAt(data.roster, index))];
      o := Removed;
    }

    /** The button handler: look the message up, then dispatch on the button id. */
    method HandlePress(msgId: MsgId, customId: string, user: Member) returns (reply: Option<Outcome>)
      requires Valid()
      modifies this
      ensures Valid()
      ensures PressStep(reply, rosters) == Press(old(rosters), msgId, customId, user)
    {
      if msgId !in rosters {
        return Some(NotActive);
      }
      if customId == JoinButtonId {
        var o := Join(msgId, user);
        return Some(o);
      }
      if customId == LeaveButtonId {
        var o := Leave(msgId, user.id);
        return Some(o);
      }
      reply := None;
    }
  }
}
