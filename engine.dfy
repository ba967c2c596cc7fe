/**
 * The join/leave logic of the button handler, lifted out of the Discord event
 * and stated on the member list alone. Each operation returns the outcome the
 * handler replies with and the list it leaves behind.
 */
module Engine {
  import opened Members

  /** The private replies of the button handler, one per branch. */
  datatype Outcome =
    | NotActive   // "This roster is no longer active."
    | AlreadyOn   // "You're already on the roster!"
    | Full        // "The roster is full (10/10)!"
    | Added       // "You've been added to the roster!"
    | NotOn       // "You're not on the roster."
    | Removed     // "You've been removed from the roster."

  /** What one operation replies and the roster it leaves. */
  datatype Step = Step(outcome: Outcome, roster: seq<Member>)

  /**
   * Join: the duplicate check comes first, then the capacity check, then the
   * new member goes to the tail.
   */
  function JoinRoster(r: seq<Member>, m: Member): (res: Step)
    // a member already on the roster is told so, even when the roster is full
    ensures res.outcome == AlreadyOn <==> OnRoster(r, m.id)
    ensures res.outcome == Full <==> !OnRoster(r, m.id) && |r| >= MaxSlots
    ensures res.outcome == Added <==> !OnRoster(r, m.id) && |r| < MaxSlots
    // a rejected join changes nothing
    ensures res.outcome != Added ==> res.roster == r
    // an accepted join grows the list by one at the tail; earlier entries stay put
    ensures res.outcome == Added ==>
      |res.roster| == |r| + 1 && res.roster[..|r|] == r && res.roster[|r|] == m
    // the roster never exceeds its 10 slots, and ids stay unique
    ensures |r| <= MaxSlots ==> |res.roster| <= MaxSlots
    ensures HasUniqueIds(r) ==> HasUniqueIds(res.roster)
    ensures OnRoster(res.roster, m.id)
      || (res.outcome == Full && res.roster == r)
  {
    if IndexOfId(r, m.id) != -1 then Step(AlreadyOn, r)
    else if |r| >= MaxSlots then Step(Full, r)
    else
      var r' := r + [m];
      assert r'[|r|].id == m.id;
      Step(Added, r')
  }

  /**
   * Leave: the first entry carrying the user's id is spliced out, later
   * members move up one position.
   */
  function LeaveRoster(r: seq<Member>, uid: UserId): (res: Step)
    ensures res.outcome == NotOn <==> !OnRoster(r, uid)
    ensures res.outcome == Removed <==> OnRoster(r, uid)
    // a rejected leave changes nothing
    ensures res.outcome == NotOn ==> res.roster == r
    // exactly the entry found is removed; the others keep their relative order
    ensures res.outcome == Removed ==>
      var k := IndexOfId(r, uid);
      && 0 <= k < |r| && r[k].id == uid
      && |res.roster| == |r| - 1
      && (forall i :: 0 <= i < k ==> res.roster[i] == r[i])
      && (forall i :: k <= i < |res.roster| ==> res.roster[i] == r[i + 1])
    ensures |res.roster| <= |r|
    ensures HasUniqueIds(r) ==> HasUniqueIds(res.roster) && !OnRoster(res.roster, uid)
  {
    var k := IndexOfId(r, uid);
    if k == -1 then Step(NotOn, r)
    else
      RemoveAtUnique(r, k);
      Step(Removed, RemoveAt(r, k))
  }

  /** The new tail is the only entry with its id, so it is the one findIndex returns. */
  lemma {:induction false} IndexOfAppended(r: seq<Member>, m: Member)
    requires !OnRoster(r, m.id)
    ensures IndexOfId(r + [m], m.id) == |r|
  {
    var s := r + [m];
    assert s[|r|].id == m.id;
    forall i | 0 <= i < |r|
      ensures s[i].id != m.id
    {
      assert s[i] == r[i];
    }
  }

  /** Joining as a new member and leaving again restores the roster exactly. */
  lemma {:induction false} JoinThenLeave(r: seq<Member>, m: Member)
    requires !OnRoster(r, m.id) && |r| < MaxSlots
    ensures JoinRoster(r, m) == Step(Added, r + [m])
    ensures LeaveRoster(r + [m], m.id) == Step(Removed, r)
  {
    IndexOfAppended(r, m);
    assert (r + [m])[..|r|] == r;
  }

  /**
   * Positions are not reserved: a member who leaves and joins again lands at
   * the current tail, behind everyone who stayed.
   */
  lemma {:induction false} LeaveThenJoinGoesToTail(r: seq<Member>, m: Member)
    requires WellFormed(r) && OnRoster(r, m.id)
    ensures var s := LeaveRoster(r, m.id).roster;
      JoinRoster(s, m) == Step(Added, s + [m])
      && |s + [m]| == |r|
      && (s + [m])[|r| - 1] == m
  {
    var s := LeaveRoster(r, m.id).roster;
    assert !OnRoster(s, m.id);
    assert |s| < MaxSlots;
  }

  /** The roster left by a series of join presses, in arrival order. */
  function JoinEach(r: seq<Member>, ms: seq<Member>): seq<Member>
    decreases |ms|
  {
    if ms == [] then r else JoinEach(JoinRoster(r, ms[0]).roster, ms[1..])
  }

  /**
   * Distinct users who join while there is room take the slots in the order
   * they pressed Join.
   */
  lemma {:induction false} JoinEachAppends(r: seq<Member>, ms: seq<Member>)
    requires HasUniqueIds(r + ms) && |r + ms| <= MaxSlots
    ensures JoinEach(r, ms) == r + ms
    decreases |ms|
  {
    if ms != [] {
      var rs := r + ms;
      assert rs[|r|] == ms[0];
      forall i | 0 <= i < |r|
        ensures r[i].id != ms[0].id
      {
        assert rs[i] == r[i];
      }
      assert JoinRoster(r, ms[0]).roster == r + [ms[0]];
      assert r + [ms[0]] + ms[1..] == rs;
      JoinEachAppends(r + [ms[0]], ms[1..]);
    }
  }
}
