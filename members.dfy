/**
 * Members of an informal roster and the list operations the bot applies to
 * them: search by user id (Array.prototype.find / findIndex in bot.js) and
 * removal of one entry (Array.prototype.splice(index, 1)).
 */
module Members {

  datatype Option<T> = None | Some(value: T)

  /** Discord user ids are snowflakes carried as strings. */
  type UserId = string

  /** One roster entry, `{ id, username }` as pushed by the join handler. */
  datatype Member = Member(id: UserId, username: string)

  /** The informal roster holds the first 10 sign-ups only. */
  const MaxSlots: nat := 10

  /** True when `uid` occupies some slot of `r`. */
  predicate OnRoster(r: seq<Member>, uid: UserId)
  {
    exists i :: 0 <= i < |r| && r[i].id == uid
  }

  /** No user id appears twice in `r`. */
  predicate HasUniqueIds(r: seq<Member>)
  {
    forall i, j :: 0 <= i < j < |r| ==> r[i].id != r[j].id
  }

  /** The invariant every stored roster keeps. */
  predicate WellFormed(r: seq<Member>)
  {
    |r| <= MaxSlots && HasUniqueIds(r)
  }

  /**
   * Position of the first entry whose id is `uid`, or -1 when there is none
   * (the contract of findIndex; `find` is truthy exactly when this is not -1).
   */
  function IndexOfId(r: seq<Member>, uid: UserId): (k: int)
    ensures -1 <= k < |r|
    ensures k == -1 <==> !OnRoster(r, uid)
    ensures k >= 0 ==> r[k].id == uid && forall i :: 0 <= i < k ==> r[i].id != uid
  {
    if r == [] then -1
    else if r[0].id == uid then 0
    else
      var k := IndexOfId(r[1..], uid);
      if k == -1 then
        assert forall i :: 1 <= i < |r| ==> r[i] == r[1..][i - 1];
        -1
      else k + 1
  }

  /**
   * The list with the entry at `k` taken out; later entries move up one
   * position and keep their order.
   */
  function RemoveAt(r: seq<Member>, k: nat): (s: seq<Member>)
    requires k < |r|
    ensures |s| == |r| - 1
    ensures forall i :: 0 <= i < k ==> s[i] == r[i]
    ensures forall i :: k <= i < |s| ==> s[i] == r[i + 1]
    ensures multiset(s) + multiset{r[k]} == multiset(r)
  {
    assert r == r[..k] + [r[k]] + r[k + 1..];
    r[..k] + r[k + 1..]
  }

  /** Removing an entry keeps ids unique, and the removed id is then gone. */
  lemma {:induction false} RemoveAtUnique(r: seq<Member>, k: nat)
    requires k < |r|
    ensures HasUniqueIds(r) ==> HasUniqueIds(RemoveAt(r, k))
    ensures HasUniqueIds(r) ==> !OnRoster(RemoveAt(r, k), r[k].id)
  {
    if !HasUniqueIds(r) { return; }
    var s := RemoveAt(r, k);
    forall i, j | 0 <= i < j < |s|
      ensures s[i].id != s[j].id
    {
      var i' := if i < k then i else i + 1;
      var j' := if j < k then j else j + 1;
      assert s[i] == r[i'] && s[j] == r[j'] && i' < j';
    }
    forall i | 0 <= i < |s|
      ensures s[i].id != r[k].id
    {
      var i' := if i < k then i else i + 1;
      assert s[i] == r[i'] && i' != k;
    }
  }
}
