/**
 * The (target, user) tables behind job interests (`job_interests`) and project
 * likes (`project_likes`): each document records that one user reacted to one
 * job or project.  The handlers look the pair up before inserting, so a pair is
 * stored at most once as long as that lookup succeeds, and they keep a counter on
 * the target that is meant to equal the number of documents for it.
 */
module Engagement {

  import opened Wrappers
  import opened Tables
  import opened ObjectIds

  /** A `JobInterest` or a `ProjectLike`: its ID, the job or project, the user, the creation time. */
  datatype Mark = Mark(id: ObjectId, targetId: ObjectId, userId: ObjectId, createdAt: int)

  /** The filter `{target: target, user_id: user}`. */
  function PairFilter(target: ObjectId, user: ObjectId): Mark -> bool
  {
    (m: Mark) => m.targetId == target && m.userId == user
  }

  /** The documents counted for one target. */
  function OnTarget(target: ObjectId): Mark -> bool
  {
    (m: Mark) => m.targetId == target
  }

  predicate PairsUnique(ms: seq<Mark>)
  {
    forall i, j :: 0 <= i < j < |ms| ==> !(ms[i].targetId == ms[j].targetId && ms[i].userId == ms[j].userId)
  }

  predicate IdsUnique(ms: seq<Mark>)
  {
    forall i, j :: 0 <= i < j < |ms| ==> ms[i].id != ms[j].id
  }

  /** The number of documents for `target`, the value its counter should hold. */
  function MarksOn(ms: seq<Mark>, target: ObjectId): nat
  {
    CountWhere(ms, OnTarget(target))
  }

  /** With pairs unique, a pair has at most one document. */
  lemma {:induction false} AtMostOnePerPair(ms: seq<Mark>, target: ObjectId, user: ObjectId)
    requires PairsUnique(ms)
    ensures CountWhere(ms, PairFilter(target, user)) <= 1
  {
    if ms != [] {
      AtMostOnePerPair(ms[1..], target, user);
      if PairFilter(target, user)(ms[0]) {
        assert forall i :: 0 <= i < |ms[1..]| ==> !PairFilter(target, user)(ms[1..][i]) by {
          forall i | 0 <= i < |ms[1..]| ensures !PairFilter(target, user)(ms[1..][i]) {
            assert ms[1..][i] == ms[i + 1];
          }
        }
      }
    }
  }

  /**
   * Appending a document with a fresh ID keeps IDs unique, and keeps pairs unique
   * when its pair has no document yet.
   */
  lemma {:induction false} AddKeepsUnique(ms: seq<Mark>, m: Mark)
    requires IdsUnique(ms)
    requires forall i :: 0 <= i < |ms| ==> ms[i].id != m.id
    ensures IdsUnique(ms + [m])
    ensures PairsUnique(ms) && FirstWhere(ms, PairFilter(m.targetId, m.userId)).None? ==> PairsUnique(ms + [m])
  {
    assert FirstWhere(ms, PairFilter(m.targetId, m.userId)).None? ==>
           forall i :: 0 <= i < |ms| ==> !PairFilter(m.targetId, m.userId)(ms[i]);
  }

  /**
   * Appending a document for a pair that already has one gives the pair two: what
   * an insert does when the duplicate check's read has failed.
   */
  lemma {:induction false} AddExistingPairDuplicates(ms: seq<Mark>, m: Mark)
    requires FirstWhere(ms, PairFilter(m.targetId, m.userId)).Some?
    ensures !PairsUnique(ms + [m])
    ensures CountWhere(ms + [m], PairFilter(m.targetId, m.userId)) >= 2
  {
    var k := FirstWhere(ms, PairFilter(m.targetId, m.userId)).value;
    var r := ms + [m];
    assert r[k] == ms[k] && r[|ms|] == m;
    CountAppend(ms, m, PairFilter(m.targetId, m.userId));
    assert CountWhere(ms, PairFilter(m.targetId, m.userId)) >= 1;
  }

  /** Deleting one document keeps IDs unique, and pairs unique when they were. */
  lemma {:induction false} RemoveKeepsUnique(ms: seq<Mark>, k: nat)
    requires IdsUnique(ms) && k < |ms|
    ensures IdsUnique(ms[..k] + ms[k + 1..])
    ensures PairsUnique(ms) ==> PairsUnique(ms[..k] + ms[k + 1..])
  {
    var r := ms[..k] + ms[k + 1..];
    assert forall i :: 0 <= i < |r| ==> r[i] == ms[if i < k then i else i + 1];
  }

  /**
   * Once the only document of a pair is deleted, the pair has none, so the user
   * can react to the target again.
   */
  lemma {:induction false} RemovedPairIsGone(ms: seq<Mark>, target: ObjectId, user: ObjectId)
    requires PairsUnique(ms)
    requires FirstWhere(ms, PairFilter(target, user)).Some?
    ensures var k := FirstWhere(ms, PairFilter(target, user)).value;
            FirstWhere(ms[..k] + ms[k + 1..], PairFilter(target, user)).None?
  {
    var k := FirstWhere(ms, PairFilter(target, user)).value;
    var r := ms[..k] + ms[k + 1..];
    forall i | 0 <= i < |r| ensures !PairFilter(target, user)(r[i]) {
      if i >= k {
        assert r[i] == ms[i + 1];
      }
    }
  }

  /** Appending a document raises its own target's count by one and no other. */
  lemma {:induction false} AddCounts(ms: seq<Mark>, m: Mark, target: ObjectId)
    ensures MarksOn(ms + [m], target) == MarksOn(ms, target) + (if m.targetId == target then 1 else 0)
  {
    CountAppend(ms, m, OnTarget(target));
  }

  /** Deleting a document lowers its own target's count by one and no other. */
  lemma {:induction false} RemoveCounts(ms: seq<Mark>, k: nat, target: ObjectId)
    requires k < |ms|
    ensures MarksOn(ms[..k] + ms[k + 1..], target) == MarksOn(ms, target) - (if ms[k].targetId == target then 1 else 0)
  {
    CountRemove(ms, k, OnTarget(target));
  }
}
