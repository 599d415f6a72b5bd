/**
 * The badge list kept in `ALH_data`: a badge is added, stamped with the time it
 * was earned, only when no stored badge has its id.
 */
module Badges {
  import opened Wrappers
  import opened Records
  import opened JsArray

  /** `b => b.id === id` */
  function BadgeIdIs(id: string): Badge -> bool {
    (b: Badge) => b.id == id
  }

  /**
   * The list update of the local `saveBadge` and the badge it returns: a badge
   * whose id is new is stamped with `earnedAt` and appended; otherwise the list
   * is unchanged and the argument is returned unstamped.
   */
  function AddBadge(badges: seq<Badge>, badge: Badge, earnedAt: string): (r: (seq<Badge>, Badge))
    ensures (exists k :: 0 <= k < |badges| && badges[k].id == badge.id) ==> r == (badges, badge)
    ensures (forall k :: 0 <= k < |badges| ==> badges[k].id != badge.id) ==>
      r.1 == badge.(earnedAt := Some(earnedAt)) && r.0 == badges + [r.1]
  {
    if Any(badges, BadgeIdIs(badge.id)) then (badges, badge)
    else
      var stamped := badge.(earnedAt := Some(earnedAt));
      (badges + [stamped], stamped)
  }

  /** How many stored badges carry `id`. */
  function CountId(badges: seq<Badge>, id: string): nat {
    |Filter(badges, BadgeIdIs(id))|
  }

  /** No two stored badges share an id. */
  predicate UniqueIds(badges: seq<Badge>) {
    forall j, k :: 0 <= j < k < |badges| ==> badges[j].id != badges[k].id
  }

  /** Saving a badge again, at any later time, changes nothing. */
  lemma AddBadgeIdempotent(badges: seq<Badge>, badge: Badge, t1: string, t2: string)
    ensures var once := AddBadge(badges, badge, t1).0;
      AddBadge(once, badge, t2).0 == once
  {
    var once := AddBadge(badges, badge, t1).0;
    if forall k :: 0 <= k < |badges| ==> badges[k].id != badge.id {
      assert once[|badges|].id == badge.id;
    }
  }

  /** Adding badges keeps the ids unique. */
  lemma AddBadgeKeepsIdsUnique(badges: seq<Badge>, badge: Badge, earnedAt: string)
    requires UniqueIds(badges)
    ensures UniqueIds(AddBadge(badges, badge, earnedAt).0)
  {
    var after := AddBadge(badges, badge, earnedAt).0;
    if forall k :: 0 <= k < |badges| ==> badges[k].id != badge.id {
      forall j, k | 0 <= j < k < |after|
        ensures after[j].id != after[k].id
      {
        assert after[j] == badges[j];
        if k < |badges| {
          assert after[k] == badges[k];
        }
      }
    }
  }

  /**
   * After a badge is saved, exactly one stored badge has its id when none had
   * it before, and saving it a second time keeps that count at one.
   */
  lemma {:induction false} AddBadgeTwiceSingleEntry(badges: seq<Badge>, badge: Badge, t1: string, t2: string)
    requires forall k :: 0 <= k < |badges| ==> badges[k].id != badge.id
    ensures CountId(AddBadge(badges, badge, t1).0, badge.id) == 1
    ensures CountId(AddBadge(AddBadge(badges, badge, t1).0, badge, t2).0, badge.id) == 1
  {
    var p := BadgeIdIs(badge.id);
    var stamped := badge.(earnedAt := Some(t1));
    FilterAppend(badges, [stamped], p);
    FilterNonePass(badges, p);
    assert Filter([stamped], p) == [stamped] by {
      assert [stamped][1..] == [];
    }
    AddBadgeIdempotent(badges, badge, t1, t2);
  }
}
