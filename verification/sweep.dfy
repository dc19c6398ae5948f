/**
 * The bookkeeping shared by the systems that run a callback over a snapshot
 * of entities taken with `forEachEntityWith`: while the callbacks run, the
 * entities the sweep has not reached yet, and the entities outside the
 * snapshot, keep their rows, and any entity that appears is a newcomer.
 */
module Sweeps {
  import opened Components
  import opened Ecs

  /**
   * After the first `n` callbacks over the snapshot `q` (taken from the tables
   * `before` and the entity list `start`): the rest of the snapshot and every
   * entity outside it are still present with the rows they had, and every
   * entity not in `start` is a newborn, with an id from `firstNew` on, holding
   * every component the systems query.
   */
  ghost predicate Undisturbed(before: Tables, start: seq<EntityId>, firstNew: nat, q: seq<EntityId>, n: nat,
                              tables: Tables, entities: seq<EntityId>) {
    && n <= |q|
    && (forall k :: n <= k < |q| ==> q[k] in entities && SameRow(tables, before, q[k]))
    && (forall x :: x in start && x !in q ==> x in entities && SameRow(tables, before, x))
    && (forall x :: x in entities && x !in start ==> firstNew <= x && HasSystemTypes(tables, x))
  }

  /**
   * One more callback, on `q[i]`, that touched no id below `bound` other than
   * its own and only added ids from `bound` on, keeps the rest undisturbed.
   */
  lemma UndisturbedStep(before: Tables, start: seq<EntityId>, firstNew: nat, q: seq<EntityId>, i: nat,
                        t1: Tables, e1: seq<EntityId>, bound: nat, t2: Tables, e2: seq<EntityId>)
    requires Undisturbed(before, start, firstNew, q, i, t1, e1) && i < |q|
    requires Distinct(q) && (forall k :: 0 <= k < |q| ==> q[k] in start)
    requires (forall x :: x in start ==> x < firstNew) && firstNew <= bound && (forall x :: x in e1 ==> x < bound)
    requires forall x: EntityId :: x != q[i] && x < bound ==> SameRow(t2, t1, x) && (x in e2 <==> x in e1)
    requires forall x: EntityId :: x in e2 && x !in e1 ==> bound <= x && HasSystemTypes(t2, x)
    ensures Undisturbed(before, start, firstNew, q, i + 1, t2, e2)
  {
    forall k | i + 1 <= k < |q|
      ensures q[k] in e2 && SameRow(t2, before, q[k])
    {
      assert q[k] != q[i] && q[k] < bound;
      SameRowTrans(t2, t1, before, q[k]);
    }
    forall x | x in start && x !in q
      ensures x in e2 && SameRow(t2, before, x)
    {
      SameRowTrans(t2, t1, before, x);
    }
    forall x | x in e2 && x !in start
      ensures firstNew <= x && HasSystemTypes(t2, x)
    {
      if x in e1 {
        assert SameRow(t2, t1, x);
      }
    }
  }

  /** The ids of the snapshot before `i` are below `bound` and differ from `q[i]`. */
  lemma EarlierIds(q: seq<EntityId>, i: nat, start: seq<EntityId>, firstNew: nat, bound: nat)
    requires i < |q| && Distinct(q) && (forall k :: 0 <= k < |q| ==> q[k] in start)
    requires (forall x :: x in start ==> x < firstNew) && firstNew <= bound
    ensures forall k :: 0 <= k < i ==> q[k] != q[i] && q[k] < bound
  {
  }
}
