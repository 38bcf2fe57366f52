/** What a gadget transaction settles: which of its changes find nothing to do the next time. */
module TransactionConvergence {
  import opened Common
  import opened Files
  import opened ChangeSet
  import opened Convergence
  import opened GadgetTx
  import opened GadgetPlan
  import Graph

  /** No unconditional change undoes another, and unlinking a function undoes none but the reordering. */
  predicate Peaceful(s: Setup, rebind: bool) {
    forall c, d :: c in Committed(s, rebind) && d in Committed(s, rebind) && c != d && !c.conditional ==>
      !Disturbs(d, c) || (d.conditional && c.key == REORDER)
  }

  /** In a plan every unlinking is in front of the reordering. */
  lemma UnlinkNotBehind(s: Setup, rebind: bool, t: Tree, m: Maps, plan: seq<Change>, i: nat, j: nat)
    requires Planned(s, rebind, t, m, plan) && i < j < |plan| && plan[i].key == REORDER
    ensures !plan[j].conditional
  {
    Graph.IndexOfAt(Keys(plan), i);
    Graph.IndexOfAt(Keys(plan), j);
    if plan[j].conditional {
      UnlinkBeforeReorder(s, rebind, t, m, plan, plan[j]);
    }
  }

  lemma NothingDisturbs(s: Setup, rebind: bool, t: Tree, m: Maps, plan: seq<Change>, i: nat)
    requires Planned(s, rebind, t, m, plan) && Peaceful(s, rebind) && i < |plan| && !plan[i].conditional
    ensures Undisturbed(plan, i)
  {
    forall j | i < j < |plan|
      ensures !Disturbs(plan[j], plan[i])
    {
      assert plan[i].key != plan[j].key;
      PlannedIsCommitted(s, rebind, t, m, plan, plan[i]);
      PlannedIsCommitted(s, rebind, t, m, plan, plan[j]);
      if plan[i].key == REORDER {
        UnlinkNotBehind(s, rebind, t, m, plan, i, j);
      }
    }
  }

  /** After a transaction was applied without error, each of its unconditional changes whose errors count finds nothing
      to do exactly if it can last: directories, attributes, descriptors, removals and the controller's file always,
      the reordering of the links exactly if they are listed by name, unbinding and binding never. */
  lemma TransactionSettlesIff(s: Setup, rebind: bool, t: Tree, m: Maps, plan: seq<Change>, c: Change)
    requires Planned(s, rebind, t, m, plan) && Peaceful(s, rebind)
    requires ApplyPlan(t, plan).1 && NoLinksInTheWay(t, plan)
    requires c in plan && !c.conditional && !c.ignoreErrors
    ensures Acts(ApplyPlan(t, plan).0, c) <==> !Lasting(c.path, c.goal)
  {
    var i :| 0 <= i < |plan| && plan[i] == c;
    NothingDisturbs(s, rebind, t, m, plan, i);
    ConvergesIff(t, plan, i);
  }

  /** So the links are made anew by every later transaction exactly if an enabled function is listed out of name order. */
  lemma LinksSettleIffSorted(s: Setup, rebind: bool, t: Tree, m: Maps, plan: seq<Change>)
    requires Planned(s, rebind, t, m, plan) && Peaceful(s, rebind) && LinksApart(s, rebind)
    requires ApplyPlan(t, plan).1 && NoLinksInTheWay(t, plan)
    ensures Acts(ApplyPlan(t, plan).0, ReorderChange(s, Drafted(s))) <==> !SortedByName(Drafted(s).links)
  {
    ClosingFiled(s, rebind, m);
    BaseAt(s, rebind, t, m, plan, REORDER);
    TransactionSettlesIff(s, rebind, t, m, plan, ReorderChange(s, Drafted(s)));
  }
}
