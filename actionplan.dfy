/**
 * The action-plan form: a list of corrective actions with a status each,
 * entered through a draft that must be complete, removable by id, and
 * summarised by the share of completed actions.
 */
module ActionPlan {
  import opened Common

  datatype Status = Pending | InProgress | Completed

  datatype Action = Action(
    id: string, causeId: string, description: string, responsible: string, dueDate: string, status: Status)

  /** The action being entered: every field of an action but its id. */
  datatype Draft = Draft(causeId: string, description: string, responsible: string, dueDate: string, status: Status)

  const EmptyDraft: Draft := Draft("", "", "", "", Pending)

  /** The guard of `handleAddAction`: cause, description, responsible and due date are all filled in. */
  predicate Complete(d: Draft) {
    d.causeId != "" && d.description != "" && d.responsible != "" && d.dueDate != ""
  }

  /** The action a draft becomes under the given id. */
  function ActionOf(d: Draft, id: string): Action {
    Action(id, d.causeId, d.description, d.responsible, d.dueDate, d.status)
  }

  /**
   * `actions.filter(action => action.id !== id)`: every action with that id
   * dropped, every copy of every other action kept, in order.
   */
  function RemoveById(actions: seq<Action>, id: string): (r: seq<Action>)
    ensures Subsequence(r, actions)
    ensures forall a :: multiset(r)[a] == if a.id == id then 0 else multiset(actions)[a]
    ensures forall i :: 0 <= i < |r| ==> r[i].id != id
    ensures forall a :: a in actions && a.id != id ==> a in r
    ensures (forall i :: 0 <= i < |actions| ==> actions[i].id != id) ==> r == actions
  {
    var r := Filter(actions, (a: Action) => a.id != id);
    assert forall a :: a in actions && a.id != id ==> multiset(r)[a] == multiset(actions)[a] > 0;
    r
  }

  /** The number of completed actions (`filter(...).length`). */
  function CompletedCount(actions: seq<Action>): (n: nat)
    ensures n <= |actions|
    ensures n == |actions| <==> forall i :: 0 <= i < |actions| ==> actions[i].status == Completed
  {
    if actions == [] then 0
    else
      assert forall i :: 1 <= i < |actions| ==> actions[i] == actions[1..][i - 1];
      (if actions[0].status == Completed then 1 else 0) + CompletedCount(actions[1..])
  }

  /** `calculateProgress`: the completed share in percent, 0 for an empty plan. */
  function Progress(actions: seq<Action>): real {
    if |actions| == 0 then 0.0 else CompletedCount(actions) as real / |actions| as real * 100.0
  }

  /**
   * Progress lies in [0, 100] and reaches 100 exactly when the plan is
   * non-empty and every action in it is completed.
   */
  lemma ProgressBounds(actions: seq<Action>)
    ensures 0.0 <= Progress(actions) <= 100.0
    ensures Progress(actions) == 100.0 <==>
      |actions| > 0 && forall i :: 0 <= i < |actions| ==> actions[i].status == Completed
  {
    if |actions| > 0 {
      FractionBounds(CompletedCount(actions) as real, |actions| as real);
    }
  }

  /** A part of a positive whole is a fraction in [0, 1], equal to 1 only for the whole. */
  lemma FractionBounds(c: real, n: real)
    requires 0.0 <= c <= n && n > 0.0
    ensures 0.0 <= c / n * 100.0 <= 100.0
    ensures c / n * 100.0 == 100.0 <==> c == n
  {
    var q := c / n;
    assert q * n == c;
    if q < 0.0 {
      MulNonNegative(-q, n);
    }
    if c < n && q >= 1.0 {
      MulNonNegative(q - 1.0, n);
    }
  }

  lemma MulNonNegative(x: real, y: real)
    requires x >= 0.0 && y >= 0.0
    ensures x * y >= 0.0
  {
  }

  /** The status `select` of one row: that action gets the new status, nothing else changes. */
  function SetStatus(actions: seq<Action>, id: string, status: Status): (r: seq<Action>)
    ensures |r| == |actions|
    ensures forall i :: 0 <= i < |r| ==>
      r[i].(status := actions[i].status) == actions[i] &&
      (actions[i].id == id ==> r[i].status == status) && (actions[i].id != id ==> r[i] == actions[i])
  {
    seq(|actions|, i requires 0 <= i < |actions| =>
      if actions[i].id == id then actions[i].(status := status) else actions[i])
  }

  /** Marking an action completed never lowers the number of completed actions. */
  lemma {:induction false} CompletingNeverLowersCount(actions: seq<Action>, id: string)
    ensures CompletedCount(SetStatus(actions, id, Completed)) >= CompletedCount(actions)
  {
    if actions != [] {
      var after := SetStatus(actions, id, Completed);
      CompletingNeverLowersCount(actions[1..], id);
      assert after[1..] == SetStatus(actions[1..], id, Completed);
    }
  }

  /** The form's state: the listed actions and the draft. */
  class ActionPlanForm {
    var actions: seq<Action>
    var newAction: Draft

    constructor ()
      ensures actions == [] && newAction == EmptyDraft
    {
      actions := [];
      newAction := EmptyDraft;
    }

    /** The input fields of the draft. */
    method EditDraft(d: Draft)
      modifies this
      ensures newAction == d && actions == old(actions)
    {
      newAction := d;
    }

    /**
     * `handleAddAction`: a complete draft is appended under a fresh id and the
     * draft is cleared; an incomplete one changes nothing.
     */
    method AddAction(freshId: string)
      modifies this
      ensures Complete(old(newAction)) ==>
        actions == old(actions) + [ActionOf(old(newAction), freshId)] && newAction == EmptyDraft
      ensures !Complete(old(newAction)) ==> actions == old(actions) && newAction == old(newAction)
    {
      if newAction.causeId == "" || newAction.description == "" || newAction.responsible == "" ||
         newAction.dueDate == "" {
        return;
      }
      actions := actions + [ActionOf(newAction, freshId)];
      newAction := EmptyDraft;
    }

    /** `handleRemoveAction`. */
    method RemoveAction(id: string)
      modifies this
      ensures actions == RemoveById(old(actions), id) && newAction == old(newAction)
    {
      actions := RemoveById(actions, id);
    }

    /** The status `onChange` of the row with the given id. */
    method UpdateStatus(id: string, status: Status)
      modifies this
      ensures actions == SetStatus(old(actions), id, status) && newAction == old(newAction)
    {
      actions := SetStatus(actions, id, status);
    }
  }
}
