/** A checklist job's rows as the service updates them under the job's lock. */
module ChecklistServices {
  import opened Wrappers
  import opened ChecklistReview

  class ChecklistStore {
    const designer: nat
    const manager: nat
    const reviewers: seq<nat>
    const template: nat
    var approved: bool
    var current: nat
    var revisions: seq<Revision>
    var approvals: seq<(nat, string)>

    constructor (designer: nat, manager: nat, reviewers: seq<nat>, template: nat)
      requires forall i, j | 0 <= i < j < |reviewers| :: reviewers[i] != reviewers[j]
      ensures State() == Job(designer, manager, reviewers, template, false, 0, [], []) && Created(State())
        && Inv(State())
    {
      this.designer, this.manager, this.reviewers, this.template := designer, manager, reviewers, template;
      approved, current, revisions, approvals := false, 0, [], [];
    }

    function State(): Job
      reads this
    {
      Job(designer, manager, reviewers, template, approved, current, revisions, approvals)
    }

    /** The rows of a new revision. */
    method NewRows() returns (items: seq<Item>, states: seq<StateRow>)
      ensures items == FreshItems(template) && states == FreshStates(reviewers)
    {
      items, states := [], [];
      while |items| < template
        invariant |items| <= template && items == FreshItems(|items|)
        decreases template - |items|
      {
        items := items + [Item(Pending, 1)];
      }
      var i := 0;
      while i < |reviewers|
        invariant 0 <= i <= |reviewers| && states == FreshStates(reviewers)[..i]
      {
        states := states + [StateRow(reviewers[i], false)];
        i := i + 1;
      }
      assert FreshStates(reviewers)[..i] == FreshStates(reviewers);
    }

    method SubmitRevision(user: nat, digest: string) returns (r: Option<Error>)
      requires Inv(State())
      modifies this
      ensures Inv(State()) && State() == Step(old(State()), DoSubmit(user, digest))
      ensures r == Failure(ChecklistReview.SubmitRevision(old(State()), user, digest))
    {
      StepKeeps(State(), DoSubmit(user, digest));
      if user != designer {
        return Some(Forbidden);
      }
      if approved {
        return Some(NotInReview);
      }
      var items, states := NewRows();
      revisions := Retired(revisions) + [Revision(digest, true, items, states)];
      current := |revisions|;
      r := None;
    }

    method UpdateItem(user: nat, revision: nat, i: nat, status: ItemStatus, reason: string,
        version: int) returns (r: Option<Error>)
      requires Inv(State())
      modifies this
      ensures Inv(State()) && State() == Step(old(State()), DoUpdate(user, revision, i, status, reason, version))
      ensures r == Failure(ChecklistReview.UpdateItem(old(State()), user, revision, i, status, reason, version))
    {
      StepKeeps(State(), DoUpdate(user, revision, i, status, reason, version));
      if status.Pending? || (status.Failed? && reason == "") {
        return Some(BadRequest);
      }
      if revision == 0 || revision > |revisions| || i >= |revisions[revision - 1].items| {
        return Some(NotFound);
      }
      var locked := Writable(State(), revision);
      if locked.Some? {
        return locked;
      }
      if user != manager && user !in reviewers {
        return Some(Forbidden);
      }
      var rev := revisions[revision - 1];
      if rev.items[i].version != version {
        return Some(Conflict);
      }
      revisions := revisions[revision - 1 := rev.(items := rev.items[i := Item(status, version + 1)])];
      r := None;
    }

    method CompleteReview(user: nat, revision: nat) returns (r: Option<Error>)
      requires Inv(State())
      modifies this
      ensures Inv(State()) && State() == Step(old(State()), DoComplete(user, revision))
      ensures r == Failure(ChecklistReview.CompleteReview(old(State()), user, revision))
    {
      StepKeeps(State(), DoComplete(user, revision));
      var locked := Writable(State(), revision);
      if locked.Some? {
        return locked;
      }
      if user !in reviewers {
        return Some(Forbidden);
      }
      var rev := revisions[revision - 1];
      var states, affected := MarkRows(rev.states, user);
      CompleteReviewIs(State(), user, revision);
      if affected == 0 {
        return Some(Forbidden);
      }
      revisions := revisions[revision - 1 := rev.(states := states)];
      r := None;
    }

    /** Mark the user's rows and count them. */
    method MarkRows(rows: seq<StateRow>, user: nat) returns (states: seq<StateRow>, affected: nat)
      ensures states == MarkDone(rows, user)
      ensures affected > 0 <==> exists k :: 0 <= k < |rows| && rows[k].reviewer == user
    {
      states, affected := rows, 0;
      var k := 0;
      while k < |rows|
        invariant 0 <= k <= |rows| == |states|
        invariant forall j | 0 <= j < |rows| :: states[j] == if j < k then MarkDone(rows, user)[j] else rows[j]
        invariant affected > 0 <==> exists j :: 0 <= j < k && rows[j].reviewer == user
      {
        if states[k].reviewer == user {
          states := states[k := states[k].(completed := true)];
          affected := affected + 1;
        }
        k := k + 1;
      }
    }

    lemma CompleteReviewIs(job: Job, user: nat, revision: nat)
      requires Writable(job, revision).None? && user in job.reviewers
      ensures var rev := job.revisions[revision - 1];
              ChecklistReview.CompleteReview(job, user, revision) ==
                if exists k :: 0 <= k < |rev.states| && rev.states[k].reviewer == user
                then Ok(job.(revisions := job.revisions[revision - 1 := rev.(states := MarkDone(rev.states, user))]))
                else Err(Forbidden)
    {
    }

    /** Rows completed, and items pending or failed. */
    method CountRows(rev: Revision) returns (done: nat, bad: nat)
      ensures done == CountDone(rev.states) && bad == CountBad(rev.items)
    {
      done, bad := 0, 0;
      var k := 0;
      while k < |rev.states|
        invariant 0 <= k <= |rev.states| && done == CountDone(rev.states[..k])
      {
        assert rev.states[..k + 1][..k] == rev.states[..k];
        done := done + if rev.states[k].completed then 1 else 0;
        k := k + 1;
      }
      assert rev.states[..k] == rev.states;
      k := 0;
      while k < |rev.items|
        invariant 0 <= k <= |rev.items| && bad == CountBad(rev.items[..k])
      {
        assert rev.items[..k + 1][..k] == rev.items[..k];
        bad := bad + if rev.items[k].status.Pending? || rev.items[k].status.Failed? then 1 else 0;
        k := k + 1;
      }
      assert rev.items[..k] == rev.items;
    }

    /** Nothing changes unless every check passes. */
    method Approve(user: nat) returns (r: Option<Error>)
      requires Inv(State())
      modifies this
      ensures Inv(State()) && State() == Step(old(State()), DoApprove(user))
      ensures r == Failure(ChecklistReview.Approve(old(State()), user))
    {
      StepKeeps(State(), DoApprove(user));
      if user != manager || user == designer {
        return Some(Forbidden);
      }
      if approved {
        return Some(Conflict);
      }
      if current == 0 {
        return Some(NoRevision);
      }
      var rev := revisions[current - 1];
      var done, bad := CountRows(rev);
      if done < |reviewers| {
        return Some(Incomplete);
      }
      if bad > 0 {
        return Some(BadItems);
      }
      approved := true;
      approvals := approvals + [(current, rev.digest)];
      r := None;
    }
  }
}
