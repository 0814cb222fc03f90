/**
 * The feedback router: a borrower's review of a returned loan, at most one per
 * loan, and the item's reviews as its owner and as everybody else sees them.
 */
module FeedbackRouter {
  import opened Common
  import opened Schema
  import LoanRouter

  type FeedbackId = nat

  datatype Feedback = Feedback(
    id: FeedbackId,
    loanId: LoanId,
    borrowerId: UserId,
    itemId: ItemId,
    content: string,
    isPublic: bool,
    createdAt: int)

  const ContentRequired := "Feedback content is required"
  const OnlyReturned := "You can only leave feedback for returned items"
  const AlreadyReviewed := "Feedback already exists for this loan"

  /** The lookup of `create` (lines 51-61): some feedback is already attached to the loan. */
  function HasFeedbackFor(feedbacks: seq<Feedback>, loanId: LoanId): (b: bool)
    ensures b <==> exists i :: 0 <= i < |feedbacks| && feedbacks[i].loanId == loanId
  {
    AnyOf(feedbacks, (f: Feedback) => f.loanId == loanId)
  }

  /**
   * `create` (lines 11-76): the input check on the content, then NOT_FOUND,
   * FORBIDDEN for anyone but the borrower, BAD_REQUEST unless the loan is
   * returned or when it already has feedback, and the row it inserts.
   */
  function CreateFeedback(feedbacks: seq<Feedback>, loans: seq<Loan>, caller: UserId, loanId: LoanId,
                          content: string, isPublic: bool, now: int): (r: Result<Feedback>)
    ensures r.Ok? <==> |content| >= 1 && loanId < |loans| && loans[loanId].borrowerId == caller &&
                       loans[loanId].status == Returned && !HasFeedbackFor(feedbacks, loanId)
    ensures r.Ok? ==> r.value.id == |feedbacks| && r.value.loanId == loanId && r.value.borrowerId == caller &&
                      r.value.itemId == loans[loanId].itemId && r.value.content == content &&
                      r.value.isPublic == isPublic && r.value.createdAt == now
  {
    if |content| < 1 then Err(BadRequest(ContentRequired))
    else if loanId >= |loans| then Err(NotFound)
    else if loans[loanId].borrowerId != caller then Err(Forbidden)
    else if loans[loanId].status != Returned then Err(BadRequest(OnlyReturned))
    else if HasFeedbackFor(feedbacks, loanId) then Err(BadRequest(AlreadyReviewed))
    else Ok(Feedback(|feedbacks|, loanId, caller, loans[loanId].itemId, content, isPublic, now))
  }

  /** The errors of `create`, each with the condition that raises it given that the earlier checks passed. */
  lemma CreateFeedbackErrors(feedbacks: seq<Feedback>, loans: seq<Loan>, caller: UserId, loanId: LoanId,
                             content: string, isPublic: bool, now: int)
    ensures var r := CreateFeedback(feedbacks, loans, caller, loanId, content, isPublic, now);
      && (r == Err(BadRequest(ContentRequired)) <==> content == [])
      && (r == Err(NotFound) <==> content != [] && loanId >= |loans|)
      && (r == Err(Forbidden) <==> content != [] && loanId < |loans| && loans[loanId].borrowerId != caller)
      && (r == Err(BadRequest(OnlyReturned)) <==>
            content != [] && loanId < |loans| && loans[loanId].borrowerId == caller && loans[loanId].status != Returned)
      && (r == Err(BadRequest(AlreadyReviewed)) <==>
            content != [] && loanId < |loans| && loans[loanId].borrowerId == caller && loans[loanId].status == Returned &&
            exists i :: 0 <= i < |feedbacks| && feedbacks[i].loanId == loanId)
  {
  }

  /** At most one feedback per loan. */
  ghost predicate OnePerLoan(feedbacks: seq<Feedback>) {
    forall i, j :: 0 <= i < |feedbacks| && 0 <= j < |feedbacks| && i != j ==> feedbacks[i].loanId != feedbacks[j].loanId
  }

  /** A feedback stands for a returned loan of its author, on the loan's item. */
  ghost predicate Justified(f: Feedback, loans: seq<Loan>) {
    f.loanId < |loans| && loans[f.loanId].status == Returned &&
    loans[f.loanId].borrowerId == f.borrowerId && loans[f.loanId].itemId == f.itemId
  }

  ghost predicate AllJustified(feedbacks: seq<Feedback>, loans: seq<Loan>) {
    forall i :: 0 <= i < |feedbacks| ==> Justified(feedbacks[i], loans)
  }

  /** Accepting a feedback keeps one feedback per loan. */
  lemma {:induction false} CreateFeedbackKeepsOnePerLoan(feedbacks: seq<Feedback>, loans: seq<Loan>, caller: UserId, loanId: LoanId,
                                                         content: string, isPublic: bool, now: int)
    requires OnePerLoan(feedbacks)
    requires CreateFeedback(feedbacks, loans, caller, loanId, content, isPublic, now).Ok?
    ensures OnePerLoan(feedbacks + [CreateFeedback(feedbacks, loans, caller, loanId, content, isPublic, now).value])
  {
    var f := CreateFeedback(feedbacks, loans, caller, loanId, content, isPublic, now).value;
    var all := feedbacks + [f];
    forall i, j | 0 <= i < |all| && 0 <= j < |all| && i != j ensures all[i].loanId != all[j].loanId {
      if i < |feedbacks| && j < |feedbacks| {
        assert all[i] == feedbacks[i] && all[j] == feedbacks[j];
      } else if i < |feedbacks| {
        assert all[i] == feedbacks[i];
      } else {
        assert all[j] == feedbacks[j];
      }
    }
  }

  /** An accepted feedback is justified by the loan it reviews. */
  lemma {:induction false} CreateFeedbackKeepsJustified(feedbacks: seq<Feedback>, loans: seq<Loan>, caller: UserId, loanId: LoanId,
                                                        content: string, isPublic: bool, now: int)
    requires AllJustified(feedbacks, loans)
    requires CreateFeedback(feedbacks, loans, caller, loanId, content, isPublic, now).Ok?
    ensures AllJustified(feedbacks + [CreateFeedback(feedbacks, loans, caller, loanId, content, isPublic, now).value], loans)
  {
    var all := feedbacks + [CreateFeedback(feedbacks, loans, caller, loanId, content, isPublic, now).value];
    forall i | 0 <= i < |all| ensures Justified(all[i], loans) {
      if i < |feedbacks| {
        assert all[i] == feedbacks[i];
      }
    }
  }

  /**
   * Feedback stays justified whatever the loan router does next: a returned
   * loan is final, so no transition rewrites it, and a new booking only
   * appends a row.
   */
  lemma {:induction false} TransitionKeepsJustified(feedbacks: seq<Feedback>, loans: seq<Loan>, k: nat, a: LoanRouter.Action,
                                                    ownerId: UserId, caller: UserId, now: int)
    requires AllJustified(feedbacks, loans) && k < |loans|
    ensures AllJustified(feedbacks, LoanRouter.Commit(loans, k, LoanRouter.Transition(a, loans[k], ownerId, caller, now)))
  {
    var r := LoanRouter.Transition(a, loans[k], ownerId, caller, now);
    if r.Ok? {
      var loans' := loans[k := r.value];
      forall i | 0 <= i < |feedbacks| ensures Justified(feedbacks[i], loans') {
        assert feedbacks[i].loanId != k;
      }
    }
  }

  /** Appending a loan keeps every feedback justified. */
  lemma {:induction false} NewLoanKeepsJustified(feedbacks: seq<Feedback>, loans: seq<Loan>, l: Loan)
    requires AllJustified(feedbacks, loans)
    ensures AllJustified(feedbacks, loans + [l])
  {
    forall i | 0 <= i < |feedbacks| ensures Justified(feedbacks[i], loans + [l]) {
      assert (loans + [l])[feedbacks[i].loanId] == loans[feedbacks[i].loanId];
    }
  }

  /** `ORDER BY createdAt DESC`: newest feedback first. */
  function NewestFeedbackFirst(f: Feedback): int {
    -f.createdAt
  }

  /** Whether a feedback on the item is shown to the caller: all of them to the owner, the public ones to everybody else. */
  predicate Visible(f: Feedback, itemId: ItemId, isOwner: bool) {
    f.itemId == itemId && (isOwner || f.isPublic)
  }

  /**
   * `getByItem` (lines 78-121): NOT_FOUND for an unknown item; otherwise the
   * item's feedback, newest first, all of it for the owner and the public part
   * for anybody else, signed-in or not.
   */
  function GetByItem(items: seq<Item>, feedbacks: seq<Feedback>, itemId: ItemId, caller: Option<UserId>): (r: Result<seq<Feedback>>)
    ensures r.Err? <==> itemId >= |items|
    ensures r.Err? ==> r.error == NotFound
    ensures r.Ok? ==> SortedBy(r.value, NewestFeedbackFirst)
    ensures r.Ok? ==> forall i :: 0 <= i < |r.value| ==>
              r.value[i] in feedbacks && r.value[i].itemId == itemId &&
              (r.value[i].isPublic || caller == Some(items[itemId].ownerId))
    ensures r.Ok? ==> forall i :: 0 <= i < |feedbacks| && Visible(feedbacks[i], itemId, caller == Some(items[itemId].ownerId)) ==>
              feedbacks[i] in r.value
    ensures r.Ok? ==> multiset(r.value) <= multiset(feedbacks)
    ensures r.Ok? ==> forall i :: 0 <= i < |feedbacks| && Visible(feedbacks[i], itemId, caller == Some(items[itemId].ownerId)) ==>
              multiset(r.value)[feedbacks[i]] == multiset(feedbacks)[feedbacks[i]]
  {
    if itemId >= |items| then Err(NotFound)
    else
      var isOwner := caller == Some(items[itemId].ownerId);
      var shown := f => Visible(f, itemId, isOwner);
      var kept := Filter(feedbacks, shown);
      var rows := SortBy(kept, NewestFeedbackFirst);
      SameElements(kept, rows);
      PermutedFilterCounts(feedbacks, shown, rows);
      Ok(rows)
  }

  /** The owner sees everything a visitor sees, and a visitor sees only public feedback. */
  lemma OwnerSeesMore(items: seq<Item>, feedbacks: seq<Feedback>, itemId: ItemId, visitor: Option<UserId>)
    requires itemId < |items| && visitor != Some(items[itemId].ownerId)
    ensures var seen := GetByItem(items, feedbacks, itemId, visitor).value;
      && (forall i :: 0 <= i < |seen| ==> seen[i].isPublic)
      && (forall i :: 0 <= i < |seen| ==> seen[i] in GetByItem(items, feedbacks, itemId, Some(items[itemId].ownerId)).value)
  {
  }

  class FeedbackTable {
    var feedbacks: seq<Feedback>

    /** Row ids are positions and no loan is reviewed twice. */
    ghost predicate Valid()
      reads this
    {
      (forall i :: 0 <= i < |feedbacks| ==> feedbacks[i].id == i) && OnePerLoan(feedbacks)
    }

    constructor ()
      ensures Valid() && feedbacks == []
    {
      feedbacks := [];
    }

    method Create(caller: UserId, loans: seq<Loan>, loanId: LoanId, content: string, isPublic: bool, now: int)
      returns (r: Result<Feedback>)
      requires Valid()
      modifies this
      ensures Valid()
      ensures r == CreateFeedback(old(feedbacks), loans, caller, loanId, content, isPublic, now)
      ensures feedbacks == if r.Ok? then old(feedbacks) + [r.value] else old(feedbacks)
      ensures old(AllJustified(feedbacks, loans)) ==> AllJustified(feedbacks, loans)
    {
      if |content| < 1 {
        return Err(BadRequest(ContentRequired));
      }
      if loanId >= |loans| {
        return Err(NotFound);
      }
      var loan := loans[loanId];
      if loan.borrowerId != caller {
        return Err(Forbidden);
      }
      if loan.status != Returned {
        return Err(BadRequest(OnlyReturned));
      }
      var existing := FindIndex(feedbacks, (f: Feedback) => f.loanId == loanId);
      if existing.Some? {
        return Err(BadRequest(AlreadyReviewed));
      }
      var feedback := Feedback(|feedbacks|, loanId, caller, loan.itemId, content, isPublic, now);
      CreateFeedbackKeepsOnePerLoan(feedbacks, loans, caller, loanId, content, isPublic, now);
      if AllJustified(feedbacks, loans) {
        CreateFeedbackKeepsJustified(feedbacks, loans, caller, loanId, content, isPublic, now);
      }
      feedbacks := feedbacks + [feedback];
      r := Ok(feedback);
    }
  }
}
