/** backend/src/domain/request-status.ts: the statuses of a request and the moves between them. */
module RequestStatus {

  datatype Status = Created | Queued | Sent | Failed | Rejected

  const TERMINAL_STATUSES: set<Status> := {Sent, Rejected, Failed}

  // A worker takes up a request in one of these, and leaves it alone in any other.
  const DELIVERABLE_STATUSES: set<Status> := {Created, Queued}

  predicate IsTerminal(status: Status) {
    status in TERMINAL_STATUSES
  }

  type TerminalStatus = status: Status | IsTerminal(status) witness Sent

  // The statuses a request may be in right before it moves to `target`.
  function AllowedPreviousStatuses(target: Status): set<Status> {
    match target
    case Created => {Failed}
    case Queued => {Created}
    case Sent | Rejected | Failed => DELIVERABLE_STATUSES
  }

  predicate MayMove(from: Status, to: Status) {
    from in AllowedPreviousStatuses(to)
  }

  // A life: consecutive statuses are allowed moves.
  ghost predicate IsLife(life: seq<Status>) {
    forall i {:trigger life[i]} :: 0 <= i && i + 1 < |life| ==> MayMove(life[i], life[i + 1])
  }

  function Entries(life: seq<Status>, target: Status): nat {
    if |life| == 0 then 0
    else Entries(life[..|life| - 1], target) + (if life[|life| - 1] == target then 1 else 0)
  }

  // `sent` and `rejected` end a life for good, and every return to `created` was paid for by
  // exactly one failure: over any life that starts as `created`, the failures and the returns
  // alternate, and a final status can only be the last entry.
  lemma {:induction false} LivesEndOnce(life: seq<Status>)
    requires IsLife(life) && |life| > 0 && life[0] == Created
    ensures Entries(life, Created) + (if life[|life| - 1] == Failed then 1 else 0) == Entries(life, Failed) + 1
    ensures Entries(life, Sent) + Entries(life, Rejected) == (if life[|life| - 1] in {Sent, Rejected} then 1 else 0)
  {
    var n := |life| - 1;
    if n == 0 {
      assert life[..0] == [];
    } else {
      var earlier := life[..n];
      assert IsLife(earlier) by {
        forall i | 0 <= i && i + 1 < |earlier| ensures MayMove(earlier[i], earlier[i + 1]) {
          assert MayMove(life[i], life[i + 1]);
        }
      }
      LivesEndOnce(earlier);
      assert MayMove(life[n - 1], life[n]);
      assert earlier[|earlier| - 1] == life[n - 1];
    }
  }
}
