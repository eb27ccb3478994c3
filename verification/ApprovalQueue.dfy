/** The state a broker and its gates share, changed under its lock, and the snapshot a frontend reads.
    Each method is one step of the protocol. */
module ApprovalQueue {
  import opened Wrappers
  import opened Ordering
  import opened Approval

  /** The order a frontend lists questions in: oldest first, then by identity. */
  predicate AskedEarlier(a: PendingApproval, b: PendingApproval) {
    || a.requestedAt < b.requestedAt
    || (a.requestedAt == b.requestedAt && a.id < b.id)
    || (a.requestedAt == b.requestedAt && a.id == b.id && a.expiresAt < b.expiresAt)
  }

  lemma AskedEarlierIsTotal()
    ensures StrictTotal(AskedEarlier)
  {
  }

  class Shared {
    var waiting: map<ApprovalId, PendingApproval>
    var closed: bool
    var gates: nat
    const maxPending: nat

    /** Questions are filed under their own identity and never past the bound. */
    ghost predicate Valid()
      reads this
    {
      && |waiting| <= maxPending
      && (closed ==> waiting == map[])
      && forall id | id in waiting :: waiting[id].id == id
    }

    ghost function View(): Queue
      reads this
    {
      Queue(waiting, closed, gates)
    }

    constructor (maxPending: nat)
      ensures Valid() && View() == Queue(map[], false, 0) && this.maxPending == maxPending
    {
      waiting, closed, gates := map[], false, 0;
      this.maxPending := maxPending;
    }

    method Enqueue(pending: PendingApproval) returns (refused: Option<Refusal>)
      requires Valid()
      modifies this`waiting
      ensures Valid()
      ensures (View(), refused) == Approval.Enqueue(old(View()), pending, maxPending)
      ensures refused.None? ==> pending.id in waiting
      ensures closed || (|old(waiting)| >= maxPending) <==> refused.Some?
    {
      if closed {
        return Some(Cancelled);
      }
      if |waiting| >= maxPending {
        return Some(QueueFull);
      }
      waiting := waiting[pending.id := pending];
      return None;
    }

    method Withdraw(id: ApprovalId) returns (waiter: Option<PendingApproval>)
      requires Valid()
      modifies this`waiting
      ensures Valid() && id !in waiting
      ensures View() == Approval.Withdraw(old(View()), id)
      ensures waiter == if id in old(waiting) then Some(old(waiting)[id]) else None
    {
      waiter := if id in waiting then Some(waiting[id]) else None;
      assert (waiting - {id}).Keys <= waiting.Keys;
      Subset((waiting - {id}).Keys, waiting.Keys);
      waiting := waiting - {id};
    }

    method Close() returns (drained: map<ApprovalId, PendingApproval>)
      requires Valid()
      modifies this`waiting, this`closed
      ensures Valid() && closed
      ensures View() == Approval.Close(old(View())) && drained == old(waiting)
    {
      closed := true;
      drained := waiting;
      waiting := map[];
    }

    method Attach()
      modifies this`gates
      ensures View() == old(View()).(gates := old(gates) + 1)
    {
      gates := gates + 1;
    }

    method Detach()
      requires gates > 0
      modifies this`gates
      ensures View() == old(View()).(gates := old(gates) - 1)
    {
      gates := gates - 1;
    }

    /** Every question waiting, each once, oldest first. */
    method Pending() returns (pending: seq<PendingApproval>)
      requires Valid()
      ensures forall i, j | 0 <= i < j < |pending| ::
                || pending[i].requestedAt < pending[j].requestedAt
                || (pending[i].requestedAt == pending[j].requestedAt && pending[i].id < pending[j].id)
      ensures forall p :: p in pending <==> p.id in waiting && waiting[p.id] == p
      ensures |pending| == |waiting|
    {
      AskedEarlierIsTotal();
      pending := Enumerate(waiting.Values, AskedEarlier);
      assert forall p :: p in pending <==> p in Elements(pending);
      OneQuestionEach(waiting);
      forall i, j | 0 <= i < j < |pending|
        ensures pending[i].requestedAt <= pending[j].requestedAt
        ensures pending[i].requestedAt == pending[j].requestedAt ==> pending[i].id < pending[j].id
      {
        assert AskedEarlier(pending[i], pending[j]);
        assert pending[i] in pending && pending[j] in pending;
      }
    }
  }

  lemma OneQuestionEach(waiting: map<ApprovalId, PendingApproval>)
    requires forall id | id in waiting :: waiting[id].id == id
    ensures |waiting.Values| == |waiting|
    decreases |waiting|
  {
    if waiting != map[] {
      var id :| id in waiting;
      var rest := waiting - {id};
      assert waiting.Values == rest.Values + {waiting[id]} by {
        forall p | p in waiting.Values ensures p in rest.Values + {waiting[id]} {
          assert p != waiting[id] ==> p.id in rest;
        }
        forall p | p in rest.Values ensures p in waiting.Values {
          assert p.id in rest && waiting[p.id] == p;
        }
      }
      assert |rest.Keys| == |waiting.Keys - {id}|;
      assert rest.Keys == waiting.Keys - {id};
      OneQuestionEach(rest);
    }
  }
}
