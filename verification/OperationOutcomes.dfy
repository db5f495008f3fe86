/** When a software operation is opened, and what ends it. */
module OperationOutcomes {
  import opened Common
  import opened KeyData
  import opened Ownership
  import opened Hooks
  import opened OwnershipInvariant
  import opened HookOutcomes
  import opened UsageCounter

  /** The own key the descriptor names has a count, and it is used up. */
  ghost predicate UsedUp(c: Cache, uid: Int32, d: Descriptor) {
    exists j :: NamesOwn(c, uid, d, j) && j in c.usageRemaining && c.usageRemaining[j] <= 0
  }

  /**
   An operation is opened exactly for a descriptor that leads to a forged key, unless it is forced, not
   authorized, its engine cannot be set up, or the key is limited and the count of the own key used up.
   */
  lemma OpensExactly(c: Cache, uid: Int32, d: Descriptor, request: OpenRequest)
    ensures Open(c, uid, d, request).Some?
            <==> exists k :: Leads(c, uid, d, c.keys, k)
                   && !request.force && request.authorized && request.engineMade
                   && !(c.keys[k].params.usageCountLimit > 0 && UsedUp(c, uid, d))
    ensures forall k :: Open(c, uid, d, request).Some? && Leads(c, uid, d, c.keys, k) ==>
              var op := Open(c, uid, d, request).value;
              && op.limit == c.keys[k].params.usageCountLimit && op.store == (k, c.keys[k].response.metadata.nspace)
              && op.active && op.finishes == 0 && forall j :: op.usageKey == Some(j) <==> NamesOwn(c, uid, d, j)
  {
    ServedFrom(c, uid, d, Continue);
    forall j ensures NamesOwn(c, uid, d, j) <==> ResolveKey(c, uid, d) == Some(j) { ResolvesExactly(c, uid, d, j); }
    if FindGenerated(c, uid, d).Some? {
      var k := FindGenerated(c, uid, d).value;
      assert Leads(c, uid, d, c.keys, k);
      assert UsedUp(c, uid, d) <==> ResolveKey(c, uid, d).Some? && ResolveKey(c, uid, d).value in c.usageRemaining
                                    && c.usageRemaining[ResolveKey(c, uid, d).value] <= 0;
    }
  }

  /** The engine sees exactly the calls of an open operation with at most 32768 bytes; others fail for their own reason. */
  lemma CallsReach(usage: map<Key, int>, op: Operation, size: Option<nat>, aad: bool, engineOk: bool)
    ensures var tooMuch := size.Some? && size.value > 32768;
            var fed, finished := Feed(op, size, aad, engineOk).1, Finish(usage, op, size, engineOk).2;
            && (!op.active ==> fed == finished == InvalidHandle)
            && (op.active && tooMuch ==> fed == finished == TooMuchData)
            && (op.active && !tooMuch ==> fed == Answered(engineOk) && finished in {KeyExpired, Answered(engineOk)})
  {
  }

  /** An operation is over for good once it was finished, aborted, or an updateAad of it failed; a failed update is not the end. */
  lemma EndsExactly(usage: map<Key, int>, op: Operation, size: Option<nat>, aad: bool, engineOk: bool)
    requires op.active
    ensures var (after, outcome) := Feed(op, size, aad, engineOk);
            !after.active <==> aad && outcome == Answered(false)
    ensures !Finish(usage, op, size, engineOk).1.active <==> Finish(usage, op, size, engineOk).2.Answered?
    ensures forall u, s, e :: Finish(u, op.(active := false), s, e) == (u, op.(active := false), InvalidHandle)
  {
  }
}
