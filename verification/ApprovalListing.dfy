/**
 What a listing of the approvals shows: every record of the wanted status, in the order
 of creation, records of one moment in the order of the dictionary, and none that is
 still pending past its deadline.
 */
module ApprovalListing {
  import opened Wrappers
  import opened GatewayTypes
  import opened Approvals
  import L = ApprovalLifecycle

  ghost predicate Ordered(xs: seq<Approval>) {
    forall i, j :: 0 <= i < j < |xs| ==> xs[i].createdAt <= xs[j].createdAt
  }

  /** The records created at one moment, in the order of the list. */
  ghost function CreatedAt(xs: seq<Approval>, at: Time): seq<Approval> {
    if |xs| == 0 then []
    else
      var front, a := CreatedAt(xs[..|xs| - 1], at), xs[|xs| - 1];
      if a.createdAt == at then front + [a] else front
  }

  /** A sort that keeps the order of equal records, told moment by moment. */
  ghost predicate StablySorted(xs: seq<Approval>, sorted: seq<Approval>) {
    Ordered(sorted) && forall at :: CreatedAt(sorted, at) == CreatedAt(xs, at)
  }

  // ---- sorting

  lemma CreatedAtAppend(xs: seq<Approval>, a: Approval, at: Time)
    ensures CreatedAt(xs + [a], at) == if a.createdAt == at then CreatedAt(xs, at) + [a] else CreatedAt(xs, at)
  {
    assert (xs + [a])[..|xs|] == xs;
  }

  lemma {:induction false} InsertKeepsOrder(sorted: seq<Approval>, a: Approval)
    requires Ordered(sorted)
    ensures Ordered(InsertByCreation(sorted, a))
    ensures forall b :: b in InsertByCreation(sorted, a) ==> b in sorted || b == a
  {
    var n := |sorted| - 1;
    if n >= 0 && sorted[n].createdAt > a.createdAt {
      var inserted := InsertByCreation(sorted[..n], a);
      InsertKeepsOrder(sorted[..n], a);
      forall i | 0 <= i < |inserted|
        ensures inserted[i].createdAt <= sorted[n].createdAt
      {
        assert inserted[i] in inserted;
      }
    }
  }

  /** Records of one moment are not moved past each other. */
  lemma {:induction false} InsertIsStable(sorted: seq<Approval>, a: Approval, at: Time)
    ensures CreatedAt(InsertByCreation(sorted, a), at) == CreatedAt(sorted + [a], at)
  {
    var n := |sorted| - 1;
    if n >= 0 && sorted[n].createdAt > a.createdAt {
      InsertIsStable(sorted[..n], a, at);
      CreatedAtAppend(InsertByCreation(sorted[..n], a), sorted[n], at);
      CreatedAtAppend(sorted[..n], a, at);
      CreatedAtAppend(sorted, a, at);
    }
  }

  lemma {:induction false} SortIsStable(xs: seq<Approval>)
    ensures StablySorted(xs, SortByCreation(xs))
  {
    if |xs| > 0 {
      var front, a := xs[..|xs| - 1], xs[|xs| - 1];
      SortIsStable(front);
      InsertKeepsOrder(SortByCreation(front), a);
      forall at
        ensures CreatedAt(SortByCreation(xs), at) == CreatedAt(xs, at)
      {
        InsertIsStable(SortByCreation(front), a, at);
        CreatedAtAppend(SortByCreation(front), a, at);
      }
    }
  }

  lemma {:induction false} CreatedAtHas(xs: seq<Approval>, a: Approval)
    ensures a in CreatedAt(xs, a.createdAt) <==> a in xs
  {
    if |xs| > 0 {
      CreatedAtHas(xs[..|xs| - 1], a);
      assert xs == xs[..|xs| - 1] + [xs[|xs| - 1]];
    }
  }

  // ---- what is listed

  ghost predicate Wanted(a: Approval, status: Option<ApprovalStatus>) {
    status.None? || a.status == status.value
  }

  lemma {:induction false} ValuesHas(st: ApprovalState, ids: seq<Id>, status: Option<ApprovalStatus>, a: Approval)
    requires L.Invariant(st)
    ensures a in Values(st, ids, status) <==>
      a.id in ids && a.id in st.approvals && st.approvals[a.id] == a && Wanted(a, status)
  {
    if |ids| > 0 {
      ValuesHas(st, ids[..|ids| - 1], status, a);
      assert ids == ids[..|ids| - 1] + [ids[|ids| - 1]];
    }
  }

  /** Without a wanted status the records come one for one, in the order of the dictionary. */
  lemma {:induction false} ValuesAreAll(st: ApprovalState, ids: seq<Id>)
    requires forall i :: 0 <= i < |ids| ==> ids[i] in st.approvals
    ensures |Values(st, ids, None)| == |ids|
    ensures forall i :: 0 <= i < |ids| ==> Values(st, ids, None)[i] == st.approvals[ids[i]]
  {
    if |ids| > 0 {
      ValuesAreAll(st, ids[..|ids| - 1]);
    }
  }

  /** A sweep leaves none of the approvals it visits overdue, and makes none overdue. */
  lemma {:induction false} SweepLeavesNoneOverdue(st: ApprovalState, ids: seq<Id>, now: Time)
    requires L.Invariant(st)
    ensures var st' := ExpireFirst(st, ids, now);
      && st'.order == st.order
      && forall id :: id in st'.approvals && Overdue(st'.approvals[id], now) ==> id !in ids
  {
    if |ids| > 0 {
      var front, last := ids[..|ids| - 1], ids[|ids| - 1];
      SweepLeavesNoneOverdue(st, front, now);
      L.ExpireFirstKeeps(st, front, now);
      assert ids == front + [last];
    }
  }

  lemma ListedHas(st: ApprovalState, status: Option<ApprovalStatus>, a: Approval)
    requires L.Invariant(st)
    ensures a in Listed(st, status) <==> a.id in st.approvals && st.approvals[a.id] == a && Wanted(a, status)
  {
    SortIsStable(Values(st, st.order, status));
    CreatedAtHas(Listed(st, status), a);
    CreatedAtHas(Values(st, st.order, status), a);
    ValuesHas(st, st.order, status, a);
  }

  /** What list_approvals answers in any reachable store. */
  lemma ListingIsRight(st: ApprovalState, now: Time, status: Option<ApprovalStatus>)
    requires L.Invariant(st)
    ensures var st' := ExpirePending(st, now);
      && StablySorted(Values(st', st'.order, status), Listed(st', status))
      && (forall a :: a in Listed(st', status) <==>
        a.id in st'.approvals && st'.approvals[a.id] == a && Wanted(a, status))
      && (forall a :: a in Listed(st', status) ==> !Overdue(a, now))
  {
    var st' := ExpirePending(st, now);
    L.ExpireFirstKeeps(st, st.order, now);
    SweepLeavesNoneOverdue(st, st.order, now);
    SortIsStable(Values(st', st'.order, status));
    forall a: Approval
      ensures a in Listed(st', status) <==> a.id in st'.approvals && st'.approvals[a.id] == a && Wanted(a, status)
    {
      ListedHas(st', status, a);
    }
  }

  /** The list that is sorted holds every record, in the order in which they were created. */
  lemma RecordsInOrder(st: ApprovalState, now: Time)
    requires L.Invariant(st)
    ensures var st' := ExpirePending(st, now);
      && |Values(st', st'.order, None)| == |st.order|
      && forall i :: 0 <= i < |st.order| ==>
        st.order[i] in st'.approvals && Values(st', st'.order, None)[i] == st'.approvals[st.order[i]]
  {
    L.ExpireFirstKeeps(st, st.order, now);
    SweepLeavesNoneOverdue(st, st.order, now);
    ValuesAreAll(ExpirePending(st, now), st.order);
  }
}
