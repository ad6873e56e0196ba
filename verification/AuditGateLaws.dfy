/** What a passing gate proves, and why the order of the receipts cannot matter. */
module AuditGateLaws {
  import opened Outcome
  import opened Names
  import opened Permutation
  import opened AuditGate

  // ---- Receipts are in bijection with slots times ranks ----

  ghost function Row(slot: string, members: nat): (r: set<Slot>)
    ensures |r| == members && forall k :: k in r <==> k.0 == slot && 0 <= k.1 < members
  {
    if members == 0 then {} else Row(slot, members - 1) + {(slot, members - 1)}
  }

  /** Every slot with every rank. */
  ghost function Product(slots: seq<string>, members: nat): (r: set<Slot>)
    ensures forall k :: k in r <==> k.0 in slots && 0 <= k.1 < members
  {
    if slots == [] then {}
    else
      assert slots == slots[..|slots| - 1] + [slots[|slots| - 1]];
      Product(slots[..|slots| - 1], members) + Row(slots[|slots| - 1], members)
  }

  lemma {:induction false} ProductCount(slots: seq<string>, members: nat)
    requires forall i, j :: 0 <= i < j < |slots| ==> slots[i] != slots[j]
    ensures |Product(slots, members)| == |slots| * members
  {
    if slots != [] {
      var n := |slots| - 1;
      ProductCount(slots[..n], members);
      var sofar, row := Product(slots[..n], members), Row(slots[n], members);
      assert Product(slots, members) == sofar + row;
      assert sofar !! row;
      hide *;
      OneMore(n, members);
    }
  }

  lemma OneMore(n: nat, members: nat)
    ensures (n + 1) * members == n * members + members
  {
  }

  ghost function Keys(receipts: seq<Receipt>): set<Slot>
    requires forall i :: 0 <= i < |receipts| ==> receipts[i].Receipt? && receipts[i].slot.Text? && receipts[i].rank.Int?
  {
    set i | 0 <= i < |receipts| :: Key(receipts[i])
  }

  lemma {:induction false} KeyCount(receipts: seq<Receipt>)
    requires forall i :: 0 <= i < |receipts| ==> receipts[i].Receipt? && receipts[i].slot.Text? && receipts[i].rank.Int?
    requires forall i, j :: 0 <= i < j < |receipts| ==> Key(receipts[i]) != Key(receipts[j])
    ensures |Keys(receipts)| == |receipts|
  {
    if receipts != [] {
      var n := |receipts| - 1;
      var front := receipts[..n];
      KeyCount(front);
      assert Keys(receipts) == Keys(front) + {Key(receipts[n])};
      assert Key(receipts[n]) !in Keys(front);
    }
  }

  lemma CoveredKeys(receipts: seq<Receipt>, slots: seq<string>, members: int)
    requires members >= 0 && Consistent(receipts, slots, members) && Complete(receipts, slots, members)
    ensures forall i :: 0 <= i < |receipts| ==> receipts[i].Receipt? && receipts[i].slot.Text? && receipts[i].rank.Int?
    ensures forall i, j :: 0 <= i < j < |receipts| ==> Key(receipts[i]) != Key(receipts[j])
    ensures Keys(receipts) == Product(slots, members)
  {
    forall i | 0 <= i < |receipts|
      ensures receipts[i].Receipt? && receipts[i].slot.Text? && receipts[i].rank.Int? &&
              Key(receipts[i]) in Product(slots, members)
    {
      assert Member(receipts[i], slots, members);
    }
    forall i, j | 0 <= i < j < |receipts|
      ensures Key(receipts[i]) != Key(receipts[j])
    {
      assert Compatible(receipts[i], receipts[j]);
    }
    forall slot, rank | slot in slots && 0 <= rank < members
      ensures (slot, rank) in Keys(receipts)
    {
      assert Answered(receipts, slot, rank);
      var i :| 0 <= i < |receipts| && Answers(receipts[i], slot, rank);
      assert Key(receipts[i]) == (slot, rank);
    }
  }

  ghost predicate SoleAnswer(receipts: seq<Receipt>, slot: string, rank: int) {
    exists i :: OnlyAnswer(receipts, slot, rank, i)
  }

  /** One receipt answers this slot and rank. */
  ghost predicate OnlyAnswer(receipts: seq<Receipt>, slot: string, rank: int, i: nat) {
    i < |receipts| && Answers(receipts[i], slot, rank) &&
    forall j :: 0 <= j < |receipts| && Answers(receipts[j], slot, rank) ==> j == i
  }

  /** A covered authority: exactly one receipt per slot and rank and none besides, rank and
      process in one-to-one correspondence, and enough calls from every member. */
  lemma CoverageIsBijection(receipts: seq<Receipt>, slots: seq<string>, members: int, minCalls: int)
    requires Covered(receipts, slots, members, minCalls)
    ensures |receipts| == |slots| * members
    ensures forall slot, rank :: slot in slots && 0 <= rank < members ==> SoleAnswer(receipts, slot, rank)
    ensures forall i :: 0 <= i < |receipts| ==> Member(receipts[i], slots, members)
    ensures forall i, j :: 0 <= i < |receipts| && 0 <= j < |receipts| ==>
              receipts[i].Receipt? && receipts[j].Receipt? && (receipts[i].rank == receipts[j].rank <==>
                        receipts[i].pid == receipts[j].pid)
    ensures forall i :: 0 <= i < |receipts| ==> EnoughCalls(receipts[i], minCalls)
  {
    hide Product, Keys, Canonical;
    CoveredKeys(receipts, slots, members);
    KeyCount(receipts);
    CanonicalAllDistinct(slots);
    ProductCount(slots, members);
    forall slot, rank | slot in slots && 0 <= rank < members
      ensures SoleAnswer(receipts, slot, rank)
    {
      assert Answered(receipts, slot, rank);
      var i :| 0 <= i < |receipts| && Answers(receipts[i], slot, rank);
      forall j | 0 <= j < |receipts| && Answers(receipts[j], slot, rank)
        ensures j == i
      {
        assert Key(receipts[i]) == Key(receipts[j]);
      }
      assert OnlyAnswer(receipts, slot, rank, i);
    }
    forall i | 0 <= i < |receipts|
      ensures EnoughCalls(receipts[i], minCalls)
    {
      assert receipts[i] in receipts;
    }
    forall i, j | 0 <= i < |receipts| && 0 <= j < |receipts|
      ensures receipts[i].rank == receipts[j].rank <==> receipts[i].pid == receipts[j].pid
    {
      assert i < j ==> Compatible(receipts[i], receipts[j]);
      assert j < i ==> Compatible(receipts[j], receipts[i]);
    }
  }

  lemma CanonicalAllDistinct(names: seq<string>)
    requires Canonical(names)
    ensures forall i, j :: 0 <= i < j < |names| ==> names[i] != names[j]
  {
    forall i, j | 0 <= i < j < |names|
      ensures names[i] != names[j]
    {
      if names[i] == names[j] {
        CanonicalDistinct(names, i, j);
      }
    }
  }

  // ---- With authority the last check is dead ----

  lemma {:induction false} TotalAtLeast(receipts: seq<Receipt>, minCalls: int)
    requires AllCountable(receipts) && forall r :: r in receipts ==> EnoughCalls(r, minCalls)
    ensures Total(receipts).n >= |receipts| * minCalls
  {
    if receipts != [] {
      var n := |receipts| - 1;
      assert receipts[n] in receipts;
      TotalAtLeast(receipts[..n], minCalls);
    }
  }

  /** When each member has enough calls, the total has too. */
  lemma TotalCheckIsDead(receipts: seq<Receipt>, slots: seq<string>, members: int, minCalls: int)
    requires Admissible(receipts, minCalls, Some(slots), Some(members)) && AllCountable(receipts)
    ensures Total(receipts).n >= minCalls
  {
    TotalAtLeast(receipts, minCalls);
    var n := |receipts|;
    assert n * minCalls >= 1 * minCalls;
  }

  // ---- Order does not matter ----

  lemma {:induction false} TotalRemove(receipts: seq<Receipt>, i: nat)
    requires AllCountable(receipts) && i < |receipts|
    ensures AllCountable(Without(receipts, i)) && Countable(receipts[i])
    ensures Total(receipts) == Total(Without(receipts, i)).Plus(receipts[i])
  {
    assert receipts[i] in receipts;
    var n := |receipts| - 1;
    var rest, last := Without(receipts, i), receipts[n];
    assert last in receipts;
    if i < n {
      var front := receipts[..n];
      TotalRemove(front, i);
      assert rest == Without(front, i) + [last];
      assert rest[..|rest| - 1] == Without(front, i);
    } else {
      assert rest == receipts[..n];
    }
  }

  lemma {:induction false} TotalPermutes(a: seq<Receipt>, b: seq<Receipt>)
    requires AllCountable(a) && AllCountable(b) && multiset(a) == multiset(b)
    ensures Total(a) == Total(b)
    decreases |b|
  {
    hide Total, Countable;
    SameMembers(a, b);
    if b != [] {
      assert b[0] in a;
      var i :| 0 <= i < |a| && a[i] == b[0];
      TotalRemove(a, i);
      TotalRemove(b, 0);
      WithoutMultiset(a, i);
      WithoutMultiset(b, 0);
      assert multiset(Without(a, i)) == multiset(a) - multiset{a[i]};
      assert multiset(Without(b, 0)) == multiset(b) - multiset{b[0]};
      TotalPermutes(Without(a, i), Without(b, 0));
    }
  }

  lemma ConsistentPermutes(a: seq<Receipt>, b: seq<Receipt>, slots: seq<string>, members: int)
    requires Consistent(a, slots, members) && multiset(a) == multiset(b)
    ensures Consistent(b, slots, members)
  {
    hide Member, Compatible;
    SameMembers(a, b);
    forall i | 0 <= i < |b|
      ensures Member(b[i], slots, members)
    {
      assert b[i] in a;
    }
    forall i, j | 0 <= i < j < |b|
      ensures Compatible(b[i], b[j])
    {
      var x, y := PairFrom(a, b, i, j);
      CompatibleSymmetric(a[x], a[y]);
      assert Compatible(a[if x < y then x else y], a[if x < y then y else x]);
    }
  }

  lemma CompatibleSymmetric(r: Receipt, t: Receipt)
    ensures Compatible(r, t) <==> Compatible(t, r)
  {
  }

  lemma AdmissiblePermutes(a: seq<Receipt>, b: seq<Receipt>, minCalls: int, slots: Option<seq<string>>,
                           members: Option<int>)
    requires multiset(a) == multiset(b) && Admissible(a, minCalls, slots, members)
    ensures Admissible(b, minCalls, slots, members)
  {
    hide Consistent, Canonical, EnoughCalls;
    SameMembers(a, b);
    if slots.Some? && members.Some? {
      ConsistentPermutes(a, b, slots.value, members.value);
      forall slot, rank | slot in slots.value && 0 <= rank < members.value
        ensures Answered(b, slot, rank)
      {
        assert Answered(a, slot, rank);
        var i :| 0 <= i < |a| && Answers(a[i], slot, rank);
        assert a[i] in b;
      }
    }
  }

  /** Passing, failing and raising are the same for every order of the receipts, early exits
      notwithstanding. */
  lemma VerdictPermutes(a: seq<Receipt>, b: seq<Receipt>, minCalls: int, slots: Option<seq<string>>,
                        members: Option<int>)
    requires multiset(a) == multiset(b)
    ensures Passes(a, minCalls, slots, members) <==> Passes(b, minCalls, slots, members)
    ensures Admissible(a, minCalls, slots, members) && !AllCountable(a) <==>
            Admissible(b, minCalls, slots, members) && !AllCountable(b)
  {
    hide Covered, Countable;
    SameMembers(a, b);
    if Admissible(a, minCalls, slots, members) {
      AdmissiblePermutes(a, b, minCalls, slots, members);
    }
    if Admissible(b, minCalls, slots, members) {
      AdmissiblePermutes(b, a, minCalls, slots, members);
    }
    if AllCountable(a) {
      TotalPermutes(a, b);
    }
  }

  // ---- Clean receipts ----

  predicate CleanReceipt(r: Receipt)
    requires Countable(r)
  {
    Counter(r.violations) == Some(0) && Counter(r.compareErrors) == Some(0)
  }

  /** No receipt reports a violation or a comparison error. */
  predicate Clean(receipts: seq<Receipt>)
    requires AllCountable(receipts)
  {
    forall r :: r in receipts ==> CleanReceipt(r)
  }

  predicate NonNegativeReceipt(r: Receipt)
    requires Countable(r)
  {
    Counter(r.violations).value >= 0 && Counter(r.compareErrors).value >= 0
  }

  predicate NonNegative(receipts: seq<Receipt>)
    requires AllCountable(receipts)
  {
    forall r :: r in receipts ==> NonNegativeReceipt(r)
  }

  lemma {:induction false} NonNegativeTotals(receipts: seq<Receipt>)
    requires AllCountable(receipts) && NonNegative(receipts)
    ensures Total(receipts).violations >= 0 && Total(receipts).errors >= 0
    ensures Clean(receipts) <==> Total(receipts).violations <= 0 && Total(receipts).errors <= 0
  {
    if receipts != [] {
      var front, last := receipts[..|receipts| - 1], receipts[|receipts| - 1];
      assert last in receipts && receipts == front + [last];
      NonNegativeTotals(front);
      assert NonNegativeReceipt(last);
      assert Clean(receipts) <==> Clean(front) && CleanReceipt(last);
    }
  }

  /** The gate adds counters up without looking at their sign.  A passing gate means that no receipt
      reports anything exactly when no counter is negative. */
  lemma PassingIsCleanIff(receipts: seq<Receipt>, minCalls: int, slots: Option<seq<string>>, members: Option<int>)
    requires Passes(receipts, minCalls, slots, members)
    ensures Clean(receipts) <==> NonNegative(receipts)
  {
    hide Admissible, Total, Countable;
    if NonNegative(receipts) {
      NonNegativeTotals(receipts);
    }
  }

  /** As documented, for receipts without negative counters and with authority supplied: the gate
      passes exactly on covered receipts without violations and comparison errors. */
  lemma PassesAsDocumented(receipts: seq<Receipt>, minCalls: int, slots: seq<string>, members: int)
    requires minCalls >= 1 && receipts != [] && AllCountable(receipts) && NonNegative(receipts)
    ensures Passes(receipts, minCalls, Some(slots), Some(members)) <==>
            Covered(receipts, slots, members, minCalls) && Clean(receipts)
  {
    hide Covered, Total, Countable;
    NonNegativeTotals(receipts);
    if Covered(receipts, slots, members, minCalls) {
      TotalCheckIsDead(receipts, slots, members, minCalls);
    }
  }

  /** Two ranks of one slot, one reporting three violations and the other minus three. */
  function Cancelling(): seq<Receipt> {
    [Receipt(Text("s"), Int(1), Int(0), Int(2), Int(5), Int(3), Int(0), Number),
     Receipt(Text("s"), Int(2), Int(1), Int(2), Int(5), Int(-3), Int(0), Number)]
  }

  /** They pass under full authority, although one of them reports violations. */
  lemma CancellingReceiptsPass()
    ensures Passes(Cancelling(), 5, Some(["s"]), Some(2)) && !Clean(Cancelling())
  {
    CancellingTotals();
    CancellingCovered();
    assert Cancelling()[0] in Cancelling();
    hide Covered, Total;
  }

  lemma CancellingTotals()
    ensures AllCountable(Cancelling()) && Total(Cancelling()) == Tally(10, 0, 0)
  {
    hide Total;
    TotalOfTwo(Cancelling()[0], Cancelling()[1]);
  }

  lemma TotalOfTwo(a: Receipt, b: Receipt)
    requires Countable(a) && Countable(b)
    ensures AllCountable([a, b]) && Total([a, b]) == Tally(0, 0, 0).Plus(a).Plus(b)
  {
    var front := [a];
    assert front[..0] == [] && [a, b][..1] == front;
    assert AllCountable(front) && Total(front) == Tally(0, 0, 0).Plus(a);
  }

  lemma CancellingCovered()
    ensures Covered(Cancelling(), ["s"], 2, 5)
  {
    var rs := Cancelling();
    assert Consistent(rs, ["s"], 2);
    hide Consistent, Cancelling;
    forall slot, rank | slot in ["s"] && 0 <= rank < 2
      ensures Answered(rs, slot, rank)
    {
      CancellingAnswers(rank);
    }
    CancellingCalls();
  }

  lemma CancellingAnswers(rank: int)
    requires 0 <= rank < 2
    ensures Answered(Cancelling(), "s", rank)
  {
    assert Answers(Cancelling()[rank], "s", rank);
  }

  lemma CancellingCalls()
    ensures forall r :: r in Cancelling() ==> EnoughCalls(r, 5)
  {
  }
}
