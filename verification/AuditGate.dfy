/** The audit gate: per-rank receipts folded into a fail-closed verdict. */
module AuditGate {
  import opened Outcome
  import opened Names
  import opened Permutation

  /** A transported value.  `Junk` is anything that is neither an integer, a boolean, text nor a
      float; float counters are outside the model. */
  datatype Field = Absent | Int(i: int) | Bool(b: bool) | Text(s: string) | Junk

  /** The worst fraction only has to be a number that can be printed: its value decides nothing. */
  datatype Fraction = Number | NotANumber

  datatype Receipt =
    | NotObject
    | Receipt(slot: Field, pid: Field, rank: Field, worldSize: Field, n: Field, violations: Field, compareErrors: Field,
              worst: Fraction)

  datatype Reason =
    | BadMinimum | NoReceipts | AuthorityIncomplete | AuthorityMalformed | ReceiptNotObject
    | CoverageMalformed | CoverageIncomplete | CoverageInsufficient | Violations | CompareErrors | TotalInsufficient

  datatype Verdict = Pass | Fail(reason: Reason) | Raise

  // ---- What the gate demands ----

  /** A counter in a sum: missing counts as zero, booleans as 0 and 1, anything else raises. */
  function Counter(f: Field): Option<int> {
    match f
    case Absent => Some(0)
    case Int(i) => Some(i)
    case Bool(b) => Some(if b then 1 else 0)
    case _ => None
  }

  /** Python's `f == i`. */
  predicate EqualsInt(f: Field, i: int) {
    f == Int(i) || (f.Bool? && i == if f.b then 1 else 0)
  }

  /** The summary can be computed: every counter adds up and the worst fraction prints. */
  predicate Countable(r: Receipt) {
    && r.Receipt? && Counter(r.n).Some? && Counter(r.violations).Some? && Counter(r.compareErrors).Some?
    && r.worst.Number?
  }

  predicate AllCountable(receipts: seq<Receipt>) {
    forall r :: r in receipts ==> Countable(r)
  }

  datatype Tally = Tally(n: int, violations: int, errors: int) {
    function Plus(r: Receipt): Tally
      requires Countable(r)
    {
      Tally(n + Counter(r.n).value, violations + Counter(r.violations).value, errors + Counter(r.compareErrors).value)
    }
  }

  function Total(receipts: seq<Receipt>): Tally
    requires AllCountable(receipts)
  {
    if receipts == [] then Tally(0, 0, 0)
    else
      assert receipts[|receipts| - 1] in receipts;
      Total(receipts[..|receipts| - 1]).Plus(receipts[|receipts| - 1])
  }

  predicate AuthoritySound(slots: seq<string>, members: int) {
    slots != [] && Canonical(slots) && (forall s :: s in slots ==> s != "") && members >= 1
  }

  /** One receipt in the authority's terms. */
  predicate Member(r: Receipt, slots: seq<string>, members: int) {
    && r.Receipt?
    && r.slot.Text? && r.slot.s in slots
    && r.pid.Int? && r.pid.i >= 1
    && r.rank.Int? && 0 <= r.rank.i < members
    && r.worldSize != Absent && Counter(r.worldSize) == Some(members)
  }

  /** Two receipts that can stand beside each other: not the same slot and rank, and rank and
      process determine each other. */
  predicate Compatible(r: Receipt, t: Receipt) {
    && r.Receipt? && t.Receipt?
    && !(r.slot == t.slot && r.rank == t.rank) && (r.rank == t.rank <==> r.pid == t.pid)
  }

  ghost predicate Consistent(receipts: seq<Receipt>, slots: seq<string>, members: int) {
    && (forall i :: 0 <= i < |receipts| ==> Member(receipts[i], slots, members))
    && (forall i, j :: 0 <= i < j < |receipts| ==> Compatible(receipts[i], receipts[j]))
  }

  predicate Answers(r: Receipt, slot: string, rank: int) {
    r.Receipt? && r.slot == Text(slot) && r.rank == Int(rank)
  }

  ghost predicate Complete(receipts: seq<Receipt>, slots: seq<string>, members: int) {
    forall slot, rank :: slot in slots && 0 <= rank < members ==> Answered(receipts, slot, rank)
  }

  ghost predicate Answered(receipts: seq<Receipt>, slot: string, rank: int) {
    exists i :: 0 <= i < |receipts| && Answers(receipts[i], slot, rank)
  }

  predicate EnoughCalls(r: Receipt, minCalls: int) {
    r.Receipt? && r.n.Int? && r.n.i >= minCalls
  }

  ghost predicate Covered(receipts: seq<Receipt>, slots: seq<string>, members: int, minCalls: int) {
    && AuthoritySound(slots, members) && Consistent(receipts, slots, members) && Complete(receipts, slots, members)
    && forall r :: r in receipts ==> EnoughCalls(r, minCalls)
  }

  /** Every check before the totals. */
  ghost predicate Admissible(receipts: seq<Receipt>, minCalls: int, slots: Option<seq<string>>, members: Option<int>) {
    && minCalls >= 1 && receipts != [] && (slots.Some? <==> members.Some?)
    && (slots.Some? && members.Some? ==> Covered(receipts, slots.value, members.value, minCalls))
  }

  ghost predicate Passes(receipts: seq<Receipt>, minCalls: int, slots: Option<seq<string>>, members: Option<int>) {
    && Admissible(receipts, minCalls, slots, members) && AllCountable(receipts)
    && var t := Total(receipts);
       t.violations <= 0 && t.errors <= 0 && t.n >= minCalls
  }

  /** The receipt at `k` is the first that does not fit. */
  ghost predicate FirstMisfit(receipts: seq<Receipt>, slots: seq<string>, members: int, k: nat) {
    k < |receipts| && Consistent(receipts[..k], slots, members) && !Consistent(receipts[..k + 1], slots, members)
  }

  /** Why the gate fails.  The reasons exclude each other, so a failure has exactly one. */
  ghost predicate Because(reason: Reason, receipts: seq<Receipt>, minCalls: int, slots: Option<seq<string>>,
                          members: Option<int>) {
    if minCalls < 1 then reason == BadMinimum
    else if receipts == [] then reason == NoReceipts
    else if slots.Some? != members.Some? then reason == AuthorityIncomplete
    else if Admissible(receipts, minCalls, slots, members) then
      && AllCountable(receipts)
      && var t := Total(receipts);
         reason == if t.violations > 0 then Violations else if t.errors > 0 then CompareErrors else TotalInsufficient
    else slots.Some? && Uncovered(reason, receipts, minCalls, slots.value, members.value)
  }

  ghost predicate Uncovered(reason: Reason, receipts: seq<Receipt>, minCalls: int, slots: seq<string>, members: int) {
    if !AuthoritySound(slots, members) then reason == AuthorityMalformed
    else if !Consistent(receipts, slots, members) then
      exists k: nat :: FirstMisfit(receipts, slots, members, k) &&
        reason == if receipts[k].NotObject? then ReceiptNotObject else CoverageMalformed
    else reason == if Complete(receipts, slots, members) then CoverageInsufficient else CoverageIncomplete
  }

  // ---- The program ----

  type Slot = (string, int)

  function Key(r: Receipt): Slot
    requires r.Receipt? && r.slot.Text? && r.rank.Int?
  {
    (r.slot.s, r.rank.i)
  }

  predicate Seated(r: Receipt, rank: int, pid: int) {
    r.Receipt? && r.rank == Int(rank) && r.pid == Int(pid)
  }

  ghost predicate SomeSeat(done: seq<Receipt>, rank: int, pid: int) {
    exists i :: 0 <= i < |done| && Seated(done[i], rank, pid)
  }

  lemma SeatsStay(done: seq<Receipt>, r: Receipt, rank: int, pid: int)
    ensures SomeSeat(done, rank, pid) || Seated(r, rank, pid) ==> SomeSeat(done + [r], rank, pid)
  {
    var all := done + [r];
    assert all[|done|] == r;
    if i :| 0 <= i < |done| && Seated(done[i], rank, pid) {
      assert Seated(all[i], rank, pid);
    }
  }

  /** The dictionary of receipts holds exactly the ones seen, under their slot and rank. */
  ghost predicate KeysRecorded(done: seq<Receipt>, observed: map<Slot, Receipt>) {
    && (forall i :: 0 <= i < |done| ==> Filed(done[i], observed))
    && (forall k :: k in observed ==>
              exists i :: 0 <= i < |done| && Answers(done[i], k.0, k.1) && observed[k] == done[i])
  }

  predicate Filed(r: Receipt, observed: map<Slot, Receipt>) {
    r.Receipt? && r.slot.Text? && r.rank.Int? && Key(r) in observed && observed[Key(r)] == r
  }

  /** So do the two directions of rank and process. */
  ghost predicate RanksRecorded(done: seq<Receipt>, rankPids: map<int, int>) {
    && (forall i :: 0 <= i < |done| ==> RankFiled(done[i], rankPids))
    && (forall k :: k in rankPids ==> SomeSeat(done, k, rankPids[k]))
  }

  predicate RankFiled(r: Receipt, rankPids: map<int, int>) {
    r.Receipt? && r.rank.Int? && r.rank.i in rankPids && r.pid == Int(rankPids[r.rank.i])
  }

  ghost predicate PidsRecorded(done: seq<Receipt>, pidRanks: map<int, int>) {
    && (forall i :: 0 <= i < |done| ==> PidFiled(done[i], pidRanks))
    && (forall k :: k in pidRanks ==> SomeSeat(done, pidRanks[k], k))
  }

  predicate PidFiled(r: Receipt, pidRanks: map<int, int>) {
    r.Receipt? && r.pid.Int? && r.pid.i in pidRanks && r.rank == Int(pidRanks[r.pid.i])
  }

  /** What the loop refuses: a receipt outside the authority or in conflict with a dictionary. */
  predicate Refused(r: Receipt, slots: seq<string>, members: int,
                    observed: map<Slot, Receipt>, rankPids: map<int, int>, pidRanks: map<int, int>)
  {
    || !Member(r, slots, members)
    || (r.rank.i in rankPids && rankPids[r.rank.i] != r.pid.i)
    || (r.pid.i in pidRanks && pidRanks[r.pid.i] != r.rank.i)
    || Key(r) in observed
  }

  lemma RefusedMeans(r: Receipt, slots: seq<string>, members: int,
                     observed: map<Slot, Receipt>, rankPids: map<int, int>, pidRanks: map<int, int>)
    requires r.Receipt?
    ensures Refused(r, slots, members, observed, rankPids, pidRanks) <==>
              || !(r.slot.Text? && r.slot.s in slots) || !(r.pid.Int? && r.pid.i >= 1) || !r.rank.Int?
              || !(0 <= r.rank.i < members) || !EqualsInt(r.worldSize, members)
              || (r.rank.i in rankPids && rankPids[r.rank.i] != r.pid.i)
              || (r.pid.i in pidRanks && pidRanks[r.pid.i] != r.rank.i) || (r.slot.s, r.rank.i) in observed
  {
  }

  /** Missing counters count as zero, booleans as the integers they are, and text not at all. */
  lemma CountersCount(i: int, s: string)
    ensures Counter(Int(i)) == Some(i) && Counter(Absent) == Counter(Bool(false)) == Some(0)
    ensures Counter(Bool(true)) == Some(1) && Counter(Text(s)) == None && Counter(Junk) == None
  {
  }

  /** The early-exit loop over the receipts. */
  method Collect(receipts: seq<Receipt>, slots: seq<string>, members: int)
    returns (observed: map<Slot, Receipt>, stop: Option<Reason>)
    ensures stop.None? <==> Consistent(receipts, slots, members)
    ensures stop.None? ==> KeysRecorded(receipts, observed)
    ensures stop.Some? ==>
              exists k: nat :: FirstMisfit(receipts, slots, members, k) &&
                stop.value == if receipts[k].NotObject? then ReceiptNotObject else CoverageMalformed
  {
    hide Member, Compatible, KeysRecorded, RanksRecorded, PidsRecorded, Refused, Consistent;
    observed := map[];
    var rankPids: map<int, int>, pidRanks: map<int, int> := map[], map[];
    NothingRecorded(slots, members);
    for k := 0 to |receipts|
      invariant Consistent(receipts[..k], slots, members) && KeysRecorded(receipts[..k], observed)
      invariant RanksRecorded(receipts[..k], rankPids) && PidsRecorded(receipts[..k], pidRanks)
    {
      var r := receipts[k];
      ConsistentPrefix(receipts, slots, members, k);
      ConsistentStep(receipts[..k], r, slots, members, observed, rankPids, pidRanks);
      assert receipts[..k + 1] == receipts[..k] + [r];
      assert Refused(r, slots, members, observed, rankPids, pidRanks) ==> FirstMisfit(receipts, slots, members, k);
      if r.NotObject? {
        NotObjectRefused(r, slots, members, observed, rankPids, pidRanks);
        return observed, Some(ReceiptNotObject);
      }
      RefusedMeans(r, slots, members, observed, rankPids, pidRanks);
      if !(r.slot.Text? && r.slot.s in slots) || !(r.pid.Int? && r.pid.i >= 1) || !r.rank.Int? ||
         !(0 <= r.rank.i < members) || !EqualsInt(r.worldSize, members) ||
         (r.rank.i in rankPids && rankPids[r.rank.i] != r.pid.i) ||
         (r.pid.i in pidRanks && pidRanks[r.pid.i] != r.rank.i) || (r.slot.s, r.rank.i) in observed {
        return observed, Some(CoverageMalformed);
      }
      AcceptedFields(r, slots, members, observed, rankPids, pidRanks);
      KeyStep(receipts[..k], r, observed);
      RankStep(receipts[..k], r, rankPids);
      PidStep(receipts[..k], r, pidRanks);
      rankPids := rankPids[r.rank.i := r.pid.i];
      pidRanks := pidRanks[r.pid.i := r.rank.i];
      observed := observed[Key(r) := r];
    }
    assert receipts[..|receipts|] == receipts;
    return observed, None;
  }

  lemma NothingRecorded(slots: seq<string>, members: int)
    ensures Consistent([], slots, members) && KeysRecorded([], map[]) &&
            RanksRecorded([], map[]) && PidsRecorded([], map[])
  {
  }

  lemma NotObjectRefused(r: Receipt, slots: seq<string>, members: int,
                         observed: map<Slot, Receipt>, rankPids: map<int, int>, pidRanks: map<int, int>)
    requires r.NotObject?
    ensures Refused(r, slots, members, observed, rankPids, pidRanks)
  {
  }

  lemma AcceptedFields(r: Receipt, slots: seq<string>, members: int,
                       observed: map<Slot, Receipt>, rankPids: map<int, int>, pidRanks: map<int, int>)
    requires !Refused(r, slots, members, observed, rankPids, pidRanks)
    ensures r.Receipt? && r.slot.Text? && r.rank.Int? && r.pid.Int? && Key(r) !in observed
    ensures r.rank.i in rankPids ==> rankPids[r.rank.i] == r.pid.i
    ensures r.pid.i in pidRanks ==> pidRanks[r.pid.i] == r.rank.i
  {
  }

  /** Once the receipts so far are inconsistent, so are all of them. */
  lemma ConsistentPrefix(receipts: seq<Receipt>, slots: seq<string>, members: int, k: nat)
    requires k < |receipts|
    ensures Consistent(receipts, slots, members) ==> Consistent(receipts[..k] + [receipts[k]], slots, members)
  {
    hide Member, Compatible;
    var prefix := receipts[..k] + [receipts[k]];
    assert forall i :: 0 <= i < |prefix| ==> prefix[i] == receipts[i];
  }

  /** The dictionaries refuse a receipt exactly when it clashes with an earlier one. */
  lemma ConsistentStep(done: seq<Receipt>, r: Receipt, slots: seq<string>, members: int,
                       observed: map<Slot, Receipt>, rankPids: map<int, int>, pidRanks: map<int, int>)
    requires Consistent(done, slots, members) && KeysRecorded(done, observed)
    requires RanksRecorded(done, rankPids) && PidsRecorded(done, pidRanks)
    ensures Consistent(done + [r], slots, members) <==> !Refused(r, slots, members, observed, rankPids, pidRanks)
  {
    hide Consistent, RanksRecorded, PidsRecorded, KeysRecorded, Compatible;
    ConsistentAppend(done, r, slots, members);
    if Member(r, slots, members) {
      KeyClash(done, r, observed);
      RankClash(done, r, rankPids);
      PidClash(done, r, pidRanks);
      CompatibleParts(done, r);
    }
  }

  lemma CompatibleParts(done: seq<Receipt>, r: Receipt)
    requires r.Receipt?
    ensures (forall i :: 0 <= i < |done| ==> Compatible(done[i], r)) <==>
            && (forall i :: 0 <= i < |done| ==> done[i].Receipt?)
            && (forall i :: 0 <= i < |done| ==> !SameKey(done[i], r))
            && (forall i :: 0 <= i < |done| ==> !RankMoves(done[i], r))
            && (forall i :: 0 <= i < |done| ==> !PidMoves(done[i], r))
  {
  }

  predicate SameKey(t: Receipt, r: Receipt) {
    t.Receipt? && r.Receipt? && t.slot == r.slot && t.rank == r.rank
  }

  predicate RankMoves(t: Receipt, r: Receipt) {
    t.Receipt? && r.Receipt? && t.rank == r.rank && t.pid != r.pid
  }

  predicate PidMoves(t: Receipt, r: Receipt) {
    t.Receipt? && r.Receipt? && t.pid == r.pid && t.rank != r.rank
  }

  lemma KeyClash(done: seq<Receipt>, r: Receipt, observed: map<Slot, Receipt>)
    requires KeysRecorded(done, observed) && r.Receipt? && r.slot.Text? && r.rank.Int?
    ensures Key(r) in observed <==> exists i :: 0 <= i < |done| && SameKey(done[i], r)
    ensures forall i :: 0 <= i < |done| ==> done[i].Receipt?
  {
    if i :| 0 <= i < |done| && SameKey(done[i], r) {
      assert Filed(done[i], observed);
    }
    if Key(r) in observed {
      var i :| 0 <= i < |done| && Answers(done[i], r.slot.s, r.rank.i);
      assert SameKey(done[i], r);
    }
  }

  lemma RankClash(done: seq<Receipt>, r: Receipt, rankPids: map<int, int>)
    requires RanksRecorded(done, rankPids) && r.Receipt? && r.rank.Int? && r.pid.Int?
    ensures r.rank.i in rankPids && rankPids[r.rank.i] != r.pid.i <==>
              exists i :: 0 <= i < |done| && RankMoves(done[i], r)
  {
    if i :| 0 <= i < |done| && RankMoves(done[i], r) {
      assert RankFiled(done[i], rankPids);
    }
    if r.rank.i in rankPids && rankPids[r.rank.i] != r.pid.i {
      var i :| 0 <= i < |done| && Seated(done[i], r.rank.i, rankPids[r.rank.i]);
      assert RankMoves(done[i], r);
    }
  }

  lemma PidClash(done: seq<Receipt>, r: Receipt, pidRanks: map<int, int>)
    requires PidsRecorded(done, pidRanks) && r.Receipt? && r.rank.Int? && r.pid.Int?
    ensures r.pid.i in pidRanks && pidRanks[r.pid.i] != r.rank.i <==>
              exists i :: 0 <= i < |done| && PidMoves(done[i], r)
  {
    if i :| 0 <= i < |done| && PidMoves(done[i], r) {
      assert PidFiled(done[i], pidRanks);
    }
    if r.pid.i in pidRanks && pidRanks[r.pid.i] != r.rank.i {
      var i :| 0 <= i < |done| && Seated(done[i], pidRanks[r.pid.i], r.pid.i);
      assert PidMoves(done[i], r);
    }
  }

  lemma ConsistentAppend(done: seq<Receipt>, r: Receipt, slots: seq<string>, members: int)
    requires Consistent(done, slots, members)
    ensures Consistent(done + [r], slots, members) <==>
            Member(r, slots, members) && forall i :: 0 <= i < |done| ==> Compatible(done[i], r)
  {
    hide Member, Compatible;
    var all := done + [r];
    assert all[|done|] == r && forall i :: 0 <= i < |done| ==> all[i] == done[i];
    if Consistent(all, slots, members) {
      assert forall i :: 0 <= i < |done| ==> Compatible(all[i], all[|done|]);
    }
  }

  lemma KeyStep(done: seq<Receipt>, r: Receipt, observed: map<Slot, Receipt>)
    requires KeysRecorded(done, observed) && r.Receipt? && r.slot.Text? && r.rank.Int? && Key(r) !in observed
    ensures KeysRecorded(done + [r], observed[Key(r) := r])
  {
    var all, o := done + [r], observed[Key(r) := r];
    assert all[|done|] == r;
    forall i | 0 <= i < |done|
      ensures Filed(all[i], o)
    {
      assert Filed(done[i], observed);
    }
    forall k | k in o
      ensures exists i :: 0 <= i < |all| && Answers(all[i], k.0, k.1) && o[k] == all[i]
    {
      if k == Key(r) {
        assert Answers(all[|done|], k.0, k.1);
      } else {
        var i :| 0 <= i < |done| && Answers(done[i], k.0, k.1) && observed[k] == done[i];
        assert all[i] == done[i];
      }
    }
  }

  lemma RankStep(done: seq<Receipt>, r: Receipt, rankPids: map<int, int>)
    requires RanksRecorded(done, rankPids) && r.Receipt? && r.rank.Int? && r.pid.Int?
    requires r.rank.i in rankPids ==> rankPids[r.rank.i] == r.pid.i
    ensures RanksRecorded(done + [r], rankPids[r.rank.i := r.pid.i])
  {
    hide SomeSeat;
    var all, p := done + [r], rankPids[r.rank.i := r.pid.i];
    assert all[|done|] == r;
    forall i | 0 <= i < |done|
      ensures RankFiled(all[i], p)
    {
      assert RankFiled(done[i], rankPids);
    }
    forall k | k in p
      ensures SomeSeat(all, k, p[k])
    {
      SeatsStay(done, r, k, p[k]);
    }
  }

  lemma PidStep(done: seq<Receipt>, r: Receipt, pidRanks: map<int, int>)
    requires PidsRecorded(done, pidRanks) && r.Receipt? && r.rank.Int? && r.pid.Int?
    requires r.pid.i in pidRanks ==> pidRanks[r.pid.i] == r.rank.i
    ensures PidsRecorded(done + [r], pidRanks[r.pid.i := r.rank.i])
  {
    hide SomeSeat;
    var all, q := done + [r], pidRanks[r.pid.i := r.rank.i];
    assert all[|done|] == r;
    forall i | 0 <= i < |done|
      ensures PidFiled(all[i], q)
    {
      assert PidFiled(done[i], pidRanks);
    }
    forall k | k in q
      ensures SomeSeat(all, q[k], k)
    {
      SeatsStay(done, r, q[k], k);
    }
  }

  /** The summary's totals; an uncountable receipt raises. */
  method Tallied(receipts: seq<Receipt>) returns (t: Option<Tally>)
    ensures t.Some? <==> AllCountable(receipts)
    ensures t.Some? ==> t.value == Total(receipts)
  {
    var total := Tally(0, 0, 0);
    for k := 0 to |receipts|
      invariant AllCountable(receipts[..k]) && total == Total(receipts[..k])
    {
      var r := receipts[k];
      assert r in receipts;
      if r.NotObject? {
        return None;
      }
      var n, violations, errors := Counter(r.n), Counter(r.violations), Counter(r.compareErrors);
      if n.None? || violations.None? || errors.None? || r.worst == NotANumber {
        return None;
      }
      assert receipts[..k + 1][..k] == receipts[..k];
      total := Tally(total.n + n.value, total.violations + violations.value, total.errors + errors.value);
    }
    assert receipts[..|receipts|] == receipts;
    return Some(total);
  }

  /** The whole gate: it passes exactly on complete and consistent receipts with enough calls whose
      violations and comparison errors add up to at most zero. */
  method Gate(receipts: seq<Receipt>, minCalls: int, expectedSlots: Option<seq<string>>, expectedMembers: Option<int>)
    returns (v: Verdict)
    ensures v.Pass? <==> Passes(receipts, minCalls, expectedSlots, expectedMembers)
    ensures v.Raise? <==> Admissible(receipts, minCalls, expectedSlots, expectedMembers) && !AllCountable(receipts)
    ensures v.Fail? ==> Because(v.reason, receipts, minCalls, expectedSlots, expectedMembers)
  {
    hide Consistent, Canonical, Countable;
    if minCalls < 1 {
      return Fail(BadMinimum);
    }
    if receipts == [] {
      return Fail(NoReceipts);
    }
    if expectedSlots.None? != expectedMembers.None? {
      return Fail(AuthorityIncomplete);
    }
    if expectedSlots.Some? {
      var slots, members := expectedSlots.value, expectedMembers.value;
      if slots == [] || !Canonical(slots) || "" in slots || members < 1 {
        return Fail(AuthorityMalformed);
      }
      var observed, stop := Collect(receipts, slots, members);
      if stop.Some? {
        return Fail(stop.value);
      }
      CompleteIffKeys(receipts, slots, members, observed);
      var expected := set slot, rank | slot in slots && 0 <= rank < members :: (slot, rank);
      if observed.Keys != expected {
        return Fail(CoverageIncomplete);
      }
      if exists k :: k in observed && !(observed[k].Receipt? && observed[k].n.Int? && observed[k].n.i >= minCalls) {
        ghost var k :| k in observed && !(observed[k].Receipt? && observed[k].n.Int? && observed[k].n.i >= minCalls);
        ghost var i :| 0 <= i < |receipts| && observed[k] == receipts[i];
        assert receipts[i] in receipts;
        return Fail(CoverageInsufficient);
      }
      forall i | 0 <= i < |receipts|
        ensures EnoughCalls(receipts[i], minCalls)
      {
        assert Filed(receipts[i], observed);
      }
    }
    var t := Tallied(receipts);
    if t.None? {
      return Raise;
    }
    if t.value.violations > 0 {
      return Fail(Violations);
    }
    if t.value.errors > 0 {
      return Fail(CompareErrors);
    }
    if t.value.n < minCalls {
      return Fail(TotalInsufficient);
    }
    return Pass;
  }

  lemma CompleteIffKeys(receipts: seq<Receipt>, slots: seq<string>, members: int, observed: map<Slot, Receipt>)
    requires Consistent(receipts, slots, members)
    requires KeysRecorded(receipts, observed)
    ensures Complete(receipts, slots, members) <==>
            observed.Keys == set slot, rank | slot in slots && 0 <= rank < members :: (slot, rank)
  {
    var expected := set slot, rank | slot in slots && 0 <= rank < members :: (slot, rank);
    forall k | k in observed
      ensures k in expected
    {
      var i :| 0 <= i < |receipts| && Answers(receipts[i], k.0, k.1) && observed[k] == receipts[i];
      assert Member(receipts[i], slots, members) && k == (k.0, k.1);
    }
    if Complete(receipts, slots, members) {
      forall slot, rank | slot in slots && 0 <= rank < members
        ensures (slot, rank) in observed
      {
        assert Answered(receipts, slot, rank);
        var i :| 0 <= i < |receipts| && Answers(receipts[i], slot, rank);
        assert Filed(receipts[i], observed);
      }
    } else {
      var slot, rank :| slot in slots && 0 <= rank < members && !Answered(receipts, slot, rank);
      assert (slot, rank) in expected;
    }
  }
}
