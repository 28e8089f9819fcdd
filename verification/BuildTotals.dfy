// ComputeDerivedBuildActorValueTotals: what the occupied slots add up to.
//
// The slot loop with its once-only set is proved against a plain definition: the sum, over
// the set of options that are eligible in at least one slot, of what each option contributes.
module BuildTotals {
  import opened ActorValues
  import opened Catalog
  import opened SetSums

  function Flatten(parts: seq<EffectPart>): seq<Delta> {
    if parts == [] then [] else ResolveActorValueDeltas(parts[0]) + Flatten(parts[1..])
  }

  function OptionDeltas(o: OptionId, points: PerDiscipline): seq<Delta> {
    Flatten(ResolvedBundle(Row(o), points.Get(Row(o).discipline)))
  }

  function AmountFor(deltas: seq<Delta>, av: ActorValue): real {
    if deltas == [] then 0.0
    else (if deltas[0].av == av then deltas[0].amount else 0.0) + AmountFor(deltas[1..], av)
  }

  function Contribution(o: OptionId, points: PerDiscipline, av: ActorValue): real {
    AmountFor(OptionDeltas(o, points), av)
  }

  function Weight(points: PerDiscipline, av: ActorValue): OptionId -> real {
    o => Contribution(o, points, av)
  }

  /** The option a slot puts in force, if its id is known, unlocked and compatible. */
  function Placed(slots: Slots, points: PerDiscipline, s: SlotId): Option<OptionId> {
    if IsEligible(slots[s], s, points) then FindOption(slots[s]) else None
  }

  predicate IsActive(slots: Slots, points: PerDiscipline, bound: nat, o: OptionId) {
    exists s: SlotId | s < bound :: Placed(slots, points, s) == Some(o)
  }

  ghost function ActiveBefore(slots: Slots, points: PerDiscipline, bound: nat): set<OptionId> {
    set o: OptionId | IsActive(slots, points, bound, o)
  }

  /** The options that are eligible in at least one slot. */
  ghost function ActiveOptions(slots: Slots, points: PerDiscipline): set<OptionId> {
    ActiveBefore(slots, points, SLOT_COUNT)
  }

  lemma ActiveStep(slots: Slots, points: PerDiscipline, s: SlotId)
    ensures ActiveBefore(slots, points, s + 1)
         == ActiveBefore(slots, points, s)
           + (if Placed(slots, points, s).Some? then {Placed(slots, points, s).value} else {})
  {
    forall o
      ensures IsActive(slots, points, s + 1, o)
        <==> IsActive(slots, points, s, o) || Placed(slots, points, s) == Some(o)
    {
      if IsActive(slots, points, s, o) {
        var t: SlotId :| t < s && Placed(slots, points, t) == Some(o);
      }
    }
  }

  /** What the build should add to an actor value; sums within the tolerance count as nothing. */
  ghost function DerivedTotal(slots: Slots, points: PerDiscipline, av: ActorValue): real {
    var total := Sum(ActiveOptions(slots, points), Weight(points, av));
    if Abs(total) <= EPSILON then 0.0 else total
  }

  function Lookup(totals: map<ActorValue, real>, av: ActorValue): real {
    if av in totals then totals[av] else 0.0
  }

  method AccumulateEffects(totals: map<ActorValue, real>, o: OptionId, points: PerDiscipline)
    returns (next: map<ActorValue, real>)
    ensures forall av: ActorValue :: Lookup(next, av) == Lookup(totals, av) + Contribution(o, points, av)
  {
    next := totals;
    var deltas := OptionDeltas(o, points);
    var i := 0;
    while i < |deltas|
      invariant 0 <= i <= |deltas|
      invariant forall av: ActorValue ::
        Lookup(next, av) + AmountFor(deltas[i..], av) == Lookup(totals, av) + AmountFor(deltas, av)
    {
      ghost var before := next;
      next := next[deltas[i].av := Lookup(next, deltas[i].av) + deltas[i].amount];
      forall av
        ensures Lookup(next, av) + AmountFor(deltas[i + 1..], av) == Lookup(totals, av) + AmountFor(deltas, av)
      {
        assert Lookup(before, av) + AmountFor(deltas[i..], av) == Lookup(totals, av) + AmountFor(deltas, av);
        assert deltas[i..][1..] == deltas[i + 1..];
      }
      i := i + 1;
    }
  }

  /** One turn of the slot loop, once the slot's option is known to be in force. */
  method ApplyOnce(totals: map<ActorValue, real>, applied: set<OptionId>, o: OptionId, points: PerDiscipline)
    returns (next: map<ActorValue, real>)
    requires forall av: ActorValue :: Lookup(totals, av) == Sum(applied, Weight(points, av))
    ensures forall av: ActorValue :: Lookup(next, av) == Sum(applied + {o}, Weight(points, av))
  {
    if o in applied {
      assert applied + {o} == applied;
      return totals;
    }
    next := AccumulateEffects(totals, o, points);
    forall av: ActorValue ensures Lookup(next, av) == Sum(applied + {o}, Weight(points, av)) {
      assert Lookup(totals, av) == Sum(applied, Weight(points, av));
      SumInsert(applied, o, Weight(points, av));
    }
  }

  method SumSlots(slots: Slots, points: PerDiscipline) returns (totals: map<ActorValue, real>)
    ensures forall av: ActorValue :: Lookup(totals, av) == Sum(ActiveOptions(slots, points), Weight(points, av))
  {
    totals := map[];
    var applied: set<OptionId> := {};
    var slot: nat := 0;
    while slot < SLOT_COUNT
      invariant slot <= SLOT_COUNT
      invariant applied == ActiveBefore(slots, points, slot)
      invariant forall av: ActorValue :: Lookup(totals, av) == Sum(applied, Weight(points, av))
    {
      ActiveStep(slots, points, slot);
      var placed := Placed(slots, points, slot);
      if placed.Some? {
        totals := ApplyOnce(totals, applied, placed.value, points);
        applied := applied + {placed.value};
      }
      slot := slot + 1;
    }
  }

  // ---- The result list, sorted by actor value -------------------------------------------

  predicate Ascending(s: seq<Delta>) {
    forall i, j | 0 <= i < j < |s| :: s[i].av < s[j].av
  }

  function Values(s: seq<Delta>): set<ActorValue> {
    set d | d in s :: d.av
  }

  /** std::sort, one element at a time. */
  function Insert(s: seq<Delta>, d: Delta): seq<Delta> {
    if s == [] || d.av < s[0].av then [d] + s else [s[0]] + Insert(s[1..], d)
  }

  lemma {:induction false} InsertAdds(s: seq<Delta>, d: Delta)
    ensures forall x :: x in Insert(s, d) <==> x in s || x == d
  {
    if s != [] && d.av >= s[0].av {
      InsertAdds(s[1..], d);
      assert s == [s[0]] + s[1..];
    }
  }

  lemma {:induction false} InsertKeepsAscending(s: seq<Delta>, d: Delta)
    requires Ascending(s) && forall x | x in s :: x.av != d.av
    ensures Ascending(Insert(s, d))
  {
    if s != [] && d.av > s[0].av {
      InsertKeepsAscending(s[1..], d);
      InsertAdds(s[1..], d);
      var r := Insert(s[1..], d);
      forall j | 0 <= j < |r| ensures s[0].av < r[j].av {
        assert r[j] in r;
      }
    }
  }

  /** `out` is the list the source promises: ascending, exact, and without sub-tolerance entries. */
  ghost predicate ListsDerivedTotals(out: seq<Delta>, slots: Slots, points: PerDiscipline) {
    && Ascending(out)
    && (forall d | d in out :: d.amount == DerivedTotal(slots, points, d.av) && d.amount != 0.0)
    && (forall av: ActorValue | DerivedTotal(slots, points, av) != 0.0 :: av in Values(out))
  }

  method ComputeDerivedTotals(slots: Slots, points: PerDiscipline) returns (out: seq<Delta>)
    ensures ListsDerivedTotals(out, slots, points)
  {
    var totals := SumSlots(slots, points);
    out := [];
    var rest := totals.Keys;
    while rest != {}
      invariant rest <= totals.Keys
      invariant Ascending(out)
      invariant forall d | d in out ::
        d.av in totals && d.av !in rest && d.amount == totals[d.av] && Abs(d.amount) > EPSILON
      invariant forall av | av in totals && av !in rest && Abs(totals[av]) > EPSILON :: Delta(av, totals[av]) in out
    {
      var av :| av in rest;
      if Abs(totals[av]) > EPSILON {
        InsertAdds(out, Delta(av, totals[av]));
        InsertKeepsAscending(out, Delta(av, totals[av]));
        out := Insert(out, Delta(av, totals[av]));
      }
      rest := rest - {av};
    }
    forall av: ActorValue | DerivedTotal(slots, points, av) != 0.0 ensures av in Values(out) {
      assert Lookup(totals, av) == Sum(ActiveOptions(slots, points), Weight(points, av));
      assert Delta(av, totals[av]) in out;
    }
    forall d | d in out ensures d.amount == DerivedTotal(slots, points, d.av) {
      assert Lookup(totals, d.av) == Sum(ActiveOptions(slots, points), Weight(points, d.av));
    }
  }

  function Entries(s: seq<Delta>): (r: set<Delta>)
    ensures r == {} <==> s == []
  {
    var r := set d | d in s;
    assert s != [] ==> s[0] in r;
    r
  }

  lemma LeastIsFirst(a: seq<Delta>)
    requires Ascending(a) && a != []
    ensures a[0] in Entries(a) && forall d | d in Entries(a) :: d == a[0] || a[0].av < d.av
    ensures Ascending(a[1..]) && Entries(a[1..]) == Entries(a) - {a[0]}
  {
  }

  lemma {:induction false} AscendingIsCanonical(a: seq<Delta>, b: seq<Delta>)
    requires Ascending(a) && Ascending(b) && Entries(a) == Entries(b)
    ensures a == b
    decreases |a|
  {
    hide Ascending, Entries;
    if a != [] && b != [] {
      LeastIsFirst(a);
      LeastIsFirst(b);
      assert a[0] == b[0];
      AscendingIsCanonical(a[1..], b[1..]);
      assert a == [a[0]] + a[1..] && b == [b[0]] + b[1..];
    }
  }

  /** Slot order, duplicate placements and ineligible placements never show in the result. */
  lemma OnlyTheActiveSetMatters(a: seq<Delta>, b: seq<Delta>, slotsA: Slots, slotsB: Slots, points: PerDiscipline)
    requires ListsDerivedTotals(a, slotsA, points) && ListsDerivedTotals(b, slotsB, points)
    requires ActiveOptions(slotsA, points) == ActiveOptions(slotsB, points)
    ensures a == b
  {
    forall d ensures d in Entries(a) <==> d in Entries(b) {
      if d in a {
        assert d.av in Values(b);
        var e :| e in b && e.av == d.av;
      }
      if d in b {
        assert d.av in Values(a);
        var e :| e in a && e.av == d.av;
      }
    }
    AscendingIsCanonical(a, b);
  }

  /** Copying an option to a second slot it is eligible in, or dropping one that is not, adds nothing. */
  lemma DuplicatesAddNothing(slots: Slots, points: PerDiscipline, from: SlotId, to: SlotId)
    requires from != to && IsEligible(slots[from], from, points) && IsEligible(slots[from], to, points)
    requires !IsEligible(slots[to], to, points)
    ensures ActiveOptions(slots[to := slots[from]], points) == ActiveOptions(slots, points)
  {
    var copied: Slots := slots[to := slots[from]];
    assert forall s: SlotId ::
      Placed(copied, points, s) == if s == to then Placed(slots, points, from) else Placed(slots, points, s);
    assert Placed(slots, points, to).None?;
    forall o ensures IsActive(copied, points, SLOT_COUNT, o) <==> IsActive(slots, points, SLOT_COUNT, o) {
      if IsActive(slots, points, SLOT_COUNT, o) {
        var s: SlotId :| Placed(slots, points, s) == Some(o);
        assert Placed(copied, points, s) == Some(o);
      }
    }
  }

  // ---- Only what is unlocked counts ----------------------------------------------------------

  lemma PlacedExactlyWhen(slots: Slots, points: PerDiscipline, s: SlotId, o: OptionId)
    ensures Placed(slots, points, s) == Some(o) <==> slots[s] == Text(o) && SlotTakes(o, s) && IsUnlocked(o, points)
  {
    hide Text, SlotTakes, IsUnlocked, IsEligible;
    EligibleExactlyWhen(o, s, points);
    FindsItsRow(o);
  }

  ghost predicate HeldBySomeSlot(slots: Slots, o: OptionId) {
    exists s: SlotId :: slots[s] == Text(o) && SlotTakes(o, s)
  }

  /** The options in force, said on the rows: those that some slot holds, takes and has the points for. */
  lemma ActiveExactlyWhen(slots: Slots, points: PerDiscipline, o: OptionId)
    ensures o in ActiveOptions(slots, points) <==> IsUnlocked(o, points) && HeldBySomeSlot(slots, o)
  {
    hide Text, SlotTakes, IsUnlocked, Placed;
    forall s: SlotId
      ensures Placed(slots, points, s) == Some(o) <==> slots[s] == Text(o) && SlotTakes(o, s) && IsUnlocked(o, points)
    {
      PlacedExactlyWhen(slots, points, s, o);
    }
  }

  lemma HeldElsewhere(slots: Slots, s: SlotId, without: Slots, o: OptionId, p: OptionId)
    requires slots[s] == Text(o) && o != p && without == slots[s := ""]
    ensures HeldBySomeSlot(slots, p) <==> HeldBySomeSlot(without, p)
  {
    FindsItsRow(o);
    FindsItsRow(p);
    LegacyIdsAreNotOptions(p);
    hide Text, SlotTakes, FindOption;
    if t: SlotId :| slots[t] == Text(p) && SlotTakes(p, t) {
      assert without[t] == Text(p);
    }
    if t: SlotId :| without[t] == Text(p) && SlotTakes(p, t) {
      assert slots[t] == Text(p);
    }
  }

  lemma ActiveWithout(slots: Slots, points: PerDiscipline, s: SlotId, without: Slots, o: OptionId, p: OptionId)
    requires slots[s] == Text(o) && !IsUnlocked(o, points) && without == slots[s := ""]
    ensures p in ActiveOptions(slots, points) <==> p in ActiveOptions(without, points)
  {
    hide *;
    ActiveExactlyWhen(slots, points, p);
    ActiveExactlyWhen(without, points, p);
    if p != o {
      HeldElsewhere(slots, s, without, o, p);
    }
  }

  /** A slot whose option the points do not cover adds nothing: the list is that without it. */
  lemma LockedAddsNothing(slots: Slots, points: PerDiscipline, s: SlotId, o: OptionId, a: seq<Delta>, b: seq<Delta>)
    requires slots[s] == Text(o) && !IsUnlocked(o, points)
    requires ListsDerivedTotals(a, slots, points) && ListsDerivedTotals(b, slots[s := ""], points)
    ensures a == b
  {
    hide *;
    var without: Slots := slots[s := ""];
    forall p ensures p in ActiveOptions(slots, points) <==> p in ActiveOptions(without, points) {
      ActiveWithout(slots, points, s, without, o, p);
    }
    OnlyTheActiveSetMatters(a, b, slots, without, points);
  }
}
