// What a session may rely on after a save and a load: slots, scores and history are as sound as before.
module CodecReload {
  import opened ActorValues
  import opened Bytes
  import opened Catalog
  import opened CodecFormat
  import opened CodecRoundTrip
  import opened CodecSave
  import opened Migration
  import opened Progression
  import opened Registration
  import opened RegistrationRuns
  import opened State

  // ---- Slots -------------------------------------------------------------------------------

  lemma FoundTextsAreShort(id: string)
    requires FindOption(id).Some?
    ensures CutSlot(id) == id
  {
    TextHasItsMark(FindOption(id).value);
    MarkFindsItsOption(FindOption(id).value);
    hide Text, MarkOf, OptionOf;
  }

  /** A slot that may stay holds an option of the catalog or nothing, and neither is cut or remapped. */
  lemma FittingSlotComesBack(slots: Slots, points: PerDiscipline, i: SlotId)
    requires MayStay(slots, points, i)
    ensures CutSlot(slots[i]) == slots[i] && RemapLegacyOptionId(slots[i]) == slots[i]
  {
    if slots[i] != "" {
      FoundTextsAreShort(slots[i]);
      RemapIsFinal(slots[i]);
    }
  }

  lemma FittingSlotsComeBack(slots: Slots, points: PerDiscipline)
    requires SlotsFit(slots, points)
    ensures CutSlots(slots) == slots && Remapped(slots) == slots
  {
    hide CutSlot, RemapLegacyOptionId, MayStay;
    forall i: SlotId ensures CutSlot(slots[i]) == slots[i] && RemapLegacyOptionId(slots[i]) == slots[i] {
      assert MayStay(slots, points, i);
      FittingSlotComesBack(slots, points, i);
    }
  }

  lemma NoSlotsFit(points: PerDiscipline)
    ensures SlotsFit(NO_SLOTS, points)
  {
    hide IsEligible;
  }

  // ---- The history -------------------------------------------------------------------------

  /** Same ids, keys, groups and contributions, record by record. */
  ghost predicate SameLedger<F, G>(h: seq<UndoRecord<F>>, k: seq<UndoRecord<G>>) {
    |h| == |k| && forall i | 0 <= i < |h| ::
      && k[i].actionId == h[i].actionId && k[i].regKey == h[i].regKey
      && k[i].group == h[i].group && k[i].contribution == h[i].contribution
  }

  lemma BackedContributionComesBack(g: Game, s: Loaded, r: UndoRecord<Float>)
    requires Backed(g, s, r)
    ensures Recoded(r.contribution) == r.contribution
  {
    hide PointsForFormType;
  }

  lemma NoHistoryBeforeTheFirstId(g: Game, s: Loaded)
    requires HistorySound(g, s)
    ensures s.undoHistory != [] ==> s.nextActionId >= 1
  {
    if s.undoHistory != [] {
      assert Backed(g, s, s.undoHistory[0]);
    }
  }

  lemma HistoryKeepsItsLedger(g: Game, s: Loaded, l: Layout)
    requires HistorySound(g, s)
    ensures SameLedger(s.undoHistory, Filtered(s, l).undoHistory)
    ensures Filtered(s, l).nextActionId == MaxInt(s.nextActionId, 1)
  {
    hide KeptAmounts, CutSlots, KeptDeltas, Recoded, MakeContribution;
    forall r | r in s.undoHistory ensures Recoded(r.contribution) == r.contribution && r.actionId < s.nextActionId {
      assert Backed(g, s, r);
      BackedContributionComesBack(g, s, r);
    }
    if s.nextActionId >= 1 {
      HistoryComesBack(s, l);
    } else {
      NoHistoryBeforeTheFirstId(g, s);
    }
    hide Filtered;
    forall i | 0 <= i < |s.undoHistory|
      ensures Filtered(s, l).undoHistory[i].contribution == s.undoHistory[i].contribution
    {
      assert s.undoHistory[i] in s.undoHistory;
      assert Filtered(s, l).undoHistory[i] == KeptRecord(s.undoHistory[i]);
    }
  }

  lemma SameLedgerStaysSound(g: Game, s: Loaded, t: Loaded)
    requires HistorySound(g, s) && SameLedger(s.undoHistory, t.undoHistory)
    requires t.registered == s.registered && t.nextActionId >= s.nextActionId
    ensures HistorySound(g, t)
  {
    hide MakeContribution;
    forall r | r in t.undoHistory ensures Backed(g, t, r) {
      var i :| 0 <= i < |t.undoHistory| && t.undoHistory[i] == r;
      assert s.undoHistory[i] in s.undoHistory;
      assert Backed(g, s, s.undoHistory[i]);
    }
  }

  /** Normalising only ever empties the lists of legacy reward deltas. */
  lemma NormalizedKeepsItsLedger(s: Loaded, forms: Forms)
    ensures SameLedger(s.undoHistory, Normalized(s, forms, None).undoHistory)
    ensures var t := Normalized(s, forms, None); t.registered == s.registered && t.nextActionId == s.nextActionId
  {
    hide DerivedScores, DerivedPoints, DerivedUnresolved, HasLegacyUndo, Remapped;
  }

  lemma SameLedgerChains(h: seq<UndoRecord<Float>>, k: seq<UndoRecord<Float>>, m: seq<UndoRecord<Float>>)
    requires SameLedger(h, k) && SameLedger(k, m)
    ensures SameLedger(h, m)
  {
  }

  // ---- Scores and slots --------------------------------------------------------------------

  /** Where the load derives scores and points anew, it finds the ones it replaces. */
  lemma RederivedProgress(g: Game, s: Loaded, f: Loaded)
    requires Accounted(g, s) && Roomy(s) && f.registered == s.registered
    ensures var t := Rederived(f, g.forms, None); t.scores == s.scores && t.points == s.points && t.slots == NO_SLOTS
  {
    IncrementalEqualsMigrated(g, s);
    hide DerivedScores, DerivedPoints, DerivedUnresolved, HasLegacyUndo, Stripped, Accounted, Roomy;
  }

  lemma FilteredProgress(s: Loaded, l: Layout)
    requires SlotsFit(s.slots, s.points)
    ensures var f := Filtered(s, l);
      f.scores == s.scores && f.points == s.points && f.slots == s.slots && f.registered == s.registered
  {
    FittingSlotsComeBack(s.slots, s.points);
    hide CutSlots, KeptAmounts, KeptHistory, SlotsFit;
  }

  lemma NormalizedEitherWay(f: Loaded, forms: Forms)
    ensures var t := Normalized(f, forms, None);
      || t == Rederived(f, forms, None)
      || (t.scores == f.scores && t.points == f.points && t.slots in {NO_SLOTS, Remapped(f.slots)})
  {
    hide Rederived, Remapped, Stripped;
  }

  lemma ProgressComesBack(g: Game, s: Loaded, l: Layout)
    requires SlotsFit(s.slots, s.points) && Accounted(g, s) && Roomy(s)
    ensures var t := Normalized(Filtered(s, l), g.forms, None);
      t.scores == s.scores && t.points == s.points && t.slots in {s.slots, NO_SLOTS}
  {
    var f := Filtered(s, l);
    FilteredProgress(s, l);
    FittingSlotsComeBack(s.slots, s.points);
    RederivedProgress(g, s, f);
    NormalizedEitherWay(f, g.forms);
    hide *;
  }

  lemma SameAccounts(g: Game, s: Loaded, t: Loaded)
    requires Accounted(g, s) && t.registered == s.registered && t.scores == s.scores && t.points == s.points
    ensures Accounted(g, t)
  {
    hide CountedRecords, CountedPoints, KnownGroup, PerDiscipline.Get;
    forall d: Discipline | !d.UndefinedDiscipline? ensures Tally(g, t, d) {
      assert Tally(g, s, d);
    }
  }

  /**
   * A session's invariant survives a save and a load under the same ids: scores and points stay the counts over
   * the registered map, also where the load derives them anew, the history stays backed and in order, and the
   * slots stay fitting and unlocked.
   */
  lemma ReloadKeepsSound(g: Game, s: Loaded, l: Layout)
    requires Sound(g, s) && Roomy(s)
    ensures var t := Normalized(Filtered(s, l), g.forms, None);
      && Sound(g, t) && Roomy(t)
      && t.registered == s.registered && t.scores == s.scores && t.points == s.points
      && t.slots in {s.slots, NO_SLOTS} && SameLedger(s.undoHistory, t.undoHistory)
      && t.nextActionId == MaxInt(s.nextActionId, 1)
  {
    var f := Filtered(s, l);
    assert f.registered == s.registered;
    HistoryKeepsItsLedger(g, s, l);
    ProgressComesBack(g, s, l);
    NormalizedKeepsItsLedger(f, g.forms);
    NoSlotsFit(s.points);
    hide Filtered, Normalized, SlotsFit, SameLedger, HistorySound, Accounted;
    var t := Normalized(f, g.forms, None);
    SameLedgerChains(s.undoHistory, f.undoHistory, t.undoHistory);
    SameLedgerStaysSound(g, s, t);
    SameAccounts(g, s, t);
  }

  /** The same for the writers and the readers at work. */
  method SaveAndReloadSession(g: Game, s: Loaded, outcomes: seq<bool>, live: RuntimeState<Float>) returns (saved: bool)
    requires CodecSave.Fits(s) && Sound(g, s) && Roomy(s)
    modifies live
    ensures saved ==>
      && Sound(g, live.Value()) && live.registered == s.registered
      && live.scores == s.scores && live.points == s.points && SameLedger(s.undoHistory, live.undoHistory)
    ensures !saved ==> live.Value() == old(live.Value())
    ensures false !in outcomes ==> saved
  {
    hide CodecSave.Fits, Sound, SameLedger, Normalized, Filtered;
    ghost var layout;
    saved, layout := SaveAndReload(s, outcomes, g.forms, live);
    if saved {
      ReloadKeepsSound(g, s, layout);
    }
  }
}
