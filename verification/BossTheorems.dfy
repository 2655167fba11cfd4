/** The truncated boss search loses nothing against a search of everything that it tried. */
module BossTheorems {
  import opened Prelude
  import opened StableSort
  import opened BossRanking
  import opened BossOptimizer

  // ---- three of twelve are enough ----

  lemma {:induction false} FirstIsBest(baseline: seq<Candidate>)
    requires |baseline| >= 3
    ensures |Shortlist(baseline)| == 3 && Shortlist(baseline)[0] in baseline
    ensures forall c | c in Shortlist(baseline) :: c in baseline
    ensures forall c | c in baseline :: !Better(c, Shortlist(baseline)[0])
  {
    ShortlistIsThree(baseline);
    BetterIsWeakOrder();
    SortAscends(Better, baseline);
    SortKeepsMembers(Better, baseline);
    var ranked := Sort(Better, baseline);
    forall c | c in baseline ensures !Better(c, ranked[0]) {
      assert c in ranked;
      var j :| 0 <= j < |ranked| && ranked[j] == c;
      if j == 0 { assert !Better(c, c); }
    }
    assert Shortlist(baseline) == ranked[..3];
    assert forall c | c in ranked[..3] :: c in ranked;
  }

  /** Eligibility follows the ranking: nothing that is not outranked by an eligible preview can be ineligible. */
  lemma EligibilityIsMonotone(a: Candidate, b: Candidate, policy: Policy)
    requires Eligible(a, policy) && !Better(a, b)
    ensures Eligible(b, policy)
  {}

  /** Keeping the top three of the baseline never loses its eligibility, and the first of them is what is used. */
  lemma TopThreeSuffice(baseline: seq<Candidate>, policy: Policy)
    requires |baseline| >= 3
    ensures FirstEligible(Shortlist(baseline), policy) ==
              if NoneEligible(baseline, policy) then None else Some(Shortlist(baseline)[0])
    ensures !NoneEligible(baseline, policy) ==> Eligible(Shortlist(baseline)[0], policy)
  {
    FirstIsBest(baseline);
    var shortlist := Shortlist(baseline);
    if NoneEligible(baseline, policy) {
      forall n | 0 <= n < |shortlist| ensures !Eligible(shortlist[n], policy) {
        assert shortlist[n] in baseline;
      }
      NoFirst(shortlist, policy);
    } else {
      var n :| 0 <= n < |baseline| && Eligible(baseline[n], policy);
      EligibilityIsMonotone(baseline[n], shortlist[0], policy);
    }
  }

  lemma {:induction false} NoFirst(cs: seq<Candidate>, policy: Policy)
    requires NoneEligible(cs, policy)
    ensures FirstEligible(cs, policy).None?
  {
    if cs != [] { NoFirst(cs[1..], policy); }
  }

  // ---- one boss at one difficulty ----

  predicate Has(cs: seq<Candidate>, policy: Policy) { !NoneEligible(cs, policy) }

  /** The search finds something exactly if some preview that it tried is eligible, and what it finds is eligible. */
  lemma SearchIsComplete(boss: string, difficulty: Difficulty, slot: string, affixes: seq<Affix>, policy: Policy,
                         tried: seq<Candidate>, final: Option<Candidate>)
    requires Searched(boss, difficulty, slot, affixes, policy, tried, final)
    ensures final.Some? <==> Has(tried, policy)
    ensures final.Some? ==> final.value in tried && Eligible(final.value, policy)
  {
    var baseline, trials := tried[..12], tried[12..];
    TopThreeSuffice(baseline, policy);
    FirstIsBest(baseline);
    if NoneEligible(baseline, policy) && NoneEligible(trials, policy) {
      forall n | 0 <= n < |tried| ensures !Eligible(tried[n], policy) {
        if n >= 12 { assert tried[n] == trials[n-12]; } else { assert tried[n] == baseline[n]; }
      }
    } else if NoneEligible(trials, policy) {
      var n :| 0 <= n < |baseline| && Eligible(baseline[n], policy);
      assert Eligible(tried[n], policy);
    } else {
      assert Eligible(tried[|tried|-1], policy);
    }
  }

  /** An affix that works is used, and it is the highest-ranked of those tried that works; without one, the best
      baseline preview is used. */
  lemma ChosenIsHighest(boss: string, difficulty: Difficulty, slot: string, affixes: seq<Affix>, policy: Policy,
                        tried: seq<Candidate>, final: Candidate)
    requires Searched(boss, difficulty, slot, affixes, policy, tried, Some(final))
    ensures NoneEligible(tried[12..], policy) ==>
              final in tried[..12] && forall c | c in tried[..12] :: !Better(c, final)
    ensures Has(tried[12..], policy) ==>
              && var last := |tried| - 13;
                 && last / 3 < |Ranked(affixes)| && final.request.affix == Some(Ranked(affixes)[last / 3].key)
                 && final == tried[12..][last]
                 && forall j | 0 <= j < last :: !Eligible(tried[12..][j], policy) && j / 3 <= last / 3
  {
    TopThreeSuffice(tried[..12], policy);
    FirstIsBest(tried[..12]);
    var trials := tried[12..];
    if Has(trials, policy) {
      var last := |tried| - 13;
      assert NoneEligible(trials[..last], policy);
      forall j | 0 <= j < last ensures !Eligible(trials[j], policy) {
        assert trials[j] == trials[..last][j];
      }
      assert trials[last].request == AffixRequest(Shortlist(tried[..12]), Ranked(affixes), last);
    }
  }

  /** Affixes are tried from the highest rank down. */
  lemma RankedDescends(affixes: seq<Affix>)
    ensures forall i, k | 0 <= i < k < |Ranked(affixes)| :: !HigherAffix(Ranked(affixes)[k], Ranked(affixes)[i])
  {
    AffixesAreWeaklyOrdered();
    SortAscends(HigherAffix, affixes);
  }

  /** The affixes that are tried are the best ones: none that is left out outranks one that is kept. */
  lemma RankedAreTheBest(affixes: seq<Affix>, x: Affix, i: nat)
    requires x in affixes && x !in Ranked(affixes) && i < |Ranked(affixes)|
    ensures !HigherAffix(x, Ranked(affixes)[i]) && Ranked(affixes)[i] in affixes
  {
    AffixesAreWeaklyOrdered();
    SortAscends(HigherAffix, affixes);
    SortKeepsMembers(HigherAffix, affixes);
    var all := Sort(HigherAffix, affixes);
    assert x in all && all[i] in all;
    var k :| 0 <= k < |all| && all[k] == x;
    assert forall m | 0 <= m < |Ranked(affixes)| :: Ranked(affixes)[m] == all[m];
  }

  // ---- all bosses ----

  /** The boss and difficulty that are returned are the first whose tried previews contain an eligible one; if there
      are none, nothing eligible was tried anywhere. */
  lemma FirstGroupWins(state: BossState, policy: Policy, slot: string, parts: seq<seq<Candidate>>, selection: Selection)
    requires SelectionOk(state, policy, slot, parts, selection)
    ensures var groups := Groups(Sort(HigherEntry, state.entries));
            && |parts| <= |groups|
            && (forall i | 0 <= i < |parts| :: Has(parts[i], policy) <==> selection.Selected? && i == |parts| - 1)
            && (selection.NoEligibleBoss? ==> |parts| == |groups|)
            && (selection.Selected? ==>
                  && |parts| > 0 && groups[|parts|-1].entry.key == selection.boss
                     && groups[|parts|-1].difficulty == selection.difficulty
                  && selection.final in parts[|parts|-1] && Eligible(selection.final, policy))
  {
    var groups := Groups(Sort(HigherEntry, state.entries));
    match selection
    case NoEligibleBoss => InVainHasNothing(groups, slot, state.affixes, policy, parts);
    case Selected(boss, difficulty, final, boost) =>
      var k := |parts| - 1;
      InVainHasNothing(groups[..k], slot, state.affixes, policy, parts[..k]);
      SearchIsComplete(groups[k].entry.key, difficulty, slot, state.affixes, policy, parts[k], Some(final));
      assert forall i | 0 <= i < k :: parts[i] == parts[..k][i];
    case _ =>
  }

  lemma InVainHasNothing(groups: seq<Group>, slot: string, affixes: seq<Affix>, policy: Policy,
                         parts: seq<seq<Candidate>>)
    requires AllInVain(groups, slot, affixes, policy, parts)
    ensures forall i | 0 <= i < |parts| :: !Has(parts[i], policy)
  {
    forall i | 0 <= i < |parts| ensures !Has(parts[i], policy) {
      SearchIsComplete(groups[i].entry.key, groups[i].difficulty, slot, affixes, policy, parts[i], None);
    }
  }

  /** A group for each open boss and each difficulty that it offers, and no other. */
  lemma {:induction false} GroupsAreOpen(entries: seq<Entry>, g: Group)
    ensures g in Groups(entries) <==> g.entry in entries && !g.entry.blocked && g.difficulty in g.entry.options
  {
    if entries != [] {
      var n := |entries| - 1;
      GroupsAreOpen(entries[..n], g);
      OfferedAre(entries[n], 3, g);
      assert entries == entries[..n] + [entries[n]];
      assert exists d | 0 <= d < 3 :: DIFFICULTIES[d] == g.difficulty by {
        assert DIFFICULTIES[0] == Nightmare && DIFFICULTIES[1] == Hard && DIFFICULTIES[2] == Normal;
      }
    }
  }

  lemma {:induction false} OfferedAre(entry: Entry, n: nat, g: Group)
    requires n <= 3
    ensures g in Offered(entry, n) <==>
              g.entry == entry && g.difficulty in entry.options && g.difficulty in DIFFICULTIES[..n]
  {
    if n > 0 {
      OfferedAre(entry, n - 1, g);
      assert DIFFICULTIES[..n] == DIFFICULTIES[..n-1] + [DIFFICULTIES[n-1]];
    }
  }

  function Hardness(d: Difficulty): int { if d.Nightmare? then 2 else if d.Hard? then 1 else 0 }

  predicate HardestFirst(gs: seq<Group>)
  {
    forall i, j | 0 <= i < j < |gs| :: Hardness(gs[i].difficulty) > Hardness(gs[j].difficulty)
  }

  lemma {:induction false} OfferedAreHardestFirst(entry: Entry, n: nat)
    requires n <= 3
    ensures HardestFirst(Offered(entry, n))
    ensures forall g | g in Offered(entry, n) :: g.entry == entry && Hardness(g.difficulty) >= 3 - n
  {
    if n > 0 { OfferedAreHardestFirst(entry, n - 1); }
  }

  /** For each group the position of its boss among the entries. */
  function Positions(entries: seq<Entry>): seq<nat>
  {
    if entries == [] then []
    else Positions(entries[..|entries|-1]) + seq(|GroupsOf(entries[|entries|-1])|, _ => |entries| - 1)
  }

  /** The entries one after the other, and for each of them the harder difficulties first. */
  predicate Lexicographic(entries: seq<Entry>, gs: seq<Group>, at: seq<nat>)
  {
    && |at| == |gs|
    && (forall i | 0 <= i < |gs| :: at[i] < |entries| && gs[i].entry == entries[at[i]])
    && (forall i, j | 0 <= i < j < |gs| ::
          at[i] < at[j] || (at[i] == at[j] && Hardness(gs[i].difficulty) > Hardness(gs[j].difficulty)))
  }

  lemma {:induction false} GroupsAreLexicographic(entries: seq<Entry>)
    ensures Lexicographic(entries, Groups(entries), Positions(entries))
  {
    if entries != [] {
      var n := |entries| - 1;
      GroupsAreLexicographic(entries[..n]);
      OfferedAreHardestFirst(entries[n], 3);
      var of := GroupsOf(entries[n]);
      forall i | 0 <= i < |of| ensures of[i].entry == entries[n] { assert of[i] in Offered(entries[n], 3); }
      LexicographicGrows(entries, Groups(entries[..n]), Positions(entries[..n]), of, seq(|of|, _ => n));
    }
  }

  lemma LexicographicGrows(entries: seq<Entry>, gs: seq<Group>, at: seq<nat>, of: seq<Group>, last: seq<nat>)
    requires entries != [] && Lexicographic(entries[..|entries|-1], gs, at) && HardestFirst(of)
    requires |last| == |of|
    requires forall i | 0 <= i < |of| :: of[i].entry == entries[|entries|-1] && last[i] == |entries| - 1
    ensures Lexicographic(entries, gs + of, at + last)
  {
    var n, all, where := |entries| - 1, gs + of, at + last;
    assert forall i | 0 <= i < |gs| :: where[i] == at[i] && all[i] == gs[i] && at[i] < n;
    assert forall i | |gs| <= i < |all| :: where[i] == n && all[i] == of[i - |gs|];
  }

  /** The order in which a state is searched: exactly the open bosses at the difficulties that they offer, sorted by
      level from the highest, then by key, and within one boss from nightmare to normal. */
  lemma SearchOrder(state: BossState)
    ensures var entries := Sort(HigherEntry, state.entries);
            && Ascending(HigherEntry, entries) && multiset(entries) == multiset(state.entries)
            && Lexicographic(entries, Groups(entries), Positions(entries))
            && (forall g :: g in Groups(entries) <==>
                  g.entry in state.entries && !g.entry.blocked && g.difficulty in g.entry.options)
  {
    var entries := Sort(HigherEntry, state.entries);
    EntriesAreWeaklyOrdered();
    SortAscends(HigherEntry, state.entries);
    SortKeepsElements(HigherEntry, state.entries);
    SortKeepsMembers(HigherEntry, state.entries);
    GroupsAreLexicographic(entries);
    forall g
      ensures g in Groups(entries) <==>
                g.entry in state.entries && !g.entry.blocked && g.difficulty in g.entry.options
    {
      GroupsAreOpen(entries, g);
    }
  }

  predicate PartsBounded(parts: seq<seq<Candidate>>) { forall i | 0 <= i < |parts| :: 12 <= |parts[i]| <= 24 }

  lemma {:induction false} FlatIsBounded(parts: seq<seq<Candidate>>)
    requires PartsBounded(parts)
    ensures 12 * |parts| <= |Flat(parts)| <= 24 * |parts|
  {
    if parts != [] { FlatIsBounded(parts[..|parts|-1]); }
  }

  /** Between 12 and 24 previews for each group that is searched, the last one included, whatever comes of it. */
  lemma PreviewsAreBounded(state: BossState, policy: Policy, slot: string, parts: seq<seq<Candidate>>,
                           selection: Selection)
    requires SelectionOk(state, policy, slot, parts, selection)
    ensures PartsBounded(parts) && 12 * |parts| <= |Flat(parts)| <= 24 * |parts|
  {
    var groups := Groups(Sort(HigherEntry, state.entries));
    if selection.Selected? {
      HitIsBounded(groups, slot, state.affixes, policy, parts, selection.difficulty, selection.final);
    } else {
      InVainIsBounded(groups, slot, state.affixes, policy, parts);
    }
    FlatIsBounded(parts);
  }

  lemma InVainIsBounded(groups: seq<Group>, slot: string, affixes: seq<Affix>, policy: Policy,
                        parts: seq<seq<Candidate>>)
    requires AllInVain(groups, slot, affixes, policy, parts)
    ensures PartsBounded(parts)
  {}

  lemma HitIsBounded(groups: seq<Group>, slot: string, affixes: seq<Affix>, policy: Policy, parts: seq<seq<Candidate>>,
                     difficulty: Difficulty, final: Candidate)
    requires Hit(groups, slot, affixes, policy, parts, difficulty, final)
    ensures PartsBounded(parts)
  {
    var k := |parts| - 1;
    InVainIsBounded(groups[..k], slot, affixes, policy, parts[..k]);
    assert forall i | 0 <= i < k :: parts[i] == parts[..k][i];
  }

  // ---- the slot ----

  /** The target is the eligible slot with the lowest score, and of those the one with the first key. */
  lemma {:induction false} TargetIsCheapest(slots: seq<Slot>)
    ensures MinSlot(slots).None? <==> forall s | s in slots :: !s.eligible
    ensures MinSlot(slots).Some? ==>
              && MinSlot(slots).value in slots && MinSlot(slots).value.eligible
              && forall s | s in slots && s.eligible :: !CheaperSlot(s, MinSlot(slots).value)
  {
    SlotsAreWeaklyOrdered();
    if slots != [] {
      var n := |slots| - 1;
      TargetIsCheapest(slots[..n]);
      assert slots == slots[..n] + [slots[n]];
    }
  }
}
