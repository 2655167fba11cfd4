/** What the boss search answers, in terms of the fields of previews, affixes, bosses and slots alone. */
module BossFields {
  import opened Prelude
  import opened Text
  import opened StableSort
  import opened BossRanking
  import opened BossOptimizer
  import opened BossTheorems

  predicate NameFirst(a: string, b: string) { a == b || Less(a, b) }

  lemma NameFirstIsNotAfter(a: string, b: string)
    ensures NameFirst(a, b) <==> !Less(b, a)
  {
    LessTotal(a, b);
    LessIrreflexive(a);
    if Less(a, b) && Less(b, a) { LessTransitive(a, b, a); }
  }

  // ---- previews ----

  /** The preview is won with the chance that the policy asks for. */
  predicate Works(c: Candidate, policy: Policy) { c.preview.win && c.preview.chance >= policy.bossMinChance as real }

  /** `a` is at least as good as `b`: a win, then the higher chance, then more health left, then less left of the boss,
      then the first skill and buff by name. */
  predicate AtLeast(a: Candidate, b: Candidate)
  {
    var p, q := a.preview, b.preview;
    && (q.win ==> p.win)
    && (p.win == q.win ==>
          && q.chance <= p.chance
          && (p.chance == q.chance ==>
                && q.playerHp <= p.playerHp
                && (p.playerHp == q.playerHp ==>
                      p.bossHp <= q.bossHp && (p.bossHp == q.bossHp ==> NamesFirst(a.request, b.request)))))
  }

  predicate NamesFirst(a: Request, b: Request)
  {
    && NameFirst(a.skill, b.skill)
    && (a.skill == b.skill ==>
          && NameFirst(a.buff, b.buff)
          && (a.buff == b.buff && a.affix.Some? && b.affix.Some? ==> NameFirst(a.affix.value, b.affix.value)))
  }

  lemma AtLeastIsNotBehind(a: Candidate, b: Candidate)
    requires a.request.affix == b.request.affix == None
    ensures AtLeast(a, b) <==> !Better(b, a)
  {
    NameFirstIsNotAfter(a.request.skill, b.request.skill);
    NameFirstIsNotAfter(a.request.buff, b.request.buff);
    NameFirstIsNotAfter("", "");
  }

  /** The twelve previews without affix are of different requests. */
  lemma BaselineIsDistinct(boss: string, difficulty: Difficulty, slot: string, baseline: seq<Candidate>)
    requires |baseline| == 12 && BaselineTried(boss, difficulty, slot, baseline)
    ensures forall n | 0 <= n < 12 :: baseline[n].request.affix == None
    ensures forall i, j | 0 <= i < j < 12 :: baseline[i].request != baseline[j].request
  {
    forall i, j | 0 <= i < j < 12 ensures baseline[i].request != baseline[j].request {
      if i / 4 != j / 4 { SkillsDiffer(i / 4, j / 4); } else { BuffsDiffer(i % 4, j % 4); }
    }
  }

  /** Every skill is tried with every buff. */
  lemma EveryPairIsTried(boss: string, difficulty: Difficulty, slot: string, baseline: seq<Candidate>, s: string,
                         b: string) returns (n: nat)
    requires |baseline| == 12 && BaselineTried(boss, difficulty, slot, baseline)
    requires s in {"output", "survival", "balanced"} && b in {"none", "assault", "guard", "focus"}
    ensures n < 12 && baseline[n].request == Request(boss, difficulty, s, b, None, slot)
  {
    var i := if s == "output" then 0 else if s == "survival" then 1 else 2;
    var j := if b == "none" then 0 else if b == "assault" then 1 else if b == "guard" then 2 else 3;
    assert SKILLS[i] == s && BUFFS[j] == b;
    n := 4 * i + j;
    assert n / 4 == i && n % 4 == j;
  }

  lemma SkillsDiffer(i: nat, j: nat)
    requires i < 3 && j < 3 && i != j
    ensures SKILLS[i] != SKILLS[j]
  {
    assert SKILLS[0][0] == 'o' && SKILLS[1][0] == 's' && SKILLS[2][0] == 'b';
  }

  lemma BuffsDiffer(i: nat, j: nat)
    requires i < 4 && j < 4 && i != j
    ensures BUFFS[i] != BUFFS[j]
  {
    assert BUFFS[0][0] == 'n' && BUFFS[1][0] == 'a' && BUFFS[2][0] == 'g' && BUFFS[3][0] == 'f';
  }

  /** What is chosen in the group that was found: the first trial with an affix that works; without one, the best
      preview without affix. */
  predicate ChosenByFields(tried: seq<Candidate>, policy: Policy, final: Candidate)
    requires |tried| >= 12
  {
    && Works(final, policy) && final in tried
    && (if forall j | 12 <= j < |tried| :: !Works(tried[j], policy) then
          final in tried[..12] && forall n | 0 <= n < 12 :: AtLeast(final, tried[n])
        else
          final == tried[|tried|-1] && forall j | 12 <= j < |tried| - 1 :: !Works(tried[j], policy))
  }

  lemma SearchByFields(boss: string, difficulty: Difficulty, slot: string, affixes: seq<Affix>, policy: Policy,
                       tried: seq<Candidate>, final: Candidate)
    requires Searched(boss, difficulty, slot, affixes, policy, tried, Some(final))
    ensures ChosenByFields(tried, policy, final)
  {
    SearchIsComplete(boss, difficulty, slot, affixes, policy, tried, Some(final));
    ChosenIsHighest(boss, difficulty, slot, affixes, policy, tried, final);
    var trials := tried[12..];
    assert forall j | 12 <= j < |tried| :: tried[j] == trials[j-12];
    if NoneEligible(trials, policy) {
      BaselineIsDistinct(boss, difficulty, slot, tried[..12]);
      var i :| 0 <= i < 12 && tried[..12][i] == final;
      forall n | 0 <= n < 12 ensures AtLeast(final, tried[n]) {
        assert tried[n] == tried[..12][n] && tried[n] in tried[..12];
        AtLeastIsNotBehind(final, tried[n]);
      }
    } else {
      assert Works(tried[|tried|-1], policy);
    }
  }

  /** Every trial is made until one works: with twelve trials the search ends, or with three for each affix. */
  lemma TrialsAreExhausted(boss: string, difficulty: Difficulty, slot: string, affixes: seq<Affix>, policy: Policy,
                           tried: seq<Candidate>, final: Option<Candidate>)
    requires Searched(boss, difficulty, slot, affixes, policy, tried, final)
    requires forall j | 12 <= j < |tried| :: !Works(tried[j], policy)
    ensures |tried| == 12 + Min(12, 3 * |affixes|)
  {
    var trials := tried[12..];
    assert forall j | 0 <= j < |trials| :: trials[j] == tried[12..][j] && !Works(trials[j], policy) by {
      forall j | 0 <= j < |trials| ensures !Works(trials[j], policy) { assert trials[j] == tried[j + 12]; }
    }
    AffixesByFields(affixes);
    assert !(|trials| > 0 && Eligible(trials[|trials|-1], policy));
  }

  /** The whole search: what is selected is the choice of the last group that was tried; nothing worked in those before
      it; and material is used exactly above normal difficulty while more than the reserve is left. */
  lemma SelectionByFields(state: BossState, policy: Policy, slot: string, parts: seq<seq<Candidate>>,
                          selection: Selection)
    requires SelectionOk(state, policy, slot, parts, selection)
    ensures selection.NoEligibleBoss? ==>
              forall i, n | 0 <= i < |parts| && 0 <= n < |parts[i]| :: !Works(parts[i][n], policy)
    ensures selection.Selected? ==>
              && |parts| > 0 && |parts[|parts|-1]| >= 12
              && ChosenByFields(parts[|parts|-1], policy, selection.final)
              && (forall i, n | 0 <= i < |parts| - 1 && 0 <= n < |parts[i]| :: !Works(parts[i][n], policy))
              && selection.final.request.boss == selection.boss
              && selection.final.request.difficulty == selection.difficulty && selection.final.request.slot == slot
              && (selection.useMaterialBoost <==>
                    selection.difficulty in {Hard, Nightmare} && state.materialBalance > policy.materialReserve)
  {
    FirstGroupWins(state, policy, slot, parts, selection);
    forall i, n | 0 <= i < |parts| && 0 <= n < |parts[i]| && !Has(parts[i], policy)
      ensures !Works(parts[i][n], policy)
    {
      assert !Eligible(parts[i][n], policy);
    }
    if selection.Selected? {
      var groups, k := Groups(Sort(HigherEntry, state.entries)), |parts| - 1;
      var boss := groups[k].entry.key;
      SearchByFields(boss, selection.difficulty, slot, state.affixes, policy, parts[k], selection.final);
      RequestsAreOfTheGroup(boss, selection.difficulty, slot, state.affixes, policy, parts[k], Some(selection.final));
    }
  }

  lemma RequestsAreOfTheGroup(boss: string, difficulty: Difficulty, slot: string, affixes: seq<Affix>, policy: Policy,
                              tried: seq<Candidate>, final: Option<Candidate>)
    requires Searched(boss, difficulty, slot, affixes, policy, tried, final)
    ensures forall n | 0 <= n < |tried| :: OfGroup(tried[n], boss, difficulty, slot)
  {
    var baseline, trials := tried[..12], tried[12..];
    forall n | 0 <= n < |tried| ensures OfGroup(tried[n], boss, difficulty, slot) {
      if n < 12 {
        assert baseline[n].request == BaselineRequest(boss, difficulty, slot, n) && baseline[n] == tried[n];
      } else {
        TrialIsOfTheGroup(boss, difficulty, slot, baseline, Ranked(affixes), trials, n - 12);
        assert trials[n-12] == tried[n];
      }
    }
  }

  predicate OfGroup(c: Candidate, boss: string, difficulty: Difficulty, slot: string)
  {
    c.request.boss == boss && c.request.difficulty == difficulty && c.request.slot == slot
  }

  lemma TrialIsOfTheGroup(boss: string, difficulty: Difficulty, slot: string, baseline: seq<Candidate>,
                          ranked: seq<Affix>, trials: seq<Candidate>, j: nat)
    requires |baseline| == 12 && BaselineTried(boss, difficulty, slot, baseline)
    requires AffixTried(Shortlist(baseline), ranked, trials) && j < |trials|
    ensures OfGroup(trials[j], boss, difficulty, slot)
  {
    FirstIsBest(baseline);
    var carrier := Shortlist(baseline)[j % 3];
    assert carrier in baseline;
    var m :| 0 <= m < 12 && baseline[m] == carrier;
    assert baseline[m].request == BaselineRequest(boss, difficulty, slot, m);
    assert trials[j].request == AffixRequest(Shortlist(baseline), ranked, j);
  }

  // ---- the candidates that carry the affixes ----

  lemma DistinctOnce(xs: seq<Candidate>, ys: seq<Candidate>)
    requires multiset(xs) == multiset(ys) && forall i, j | 0 <= i < j < |xs| :: xs[i] != xs[j]
    ensures forall i, j | 0 <= i < j < |ys| :: ys[i] != ys[j]
  {
    forall i, j | 0 <= i < j < |ys| ensures ys[i] != ys[j] {
      if ys[i] == ys[j] {
        assert ys == ys[..i] + [ys[i]] + ys[i+1..j] + [ys[j]] + ys[j+1..];
        assert multiset(ys)[ys[i]] >= 2;
        OnceOnly(xs, ys[i]);
      }
    }
  }

  lemma {:induction false} OnceOnly(xs: seq<Candidate>, x: Candidate)
    requires forall i, j | 0 <= i < j < |xs| :: xs[i] != xs[j]
    ensures multiset(xs)[x] <= 1
    ensures x !in xs ==> multiset(xs)[x] == 0
  {
    if xs != [] {
      var n := |xs| - 1;
      assert xs == xs[..n] + [xs[n]];
      assert xs[n] !in xs[..n];
      OnceOnly(xs[..n], x);
    }
  }

  /** The three previews without affix that carry the affixes: three different ones, in order, and every other is at
      most as good as the last of them. Trial `j` is carrier `j % 3` with affix `j / 3` in rank. */
  lemma CarriersByFields(boss: string, difficulty: Difficulty, slot: string, affixes: seq<Affix>, policy: Policy,
                         tried: seq<Candidate>, final: Option<Candidate>) returns (carriers: seq<Candidate>)
    requires Searched(boss, difficulty, slot, affixes, policy, tried, final)
    ensures |carriers| == 3 && (forall k | 0 <= k < 3 :: carriers[k] in tried[..12])
    ensures forall k, l | 0 <= k < l < 3 :: carriers[k] != carriers[l] && AtLeast(carriers[k], carriers[l])
    ensures forall c | c in tried[..12] && c !in carriers :: AtLeast(carriers[2], c)
    ensures forall j | 0 <= j < |tried[12..]| :: Carries(tried[12..][j].request, carriers, Ranked(affixes), j)
  {
    var baseline, trials := tried[..12], tried[12..];
    carriers := Shortlist(baseline);
    BaselineIsDistinct(boss, difficulty, slot, baseline);
    ShortlistByFields(baseline);
    TrialsCarry(carriers, Ranked(affixes), trials);
  }

  predicate Carries(r: Request, carriers: seq<Candidate>, ranked: seq<Affix>, j: nat)
    requires |carriers| == 3
  {
    j / 3 < |ranked| && r == carriers[j % 3].request.(affix := Some(ranked[j / 3].key))
  }

  lemma TrialsCarry(carriers: seq<Candidate>, ranked: seq<Affix>, trials: seq<Candidate>)
    requires AffixTried(carriers, ranked, trials)
    ensures forall j | 0 <= j < |trials| :: Carries(trials[j].request, carriers, ranked, j)
  {
    forall j | 0 <= j < |trials| ensures Carries(trials[j].request, carriers, ranked, j) {
      assert trials[j].request == AffixRequest(carriers, ranked, j);
    }
  }

  lemma ShortlistByFields(baseline: seq<Candidate>)
    requires |baseline| == 12 && forall n | 0 <= n < 12 :: baseline[n].request.affix == None
    requires forall i, j | 0 <= i < j < 12 :: baseline[i].request != baseline[j].request
    ensures var carriers := Shortlist(baseline);
            && |carriers| == 3 && (forall k | 0 <= k < 3 :: carriers[k] in baseline)
            && (forall k, l | 0 <= k < l < 3 :: carriers[k] != carriers[l] && AtLeast(carriers[k], carriers[l]))
            && (forall c | c in baseline && c !in carriers :: AtLeast(carriers[2], c))
  {
    var carriers, all := Shortlist(baseline), Sort(Better, baseline);
    SortedByFields(baseline);
    forall k | 0 <= k < 3 ensures carriers[k] in baseline { assert carriers[k] == all[k] && all[k] in all; }
    forall c | c in baseline && c !in carriers ensures AtLeast(carriers[2], c) {
      assert c in all;
      var n :| 0 <= n < 12 && all[n] == c;
    }
  }

  lemma SortedByFields(baseline: seq<Candidate>)
    requires |baseline| == 12 && forall n | 0 <= n < 12 :: baseline[n].request.affix == None
    requires forall i, j | 0 <= i < j < 12 :: baseline[i].request != baseline[j].request
    ensures var all := Sort(Better, baseline);
            && |all| == 12 && (forall c :: c in all <==> c in baseline)
            && (forall k, l | 0 <= k < l < 12 :: all[k] != all[l] && AtLeast(all[k], all[l]))
  {
    BetterIsWeakOrder();
    SortAscends(Better, baseline);
    SortKeepsElements(Better, baseline);
    SortKeepsMembers(Better, baseline);
    var all := Sort(Better, baseline);
    DistinctOnce(baseline, all);
    forall k, l | 0 <= k < l < 12 ensures AtLeast(all[k], all[l]) {
      assert all[k] in baseline && all[l] in baseline;
      AtLeastIsNotBehind(all[k], all[l]);
    }
  }

  // ---- affixes, bosses and slots ----

  predicate AffixFirst(a: Affix, b: Affix)
  {
    a.multiplier > b.multiplier || (a.multiplier == b.multiplier && NameFirst(a.key, b.key))
  }

  /** Twelve affixes, or all if there are fewer: from the highest multiplier down, then by key; and none that is left
      out comes before one that is kept. */
  lemma AffixesByFields(affixes: seq<Affix>)
    ensures |Ranked(affixes)| == Min(12, |affixes|)
    ensures forall i, k | 0 <= i < k < |Ranked(affixes)| :: AffixFirst(Ranked(affixes)[i], Ranked(affixes)[k])
    ensures forall x, i | x in affixes && x !in Ranked(affixes) && 0 <= i < |Ranked(affixes)| ::
              AffixFirst(Ranked(affixes)[i], x)
    ensures forall x | x in Ranked(affixes) :: x in affixes
  {
    SortKeepsElements(HigherAffix, affixes);
    SortKeepsMembers(HigherAffix, affixes);
    RankedDescends(affixes);
    var ranked := Ranked(affixes);
    forall i, k | 0 <= i < k < |ranked| ensures AffixFirst(ranked[i], ranked[k]) {
      NameFirstIsNotAfter(ranked[i].key, ranked[k].key);
    }
    forall x, i | x in affixes && x !in ranked && 0 <= i < |ranked| ensures AffixFirst(ranked[i], x) {
      RankedAreTheBest(affixes, x, i);
      NameFirstIsNotAfter(ranked[i].key, x.key);
    }
    forall x | x in ranked ensures x in affixes { assert x in Sort(HigherAffix, affixes); }
  }

  predicate HarderThan(d: Difficulty, e: Difficulty)
  {
    (d == Nightmare && e != Nightmare) || (d == Hard && e == Normal)
  }

  /** The groups are searched by level from the highest, then by key; and those of one boss one after the other, from
      nightmare over hard to normal. */
  lemma OrderByFields(state: BossState, i: nat, j: nat)
    requires i < j < |Groups(Sort(HigherEntry, state.entries))|
    ensures var entries := Sort(HigherEntry, state.entries);
            var groups, at := Groups(entries), Positions(entries);
            var g, h := groups[i].entry, groups[j].entry;
            && (g.level > h.level || (g.level == h.level && NameFirst(g.key, h.key)))
            && |at| == |groups| && at[i] <= at[j] < |entries| && g == entries[at[i]] && h == entries[at[j]]
            && (at[i] == at[j] ==> HarderThan(groups[i].difficulty, groups[j].difficulty))
  {
    SearchOrder(state);
    var entries := Sort(HigherEntry, state.entries);
    var groups, at := Groups(entries), Positions(entries);
    NameFirstIsNotAfter(groups[i].entry.key, groups[j].entry.key);
    if at[i] < at[j] { assert !HigherEntry(entries[at[j]], entries[at[i]]); }
  }

  /** The target is an eligible slot of the lowest score, and of those one with the first key. */
  lemma TargetByFields(slots: seq<Slot>, s: Slot)
    requires s in slots && s.eligible
    ensures MinSlot(slots).Some? && MinSlot(slots).value in slots && MinSlot(slots).value.eligible
    ensures var t := MinSlot(slots).value; t.score < s.score || (t.score == s.score && NameFirst(t.key, s.key))
  {
    TargetIsCheapest(slots);
    NameFirstIsNotAfter(MinSlot(slots).value.key, s.key);
  }
}
