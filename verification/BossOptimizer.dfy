/** `BossOptimizer` (boss_optimizer.py): a search over previews, whatever the game answers to each. */
module BossOptimizer {
  import opened Prelude
  import opened StableSort
  import opened BossRanking

  datatype BossState = BossState(entries: seq<Entry>, materialBalance: int, equipment: seq<Slot>, potionSwitch: bool,
                                 affixes: seq<Affix>)
  datatype Policy = Policy(bossMinChance: int, materialReserve: int)

  datatype Selection =
    | CombatPotionSwitchRequired
    | NoEligibleEquipment
    | NoEligibleBoss
    | Selected(boss: string, difficulty: Difficulty, final: Candidate, useMaterialBoost: bool)

  const SKILLS := ["output", "survival", "balanced"]
  const BUFFS := ["none", "assault", "guard", "focus"]
  const DIFFICULTIES := [Nightmare, Hard, Normal]

  predicate Eligible(c: Candidate, policy: Policy)
  {
    c.preview.win && c.preview.chance >= policy.bossMinChance as real
  }

  /** The game: it may answer every call differently. The log keeps each request with its answer. */
  class BossApi {
    const answers: (nat, Request) -> Preview
    var log: seq<Candidate>

    constructor (answers: (nat, Request) -> Preview)
      ensures this.answers == answers && log == []
    {
      this.answers, log := answers, [];
    }

    method BossPreview(request: Request) returns (preview: Preview)
      modifies this
      ensures preview == answers(|old(log)|, request) && log == old(log) + [Candidate(request, preview)]
    {
      preview := answers(|log|, request);
      log := log + [Candidate(request, preview)];
    }
  }

  // ---- one boss at one difficulty ----

  function BaselineRequest(boss: string, difficulty: Difficulty, slot: string, n: nat): Request
    requires n < 12
  {
    Request(boss, difficulty, SKILLS[n / 4], BUFFS[n % 4], None, slot)
  }

  predicate BaselineTried(boss: string, difficulty: Difficulty, slot: string, tried: seq<Candidate>)
  {
    |tried| <= 12 && forall n | 0 <= n < |tried| :: tried[n].request == BaselineRequest(boss, difficulty, slot, n)
  }

  function Shortlist(baseline: seq<Candidate>): seq<Candidate>
  {
    var ranked := Sort(Better, baseline);
    if |ranked| < 3 then ranked else ranked[..3]
  }

  function Ranked(affixes: seq<Affix>): seq<Affix>
  {
    var ranked := Sort(HigherAffix, affixes);
    if |ranked| < 12 then ranked else ranked[..12]
  }

  /** Trial `j` adds affix `j / 3` to candidate `j % 3`. */
  function AffixRequest(shortlist: seq<Candidate>, ranked: seq<Affix>, j: nat): Request
    requires |shortlist| == 3 && j / 3 < |ranked|
  {
    shortlist[j % 3].request.(affix := Some(ranked[j / 3].key))
  }

  predicate AffixTried(shortlist: seq<Candidate>, ranked: seq<Affix>, trials: seq<Candidate>)
  {
    && |shortlist| == 3 && |trials| <= 3 * |ranked| && |trials| <= 12
    && forall j | 0 <= j < |trials| :: trials[j].request == AffixRequest(shortlist, ranked, j)
  }

  lemma ShortlistIsThree(baseline: seq<Candidate>)
    requires |baseline| >= 3
    ensures |Shortlist(baseline)| == 3
  {
    SortKeepsElements(Better, baseline);
  }

  predicate NoneEligible(cs: seq<Candidate>, policy: Policy)
  {
    forall n | 0 <= n < |cs| :: !Eligible(cs[n], policy)
  }

  /** The trials stop at the first that works, or when twelve are made, or when the affixes run out. */
  predicate Stopped(ranked: seq<Affix>, trials: seq<Candidate>, policy: Policy)
  {
    || (|trials| > 0 && Eligible(trials[|trials|-1], policy) && NoneEligible(trials[..|trials|-1], policy))
    || (NoneEligible(trials, policy) && (|trials| == 12 || |trials| == 3 * |ranked|))
  }

  function FirstEligible(cs: seq<Candidate>, policy: Policy): Option<Candidate>
  {
    if cs == [] then None else if Eligible(cs[0], policy) then Some(cs[0]) else FirstEligible(cs[1..], policy)
  }

  /** The trials with affixes, and what the search comes to. */
  predicate Tried(shortlist: seq<Candidate>, ranked: seq<Affix>, policy: Policy, trials: seq<Candidate>,
                  final: Option<Candidate>)
  {
    && AffixTried(shortlist, ranked, trials) && Stopped(ranked, trials, policy)
    && final == if |trials| > 0 && Eligible(trials[|trials|-1], policy) then Some(trials[|trials|-1])
                else FirstEligible(shortlist, policy)
  }

  /** What one search tried and what came of it: `tried` is the part of the log that it wrote. */
  predicate Searched(boss: string, difficulty: Difficulty, slot: string, affixes: seq<Affix>, policy: Policy,
                     tried: seq<Candidate>, final: Option<Candidate>)
  {
    && 12 <= |tried| <= 24
    && BaselineTried(boss, difficulty, slot, tried[..12])
    && Tried(Shortlist(tried[..12]), Ranked(affixes), policy, tried[12..], final)
  }

  /** A group is a boss at a difficulty; they are searched in this order. */
  datatype Group = Group(entry: Entry, difficulty: Difficulty)

  function Offered(entry: Entry, n: nat): seq<Group>
    requires n <= 3
  {
    if n == 0 then []
    else Offered(entry, n - 1) + if DIFFICULTIES[n-1] in entry.options then [Group(entry, DIFFICULTIES[n-1])] else []
  }

  function GroupsOf(entry: Entry): seq<Group> { if entry.blocked then [] else Offered(entry, 3) }

  function Groups(entries: seq<Entry>): seq<Group>
  {
    if entries == [] then [] else Groups(entries[..|entries|-1]) + GroupsOf(entries[|entries|-1])
  }

  function Flat(parts: seq<seq<Candidate>>): seq<Candidate>
  {
    if parts == [] then [] else Flat(parts[..|parts|-1]) + parts[|parts|-1]
  }

  /** Nothing came of the searches of these groups. */
  predicate AllInVain(groups: seq<Group>, slot: string, affixes: seq<Affix>, policy: Policy, parts: seq<seq<Candidate>>)
  {
    |parts| == |groups| && forall i | 0 <= i < |parts| ::
      Searched(groups[i].entry.key, groups[i].difficulty, slot, affixes, policy, parts[i], None)
  }

  // ---- the equipment slot ----

  function MinSlot(slots: seq<Slot>): Option<Slot>
  {
    if slots == [] then None
    else
      var before := MinSlot(slots[..|slots|-1]);
      var s := slots[|slots|-1];
      if s.eligible && (before.None? || CheaperSlot(s, before.value)) then Some(s) else before
  }

  /** What a finished search says about the groups of the state. */
  predicate SelectionOk(state: BossState, policy: Policy, slot: string, parts: seq<seq<Candidate>>,
                        selection: Selection)
  {
    var groups := Groups(Sort(HigherEntry, state.entries));
    match selection
    case NoEligibleBoss => AllInVain(groups, slot, state.affixes, policy, parts)
    case Selected(boss, difficulty, final, boost) =>
      && Hit(groups, slot, state.affixes, policy, parts, difficulty, final)
      && boss == groups[|parts|-1].entry.key
      && boost == (difficulty != Normal && state.materialBalance > policy.materialReserve)
    case _ => false
  }

  lemma OneMoreTrial(shortlist: seq<Candidate>, ranked: seq<Affix>, trials: seq<Candidate>, a: nat, c: nat,
                     proposed: Candidate)
    requires AffixTried(shortlist, ranked, trials) && c < 3 && a < |ranked| && |trials| == 3 * a + c < 12
    requires proposed.request == shortlist[c].request.(affix := Some(ranked[a].key))
    ensures AffixTried(shortlist, ranked, trials + [proposed])
  {
    assert (3 * a + c) / 3 == a && (3 * a + c) % 3 == c;
  }

  lemma EndsWithHit(shortlist: seq<Candidate>, ranked: seq<Affix>, policy: Policy, before: seq<Candidate>,
                    hit: Candidate)
    requires AffixTried(shortlist, ranked, before + [hit]) && NoneEligible(before, policy) && Eligible(hit, policy)
    ensures Tried(shortlist, ranked, policy, before + [hit], Some(hit))
  {
    assert (before + [hit])[..|before|] == before;
  }

  lemma EndsWithout(shortlist: seq<Candidate>, ranked: seq<Affix>, policy: Policy, trials: seq<Candidate>)
    requires AffixTried(shortlist, ranked, trials) && NoneEligible(trials, policy)
    requires |trials| == 12 || |trials| == 3 * |ranked|
    ensures Tried(shortlist, ranked, policy, trials, FirstEligible(shortlist, policy))
  {}

  lemma SearchedIn(boss: string, difficulty: Difficulty, slot: string, affixes: seq<Affix>, policy: Policy,
                   baseline: seq<Candidate>, trials: seq<Candidate>, final: Option<Candidate>)
    requires |baseline| == 12 && BaselineTried(boss, difficulty, slot, baseline)
    requires Tried(Shortlist(baseline), Ranked(affixes), policy, trials, final)
    ensures Searched(boss, difficulty, slot, affixes, policy, baseline + trials, final)
  {
    assert (baseline + trials)[..12] == baseline && (baseline + trials)[12..] == trials;
  }

  lemma LogGrows(start: seq<Candidate>, parts: seq<seq<Candidate>>, more: seq<Candidate>, log: seq<Candidate>)
    requires log == (start + Flat(parts)) + more
    ensures log == start + Flat(parts + [more])
  {
    assert (parts + [more])[..|parts|] == parts;
    assert Flat(parts + [more]) == Flat(parts) + more;
    Associate(start, Flat(parts), more);
  }

  lemma {:induction false} LogJoins(start: seq<Candidate>, parts: seq<seq<Candidate>>, more: seq<seq<Candidate>>,
                                    log: seq<Candidate>)
    requires log == (start + Flat(parts)) + Flat(more)
    ensures log == start + Flat(parts + more)
  {
    FlatJoins(parts, more);
    Associate(start, Flat(parts), Flat(more));
  }

  lemma {:induction false} FlatJoins(parts: seq<seq<Candidate>>, more: seq<seq<Candidate>>)
    ensures Flat(parts + more) == Flat(parts) + Flat(more)
  {
    if more == [] {
      assert parts + more == parts;
    } else {
      var n := |more| - 1;
      FlatJoins(parts, more[..n]);
      assert (parts + more)[..|parts| + n] == parts + more[..n];
      assert (parts + more)[|parts| + n] == more[n];
      Associate(Flat(parts), Flat(more[..n]), more[n]);
    }
  }

  lemma InVainGrows(groups: seq<Group>, slot: string, affixes: seq<Affix>, policy: Policy, parts: seq<seq<Candidate>>,
                    group: Group, tried: seq<Candidate>)
    requires AllInVain(groups, slot, affixes, policy, parts)
    requires Searched(group.entry.key, group.difficulty, slot, affixes, policy, tried, None)
    ensures AllInVain(groups + [group], slot, affixes, policy, parts + [tried])
  {
    InVainJoins(groups, [group], slot, affixes, policy, parts, [tried]);
  }

  lemma InVainJoins(groups: seq<Group>, others: seq<Group>, slot: string, affixes: seq<Affix>, policy: Policy,
                    parts: seq<seq<Candidate>>, more: seq<seq<Candidate>>)
    requires AllInVain(groups, slot, affixes, policy, parts) && AllInVain(others, slot, affixes, policy, more)
    ensures AllInVain(groups + others, slot, affixes, policy, parts + more)
  {}

  /** The search of the last group that was tried found something, those before it did not. */
  predicate Hit(groups: seq<Group>, slot: string, affixes: seq<Affix>, policy: Policy, parts: seq<seq<Candidate>>,
                difficulty: Difficulty, final: Candidate)
  {
    && 0 < |parts| <= |groups|
    && var k := |parts| - 1;
       && AllInVain(groups[..k], slot, affixes, policy, parts[..k])
       && difficulty == groups[k].difficulty
       && Searched(groups[k].entry.key, difficulty, slot, affixes, policy, parts[k], Some(final))
  }

  lemma HitIn(entry: Entry, d: nat, slot: string, affixes: seq<Affix>, policy: Policy, parts: seq<seq<Candidate>>,
              tried: seq<Candidate>, final: Candidate)
    requires d < 3 && DIFFICULTIES[d] in entry.options && !entry.blocked
    requires AllInVain(Offered(entry, d), slot, affixes, policy, parts)
    requires Searched(entry.key, DIFFICULTIES[d], slot, affixes, policy, tried, Some(final))
    ensures Hit(GroupsOf(entry), slot, affixes, policy, parts + [tried], DIFFICULTIES[d], final)
  {
    PrefixOfOffered(entry, d);
    var groups := Offered(entry, 3);
    assert groups[..|parts|] == Offered(entry, d);
    assert (parts + [tried])[..|parts|] == parts;
    assert groups[|parts|] == (Offered(entry, d) + [Group(entry, DIFFICULTIES[d])])[|parts|];
  }

  lemma HitJoins(groups: seq<Group>, others: seq<Group>, all: seq<Group>, slot: string, affixes: seq<Affix>,
                 policy: Policy,
                 parts: seq<seq<Candidate>>, more: seq<seq<Candidate>>, difficulty: Difficulty, final: Candidate)
    requires AllInVain(groups, slot, affixes, policy, parts)
             && Hit(others, slot, affixes, policy, more, difficulty, final)
    requires groups + others <= all
    ensures Hit(all, slot, affixes, policy, parts + more, difficulty, final)
    ensures all[|parts + more| - 1] == others[|more| - 1]
  {
    var k := |more| - 1;
    InVainJoins(groups, others[..k], slot, affixes, policy, parts, more[..k]);
    var n := |parts| + k;
    assert (parts + more)[..n] == parts + more[..k];
    assert all[..n] == groups + others[..k];
    assert all[n] == (groups + others)[n];
  }

  lemma HitIsOfEntry(entry: Entry, k: nat)
    requires k < |GroupsOf(entry)|
    ensures GroupsOf(entry)[k].entry == entry
  {
    assert Offered(entry, 1) == Offered(entry, 0)
      + if DIFFICULTIES[0] in entry.options then [Group(entry, DIFFICULTIES[0])] else [];
    assert Offered(entry, 2) == Offered(entry, 1)
      + if DIFFICULTIES[1] in entry.options then [Group(entry, DIFFICULTIES[1])] else [];
  }

  lemma Found(state: BossState, policy: Policy, slot: string, e: nat, parts: seq<seq<Candidate>>,
              more: seq<seq<Candidate>>, difficulty: Difficulty, final: Candidate)
    requires e < |Sort(HigherEntry, state.entries)|
    requires AllInVain(Groups(Sort(HigherEntry, state.entries)[..e]), slot, state.affixes, policy, parts)
    requires Hit(GroupsOf(Sort(HigherEntry, state.entries)[e]), slot, state.affixes, policy, more, difficulty, final)
    ensures SelectionOk(state, policy, slot, parts + more,
              Selected(Sort(HigherEntry, state.entries)[e].key, difficulty, final,
                       difficulty != Normal && state.materialBalance > policy.materialReserve))
  {
    var entries := Sort(HigherEntry, state.entries);
    PrefixOfGroups(entries, e);
    HitJoins(Groups(entries[..e]), GroupsOf(entries[e]), Groups(entries), slot, state.affixes, policy, parts, more,
             difficulty, final);
    HitIsOfEntry(entries[e], |more| - 1);
  }

  lemma {:induction false} PrefixOfGroups(entries: seq<Entry>, e: nat)
    requires e < |entries|
    ensures Groups(entries[..e+1]) == Groups(entries[..e]) + GroupsOf(entries[e])
    ensures Groups(entries[..e+1]) <= Groups(entries)
    decreases |entries| - e
  {
    assert entries[..e+1][..e] == entries[..e];
    if e + 1 < |entries| {
      PrefixOfGroups(entries, e + 1);
    } else {
      assert entries[..e+1] == entries;
    }
  }

  lemma PrefixOfOffered(entry: Entry, d: nat)
    requires d < 3 && DIFFICULTIES[d] in entry.options
    ensures Offered(entry, d) + [Group(entry, DIFFICULTIES[d])] <= Offered(entry, 3)
  {
    assert Offered(entry, d + 1) == Offered(entry, d) + [Group(entry, DIFFICULTIES[d])];
  }

  class Optimizer {
    const api: BossApi

    constructor (api: BossApi)
      ensures this.api == api
    {
      this.api := api;
    }

    method TargetSlot(slots: seq<Slot>) returns (target: Option<Slot>)
      ensures target == MinSlot(slots)
    {
      target := None;
      for n := 0 to |slots|
        invariant target == MinSlot(slots[..n])
      {
        assert slots[..n+1][..n] == slots[..n];
        if slots[n].eligible && (target.None? || CheaperSlot(slots[n], target.value)) { target := Some(slots[n]); }
      }
      assert slots[..|slots|] == slots;
    }

    method Baseline(boss: string, difficulty: Difficulty, slot: string) returns (baseline: seq<Candidate>)
      modifies api
      ensures api.log == old(api.log) + baseline
      ensures |baseline| == 12 && BaselineTried(boss, difficulty, slot, baseline)
    {
      baseline := [];
      for s := 0 to 3
        invariant |baseline| == 4 * s && BaselineTried(boss, difficulty, slot, baseline)
        invariant api.log == old(api.log) + baseline
      {
        for b := 0 to 4
          invariant |baseline| == 4 * s + b && BaselineTried(boss, difficulty, slot, baseline)
          invariant api.log == old(api.log) + baseline
        {
          var request := Request(boss, difficulty, SKILLS[s], BUFFS[b], None, slot);
          assert (4 * s + b) / 4 == s && (4 * s + b) % 4 == b;
          var preview := api.BossPreview(request);
          baseline := baseline + [Candidate(request, preview)];
        }
      }
    }

    method ForEntry(boss: string, difficulty: Difficulty, slot: string, affixes: seq<Affix>, policy: Policy)
      returns (final: Option<Candidate>, ghost tried: seq<Candidate>)
      modifies api
      ensures api.log == old(api.log) + tried
      ensures Searched(boss, difficulty, slot, affixes, policy, tried, final)
    {
      ghost var start := api.log;
      var baseline := Baseline(boss, difficulty, slot);
      ShortlistIsThree(baseline);
      ghost var trials;
      final, trials := TryAffixes(Shortlist(baseline), affixes, policy);
      tried := baseline + trials;
      Associate(start, baseline, trials);
      SearchedIn(boss, difficulty, slot, affixes, policy, baseline, trials, final);
    }

    method TryAffixes(shortlist: seq<Candidate>, affixes: seq<Affix>, policy: Policy)
      returns (final: Option<Candidate>, ghost trials: seq<Candidate>)
      requires |shortlist| == 3
      modifies api
      ensures api.log == old(api.log) + trials
      ensures Tried(shortlist, Ranked(affixes), policy, trials, final)
    {
      ghost var start := api.log;
      var ranked := Ranked(affixes);
      final := FirstEligible(shortlist, policy);
      trials := [];
      var previewed := 0;
      for a := 0 to |ranked|
        invariant previewed == |trials| == (if a < 4 then 3 * a else 12)
        invariant AffixTried(shortlist, ranked, trials) && NoneEligible(trials, policy)
        invariant api.log == start + trials
        invariant final == FirstEligible(shortlist, policy)
      {
        for c := 0 to 3
          invariant previewed == |trials| == (if a < 4 then 3 * a + c else 12)
          invariant AffixTried(shortlist, ranked, trials) && NoneEligible(trials, policy)
          invariant api.log == start + trials
          invariant final == FirstEligible(shortlist, policy)
        {
          if previewed >= 12 { break; }
          var request := shortlist[c].request.(affix := Some(ranked[a].key));
          var preview := api.BossPreview(request);
          previewed := previewed + 1;
          var proposed := Candidate(request, preview);
          ghost var before := trials;
          trials := before + [proposed];
          OneMoreTrial(shortlist, ranked, before, a, c, proposed);
          if Eligible(proposed, policy) {
            final := Some(proposed);
            EndsWithHit(shortlist, ranked, policy, before, proposed);
            return;
          }
        }
      }
      EndsWithout(shortlist, ranked, policy, trials);
    }

    /** One boss, from the hardest difficulty it offers to the easiest. */
    method ForDifficulties(entry: Entry, slot: string, affixes: seq<Affix>, policy: Policy)
      returns (difficulty: Difficulty, final: Option<Candidate>, ghost parts: seq<seq<Candidate>>)
      requires !entry.blocked
      modifies api
      ensures api.log == old(api.log) + Flat(parts)
      ensures final.None? ==> AllInVain(GroupsOf(entry), slot, affixes, policy, parts)
      ensures final.Some? ==> Hit(GroupsOf(entry), slot, affixes, policy, parts, difficulty, final.value)
    {
      ghost var start := api.log;
      parts := [];
      difficulty := Normal;
      final := None;
      for d := 0 to 3
        invariant AllInVain(Offered(entry, d), slot, affixes, policy, parts)
        invariant api.log == start + Flat(parts)
      {
        difficulty := DIFFICULTIES[d];
        if difficulty !in entry.options { continue; }
        ghost var tried;
        final, tried := ForEntry(entry.key, difficulty, slot, affixes, policy);
        LogGrows(start, parts, tried, api.log);
        if final.Some? {
          HitIn(entry, d, slot, affixes, policy, parts, tried, final.value);
          parts := parts + [tried];
          return;
        }
        InVainGrows(Offered(entry, d), slot, affixes, policy, parts, Group(entry, difficulty), tried);
        parts := parts + [tried];
      }
      return difficulty, None, parts;
    }

    method Optimize(state: BossState, policy: Policy) returns (selection: Selection, ghost parts: seq<seq<Candidate>>)
      modifies api
      ensures api.log == old(api.log) + Flat(parts)
      ensures selection.CombatPotionSwitchRequired? <==> state.potionSwitch
      ensures selection.NoEligibleEquipment? <==> !state.potionSwitch && MinSlot(state.equipment).None?
      ensures state.potionSwitch || MinSlot(state.equipment).None? ==> parts == []
      ensures !state.potionSwitch && MinSlot(state.equipment).Some? ==>
                SelectionOk(state, policy, MinSlot(state.equipment).value.key, parts, selection)
    {
      parts := [];
      if state.potionSwitch { return CombatPotionSwitchRequired, parts; }
      var slot := TargetSlot(state.equipment);
      if slot.None? { return NoEligibleEquipment, parts; }
      selection, parts := Search(state, policy, slot.value.key);
    }

    method Search(state: BossState, policy: Policy, slot: string)
      returns (selection: Selection, ghost parts: seq<seq<Candidate>>)
      modifies api
      ensures api.log == old(api.log) + Flat(parts)
      ensures SelectionOk(state, policy, slot, parts, selection)
    {
      ghost var start := api.log;
      parts := [];
      var entries := Sort(HigherEntry, state.entries);
      for e := 0 to |entries|
        invariant AllInVain(Groups(entries[..e]), slot, state.affixes, policy, parts)
        invariant api.log == start + Flat(parts)
      {
        var entry := entries[e];
        PrefixOfGroups(entries, e);
        if entry.blocked {
          continue;
        }
        var difficulty, final;
        ghost var more;
        difficulty, final, more := ForDifficulties(entry, slot, state.affixes, policy);
        LogJoins(start, parts, more, api.log);
        if final.Some? {
          var boost := (difficulty.Hard? || difficulty.Nightmare?) && state.materialBalance > policy.materialReserve;
          Found(state, policy, slot, e, parts, more, difficulty, final.value);
          parts := parts + more;
          return Selected(entry.key, difficulty, final.value, boost), parts;
        }
        InVainJoins(Groups(entries[..e]), GroupsOf(entry), slot, state.affixes, policy, parts, more);
        parts := parts + more;
      }
      assert entries[..|entries|] == entries;
      return NoEligibleBoss, parts;
    }
  }
}
