/** The orders in which the boss search ranks previews, bosses, affixes and slots (boss_optimizer.py). */
module BossRanking {
  import opened Prelude
  import opened Text
  import opened StableSort

  datatype Difficulty = Normal | Hard | Nightmare

  datatype Request = Request(boss: string, difficulty: Difficulty, skill: string, buff: string, affix: Option<string>,
                             slot: string)

  datatype Preview = Preview(win: bool, chance: real, playerHp: real, bossHp: real)

  datatype Candidate = Candidate(request: Request, preview: Preview)

  datatype Entry = Entry(key: string, level: int, blocked: bool, options: set<Difficulty>)
  datatype Slot = Slot(key: string, score: int, eligible: bool)
  datatype Affix = Affix(key: string, multiplier: real)

  function AffixText(r: Request): string { if r.affix.Some? then r.affix.value else "" }

  /** `tie_key`. */
  predicate TieBefore(a: Request, b: Request)
  {
    if a.skill != b.skill then Less(a.skill, b.skill)
    else if a.buff != b.buff then Less(a.buff, b.buff)
    else Less(AffixText(a), AffixText(b))
  }

  /** Winning first, then chance, own health, the boss's lack of health, and the names. */
  predicate Better(a: Candidate, b: Candidate)
  {
    var p, q := a.preview, b.preview;
    if p.win != q.win then p.win
    else if p.chance != q.chance then p.chance > q.chance
    else if p.playerHp != q.playerHp then p.playerHp > q.playerHp
    else if p.bossHp != q.bossHp then p.bossHp < q.bossHp
    else TieBefore(a.request, b.request)
  }

  predicate HigherEntry(a: Entry, b: Entry)
  {
    a.level > b.level || (a.level == b.level && Less(a.key, b.key))
  }

  predicate HigherAffix(a: Affix, b: Affix)
  {
    a.multiplier > b.multiplier || (a.multiplier == b.multiplier && Less(a.key, b.key))
  }

  predicate CheaperSlot(a: Slot, b: Slot)
  {
    a.score < b.score || (a.score == b.score && Less(a.key, b.key))
  }

  lemma LessIsWeak(a: string, b: string, c: string)
    ensures Less(a, b) ==> !Less(b, a)
    ensures Less(a, c) ==> Less(a, b) || Less(b, c)
  {
    LessIrreflexive(a);
    if Less(a, b) && Less(b, a) { LessTransitive(a, b, a); }
    LessTotal(a, b);
    LessTotal(b, c);
    if Less(b, a) && Less(a, c) { LessTransitive(b, a, c); }
  }

  lemma TieIsWeak(a: Request, b: Request, c: Request)
    ensures TieBefore(a, b) ==> !TieBefore(b, a)
    ensures TieBefore(a, c) ==> TieBefore(a, b) || TieBefore(b, c)
  {
    LessIsWeak(a.skill, b.skill, c.skill);
    LessIsWeak(a.buff, b.buff, c.buff);
    LessIsWeak(AffixText(a), AffixText(b), AffixText(c));
    LessTotal(a.skill, b.skill);
    LessTotal(b.skill, c.skill);
    LessTotal(a.buff, b.buff);
    LessTotal(b.buff, c.buff);
  }

  lemma BetterIsWeakOrder()
    ensures WeakOrder(Better)
  {
    forall a, b, c ensures (Better(a, b) ==> !Better(b, a)) && (Better(a, c) ==> Better(a, b) || Better(b, c)) {
      TieIsWeak(a.request, b.request, c.request);
    }
  }

  lemma EntriesAreWeaklyOrdered()
    ensures WeakOrder(HigherEntry)
  {
    forall a, b, c
      ensures (HigherEntry(a, b) ==> !HigherEntry(b, a))
              && (HigherEntry(a, c) ==> HigherEntry(a, b) || HigherEntry(b, c))
    {
      LessIsWeak(a.key, b.key, c.key);
    }
  }

  lemma AffixesAreWeaklyOrdered()
    ensures WeakOrder(HigherAffix)
  {
    forall a, b, c
      ensures (HigherAffix(a, b) ==> !HigherAffix(b, a))
              && (HigherAffix(a, c) ==> HigherAffix(a, b) || HigherAffix(b, c))
    {
      LessIsWeak(a.key, b.key, c.key);
    }
  }

  lemma SlotsAreWeaklyOrdered()
    ensures WeakOrder(CheaperSlot)
  {
    forall a, b, c
      ensures (CheaperSlot(a, b) ==> !CheaperSlot(b, a))
              && (CheaperSlot(a, c) ==> CheaperSlot(a, b) || CheaperSlot(b, c))
    {
      LessIsWeak(a.key, b.key, c.key);
    }
  }
}
