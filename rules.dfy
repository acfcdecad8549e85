/**
 * The decision table of the negation engine, one lemma per row, each stated
 * on the whole rebuilt phrase: what the result is in terms of the morphemes,
 * and, where no rule fires, that the result is the phrase unchanged.
 *
 * Each proof first settles which entry the table records (inside an
 * `assert ... by`, so that the unfolding of the table stays local) and then
 * appeals to the assembly lemmas of `Negation`.
 */
module NegationRules {
  import opened Text
  import opened Negation

  // ---------------------------------------------------------------------------
  // Last morpheme: adjective and verb

  /** An adjective ending in い: い becomes くない (ねむい, ねむくない). */
  lemma {:induction false} AdjectiveRule(ts: seq<Morpheme>)
    requires |ts| > 0 && PosOf(Last(ts)) == Adjective
    ensures var s := Last(ts).surface;
      && (EndsWith(s, "い") ==> Negated(ts) == Surfaces(ts[..|ts| - 1]) + s[..|s| - 1] + "くない")
      && (!EndsWith(s, "い") ==> Negated(ts) == Surfaces(ts))
  {
    var s := Last(ts).surface;
    if EndsWith(s, "い") {
      var w := ReplaceSuffix(s, "い", "くない");
      assert Replacements(ts) == RewriteLast(ts, w) by {
        ReplacementsDispatch(ts);
      }
      NegatedRewritesLast(ts, w);
      assert w == s[..|s| - 1] + "くない";
      AppendAssociative(Surfaces(ts[..|ts| - 1]), s[..|s| - 1], "くない");
    } else {
      assert Replacements(ts) == [] by {
        ReplacementsDispatch(ts);
      }
      NegatedUnchanged(ts);
    }
  }

  /** A verb in a す/ず form (する, すれ, ずる, ずれ): the form becomes すない or じない. */
  lemma {:induction false} SuruVerbRule(ts: seq<Morpheme>)
    requires |ts| > 0 && PosOf(Last(ts)) == Verb && EndsWithSuruForm(Last(ts).surface)
    ensures var s := Last(ts).surface;
      Negated(ts) == Surfaces(ts[..|ts| - 1]) + s[..|s| - 2] + (if s[|s| - 2] == 'す' then "すない" else "じない")
  {
    var s := Last(ts).surface;
    var ending := if s[|s| - 2] == 'す' then "すない" else "じない";
    assert Replacements(ts) == RewriteLast(ts, SuruNegative(s)) by {
      ReplacementsDispatch(ts);
    }
    NegatedRewritesLast(ts, SuruNegative(s));
    SuruNegativeRule(s);
    AppendAssociative(Surfaces(ts[..|ts| - 1]), s[..|s| - 2], ending);
  }

  /** A single-row verb: a final る becomes ない; a surface not ending in る is kept as it is. */
  lemma {:induction false} IchidanVerbRule(ts: seq<Morpheme>)
    requires |ts| > 0 && PosOf(Last(ts)) == Verb && !EndsWithSuruForm(Last(ts).surface)
    requires Last(ts).conjugatedType == Ichidan
    ensures var s := Last(ts).surface;
      && (EndsWith(s, "る") ==> Negated(ts) == Surfaces(ts[..|ts| - 1]) + s[..|s| - 1] + "ない")
      && (!EndsWith(s, "る") ==> Negated(ts) == Surfaces(ts))
  {
    var s := Last(ts).surface;
    var w := ReplaceSuffix(s, "る", "ない");
    assert Replacements(ts) == RewriteLast(ts, w) by {
      ReplacementsDispatch(ts);
    }
    NegatedRewritesLast(ts, w);
    if EndsWith(s, "る") {
      assert w == s[..|s| - 1] + "ない";
      AppendAssociative(Surfaces(ts[..|ts| - 1]), s[..|s| - 1], "ない");
    } else {
      assert w == s;
      SurfacesSnoc(ts);
    }
  }

  /** A five-row verb: the final kana goes through the five-row table, then ない is appended. */
  lemma {:induction false} GodanVerbRule(ts: seq<Morpheme>)
    requires |ts| > 0 && PosOf(Last(ts)) == Verb && !EndsWithSuruForm(Last(ts).surface)
    requires Last(ts).conjugatedType != Ichidan && StartsWith(Last(ts).conjugatedType, GodanPrefix)
    ensures Negated(ts) == Surfaces(ts[..|ts| - 1]) + GodanStem(Last(ts).surface) + "ない"
  {
    var s := Last(ts).surface;
    GodanChainIsRowLookup(s);
    assert Replacements(ts) == RewriteLast(ts, GodanChain(s) + "ない") by {
      ReplacementsDispatch(ts);
    }
    NegatedRewritesLast(ts, GodanChain(s) + "ない");
    AppendAssociative(Surfaces(ts[..|ts| - 1]), GodanStem(s), "ない");
  }

  /** Any other verb conjugation: nothing is rewritten. */
  lemma {:induction false} OtherVerbUnchanged(ts: seq<Morpheme>)
    requires |ts| > 0 && PosOf(Last(ts)) == Verb && !EndsWithSuruForm(Last(ts).surface)
    requires Last(ts).conjugatedType != Ichidan && !StartsWith(Last(ts).conjugatedType, GodanPrefix)
    ensures Negated(ts) == Surfaces(ts)
  {
    assert Replacements(ts) == [] by {
      ReplacementsDispatch(ts);
    }
    NegatedUnchanged(ts);
  }

  // ---------------------------------------------------------------------------
  // Last morpheme: the past-tense auxiliary た, decided by the morpheme before it

  /** Branch 1: after the verb て or い, た becomes なかった. */
  lemma {:induction false} PastAfterTeOrI(ts: seq<Morpheme>)
    requires |ts| >= 2 && EndsInPastAuxiliary(ts)
    requires PosOf(Prev(ts)) == Verb && (Prev(ts).surface == "て" || Prev(ts).surface == "い")
    ensures Negated(ts) == Surfaces(ts[..|ts| - 1]) + "なかった"
  {
    assert Replacements(ts) == RewriteLast(ts, "なかった") by {
      PastLookbackDispatch(ts);
    }
    NegatedRewritesLast(ts, "なかった");
  }

  /** Branch 2: after 来, た becomes ない. */
  lemma {:induction false} PastAfterKuru(ts: seq<Morpheme>)
    requires |ts| >= 2 && EndsInPastAuxiliary(ts) && Prev(ts).surface == "来"
    ensures Negated(ts) == Surfaces(ts[..|ts| - 1]) + "ない"
  {
    assert Replacements(ts) == RewriteLast(ts, "ない") by {
      PastLookbackDispatch(ts);
    }
    NegatedRewritesLast(ts, "ない");
  }

  /** Branch 3: after any other surface ending in い, た becomes てない. */
  lemma {:induction false} PastAfterI(ts: seq<Morpheme>)
    requires |ts| >= 2 && EndsInPastAuxiliary(ts) && EndsWith(Prev(ts).surface, "い")
    requires !(PosOf(Prev(ts)) == Verb && Prev(ts).surface == "い")
    ensures Negated(ts) == Surfaces(ts[..|ts| - 1]) + "てない"
  {
    assert Replacements(ts) == RewriteLast(ts, "てない") by {
      PastLookbackDispatch(ts);
    }
    NegatedRewritesLast(ts, "てない");
  }

  /**
   * Branch 4: after an adjective, the adjective is rewritten from its basic
   * form, い becoming くなかっ, and the trailing た is kept.
   */
  lemma {:induction false} PastAfterAdjective(ts: seq<Morpheme>)
    requires |ts| >= 2 && EndsInPastAuxiliary(ts) && PosOf(Prev(ts)) == Adjective
    requires Prev(ts).surface != "来" && !EndsWith(Prev(ts).surface, "い")
    ensures var b := Prev(ts).basicForm;
      && (EndsWith(b, "い") ==> Negated(ts) == Surfaces(ts[..|ts| - 2]) + b[..|b| - 1] + "くなかっ" + "た")
      && (!EndsWith(b, "い") ==> Negated(ts) == Surfaces(ts))
  {
    var b := Prev(ts).basicForm;
    if EndsWith(b, "い") {
      var w := ReplaceSuffix(b, "い", "くなかっ");
      assert Replacements(ts) == [Replacement(|ts| - 2, w)] by {
        ReplacementsDispatch(ts);
        assert AuxiliaryReplacements(ts) == PastLookback(ts);
      }
      NegatedRewritesPrev(ts, w);
    } else {
      assert Replacements(ts) == [] by {
        ReplacementsDispatch(ts);
        assert AuxiliaryReplacements(ts) == PastLookback(ts);
      }
      NegatedUnchanged(ts);
    }
  }

  /**
   * Branch 5, single-row verb: the verb is rewritten from its basic form, る
   * becoming なかっ, and the trailing た is kept.
   */
  lemma {:induction false} PastAfterIchidanVerb(ts: seq<Morpheme>)
    requires |ts| >= 2 && EndsInPastAuxiliary(ts) && PosOf(Prev(ts)) == Verb
    requires Prev(ts).surface != "て" && Prev(ts).surface != "来" && !EndsWith(Prev(ts).surface, "い")
    requires Prev(ts).conjugatedType == Ichidan
    ensures var b := Prev(ts).basicForm;
      && (EndsWith(b, "る") ==> Negated(ts) == Surfaces(ts[..|ts| - 2]) + b[..|b| - 1] + "なかっ" + "た")
      && (!EndsWith(b, "る") ==> Negated(ts) == Surfaces(ts[..|ts| - 2]) + b + "た")
  {
    var w := ReplaceSuffix(Prev(ts).basicForm, "る", "なかっ");
    assert Replacements(ts) == [Replacement(|ts| - 2, w)] by {
      PastVerbDispatch(ts);
    }
    NegatedRewritesPrev(ts, w);
  }

  /**
   * Branch 5, five-row verb: the basic form's final kana goes through the
   * five-row table and なかっ is appended; the trailing た is kept.
   */
  lemma {:induction false} PastAfterGodanVerb(ts: seq<Morpheme>)
    requires |ts| >= 2 && EndsInPastAuxiliary(ts) && PosOf(Prev(ts)) == Verb
    requires Prev(ts).surface != "て" && Prev(ts).surface != "来" && !EndsWith(Prev(ts).surface, "い")
    requires Prev(ts).conjugatedType != Ichidan && StartsWith(Prev(ts).conjugatedType, GodanPrefix)
    ensures Negated(ts) == Surfaces(ts[..|ts| - 2]) + GodanStem(Prev(ts).basicForm) + "なかっ" + "た"
  {
    var b := Prev(ts).basicForm;
    var w := GodanChain(b) + "なかっ";
    assert Replacements(ts) == [Replacement(|ts| - 2, w)] by {
      PastVerbDispatch(ts);
    }
    NegatedRewritesPrev(ts, w);
    GodanChainIsRowLookup(b);
    AppendAssociative(Surfaces(ts[..|ts| - 2]), GodanStem(b), "なかっ");
  }

  /** Branch 5, any other verb conjugation: nothing is rewritten. */
  lemma {:induction false} PastAfterOtherVerb(ts: seq<Morpheme>)
    requires |ts| >= 2 && EndsInPastAuxiliary(ts) && PosOf(Prev(ts)) == Verb
    requires Prev(ts).surface != "て" && Prev(ts).surface != "来" && !EndsWith(Prev(ts).surface, "い")
    requires Prev(ts).conjugatedType != Ichidan && !StartsWith(Prev(ts).conjugatedType, GodanPrefix)
    ensures Negated(ts) == Surfaces(ts)
  {
    assert Replacements(ts) == [] by {
      PastVerbDispatch(ts);
    }
    NegatedUnchanged(ts);
  }

  /** After anything else, or with nothing before it, た is not rewritten. */
  lemma {:induction false} PastOtherwiseUnchanged(ts: seq<Morpheme>)
    requires |ts| > 0 && EndsInPastAuxiliary(ts)
    requires |ts| >= 2 ==>
      && PosOf(Prev(ts)) != Verb && PosOf(Prev(ts)) != Adjective
      && Prev(ts).surface != "来" && !EndsWith(Prev(ts).surface, "い")
    ensures Negated(ts) == Surfaces(ts)
  {
    assert Replacements(ts) == [] by {
      ReplacementsDispatch(ts);
    }
    NegatedUnchanged(ts);
  }

  // ---------------------------------------------------------------------------
  // Last morpheme: the other auxiliaries

  /** だ or な after an adverb or a noun becomes じゃない; otherwise nothing is rewritten. */
  lemma {:induction false} CopulaRule(ts: seq<Morpheme>)
    requires |ts| > 0 && PosOf(Last(ts)) == AuxiliaryVerb
    requires Last(ts).surface == "だ" || Last(ts).surface == "な"
    ensures |ts| >= 2 && PrecededByAdverbOrNoun(ts) ==> Negated(ts) == Surfaces(ts[..|ts| - 1]) + "じゃない"
    ensures !(|ts| >= 2 && PrecededByAdverbOrNoun(ts)) ==> Negated(ts) == Surfaces(ts)
  {
    if |ts| >= 2 && PrecededByAdverbOrNoun(ts) {
      assert Replacements(ts) == RewriteLast(ts, "じゃない") by {
        ReplacementsDispatch(ts);
      }
      NegatedRewritesLast(ts, "じゃない");
    } else {
      assert Replacements(ts) == [] by {
        ReplacementsDispatch(ts);
      }
      NegatedUnchanged(ts);
    }
  }

  /** The fixed auxiliaries: たい becomes たくない, ない becomes なくない, ます becomes ません. */
  lemma {:induction false} FixedAuxiliaryRule(ts: seq<Morpheme>)
    requires |ts| > 0 && PosOf(Last(ts)) == AuxiliaryVerb
    requires Last(ts).surface in {"たい", "ない", "ます"}
    ensures var s := Last(ts).surface;
      Negated(ts) == Surfaces(ts[..|ts| - 1]) +
        (if s == "たい" then "たくない" else if s == "ない" then "なくない" else "ません")
  {
    var s := Last(ts).surface;
    var w := if s == "たい" then "たくない" else if s == "ない" then "なくない" else "ません";
    assert Replacements(ts) == RewriteLast(ts, w) by {
      ReplacementsDispatch(ts);
    }
    NegatedRewritesLast(ts, w);
  }

  /** Any other auxiliary is not rewritten. */
  lemma {:induction false} OtherAuxiliaryUnchanged(ts: seq<Morpheme>)
    requires |ts| > 0 && PosOf(Last(ts)) == AuxiliaryVerb
    requires Last(ts).surface !in {"た", "だ", "な", "たい", "ない", "ます"}
    ensures Negated(ts) == Surfaces(ts)
  {
    assert Replacements(ts) == [] by {
      ReplacementsDispatch(ts);
    }
    NegatedUnchanged(ts);
  }

  // ---------------------------------------------------------------------------
  // Last morpheme: particle, noun, adverb, pre-noun adjectival, anything else

  /** The particle て becomes ない; な after an adverb or a noun becomes じゃない; no other particle is rewritten. */
  lemma {:induction false} ParticleRule(ts: seq<Morpheme>)
    requires |ts| > 0 && PosOf(Last(ts)) == Particle
    ensures Last(ts).surface == "て" ==> Negated(ts) == Surfaces(ts[..|ts| - 1]) + "ない"
    ensures Last(ts).surface == "な" && |ts| >= 2 && PrecededByAdverbOrNoun(ts) ==>
      Negated(ts) == Surfaces(ts[..|ts| - 1]) + "じゃない"
    ensures Last(ts).surface != "て" && !(Last(ts).surface == "な" && |ts| >= 2 && PrecededByAdverbOrNoun(ts)) ==>
      Negated(ts) == Surfaces(ts)
  {
    if Last(ts).surface == "て" {
      assert Replacements(ts) == RewriteLast(ts, "ない") by {
        ReplacementsDispatch(ts);
      }
      NegatedRewritesLast(ts, "ない");
    } else if Last(ts).surface == "な" && |ts| >= 2 && PrecededByAdverbOrNoun(ts) {
      assert Replacements(ts) == RewriteLast(ts, "じゃない") by {
        ReplacementsDispatch(ts);
      }
      NegatedRewritesLast(ts, "じゃない");
    } else {
      assert Replacements(ts) == [] by {
        ReplacementsDispatch(ts);
      }
      NegatedUnchanged(ts);
    }
  }

  /**
   * A proper noun, common noun or pronoun gets じゃない appended; a noun that
   * takes する, or a noun suffix, gets しない; any other noun is not rewritten.
   */
  lemma {:induction false} NounRule(ts: seq<Morpheme>)
    requires |ts| > 0 && PosOf(Last(ts)) == Noun
    ensures Last(ts).posDetail1 in {ProperNoun, General, Pronoun} ==>
      Negated(ts) == Surfaces(ts) + "じゃない"
    ensures Last(ts).posDetail1 in {SuruConnection, NounSuffix} ==>
      Negated(ts) == Surfaces(ts) + "しない"
    ensures Last(ts).posDetail1 !in {ProperNoun, General, Pronoun, SuruConnection, NounSuffix} ==>
      Negated(ts) == Surfaces(ts)
  {
    var d, s := Last(ts).posDetail1, Last(ts).surface;
    if d in {ProperNoun, General, Pronoun} {
      assert Replacements(ts) == RewriteLast(ts, s + "じゃない") by {
        ReplacementsDispatch(ts);
      }
      NegatedAppends(ts, "じゃない");
    } else if d in {SuruConnection, NounSuffix} {
      assert Replacements(ts) == RewriteLast(ts, s + "しない") by {
        ReplacementsDispatch(ts);
      }
      NegatedAppends(ts, "しない");
    } else {
      assert Replacements(ts) == [] by {
        ReplacementsDispatch(ts);
      }
      NegatedUnchanged(ts);
    }
  }

  /** An adverb gets じゃない appended. */
  lemma {:induction false} AdverbRule(ts: seq<Morpheme>)
    requires |ts| > 0 && PosOf(Last(ts)) == Adverb
    ensures Negated(ts) == Surfaces(ts) + "じゃない"
  {
    assert Replacements(ts) == RewriteLast(ts, Last(ts).surface + "じゃない") by {
      ReplacementsDispatch(ts);
    }
    NegatedAppends(ts, "じゃない");
  }

  /** A pre-noun adjectival ending in な (大きな) gets わけない appended; any other is not rewritten. */
  lemma {:induction false} PreNounAdjectivalRule(ts: seq<Morpheme>)
    requires |ts| > 0 && PosOf(Last(ts)) == PreNounAdjectival
    ensures EndsWith(Last(ts).surface, "な") ==> Negated(ts) == Surfaces(ts) + "わけない"
    ensures !EndsWith(Last(ts).surface, "な") ==> Negated(ts) == Surfaces(ts)
  {
    if EndsWith(Last(ts).surface, "な") {
      assert Replacements(ts) == RewriteLast(ts, Last(ts).surface + "わけない") by {
        ReplacementsDispatch(ts);
      }
      NegatedAppends(ts, "わけない");
    } else {
      assert Replacements(ts) == [] by {
        ReplacementsDispatch(ts);
      }
      NegatedUnchanged(ts);
    }
  }

  /** Any other part of speech (a symbol, a conjunction, an interjection, ...) is not rewritten. */
  lemma {:induction false} OtherPosUnchanged(ts: seq<Morpheme>)
    requires |ts| > 0 && PosOf(Last(ts)) == OtherPos
    ensures Negated(ts) == Surfaces(ts)
  {
    assert Replacements(ts) == [] by {
      ReplacementsDispatch(ts);
    }
    NegatedUnchanged(ts);
  }
}
