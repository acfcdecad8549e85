/**
 * Worked examples: tokenizer outputs as the dictionary gives them for a few
 * phrases, and what the model computes for them, odd outputs included.
 */
module Scenarios {
  import opened Wrappers
  import opened Text
  import opened Gacha
  import opened Negation
  import opened NegationRules
  import opened NemuiGacha

  const Nemui: Morpheme := Morpheme("ねむい", "形容詞", "自立", "形容詞・アウオ段", "ねむい")
  const Taberu: Morpheme := Morpheme("食べる", "動詞", "自立", "一段", "食べる")
  const Hashiru: Morpheme := Morpheme("走る", "動詞", "自立", "五段・ラ行", "走る")
  const Oyogu: Morpheme := Morpheme("泳ぐ", "動詞", "自立", "五段・ガ行", "泳ぐ")
  const Suru: Morpheme := Morpheme("する", "動詞", "自立", "サ変・スル", "する")
  const Tabe: Morpheme := Morpheme("食べ", "動詞", "自立", "一段", "食べる")
  const Hashit: Morpheme := Morpheme("走っ", "動詞", "自立", "五段・ラ行", "走る")
  const Ta: Morpheme := Morpheme("た", "助動詞", "*", "特殊・タ", "た")
  const Tai: Morpheme := Morpheme("たい", "助動詞", "*", "特殊・タイ", "たい")
  const Kirei: Morpheme := Morpheme("きれい", "名詞", "形容動詞語幹", "*", "きれい")
  const Da: Morpheme := Morpheme("だ", "助動詞", "*", "特殊・ダ", "だ")
  const Neko: Morpheme := Morpheme("猫", "名詞", "一般", "*", "猫")
  const Bang: Morpheme := Morpheme("！", "記号", "一般", "*", "！")

  // Each example states what `parseNegative` or `exec` gives for one phrase,
  // with its morphemes written as kuromoji's IPA dictionary tags them.

  lemma AdjectiveExample(ts: seq<Morpheme>)
    requires ts == [Nemui]
    ensures Negated(ts) == "ねむくない"
  {
    AdjectiveRule(ts);
  }

  /** A one-row verb on its own whose surface ends in る: る dropped, then ない. */
  lemma {:induction false} LoneIchidanVerb(m: Morpheme, negative: string)
    requires PosOf(m) == Verb && !EndsWithSuruForm(m.surface) && m.conjugatedType == Ichidan
    requires EndsWith(m.surface, "る") && m.surface[..|m.surface| - 1] + "ない" == negative
    ensures Negated([m]) == negative
  {
    var ts := [m];
    var w := m.surface[..|m.surface| - 1];
    assert Last(ts) == m && ts[..|ts| - 1] == [];
    assert Surfaces(ts[..|ts| - 1]) + w == w;
    IchidanVerbRule(ts);
  }

  lemma IchidanExample()
    ensures Negated([Taberu]) == "食べない"
  {
    assert PosOf(Taberu) == Verb;
    assert !EndsWithSuruForm(Taberu.surface);
    assert Taberu.conjugatedType == Ichidan;
    TaberuStem();
    LoneIchidanVerb(Taberu, "食べない");
  }

  lemma TaberuStem()
    ensures EndsWith(Taberu.surface, "る") && Taberu.surface[..|Taberu.surface| - 1] + "ない" == "食べない"
  {
    assert Taberu.surface == "食べ" + "る";
  }

  /** 走る: a five-row verb on the ら row. */
  lemma HashiruIsGodan()
    ensures PosOf(Hashiru) == Verb && !EndsWithSuruForm(Hashiru.surface)
    ensures Hashiru.conjugatedType != Ichidan && StartsWith(Hashiru.conjugatedType, GodanPrefix)
    ensures GodanStem(Hashiru.surface) == "走ら"
  {
    HashiruIsFiveRowVerb();
    HashiruStem();
  }

  lemma HashiruIsFiveRowVerb()
    ensures PosOf(Hashiru) == Verb && !EndsWithSuruForm(Hashiru.surface)
    ensures Hashiru.conjugatedType != Ichidan && StartsWith(Hashiru.conjugatedType, GodanPrefix)
  {
    assert PosOf(Hashiru) == Verb;
    assert Hashiru.conjugatedType != Ichidan;
    HashiruIsNotSuru();
    HashiruIsFiveRow();
  }

  lemma HashiruIsNotSuru()
    ensures !EndsWithSuruForm(Hashiru.surface)
  {
  }

  lemma HashiruIsFiveRow()
    ensures StartsWith(Hashiru.conjugatedType, GodanPrefix)
  {
  }

  lemma HashiruStem()
    ensures GodanStem(Hashiru.surface) == "走ら"
  {
    assert Hashiru.surface == "走" + ['る'];
    GodanStemOfRow("走", 'る');
  }

  /** 泳ぐ: a five-row verb whose final kana ぐ has no row in the table. */
  lemma OyoguIsGodan()
    ensures PosOf(Oyogu) == Verb && !EndsWithSuruForm(Oyogu.surface)
    ensures Oyogu.conjugatedType != Ichidan && StartsWith(Oyogu.conjugatedType, GodanPrefix)
    ensures GodanStem(Oyogu.surface) == Oyogu.surface
  {
    OyoguIsFiveRowVerb();
    OyoguStem();
  }

  lemma OyoguIsFiveRowVerb()
    ensures PosOf(Oyogu) == Verb && !EndsWithSuruForm(Oyogu.surface)
    ensures Oyogu.conjugatedType != Ichidan && StartsWith(Oyogu.conjugatedType, GodanPrefix)
  {
    assert PosOf(Oyogu) == Verb;
    assert Oyogu.conjugatedType != Ichidan;
    OyoguIsNotSuru();
    OyoguIsFiveRow();
  }

  lemma OyoguIsNotSuru()
    ensures !EndsWithSuruForm(Oyogu.surface)
  {
  }

  lemma OyoguIsFiveRow()
    ensures StartsWith(Oyogu.conjugatedType, GodanPrefix)
  {
  }

  lemma OyoguStem()
    ensures GodanStem(Oyogu.surface) == Oyogu.surface
  {
    assert Oyogu.surface == "泳" + ['ぐ'];
    GodanStemOutsideRow("泳", 'ぐ');
  }

  /** A five-row verb on its own: its stem, then ない. */
  lemma {:induction false} LoneGodanVerb(m: Morpheme, negative: string)
    requires PosOf(m) == Verb && !EndsWithSuruForm(m.surface)
    requires m.conjugatedType != Ichidan && StartsWith(m.conjugatedType, GodanPrefix)
    requires GodanStem(m.surface) + "ない" == negative
    ensures Negated([m]) == negative
  {
    var ts := [m];
    assert Last(ts) == m && ts[..|ts| - 1] == [];
    GodanVerbRule(ts);
    var w := GodanStem(m.surface);
    assert Surfaces([]) + w == w;
  }

  lemma GodanExample()
    ensures Negated([Hashiru]) == "走らない"
  {
    HashiruIsGodan();
    LoneGodanVerb(Hashiru, "走らない");
  }

  /** ぐ is not in the five-row table, so ない is appended to the unchanged verb. */
  lemma GodanOutsideTableExample()
    ensures Negated([Oyogu]) == "泳ぐない"
  {
    OyoguIsGodan();
    LoneGodanVerb(Oyogu, "泳ぐない");
  }

  /** する itself goes through the す/ず rule and becomes すない. */
  lemma SuruExample(ts: seq<Morpheme>)
    requires ts == [Suru]
    ensures Negated(ts) == "すない"
  {
    SuruVerbRule(ts);
  }

  lemma PastIchidanExample(ts: seq<Morpheme>)
    requires ts == [Tabe, Ta]
    ensures Negated(ts) == "食べなかった"
  {
    PastAfterIchidanVerb(ts);
    assert ts[..0] == [];
  }

  /** A five-row verb in its past form followed by た: the negative stem of its basic form, then なかった. */
  lemma {:induction false} PastOfGodanVerb(m: Morpheme, t: Morpheme, negative: string)
    requires PosOf(t) == AuxiliaryVerb && t.surface == "た" && PosOf(m) == Verb
    requires m.surface != "て" && m.surface != "来" && !EndsWith(m.surface, "い")
    requires m.conjugatedType != Ichidan && StartsWith(m.conjugatedType, GodanPrefix)
    requires GodanStem(m.basicForm) + "なかった" == negative
    ensures Negated([m, t]) == negative
  {
    var w := GodanStem(m.basicForm);
    assert "なかっ" + "た" == "なかった";
    AppendAssociative(w, "なかっ", "た");
    var ts := [m, t];
    assert Last(ts) == t && Prev(ts) == m && ts[..|ts| - 2] == [];
    assert Surfaces(ts[..|ts| - 2]) + w == w;
    PastAfterGodanVerb(ts);
  }

  /** 走っ, the past form of 走る. */
  lemma HashitIsGodan()
    ensures PosOf(Hashit) == Verb && Hashit.surface != "て" && Hashit.surface != "来" && !EndsWith(Hashit.surface, "い")
    ensures Hashit.conjugatedType != Ichidan && StartsWith(Hashit.conjugatedType, GodanPrefix)
    ensures GodanStem(Hashit.basicForm) == "走ら"
  {
    HashiruIsGodan();
    assert Hashit.basicForm == Hashiru.surface;
  }

  lemma PastGodanExample()
    ensures Negated([Hashit, Ta]) == "走らなかった"
  {
    HashitIsGodan();
    assert PosOf(Ta) == AuxiliaryVerb;
    PastOfGodanVerb(Hashit, Ta, "走らなかった");
  }

  lemma DesireExample(ts: seq<Morpheme>)
    requires ts == [Tabe, Tai]
    ensures Negated(ts) == "食べたくない"
  {
    FixedAuxiliaryRule(ts);
  }

  lemma CopulaExample(ts: seq<Morpheme>)
    requires ts == [Kirei, Da]
    ensures Negated(ts) == "きれいじゃない"
  {
    CopulaRule(ts);
  }

  /** だ with nothing before it is not rewritten. */
  lemma LoneCopulaExample(ts: seq<Morpheme>)
    requires ts == [Da]
    ensures Negated(ts) == "だ"
  {
    CopulaRule(ts);
  }

  lemma NounExample(ts: seq<Morpheme>)
    requires ts == [Neko]
    ensures Negated(ts) == "猫じゃない"
  {
    NounRule(ts);
  }

  /** A tokenizer that always answers with the same morphemes. */
  function Always(ts: seq<Morpheme>): Tokenizer {
    _ => Tokens(ts)
  }

  /**
   * " ねむいガチャ " is trimmed and stripped of ガチャ; ねむい becomes ねむくない,
   * which is the answer when forced or drawn, and ねむい otherwise.
   */
  lemma ExecNegatesExample(input: string, t: Tokenizer, f: bool, draw: real)
    requires input == " ねむいガチャ " && t == Always([Nemui])
    ensures Exec(input, Some(t), f, draw) ==
      if f || PicksNegative(draw) then Success("ねむくない") else Success("ねむい")
  {
    NemuiGachaStripped(input);
    AdjectiveExample([Nemui]);
    assert NegativeOf("ねむい", t) == Success("ねむくない");
  }

  lemma NemuiGachaStripped(input: string)
    requires input == " ねむいガチャ "
    ensures RemoveGacha(Trim(input)) == "ねむい"
  {
    NemuiGachaTrimmed(input);
    NemuiStripped();
  }

  lemma NemuiGachaTrimmed(input: string)
    requires input == " ねむいガチャ "
    ensures Trim(input) == "ねむいガチャ"
  {
    assert input == " " + "ねむいガチャ" + " ";
    TrimSurrounded(" ", "ねむいガチャ", " ");
  }

  lemma NemuiStripped()
    ensures RemoveGacha("ねむいガチャ") == "ねむい"
  {
    assert "ねむいガチャ" == "ねむい" + Katakana;
    RemoveGachaStripsOne("ねむい", Katakana);
  }

  /** The trigger word alone is answered without asking the tokenizer. */
  lemma ExecTriggerAloneExample(input: string, t: Tokenizer, f: bool, draw: real)
    requires input == " ガチャ"
    ensures Exec(input, Some(t), f, draw) == Success(Katakana + JanaiSuffix)
  {
    TriggerTrimmed(input);
    ExecTriggerAlone(input, Katakana, t, t, f, f, draw, draw);
  }

  lemma TriggerTrimmed(input: string)
    requires input == " ガチャ"
    ensures Trim(input) == Katakana
  {
    assert input == " " + "ガチャ" + "";
    TrimSurrounded(" ", "ガチャ", "");
  }

  /** A symbol no rule rewrites: the conversion fails even when forced. */
  lemma ExecSymbolFails(input: string, t: Tokenizer, f: bool, draw: real)
    requires input == "！" && t == Always([Bang])
    ensures Exec(input, Some(t), f, draw) == Failure(ParseNegativeFailed(SameAsInput))
  {
    assert input == "" + "！" + "";
    TrimSurrounded("", "！", "");
    assert RemoveGacha(input) == input;
    assert PosOf(Bang) == OtherPos;
    assert Replacements([Bang]) == [] by {
      ReplacementsDispatch([Bang]);
    }
    assert Surfaces([Bang]) == Surfaces([]) + Bang.surface;
    ExecNoRuleFails(input, t, [Bang], f, draw);
  }

  lemma ExecBlankExample(input: string, t: Option<Tokenizer>, f: bool, draw: real)
    requires input == " \t　"
    ensures Exec(input, t, f, draw) == Failure(InvalidArguments(InputIsNull))
  {
    ExecBlankInput(input, t, f, draw);
  }
}
