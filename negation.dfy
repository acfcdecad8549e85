/**
 * The negation engine: looks at the last morpheme of a tokenized phrase (and,
 * for some auxiliary verbs, the one before it), records at most one
 * replacement of a morpheme's surface text, and rebuilds the phrase with that
 * replacement substituted.
 */
module Negation {
  import opened Wrappers
  import opened Text

  /** One unit of the tokenizer's output; only the fields the engine reads. */
  datatype Morpheme = Morpheme(
    surface: string,         // surface_form
    pos: string,             // pos
    posDetail1: string,      // pos_detail_1
    conjugatedType: string,  // conjugated_type
    basicForm: string        // basic_form
  )

  /** An entry of the `replaces` list: the morpheme at `index` is written as `word`. */
  datatype Replacement = Replacement(index: nat, word: string)

  /** What the tokenizer does with a string: it returns morphemes or throws. */
  datatype Tokenized = Tokens(morphemes: seq<Morpheme>) | Throws(message: string)

  type Tokenizer = string -> Tokenized

  /** Why the conversion step threw. */
  datatype Cause =
    | TokenizerThrew(message: string)
    | NoLastMorpheme  // `parsed[parsed.length - 1]` is undefined, so reading `last.pos` throws

  /** The parts of speech the engine distinguishes; every other tag is `OtherPos`. */
  datatype PartOfSpeech =
    | Adjective | Verb | AuxiliaryVerb | Particle | Noun | Adverb | PreNounAdjectival | OtherPos

  /** Classifies a part-of-speech tag as the tokenizer's dictionary spells it. */
  function PartOfSpeechOf(tag: string): (p: PartOfSpeech)
    ensures p == Adjective <==> tag == "形容詞"
    ensures p == Verb <==> tag == "動詞"
    ensures p == AuxiliaryVerb <==> tag == "助動詞"
    ensures p == Particle <==> tag == "助詞"
    ensures p == Noun <==> tag == "名詞"
    ensures p == Adverb <==> tag == "副詞"
    ensures p == PreNounAdjectival <==> tag == "連体詞"
  {
    if tag == "形容詞" then Adjective
    else if tag == "動詞" then Verb
    else if tag == "助動詞" then AuxiliaryVerb
    else if tag == "助詞" then Particle
    else if tag == "名詞" then Noun
    else if tag == "副詞" then Adverb
    else if tag == "連体詞" then PreNounAdjectival
    else OtherPos
  }

  function PosOf(m: Morpheme): PartOfSpeech {
    PartOfSpeechOf(m.pos)
  }

  const ProperNoun: string := "固有名詞"
  const General: string := "一般"
  const Pronoun: string := "代名詞"
  const SuruConnection: string := "サ変接続"
  const NounSuffix: string := "接尾"

  const Ichidan: string := "一段"
  const GodanPrefix: string := "五段"

  function Last(ts: seq<Morpheme>): Morpheme
    requires |ts| > 0
  {
    ts[|ts| - 1]
  }

  function Prev(ts: seq<Morpheme>): Morpheme
    requires |ts| >= 2
  {
    ts[|ts| - 2]
  }

  /** The concatenation of the surfaces, in order: the phrase as the tokenizer saw it. */
  function Surfaces(ts: seq<Morpheme>): string
  {
    if ts == [] then [] else Surfaces(ts[..|ts| - 1]) + ts[|ts| - 1].surface
  }

  // ---------------------------------------------------------------------------
  // Stem rewriting

  /** The negative-stem kana of each final kana of a five-row verb (う to わ, く to か, ...). */
  function GodanRow(c: char): (r: Option<char>)
    ensures r.Some? <==> c in "うくすつぬふむゆる"
    ensures r.Some? ==> r.value in "わかさたなはまやら"
  {
    match c
    case 'う' => Some('わ')
    case 'く' => Some('か')
    case 'す' => Some('さ')
    case 'つ' => Some('た')
    case 'ぬ' => Some('な')
    case 'ふ' => Some('は')
    case 'む' => Some('ま')
    case 'ゆ' => Some('や')
    case 'る' => Some('ら')
    case _ => None
  }

  /**
   * The nine `.replace(/x$/u, y)` calls applied to a five-row verb, in the
   * order the code chains them.
   */
  const GodanReplaces: seq<(char, char)> :=
    [('う', 'わ'), ('く', 'か'), ('す', 'さ'), ('つ', 'た'), ('ぬ', 'な'),
     ('ふ', 'は'), ('む', 'ま'), ('ゆ', 'や'), ('る', 'ら')]

  /** `s.replace(/a$/u, b)` for each pair `(a, b)` in turn, each call seeing the previous one's result. */
  function ReplaceEach(s: string, pairs: seq<(char, char)>): (r: string)
    ensures |r| == |s|
    ensures s != [] ==> r[..|s| - 1] == s[..|s| - 1]
    decreases |pairs|
  {
    if pairs == [] then s else ReplaceEach(ReplaceSuffix(s, [pairs[0].0], [pairs[0].1]), pairs[1..])
  }

  /** The chain touches at most the final kana. */
  function GodanChain(s: string): (r: string)
    ensures |r| == |s|
    ensures s != [] ==> r[..|s| - 1] == s[..|s| - 1]
  {
    ReplaceEach(s, GodanReplaces)
  }

  /** The table lookup the chain amounts to: the final kana, if it is in the table, is swapped. */
  function GodanStem(s: string): (r: string)
    ensures |r| == |s|
    ensures s != [] ==> r[..|s| - 1] == s[..|s| - 1]
    ensures s != [] && r != s ==> GodanRow(s[|s| - 1]) == Some(r[|s| - 1])
  {
    if s != [] && GodanRow(s[|s| - 1]).Some? then s[..|s| - 1] + [GodanRow(s[|s| - 1]).value] else s
  }

  /** A final kana in the table is swapped for its negative-stem kana. */
  lemma GodanStemOfRow(p: string, c: char)
    requires GodanRow(c).Some?
    ensures GodanStem(p + [c]) == p + [GodanRow(c).value]
  {
    assert (p + [c])[..|p|] == p;
  }

  /** A final kana outside the table is kept. */
  lemma GodanStemOutsideRow(p: string, c: char)
    requires GodanRow(c).None?
    ensures GodanStem(p + [c]) == p + [c]
  {
  }

  lemma ReplaceLastChar(s: string, a: char, b: char)
    ensures ReplaceSuffix(s, [a], [b]) == if s != [] && s[|s| - 1] == a then s[..|s| - 1] + [b] else s
  {
    if s != [] {
      assert EndsWith(s, [a]) <==> s[|s| - 1] == a by {
        assert s[|s| - 1..] == [s[|s| - 1]];
      }
    }
  }

  /** The replacement for `c` of the first pair that replaces `c`, if any. */
  function FirstReplacement(pairs: seq<(char, char)>, c: char): Option<char>
  {
    if pairs == [] then None
    else if pairs[0].0 == c then Some(pairs[0].1)
    else FirstReplacement(pairs[1..], c)
  }

  /** No call of the chain matches what that call or an earlier one put in. */
  ghost predicate NoLaterMatch(pairs: seq<(char, char)>) {
    forall i, j :: 0 <= i <= j < |pairs| ==> pairs[i].1 != pairs[j].0
  }

  lemma {:induction false} ReplaceEachMisses(s: string, pairs: seq<(char, char)>)
    requires s != [] && FirstReplacement(pairs, s[|s| - 1]) == None
    ensures ReplaceEach(s, pairs) == s
    decreases |pairs|
  {
    if pairs != [] {
      ReplaceLastChar(s, pairs[0].0, pairs[0].1);
      ReplaceEachMisses(s, pairs[1..]);
    }
  }

  /**
   * When no call matches what an earlier call put in, at most one call of the
   * chain fires, and the chain replaces the final character by its first
   * listed replacement.
   */
  lemma {:induction false} ReplaceEachIsLookup(s: string, pairs: seq<(char, char)>)
    requires NoLaterMatch(pairs)
    ensures ReplaceEach(s, pairs) ==
      if s != [] && FirstReplacement(pairs, s[|s| - 1]).Some?
      then s[..|s| - 1] + [FirstReplacement(pairs, s[|s| - 1]).value]
      else s
    decreases |pairs|
  {
    if pairs != [] {
      var a, b := pairs[0].0, pairs[0].1;
      ReplaceLastChar(s, a, b);
      if s != [] && s[|s| - 1] == a {
        var s1 := s[..|s| - 1] + [b];
        assert FirstReplacement(pairs[1..], b) == None by {
          FirstReplacementAbsent(pairs[1..], b);
        }
        ReplaceEachMisses(s1, pairs[1..]);
      } else {
        assert NoLaterMatch(pairs[1..]) by {
          forall i, j | 0 <= i <= j < |pairs[1..]| ensures pairs[1..][i].1 != pairs[1..][j].0 {
            assert pairs[1..][i] == pairs[i + 1] && pairs[1..][j] == pairs[j + 1];
          }
        }
        ReplaceEachIsLookup(s, pairs[1..]);
      }
    }
  }

  lemma {:induction false} FirstReplacementAbsent(pairs: seq<(char, char)>, c: char)
    requires forall j :: 0 <= j < |pairs| ==> pairs[j].0 != c
    ensures FirstReplacement(pairs, c) == None
    decreases |pairs|
  {
    if pairs != [] {
      FirstReplacementAbsent(pairs[1..], c);
    }
  }

  /**
   * None of the replacement kana is matched by a later call of the chain, so
   * at most one call fires: the chain is the lookup of the final kana in
   * `GodanRow`, and a final kana outside the table is kept.
   */
  lemma GodanChainIsRowLookup(s: string)
    ensures GodanChain(s) == GodanStem(s)
  {
    GodanReplacesNoLaterMatch();
    ReplaceEachIsLookup(s, GodanReplaces);
    if s != [] {
      GodanReplacesAreRow(s[|s| - 1]);
    }
  }

  lemma GodanReplacesNoLaterMatch()
    ensures NoLaterMatch(GodanReplaces)
  {
    var tos := {'わ', 'か', 'さ', 'た', 'な', 'は', 'ま', 'や', 'ら'};
    forall i | 0 <= i < |GodanReplaces| ensures GodanReplaces[i].1 in tos && GodanReplaces[i].0 !in tos { }
  }

  lemma GodanReplacesAreRow(c: char)
    ensures FirstReplacement(GodanReplaces, c) == GodanRow(c)
  {
    var p := GodanReplaces;
    FirstReplacementStep(p, 0, c);
    FirstReplacementStep(p, 1, c);
    FirstReplacementStep(p, 2, c);
    FirstReplacementStep(p, 3, c);
    assert p[0..] == p;
    GodanReplacesTail(c);
  }

  /** The last five calls of the chain, from ぬ on. */
  lemma GodanReplacesTail(c: char)
    ensures c !in {'う', 'く', 'す', 'つ'} ==> FirstReplacement(GodanReplaces[4..], c) == GodanRow(c)
  {
    var p := GodanReplaces;
    FirstReplacementStep(p, 4, c);
    FirstReplacementStep(p, 5, c);
    FirstReplacementStep(p, 6, c);
    FirstReplacementStep(p, 7, c);
    FirstReplacementStep(p, 8, c);
    assert p[9..] == [];
  }

  lemma FirstReplacementStep(pairs: seq<(char, char)>, k: nat, c: char)
    requires k < |pairs|
    ensures FirstReplacement(pairs[k..], c) ==
      if pairs[k].0 == c then Some(pairs[k].1) else FirstReplacement(pairs[k + 1..], c)
  {
    assert pairs[k..][1..] == pairs[k + 1..];
  }

  predicate EndsWithSuruForm(s: string) {
    EndsWith(s, "する") || EndsWith(s, "すれ") || EndsWith(s, "ずる") || EndsWith(s, "ずれ")
  }

  /** `.replace(/す(る|れ)$/u, 'すない').replace(/ず(る|れ)$/u, 'じない')`, one alternative at a time. */
  function SuruNegative(s: string): (r: string)
    ensures !EndsWithSuruForm(s) ==> r == s
  {
    var s1 := ReplaceSuffix(s, "する", "すない");
    var s2 := ReplaceSuffix(s1, "すれ", "すない");
    var s3 := ReplaceSuffix(s2, "ずる", "じない");
    ReplaceSuffix(s3, "ずれ", "じない")
  }

  lemma ReplaceLastPair(s: string, a: char, b: char, rep: string)
    ensures EndsWith(s, [a, b]) <==> |s| >= 2 && s[|s| - 2] == a && s[|s| - 1] == b
    ensures ReplaceSuffix(s, [a, b], rep) ==
      if |s| >= 2 && s[|s| - 2] == a && s[|s| - 1] == b then s[..|s| - 2] + rep else s
  {
    if |s| >= 2 {
      assert s[|s| - 2..] == [s[|s| - 2], s[|s| - 1]];
    }
  }

  /**
   * The last two kana of a す/ず form become すない or じない (so する itself
   * becomes すない); the second replacement never undoes the first.
   */
  lemma SuruNegativeRule(s: string)
    ensures EndsWithSuruForm(s) <==> |s| >= 2 && s[|s| - 2] in {'す', 'ず'} && s[|s| - 1] in {'る', 'れ'}
    ensures EndsWithSuruForm(s) ==>
      SuruNegative(s) == s[..|s| - 2] + (if s[|s| - 2] == 'す' then "すない" else "じない")
    ensures !EndsWithSuruForm(s) ==> SuruNegative(s) == s
  {
    ReplaceLastPair(s, 'す', 'る', "すない");
    ReplaceLastPair(s, 'す', 'れ', "すない");
    ReplaceLastPair(s, 'ず', 'る', "じない");
    ReplaceLastPair(s, 'ず', 'れ', "じない");
    var s1 := ReplaceSuffix(s, "する", "すない");
    var s2 := ReplaceSuffix(s1, "すれ", "すない");
    var s3 := ReplaceSuffix(s2, "ずる", "じない");
    if EndsWith(s, "する") {
      EndsInI(s[..|s| - 2], "すない");
      PassesSuruForms(s1);
    } else if EndsWith(s, "すれ") {
      EndsInI(s[..|s| - 2], "すない");
      PassesSuruForms(s2);
    } else if EndsWith(s, "ずる") {
      EndsInI(s[..|s| - 2], "じない");
      PassesSuruForms(s3);
    }
  }

  lemma EndsInI(p: string, rep: string)
    requires rep == "すない" || rep == "じない"
    ensures (p + rep)[|p + rep| - 1] == 'い'
  {
  }

  /** Once a す/ず form has become …ない, none of the four patterns matches any more. */
  lemma PassesSuruForms(t: string)
    requires t != [] && t[|t| - 1] == 'い'
    ensures ReplaceSuffix(t, "すれ", "すない") == t
    ensures ReplaceSuffix(t, "ずる", "じない") == t
    ensures ReplaceSuffix(t, "ずれ", "じない") == t
  {
    if EndsWith(t, "すれ") { EndsWithLast(t, "すれ"); }
    if EndsWith(t, "ずる") { EndsWithLast(t, "ずる"); }
    if EndsWith(t, "ずれ") { EndsWithLast(t, "ずれ"); }
  }

  // ---------------------------------------------------------------------------
  // The decision table

  /** At most one entry, and it rewrites the last morpheme. */
  predicate RewritesLastOnly(ts: seq<Morpheme>, r: seq<Replacement>)
    requires |ts| > 0
  {
    |r| <= 1 && (r != [] ==> r[0].index == |ts| - 1)
  }

  predicate PrecededByAdverbOrNoun(ts: seq<Morpheme>)
    requires |ts| >= 2
  {
    PosOf(Prev(ts)) == Adverb || PosOf(Prev(ts)) == Noun
  }

  /** The last morpheme is the past-tense auxiliary た. */
  predicate EndsInPastAuxiliary(ts: seq<Morpheme>)
    requires |ts| > 0
  {
    PosOf(Last(ts)) == AuxiliaryVerb && Last(ts).surface == "た"
  }

  /** An entry rewriting the last morpheme. */
  function RewriteLast(ts: seq<Morpheme>, w: string): seq<Replacement>
    requires |ts| > 0
  {
    [Replacement(|ts| - 1, w)]
  }

  function AdjectiveReplacements(ts: seq<Morpheme>): (r: seq<Replacement>)
    requires |ts| > 0
    ensures RewritesLastOnly(ts, r)
  {
    var s := Last(ts).surface;
    if EndsWith(s, "い") then RewriteLast(ts, ReplaceSuffix(s, "い", "くない")) else []
  }

  function VerbReplacements(ts: seq<Morpheme>): (r: seq<Replacement>)
    requires |ts| > 0
    ensures RewritesLastOnly(ts, r)
  {
    var last := Last(ts);
    if EndsWithSuruForm(last.surface) then
      RewriteLast(ts, SuruNegative(last.surface))
    else if last.conjugatedType == Ichidan then
      RewriteLast(ts, ReplaceSuffix(last.surface, "る", "ない"))
    else if StartsWith(last.conjugatedType, GodanPrefix) then
      RewriteLast(ts, GodanChain(last.surface) + "ない")
    else []
  }

  /** A past-tense た after at least one morpheme: decided by the morpheme before it. */
  function PastLookback(ts: seq<Morpheme>): (r: seq<Replacement>)
    requires |ts| >= 2
    ensures |r| <= 1 && (r != [] ==> r[0].index == |ts| - 1 || r[0].index == |ts| - 2)
  {
    var prev := Prev(ts);
    if PosOf(prev) == Verb && (prev.surface == "て" || prev.surface == "い") then
      RewriteLast(ts, "なかった")
    else if prev.surface == "来" then
      RewriteLast(ts, "ない")
    else if EndsWith(prev.surface, "い") then
      RewriteLast(ts, "てない")
    else if PosOf(prev) == Adjective then
      PastAdjectiveReplacements(ts)
    else if PosOf(prev) == Verb then
      PastVerbReplacements(ts)
    else []
  }

  /** An adjective before た is rewritten from its basic form; the trailing た is kept. */
  function PastAdjectiveReplacements(ts: seq<Morpheme>): (r: seq<Replacement>)
    requires |ts| >= 2
    ensures |r| <= 1 && (r != [] ==> r[0].index == |ts| - 2)
  {
    var b := Prev(ts).basicForm;
    if EndsWith(b, "い") then [Replacement(|ts| - 2, ReplaceSuffix(b, "い", "くなかっ"))] else []
  }

  /** A verb before た is rewritten from its basic form; the trailing た is kept. */
  function PastVerbReplacements(ts: seq<Morpheme>): (r: seq<Replacement>)
    requires |ts| >= 2
    ensures |r| <= 1 && (r != [] ==> r[0].index == |ts| - 2)
  {
    var prev := Prev(ts);
    if prev.conjugatedType == Ichidan then
      [Replacement(|ts| - 2, ReplaceSuffix(prev.basicForm, "る", "なかっ"))]
    else if StartsWith(prev.conjugatedType, GodanPrefix) then
      [Replacement(|ts| - 2, GodanChain(prev.basicForm) + "なかっ")]
    else []
  }

  /** だ, or な, after an adverb or a noun: じゃない. */
  function CopulaReplacements(ts: seq<Morpheme>): (r: seq<Replacement>)
    requires |ts| > 0
    ensures RewritesLastOnly(ts, r)
  {
    if |ts| >= 2 && PrecededByAdverbOrNoun(ts) then RewriteLast(ts, "じゃない") else []
  }

  function AuxiliaryReplacements(ts: seq<Morpheme>): (r: seq<Replacement>)
    requires |ts| > 0
    ensures |r| <= 1
    ensures r != [] ==> r[0].index == |ts| - 1 || (r[0].index == |ts| - 2 && |ts| >= 2 && Last(ts).surface == "た")
  {
    var surface := Last(ts).surface;
    if surface == "た" && |ts| >= 2 then
      PastLookback(ts)
    else if surface == "だ" && |ts| >= 2 then
      CopulaReplacements(ts)
    else if surface == "な" && |ts| >= 2 then
      CopulaReplacements(ts)
    else if surface == "たい" then
      RewriteLast(ts, "たくない")
    else if surface == "ない" then
      RewriteLast(ts, "なくない")
    else if surface == "ます" then
      RewriteLast(ts, "ません")
    else []
  }

  function ParticleReplacements(ts: seq<Morpheme>): (r: seq<Replacement>)
    requires |ts| > 0
    ensures RewritesLastOnly(ts, r)
  {
    var surface := Last(ts).surface;
    if surface == "て" then
      RewriteLast(ts, "ない")
    else if surface == "な" && |ts| >= 2 then
      CopulaReplacements(ts)
    else []
  }

  function NounReplacements(ts: seq<Morpheme>): (r: seq<Replacement>)
    requires |ts| > 0
    ensures RewritesLastOnly(ts, r)
  {
    var last := Last(ts);
    var d := last.posDetail1;
    if d == ProperNoun || d == General || d == Pronoun then
      RewriteLast(ts, last.surface + "じゃない")
    else if d == SuruConnection || d == NounSuffix then
      RewriteLast(ts, last.surface + "しない")
    else []
  }

  function PreNounAdjectivalReplacements(ts: seq<Morpheme>): (r: seq<Replacement>)
    requires |ts| > 0
    ensures RewritesLastOnly(ts, r)
  {
    var s := Last(ts).surface;
    if EndsWith(s, "な") then RewriteLast(ts, s + "わけない") else []
  }

  /**
   * The `replaces` list that `parseNegative` builds before assembling,
   * chosen by the part of speech of the last morpheme. It holds at most one
   * entry; that entry rewrites the last morpheme, or the one before it only
   * when the phrase ends in the past-tense auxiliary た.
   */
  function Replacements(ts: seq<Morpheme>): (r: seq<Replacement>)
    requires |ts| > 0
    ensures |r| <= 1
    ensures r != [] ==>
      || r[0].index == |ts| - 1
      || (r[0].index == |ts| - 2 && |ts| >= 2 && EndsInPastAuxiliary(ts))
  {
    match PosOf(Last(ts))
    case Adjective => AdjectiveReplacements(ts)
    case Verb => VerbReplacements(ts)
    case AuxiliaryVerb => AuxiliaryReplacements(ts)
    case Particle => ParticleReplacements(ts)
    case Noun => NounReplacements(ts)
    case Adverb => RewriteLast(ts, Last(ts).surface + "じゃない")
    case PreNounAdjectival => PreNounAdjectivalReplacements(ts)
    case OtherPos => []
  }

  /**
   * The first half of `parseNegative`: an empty `replaces` list, and at most
   * one `push` chosen by the if/else-if chain on the last morpheme.
   */
  method CollectReplacements(parsed: seq<Morpheme>) returns (entries: seq<Replacement>)
    requires |parsed| > 0
    ensures entries == Replacements(parsed)
  {
    entries := [];
    var last := parsed[|parsed| - 1];
    ReplacementsDispatch(parsed);
    var pos := PartOfSpeechOf(last.pos);
    if pos == Adjective {
      entries := CollectAdjective(parsed);
    } else if pos == Verb {
      entries := CollectVerb(parsed);
    } else if pos == AuxiliaryVerb {
      entries := CollectAuxiliary(parsed);
    } else if pos == Particle {
      entries := CollectParticle(parsed);
    } else if pos == Noun {
      entries := CollectNoun(parsed);
    } else if pos == Adverb {
      entries := entries + [Replacement(|parsed| - 1, last.surface + "じゃない")];
    } else if pos == PreNounAdjectival {
      entries := CollectPreNounAdjectival(parsed);
    }
  }

  /** The 形容詞 branch of `CollectReplacements`. */
  method CollectAdjective(parsed: seq<Morpheme>) returns (entries: seq<Replacement>)
    requires |parsed| > 0
    ensures entries == AdjectiveReplacements(parsed)
  {
    entries := [];
    var lastIndex := |parsed| - 1;
    var last := parsed[lastIndex];
    if EndsWith(last.surface, "い") {
      entries := entries + [Replacement(lastIndex, ReplaceSuffix(last.surface, "い", "くない"))];
    }
  }

  /** The 動詞 branch of `CollectReplacements`: す/ず forms, then 一段, then 五段. */
  method CollectVerb(parsed: seq<Morpheme>) returns (entries: seq<Replacement>)
    requires |parsed| > 0
    ensures entries == VerbReplacements(parsed)
  {
    entries := [];
    var lastIndex := |parsed| - 1;
    var last := parsed[lastIndex];
    if EndsWithSuruForm(last.surface) {
      entries := entries + [Replacement(lastIndex, SuruNegative(last.surface))];
    } else if last.conjugatedType == Ichidan {
      entries := entries + [Replacement(lastIndex, ReplaceSuffix(last.surface, "る", "ない"))];
    } else if StartsWith(last.conjugatedType, GodanPrefix) {
      entries := entries + [Replacement(lastIndex, GodanChain(last.surface) + "ない")];
    }
  }

  /** The 助詞 branch of `CollectReplacements`. */
  method CollectParticle(parsed: seq<Morpheme>) returns (entries: seq<Replacement>)
    requires |parsed| > 0
    ensures entries == ParticleReplacements(parsed)
  {
    entries := [];
    var lastIndex := |parsed| - 1;
    var last := parsed[lastIndex];
    if last.surface == "て" {
      entries := entries + [Replacement(lastIndex, "ない")];
    } else if last.surface == "な" && |parsed| >= 2 {
      var prev := parsed[|parsed| - 2];
      if PartOfSpeechOf(prev.pos) == Adverb || PartOfSpeechOf(prev.pos) == Noun {
        entries := entries + [Replacement(lastIndex, "じゃない")];
      }
    }
  }

  /** The 名詞 branch of `CollectReplacements`, decided by the first detail tag. */
  method CollectNoun(parsed: seq<Morpheme>) returns (entries: seq<Replacement>)
    requires |parsed| > 0
    ensures entries == NounReplacements(parsed)
  {
    entries := [];
    var lastIndex := |parsed| - 1;
    var last := parsed[lastIndex];
    var d := last.posDetail1;
    if d == ProperNoun || d == General || d == Pronoun {
      entries := entries + [Replacement(lastIndex, last.surface + "じゃない")];
    } else if d == SuruConnection || d == NounSuffix {
      entries := entries + [Replacement(lastIndex, last.surface + "しない")];
    }
  }

  /** The 連体詞 branch of `CollectReplacements`. */
  method CollectPreNounAdjectival(parsed: seq<Morpheme>) returns (entries: seq<Replacement>)
    requires |parsed| > 0
    ensures entries == PreNounAdjectivalReplacements(parsed)
  {
    entries := [];
    var lastIndex := |parsed| - 1;
    var last := parsed[lastIndex];
    if EndsWith(last.surface, "な") {
      entries := entries + [Replacement(lastIndex, last.surface + "わけない")];
    }
  }

  /** The 助動詞 branch of `CollectReplacements`: た, だ, な, then the fixed forms. */
  method CollectAuxiliary(parsed: seq<Morpheme>) returns (entries: seq<Replacement>)
    requires |parsed| > 0
    ensures entries == AuxiliaryReplacements(parsed)
  {
    entries := [];
    var lastIndex := |parsed| - 1;
    var last := parsed[lastIndex];
    if last.surface == "た" && |parsed| >= 2 {
      entries := CollectPastLookback(parsed);
    } else if last.surface == "だ" && |parsed| >= 2 {
      var prev := parsed[|parsed| - 2];
      if PartOfSpeechOf(prev.pos) == Adverb || PartOfSpeechOf(prev.pos) == Noun {
        entries := entries + [Replacement(lastIndex, "じゃない")];
      }
    } else if last.surface == "な" && |parsed| >= 2 {
      var prev := parsed[|parsed| - 2];
      if PartOfSpeechOf(prev.pos) == Adverb || PartOfSpeechOf(prev.pos) == Noun {
        entries := entries + [Replacement(lastIndex, "じゃない")];
      }
    } else if last.surface == "たい" {
      entries := entries + [Replacement(lastIndex, "たくない")];
    } else if last.surface == "ない" {
      entries := entries + [Replacement(lastIndex, "なくない")];
    } else if last.surface == "ます" {
      entries := entries + [Replacement(lastIndex, "ません")];
    }
  }

  /** The た branch of `CollectReplacements`: the first matching case of the lookback pushes its entry. */
  method CollectPastLookback(parsed: seq<Morpheme>) returns (entries: seq<Replacement>)
    requires |parsed| >= 2
    ensures entries == PastLookback(parsed)
  {
    entries := [];
    var lastIndex, prevIndex := |parsed| - 1, |parsed| - 2;
    var prev := parsed[prevIndex];
    var pos := PartOfSpeechOf(prev.pos);
    if pos == Verb && (prev.surface == "て" || prev.surface == "い") {
      entries := entries + [Replacement(lastIndex, "なかった")];
    } else if prev.surface == "来" {
      entries := entries + [Replacement(lastIndex, "ない")];
    } else if EndsWith(prev.surface, "い") {
      entries := entries + [Replacement(lastIndex, "てない")];
    } else if pos == Adjective {
      if EndsWith(prev.basicForm, "い") {
        entries := entries + [Replacement(prevIndex, ReplaceSuffix(prev.basicForm, "い", "くなかっ"))];
      }
    } else if pos == Verb {
      if prev.conjugatedType == Ichidan {
        entries := entries + [Replacement(prevIndex, ReplaceSuffix(prev.basicForm, "る", "なかっ"))];
      } else if StartsWith(prev.conjugatedType, GodanPrefix) {
        entries := entries + [Replacement(prevIndex, GodanChain(prev.basicForm) + "なかっ")];
      }
    }
  }

  /** Which row of the table applies is decided by the last morpheme's part of speech alone. */
  lemma {:induction false} ReplacementsDispatch(ts: seq<Morpheme>)
    requires |ts| > 0
    ensures PosOf(Last(ts)) == Adjective ==> Replacements(ts) == AdjectiveReplacements(ts)
    ensures PosOf(Last(ts)) == Verb ==> Replacements(ts) == VerbReplacements(ts)
    ensures PosOf(Last(ts)) == AuxiliaryVerb ==> Replacements(ts) == AuxiliaryReplacements(ts)
    ensures PosOf(Last(ts)) == Particle ==> Replacements(ts) == ParticleReplacements(ts)
    ensures PosOf(Last(ts)) == Noun ==> Replacements(ts) == NounReplacements(ts)
    ensures PosOf(Last(ts)) == Adverb ==> Replacements(ts) == RewriteLast(ts, Last(ts).surface + "じゃない")
    ensures PosOf(Last(ts)) == PreNounAdjectival ==> Replacements(ts) == PreNounAdjectivalReplacements(ts)
    ensures PosOf(Last(ts)) == OtherPos ==> Replacements(ts) == []
  {
  }

  /** A phrase ending in the past-tense た, with something before it, is decided by the lookback. */
  lemma {:induction false} PastLookbackDispatch(ts: seq<Morpheme>)
    requires |ts| >= 2 && EndsInPastAuxiliary(ts)
    ensures Replacements(ts) == PastLookback(ts)
  {
    ReplacementsDispatch(ts);
  }

  /** The lookback reaches its verb branch once the first three branches are excluded. */
  lemma {:induction false} PastVerbDispatch(ts: seq<Morpheme>)
    requires |ts| >= 2 && EndsInPastAuxiliary(ts) && PosOf(Prev(ts)) == Verb
    requires Prev(ts).surface != "て" && Prev(ts).surface != "来" && !EndsWith(Prev(ts).surface, "い")
    ensures Replacements(ts) == PastVerbReplacements(ts)
  {
    PastLookbackDispatch(ts);
    assert Prev(ts).surface != "い" by {
      assert EndsWith("い", "い");
    }
  }

  // ---------------------------------------------------------------------------
  // Assembly: `parsed.reduce(...)` with `replaces.find(...)`

  /** `replaces.find(replace => replace.index === index)`: the first entry for that index. */
  function Find(reps: seq<Replacement>, index: nat): (r: Option<string>)
    ensures r.Some? ==> Replacement(index, r.value) in reps
  {
    if reps == [] then None
    else if reps[0].index == index then Some(reps[0].word)
    else Find(reps[1..], index)
  }

  /** `find` answers the first entry for the index, and nothing exactly when there is none. */
  lemma {:induction false} FindFirst(reps: seq<Replacement>, index: nat)
    ensures Find(reps, index).None? <==> forall i :: 0 <= i < |reps| ==> reps[i].index != index
    ensures Find(reps, index).Some? ==>
      exists i :: 0 <= i < |reps| && reps[i] == Replacement(index, Find(reps, index).value) &&
                  forall j :: 0 <= j < i ==> reps[j].index != index
  {
    if reps != [] && reps[0].index != index {
      FindFirst(reps[1..], index);
      if Find(reps, index).Some? {
        var i :| 0 <= i < |reps[1..]| && reps[1..][i] == Replacement(index, Find(reps, index).value) &&
                 forall j :: 0 <= j < i ==> reps[1..][j].index != index;
        assert reps[i + 1] == reps[1..][i];
        assert forall j :: 0 <= j < i + 1 ==> reps[j].index != index by {
          forall j | 0 <= j < i + 1 ensures reps[j].index != index {
            if j > 0 { assert reps[j] == reps[1..][j - 1]; }
          }
        }
      } else {
        assert forall i :: 0 <= i < |reps| ==> reps[i].index != index by {
          forall i | 0 <= i < |reps| ensures reps[i].index != index {
            if i > 0 { assert reps[i] == reps[1..][i - 1]; }
          }
        }
      }
    } else if reps != [] {
      assert reps[0] == Replacement(index, Find(reps, index).value);
    }
  }

  /** What the reducer appends for position `i`. */
  function Piece(ts: seq<Morpheme>, reps: seq<Replacement>, i: nat): string
    requires i < |ts|
  {
    match Find(reps, i)
    case Some(w) => w
    case None => ts[i].surface
  }

  /** The reducer's accumulator after the first `n` morphemes. */
  function AssembleUpTo(ts: seq<Morpheme>, reps: seq<Replacement>, n: nat): string
    requires n <= |ts|
  {
    if n == 0 then [] else AssembleUpTo(ts, reps, n - 1) + Piece(ts, reps, n - 1)
  }

  function Assemble(ts: seq<Morpheme>, reps: seq<Replacement>): string
  {
    AssembleUpTo(ts, reps, |ts|)
  }

  /** The result of `parseNegative` on a tokenized phrase. */
  function Negated(ts: seq<Morpheme>): string
    requires |ts| > 0
  {
    Assemble(ts, Replacements(ts))
  }

  /** `parseNegative(input, tokenizer)`, with what it throws as a `Failure`. */
  function NegativeOf(input: string, tokenize: Tokenizer): (r: Result<string, Cause>)
    ensures r.Failure? <==> tokenize(input).Throws? || tokenize(input) == Tokens([])
    ensures r == Failure(NoLastMorpheme) <==> tokenize(input) == Tokens([])
    ensures tokenize(input).Throws? ==> r == Failure(TokenizerThrew(tokenize(input).message))
    ensures r.Success? ==> r.value == Negated(tokenize(input).morphemes)
  {
    match tokenize(input)
    case Throws(m) => Failure(TokenizerThrew(m))
    case Tokens(ts) => if |ts| == 0 then Failure(NoLastMorpheme) else Success(Negated(ts))
  }

  /**
   * `parseNegative`: tokenizes, computes the replacement list, then folds the
   * morphemes into the result.
   */
  method ParseNegative(input: string, tokenize: Tokenizer) returns (r: Result<string, Cause>)
    ensures r == NegativeOf(input, tokenize)
  {
    var tokenized := tokenize(input);
    if tokenized.Throws? {
      return Failure(TokenizerThrew(tokenized.message));
    }
    var parsed := tokenized.morphemes;
    if |parsed| == 0 {
      return Failure(NoLastMorpheme);
    }
    var replacements := CollectReplacements(parsed);
    var result := Reduce(parsed, replacements);
    return Success(result);
  }

  /**
   * `parsed.reduce(...)`: folds the morphemes left to right, appending each
   * one's replacement word if the list has one for its position and its
   * surface otherwise.
   */
  method Reduce(parsed: seq<Morpheme>, replacements: seq<Replacement>) returns (result: string)
    ensures result == Assemble(parsed, replacements)
  {
    result := [];
    for index := 0 to |parsed|
      invariant result == AssembleUpTo(parsed, replacements, index)
    {
      var found := Find(replacements, index);
      result := result + (if found.Some? then found.value else parsed[index].surface);
    }
  }

  // ---------------------------------------------------------------------------
  // What assembly does with the positions

  /** Positions with no entry in the list are copied verbatim. */
  lemma {:induction false} AssembleUpToUnreplaced(ts: seq<Morpheme>, reps: seq<Replacement>, n: nat)
    requires n <= |ts|
    requires forall j :: 0 <= j < n ==> Find(reps, j) == None
    ensures AssembleUpTo(ts, reps, n) == Surfaces(ts[..n])
  {
    if n > 0 {
      AssembleUpToUnreplaced(ts, reps, n - 1);
      assert ts[..n][..n - 1] == ts[..n - 1];
    }
  }

  /** With no replacement, the phrase is rebuilt exactly as tokenized. */
  lemma {:induction false} AssembleNothing(ts: seq<Morpheme>)
    ensures Assemble(ts, []) == Surfaces(ts)
  {
    AssembleUpToUnreplaced(ts, [], |ts|);
    assert ts[..|ts|] == ts;
  }

  lemma FindOne(k: nat, w: string, i: nat)
    ensures Find([Replacement(k, w)], i) == if i == k then Some(w) else None
  {
    assert [Replacement(k, w)][1..] == [];
  }

  lemma {:induction false} AssembleUpToOne(ts: seq<Morpheme>, k: nat, w: string, n: nat)
    requires k < n <= |ts|
    ensures AssembleUpTo(ts, [Replacement(k, w)], n) == Surfaces(ts[..k]) + w + Surfaces(ts[k + 1..n])
    decreases n
  {
    if n == k + 1 {
      AssembleUpToOneAt(ts, k, w, n);
    } else {
      AssembleUpToOne(ts, k, w, n - 1);
      AssembleUpToOneAfter(ts, k, w, n);
    }
  }

  /** Up to and including the rewritten position: the surfaces before it, then the word. */
  lemma AssembleUpToOneAt(ts: seq<Morpheme>, k: nat, w: string, n: nat)
    requires n == k + 1 <= |ts|
    ensures AssembleUpTo(ts, [Replacement(k, w)], n) == Surfaces(ts[..k]) + w + Surfaces(ts[k + 1..n])
  {
    var reps := [Replacement(k, w)];
    forall j | 0 <= j < k
      ensures Find(reps, j) == None
    {
      FindOne(k, w, j);
    }
    AssembleUpToUnreplaced(ts, reps, k);
    FindOne(k, w, k);
    assert Surfaces(ts[k + 1..n]) == [] by {
      assert ts[k + 1..n] == [];
    }
  }

  /** Past the rewritten position, each step appends the next surface. */
  lemma AssembleUpToOneAfter(ts: seq<Morpheme>, k: nat, w: string, n: nat)
    requires k + 1 < n <= |ts|
    requires AssembleUpTo(ts, [Replacement(k, w)], n - 1) == Surfaces(ts[..k]) + w + Surfaces(ts[k + 1..n - 1])
    ensures AssembleUpTo(ts, [Replacement(k, w)], n) == Surfaces(ts[..k]) + w + Surfaces(ts[k + 1..n])
  {
    FindOne(k, w, n - 1);
    SurfacesOfSliceSnoc(ts, k + 1, n);
    AppendAssociative(Surfaces(ts[..k]) + w, Surfaces(ts[k + 1..n - 1]), ts[n - 1].surface);
  }

  lemma SurfacesOfSliceSnoc(ts: seq<Morpheme>, a: nat, b: nat)
    requires a < b <= |ts|
    ensures Surfaces(ts[a..b]) == Surfaces(ts[a..b - 1]) + ts[b - 1].surface
  {
    var t := ts[a..b];
    assert t[..|t| - 1] == ts[a..b - 1];
    assert t[|t| - 1] == ts[b - 1];
  }

  /** One replacement rewrites its own position and copies every other surface in order. */
  lemma {:induction false} AssembleOne(ts: seq<Morpheme>, k: nat, w: string)
    requires k < |ts|
    ensures Assemble(ts, [Replacement(k, w)]) == Surfaces(ts[..k]) + w + Surfaces(ts[k + 1..])
  {
    AssembleUpToOne(ts, k, w, |ts|);
    assert ts[k + 1..|ts|] == ts[k + 1..];
  }

  /**
   * The shape of every result: the plain concatenation when no rule applies,
   * and otherwise the concatenation with exactly one position rewritten.
   */
  lemma {:induction false} NegatedShape(ts: seq<Morpheme>)
    requires |ts| > 0
    ensures Replacements(ts) == [] ==> Negated(ts) == Surfaces(ts)
    ensures Replacements(ts) != [] ==>
      var k, w := Replacements(ts)[0].index, Replacements(ts)[0].word;
      k < |ts| && Negated(ts) == Surfaces(ts[..k]) + w + Surfaces(ts[k + 1..])
  {
    var reps := Replacements(ts);
    if reps == [] {
      AssembleNothing(ts);
    } else {
      assert reps == [Replacement(reps[0].index, reps[0].word)];
      AssembleOne(ts, reps[0].index, reps[0].word);
    }
  }

  lemma {:induction false} NegatedRewritesLast(ts: seq<Morpheme>, w: string)
    requires |ts| > 0 && Replacements(ts) == [Replacement(|ts| - 1, w)]
    ensures Negated(ts) == Surfaces(ts[..|ts| - 1]) + w
  {
    AssembleOne(ts, |ts| - 1, w);
    assert ts[|ts|..] == [];
  }

  lemma {:induction false} NegatedRewritesPrev(ts: seq<Morpheme>, w: string)
    requires |ts| >= 2 && Replacements(ts) == [Replacement(|ts| - 2, w)]
    ensures Negated(ts) == Surfaces(ts[..|ts| - 2]) + w + Last(ts).surface
  {
    AssembleOne(ts, |ts| - 2, w);
    assert ts[|ts| - 1..] == [Last(ts)];
    assert Surfaces([Last(ts)]) == Surfaces([]) + Last(ts).surface;
  }

  lemma {:induction false} SurfacesSnoc(ts: seq<Morpheme>)
    requires |ts| > 0
    ensures Surfaces(ts) == Surfaces(ts[..|ts| - 1]) + Last(ts).surface
  {
  }

  /** An entry that keeps the last surface and appends to it: the whole phrase gets the suffix. */
  lemma {:induction false} NegatedAppends(ts: seq<Morpheme>, suffix: string)
    requires |ts| > 0 && Replacements(ts) == RewriteLast(ts, Last(ts).surface + suffix)
    ensures Negated(ts) == Surfaces(ts) + suffix
  {
    SurfacesSnocAppend(ts, suffix);
    NegatedRewritesLast(ts, Last(ts).surface + suffix);
  }

  lemma {:induction false} SurfacesSnocAppend(ts: seq<Morpheme>, suffix: string)
    requires |ts| > 0
    ensures Surfaces(ts[..|ts| - 1]) + (Last(ts).surface + suffix) == Surfaces(ts) + suffix
  {
  }

  lemma {:induction false} NegatedUnchanged(ts: seq<Morpheme>)
    requires |ts| > 0 && Replacements(ts) == []
    ensures Negated(ts) == Surfaces(ts)
  {
    AssembleNothing(ts);
  }
}
