# nemui-gacha negation library, modelled in Dafny

nemui-gacha ("sleepy gacha") takes a short Japanese phrase, usually followed by
the trigger word ガチャ, and answers with the phrase either as it is or turned
into its negative form (ねむい → ねむくない). The library in `src/lib/index.ts`
has three parts, and the model follows them:

- **`removeGacha`** (module `Gacha`) strips one trailing trigger word. The
  trigger is spelt ガチャ, ｶﾞﾁｬ (half-width) or がちゃ.
- **`parseNegative`** (module `Negation`, rules in `NegationRules`) takes the
  tokenizer's morphemes. It looks at the last morpheme. For the past-tense
  auxiliary た, and for だ/な, it also looks at the one before it. It records at most one replacement
  `{index, word}` and then folds the morphemes back into a string, with that
  one position substituted. It is imperative in the source:
  - the if/else-if chain that pushes into `replaces` is the method
    `CollectReplacements`. Each part-of-speech branch is a method of its own
    (`CollectAdjective`, `CollectVerb`, `CollectAuxiliary`, `CollectParticle`,
    `CollectNoun`, `CollectPreNounAdjectival`), and the た branch inside the
    助動詞 one is `CollectPastLookback`;
  - the `reduce` fold is the method `Reduce`, which has a loop invariant;
  - both are proved equal to pure functions (`Replacements`, `Assemble`), and
    the rule lemmas are proved about those.
- **`exec`** (module `NemuiGacha`) validates, trims, strips the trigger word,
  converts, and then returns the negative form or the stripped input. It is
  straight-line code that returns early or throws, so it is a pure function
  `Exec`. It returns `Result<string, Error>`, where `Error` is the closed
  error hierarchy: the three error classes `exec` throws. Their base class
  `NemuiGachaError` is never thrown itself.

The model makes these choices:

- The tokenizer is a function parameter of type `string -> Tokenized`. It
  returns morphemes or throws.
- `Math.random()` is a `real` parameter `draw`. Only `draw >= 0.5` matters.
- A missing tokenizer is `None`.
- Each `.replace(/x$/u, y)` with a literal pattern is `Text.ReplaceSuffix`, and
  chained `.replace` calls are successive applications of it.
- `trim()` uses ECMAScript's full WhiteSpace and LineTerminator set,
  including U+3000.
- Part-of-speech tags are classified into a `PartOfSpeech` datatype by
  `PartOfSpeechOf`. It matches exactly the tag strings the code compares
  against.

Four behaviours of the code worth stating:

- A conversion that changes nothing is detected by comparing against the
  trigger-stripped input, not the trimmed input (index.ts:36).
- The non-negated answer is the trigger-stripped input (index.ts:49).
- The trigger-alone answer is the *trimmed* input plus じゃない (index.ts:19, 24).
- A tokenizer that returns no morphemes is not excluded. Reading `last.pos` on
  `undefined` throws, so `exec` reports `ParseNegativeRuntime` with cause
  `NoLastMorpheme` (index.ts:78-80, 29-34).

Two more behaviours of the code are kept as they are:

- The identical-output test also classifies a rule that fires without changing
  anything as `ParseNegativeFailed`. An example is a single-row verb whose
  surface does not end in る.
- Strange outputs are reproduced exactly: する becomes すない, and 泳ぐ becomes
  泳ぐない because ぐ is not in the five-row table.

## Verifying

All seven files are verified together:

    dafny verify --resource-limit 2000000 --verification-time-limit 0 --warn-contradictory-assumptions wrappers.dfy text.dfy gacha.dfy negation.dfy rules.dfy nemui_gacha.dfy scenarios.dfy

## Model

| member | source | states |
|---|---|---|
| Text.StartsWith | src/lib/index.ts:92 | definition: JavaScript's `startsWith`, the prefix test on the conjugation type here and at index.ts:123; `GodanVerbRule` and `PastAfterGodanVerb` state its role |
| Text.EndsWith | src/lib/index.ts:81 | definition: JavaScript's `endsWith`, the suffix test here and at index.ts:109, 114 and 178; `ReplaceSuffix`, `AdjectiveRule`, `PastAfterI`, `PastAfterAdjective` and `PreNounAdjectivalRule` state its role |
| Text.ReplaceSuffix | src/lib/index.ts:82 | a suffix-anchored literal replace: when `s` ends with the pattern, the result ends with the replacement and keeps everything before the pattern; otherwise `s` is unchanged |
| Text.EndsWithLast | src/lib/index.ts:59 | a string that ends with a non-empty suffix ends with that suffix's last character |
| Text.ReplaceSuffixOfAppend | src/lib/index.ts:82 | replacing the pattern at the end of `p + pattern` gives `p + replacement` |
| Text.IsWhiteSpace | src/lib/index.ts:11-19 | definition: the characters `trim()` strips, ECMAScript's WhiteSpace and LineTerminator set including U+3000; `TrimCutsWhiteSpace` and `TrimEmptyIffBlank` state its role |
| Text.TrimStart | src/lib/index.ts:19 | the result is a suffix of the input, all that was dropped is white space, and the result does not start with white space |
| Text.TrimEnd | src/lib/index.ts:19 | the result is a prefix of the input, all that was dropped is white space, and the result does not end with white space |
| Text.Trim | src/lib/index.ts:19 | `trim()` is never longer than its input and neither starts nor ends with white space |
| Text.TrimCutsWhiteSpace | src/lib/index.ts:19 | `trim()` keeps a contiguous slice `s[i..j]`, and both pieces cut away are white space |
| Text.TrimEmptyIffBlank | src/lib/index.ts:11 | `input.trim() === ''` holds exactly when the input is all white space |
| Text.TrimSurrounded | src/lib/index.ts:19 | white space around a text with no white space at its ends is removed exactly: `Trim(a + s + b) == s` |
| Text.TrimIdempotent | src/lib/index.ts:19 | trimming twice is trimming once |
| Gacha.IsTrigger | src/lib/index.ts:59 | definition: the three spellings ガチャ, ｶﾞﾁｬ and がちゃ of the anchored alternation; `RemoveGachaStripsOne` and `RemoveGachaEmptyIffTrigger` state what removal does with them |
| Gacha.EndsWithTrigger | src/lib/index.ts:59 | definition: the anchored alternation matches, i.e. one of the three spellings is a suffix; `RemoveGacha` states that removal happens exactly then |
| Gacha.RemoveGacha | src/lib/index.ts:58-61 | with a trailing trigger word (any of the three spellings), the input is the result followed by one trigger word; without one, the input comes back unchanged |
| Gacha.DropSuffix | src/lib/index.ts:59 | cutting a known suffix leaves exactly what precedes it |
| Gacha.RemoveGachaStripsOne | src/lib/index.ts:59 | `removeGacha(s + k) == s` for every trigger spelling `k` and every `s`, even if `s` ends in a trigger word itself |
| Gacha.RemoveGachaOnlyOnce | src/lib/index.ts:59 | ガチャガチャ keeps one ガチャ, and only a second call removes that one too |
| Gacha.RemoveGachaEmptyIffTrigger | src/lib/index.ts:59 | removal leaves the empty string exactly when the input is empty or is the trigger word alone |
| Negation.Last | src/lib/index.ts:78-79 | definition: `parsed[lastIndex]` with `lastIndex = parsed.length - 1`; the rule lemmas state what each branch does with it |
| Negation.Prev | src/lib/index.ts:101-102 | definition: `parsed[prevIndex]` with `prevIndex = parsed.length - 2`, read by the た, だ and な branches; `PastLookbackDispatch` and `CopulaRule` state its role |
| Negation.PartOfSpeechOf | src/lib/index.ts:80-177 | each part of speech the dispatch distinguishes corresponds exactly to one tag string (形容詞, 動詞, 助動詞, 助詞, 名詞, 副詞, 連体詞); every other tag is `OtherPos` |
| Negation.GodanRow | src/lib/index.ts:93-95 | the five-row table maps exactly the kana うくすつぬふむゆる, each to one of わかさたなはまやら |
| Negation.ReplaceEach | src/lib/index.ts:93-95 | a chain of one-character anchored replaces keeps the length and every character but the last |
| Negation.GodanChain | src/lib/index.ts:93-95 | the nine chained `.replace` calls keep the length and touch at most the final kana |
| Negation.GodanStem | src/lib/index.ts:93-95 | the stem differs from its input only in the final kana, and a changed final kana is the table's image of the old one |
| Negation.GodanStemOfRow | src/lib/index.ts:93-95 | a final kana in the five-row table is swapped for its negative-stem kana |
| Negation.GodanStemOutsideRow | src/lib/index.ts:93-95 | a final kana outside the table (ぐ, ぶ, ...) is kept |
| Negation.ReplaceLastChar | src/lib/index.ts:94 | a one-character anchored replace swaps the final character exactly when it matches |
| Negation.ReplaceEachMisses | src/lib/index.ts:93-95 | a chain of anchored replaces in which no pattern matches the final character leaves the string unchanged |
| Negation.ReplaceEachIsLookup | src/lib/index.ts:93-95 | when no pattern of the chain matches a replacement put in by an earlier call, at most one call fires and the chain is the lookup of the final character's first listed replacement |
| Negation.FirstReplacementAbsent | src/lib/index.ts:93-95 | a character that no pair of the chain matches has no replacement |
| Negation.GodanReplacesNoLaterMatch | src/lib/index.ts:93-95 | no replacement kana of the nine calls is a pattern of any call, so at most one call of the chain fires |
| Negation.GodanReplacesAreRow | src/lib/index.ts:93-95 | the first call of the nine whose pattern is a given kana replaces it by that kana's five-row table entry, and no call matches a kana outside the table |
| Negation.GodanReplacesTail | src/lib/index.ts:94-95 | the same for the last five calls (ぬ … る), for a kana that none of the first four matches |
| Negation.GodanChainIsRowLookup | src/lib/index.ts:93-95 | the nine chained `.replace` calls equal a single lookup of the final kana in the five-row table (う→わ … る→ら), and a kana outside the table is kept |
| Negation.ReplaceLastPair | src/lib/index.ts:87 | a two-character anchored replace fires exactly when the last two characters are the pattern |
| Negation.EndsWithSuruForm | src/lib/index.ts:86 | definition: the last two kana are (す or ず)(る or れ); `SuruNegativeRule` proves it matches exactly those surfaces |
| Negation.SuruNegative | src/lib/index.ts:87 | a surface not in a す/ず form is returned unchanged; `SuruNegativeRule` states the rewrite of the others |
| Negation.EndsInI | src/lib/index.ts:87 | both replacement texts すない and じない end in い |
| Negation.PassesSuruForms | src/lib/index.ts:87 | a text ending in い matches none of the later patterns すれ, ずる, ずれ, so once one `.replace` has fired the rest leave the text alone |
| Negation.SuruNegativeRule | src/lib/index.ts:86-87 | the す/ず-form test matches exactly the surfaces whose last two kana are (す or ず)(る or れ); such a surface has those two kana replaced by すない (after す) or じない (after ず), and the second `.replace` never undoes the first; any other surface is unchanged |
| Negation.RewriteLast | src/lib/index.ts:78-82 | definition: the single entry `{ index: lastIndex, word }`; `RewritesLastOnly` and `NegatedRewritesLast` state its effect |
| Negation.EndsInPastAuxiliary | src/lib/index.ts:98-99 | definition: the last morpheme is the auxiliary た; `PastLookbackDispatch` states that such a phrase of two or more morphemes is decided by the lookback |
| Negation.PrecededByAdverbOrNoun | src/lib/index.ts:132-142 | definition: the morpheme before the last is an adverb or a noun, the `['副詞', '名詞'].includes(prev.pos)` test; `CopulaRule` and `ParticleRule` state its role |
| Negation.AdjectiveReplacements | src/lib/index.ts:80-84 | the adjective row records at most one entry, and it is at the last position |
| Negation.VerbReplacements | src/lib/index.ts:85-97 | the verb row records at most one entry, and it is at the last position |
| Negation.PastLookback | src/lib/index.ts:99-129 | the た lookback records at most one entry, at the last or the second-to-last position |
| Negation.PastAdjectiveReplacements | src/lib/index.ts:112-117 | an adjective before た is rewritten at its own position (second-to-last), if at all |
| Negation.PastVerbReplacements | src/lib/index.ts:118-128 | a verb before た is rewritten at its own position (second-to-last), if at all |
| Negation.CopulaReplacements | src/lib/index.ts:130-143 | だ/な after an adverb or a noun records at most one entry, and it is at the last position |
| Negation.AuxiliaryReplacements | src/lib/index.ts:98-153 | the auxiliary row records at most one entry, at the last position, or at the second-to-last only when the last surface is た and there are at least two morphemes |
| Negation.ParticleReplacements | src/lib/index.ts:154-165 | the particle row records at most one entry, and it is at the last position |
| Negation.NounReplacements | src/lib/index.ts:166-173 | the noun row records at most one entry, and it is at the last position |
| Negation.PreNounAdjectivalReplacements | src/lib/index.ts:177-181 | the 連体詞 row records at most one entry, and it is at the last position |
| Negation.Replacements | src/lib/index.ts:75-181 | the `replaces` list holds at most one entry; its index is the last position, or the second-to-last only when the phrase ends in the auxiliary た and has at least two morphemes |
| Negation.CollectReplacements | src/lib/index.ts:75-181 | the imperative if/else-if chain of pushes builds exactly the decision table's list |
| Negation.CollectAdjective | src/lib/index.ts:80-84 | the 形容詞 branch's push is exactly the adjective row's entry |
| Negation.CollectVerb | src/lib/index.ts:85-97 | the 動詞 branch's pushes are exactly the verb row's entry, with the す/ず test first, then 一段, then 五段 |
| Negation.CollectAuxiliary | src/lib/index.ts:98-153 | the 助動詞 branch's pushes are exactly the auxiliary row's entry, with た, だ and な tested before たい, ない and ます |
| Negation.CollectParticle | src/lib/index.ts:154-165 | the 助詞 branch's pushes are exactly the particle row's entry |
| Negation.CollectNoun | src/lib/index.ts:166-173 | the 名詞 branch's pushes are exactly the noun row's entry |
| Negation.CollectPreNounAdjectival | src/lib/index.ts:177-181 | the 連体詞 branch's push is exactly the 連体詞 row's entry |
| Negation.CollectPastLookback | src/lib/index.ts:99-129 | the imperative た branch pushes exactly the lookback's entry |
| Negation.ReplacementsDispatch | src/lib/index.ts:78-181 | which row of the table applies is decided by the last morpheme's part of speech alone, one row per part of speech and none for any other |
| Negation.PastLookbackDispatch | src/lib/index.ts:99-102 | a phrase of at least two morphemes that ends in the auxiliary た is decided by the lookback |
| Negation.PastVerbDispatch | src/lib/index.ts:118-128 | once the first three lookback branches are excluded, a verb before た is decided by the verb sub-branch |
| Negation.NegativeOf | src/lib/index.ts:70-189 | `parseNegative` fails exactly when the tokenizer throws or returns no morphemes, with the thrown message as `TokenizerThrew` in the first case and `NoLastMorpheme` exactly in the second, and otherwise is the negation of the morphemes |
| Negation.Negated | src/lib/index.ts:75-187 | definition: the fold of the morphemes with the decision table's entries; `NegatedShape` and the `NegationRules` lemmas state what it is |
| Negation.ParseNegative | src/lib/index.ts:70-189 | `parseNegative` is the tokenizer's failure, `NoLastMorpheme` for an empty token list, or the fold of the morphemes with the table's replacements |
| Negation.Reduce | src/lib/index.ts:184-187 | the `reduce` loop produces the assembly: each position's replacement word if the list has one, its surface otherwise, in order |
| Negation.Find | src/lib/index.ts:185 | an entry that `find` answers is in the list with the asked index |
| Negation.FindFirst | src/lib/index.ts:185 | `find` answers nothing exactly when no entry has the index, and otherwise the first entry that has it |
| Negation.FindOne | src/lib/index.ts:185 | in a list of one entry, `find` answers its word for its own index and nothing for every other index |
| Negation.Piece | src/lib/index.ts:186 | definition: the found entry's word, else the morpheme's surface; `AssembleUpToUnreplaced` and `AssembleOne` state its effect |
| Negation.AssembleUpTo | src/lib/index.ts:184-187 | definition: the accumulator after the first `n` steps of the reduce; `Reduce` proves its loop equal to it |
| Negation.Assemble | src/lib/index.ts:184-187 | definition: the full reduce; `AssembleNothing` and `AssembleOne` state what it yields |
| Negation.AssembleUpToUnreplaced | src/lib/index.ts:184-187 | a prefix in which no position has an entry folds to its surfaces concatenated |
| Negation.AssembleNothing | src/lib/index.ts:184-187 | with no replacement, the fold is the plain concatenation of the surfaces |
| Negation.AssembleUpToOne | src/lib/index.ts:184-187 | a prefix of the fold with one entry is the surfaces before it, the word, then the surfaces after it |
| Negation.AssembleUpToOneAt | src/lib/index.ts:184-187 | with one entry at `k`, the accumulator after step `k` is the surfaces before `k` followed by the word |
| Negation.AssembleUpToOneAfter | src/lib/index.ts:184-187 | past the entry's position, each step of the reduce appends the next surface |
| Negation.SurfacesOfSliceSnoc | src/lib/index.ts:186 | the surfaces of a slice are those of the slice without its last morpheme, then that morpheme's surface |
| Negation.AssembleOne | src/lib/index.ts:184-187 | one entry at `k` rewrites position `k` and copies every other surface in order |
| Negation.NegatedShape | src/lib/index.ts:75-187 | `parseNegative` is the concatenation of surfaces when there is no entry; otherwise it is the surfaces before the entry's position, its word, and the surfaces after it |
| Negation.NegatedRewritesLast | src/lib/index.ts:184-187 | an entry at the last position replaces only the last surface |
| Negation.NegatedRewritesPrev | src/lib/index.ts:184-187 | an entry at the second-to-last position replaces that surface and keeps the last one |
| Negation.SurfacesSnoc | src/lib/index.ts:184-187 | the concatenated surfaces end with the last morpheme's surface |
| Negation.NegatedAppends | src/lib/index.ts:184-187 | an entry that appends to the last surface appends to the whole phrase |
| Negation.SurfacesSnocAppend | src/lib/index.ts:184-187 | appending a suffix to the last surface is appending it to the concatenated surfaces |
| Negation.NegatedUnchanged | src/lib/index.ts:184-187 | with no entry, the result is the concatenated surfaces of the morphemes |
| NegationRules.AdjectiveRule | src/lib/index.ts:80-84 | an adjective whose surface ends in い has い replaced by くない; any other adjective is unchanged |
| NegationRules.SuruVerbRule | src/lib/index.ts:86-87 | a verb in a す/ず form has its last two kana replaced by すない or じない |
| NegationRules.IchidanVerbRule | src/lib/index.ts:89-90 | a single-row (一段) verb has a final る replaced by ない; a surface without a final る is kept |
| NegationRules.GodanVerbRule | src/lib/index.ts:92-96 | a five-row (五段…) verb has its final kana mapped through the table (and kept if not in it), then ない appended |
| NegationRules.OtherVerbUnchanged | src/lib/index.ts:85-97 | a verb of any other conjugation is unchanged |
| NegationRules.PastAfterTeOrI | src/lib/index.ts:103-105 | た after the verb て or い becomes なかった |
| NegationRules.PastAfterKuru | src/lib/index.ts:106-108 | た after 来 becomes ない |
| NegationRules.PastAfterI | src/lib/index.ts:109-111 | た after any other surface ending in い becomes てない |
| NegationRules.PastAfterAdjective | src/lib/index.ts:112-117 | an adjective before た is rewritten from its basic form, with い replaced by くなかっ, and た is kept; with no final い, nothing changes |
| NegationRules.PastAfterIchidanVerb | src/lib/index.ts:120-122 | a single-row verb before た is rewritten from its basic form, with a final る replaced by なかっ (a basic form without one is substituted as it is), and た is kept |
| NegationRules.PastAfterGodanVerb | src/lib/index.ts:123-127 | a five-row verb before た is rewritten as its basic form's table stem plus なかっ, and た is kept |
| NegationRules.PastAfterOtherVerb | src/lib/index.ts:118-128 | a verb of any other conjugation before た leaves the phrase unchanged |
| NegationRules.PastOtherwiseUnchanged | src/lib/index.ts:99-129 | た with nothing before it, or after a morpheme no lookback branch matches, leaves the phrase unchanged |
| NegationRules.CopulaRule | src/lib/index.ts:130-143 | だ or な becomes じゃない exactly when there is a preceding morpheme that is an adverb or a noun; otherwise nothing changes |
| NegationRules.FixedAuxiliaryRule | src/lib/index.ts:144-152 | たい becomes たくない, ない becomes なくない, ます becomes ません |
| NegationRules.OtherAuxiliaryUnchanged | src/lib/index.ts:98-153 | any other auxiliary is unchanged |
| NegationRules.ParticleRule | src/lib/index.ts:154-165 | the particle て becomes ない; な after an adverb or a noun becomes じゃない; any other particle is unchanged |
| NegationRules.NounRule | src/lib/index.ts:166-173 | a proper noun, common noun or pronoun gets じゃない appended; a サ変接続 noun or a noun suffix gets しない; any other noun is unchanged |
| NegationRules.AdverbRule | src/lib/index.ts:174-176 | an adverb gets じゃない appended |
| NegationRules.PreNounAdjectivalRule | src/lib/index.ts:177-181 | a 連体詞 ending in な gets わけない appended; any other is unchanged |
| NegationRules.OtherPosUnchanged | src/lib/index.ts:78-181 | a last morpheme of any other part of speech leaves the phrase unchanged |
| NemuiGacha.Name | src/lib/index.ts:217-246 | definition: each thrown error's `name` (InvalidArgumentsError, ParseNegativeRuntimeError, ParseNegativeFailedError); `NameMark` and `DescribeDetermines` state what tells them apart |
| NemuiGacha.NameMark | src/lib/index.ts:220-245 | the three names are distinct at their fourteenth character (n, R, F) |
| NemuiGacha.Describe | src/lib/index.ts:212-214 | `toString()` starts with `Name: ` and the error's name, and ends with its message |
| NemuiGacha.DescribeDetermines | src/lib/index.ts:212-214 | two errors with the same `toString()` text are of the same class and carry the same message |
| NemuiGacha.PicksNegative | src/lib/index.ts:46 | definition: the draw picks the negative form when it is at least 0.5; `ExecHalfPicksNegative` and `Exec` state its effect |
| NemuiGacha.Exec | src/lib/index.ts:10-50 | a blank input, and otherwise a missing tokenizer, is `InvalidArguments` with its message, and these are the only `InvalidArguments` cases; the trigger word alone is answered with the trimmed input plus じゃない; `ParseNegativeRuntime` arises exactly when the conversion throws, always with the message `Failed to parse negative` and the conversion's cause; `ParseNegativeFailed` arises exactly when the conversion returns the stripped input, always with the message `Result text is the same as input text`; a success on a non-empty stripped input is the negative form exactly when forced or the draw is at least 0.5, and the stripped input otherwise |
| NemuiGacha.ExecTrimmed | src/lib/index.ts:18-49 | definition: the steps of `exec` after `input.trim()`, every one reading only the trimmed text; `Exec` states what they compute |
| NemuiGacha.ExecDependsOnTrim | src/lib/index.ts:11-19 | two inputs with the same `trim()` give the same `exec` result, for every tokenizer, flag and draw |
| NemuiGacha.ExecIgnoresSurroundingWhiteSpace | src/lib/index.ts:11-19 | trimming the input first changes nothing |
| NemuiGacha.ExecBlankInput | src/lib/index.ts:11-13 | a blank input is rejected whatever the tokenizer, flag and draw |
| NemuiGacha.ExecTriggerAlone | src/lib/index.ts:19-25 | an input that trims to a trigger word alone is answered with it plus じゃない, identically for every tokenizer, flag and draw |
| NemuiGacha.ExecForcedIgnoresDraw | src/lib/index.ts:41-43 | with the flag set, the draw plays no part |
| NemuiGacha.ExecHalfPicksNegative | src/lib/index.ts:46-49 | the boundary draw 0.5 already picks the negative form |
| NemuiGacha.ExecResultIsOneOfThree | src/lib/index.ts:23-49 | every success is the trimmed input plus じゃない (trigger alone), the negative form (different from the stripped input), or the stripped input when neither forced nor drawn |
| NemuiGacha.ExecNoRuleFails | src/lib/index.ts:35-38 | if the tokenizer splits the stripped input into morphemes on which no rule fires, the result is `ParseNegativeFailed` |
| NemuiGacha.ExecForcedNegates | src/lib/index.ts:41-43 | if the negative form differs from the stripped input, forcing returns it |
| NemuiGacha.ExecTokenizerFailure | src/lib/index.ts:29-34 | a throwing tokenizer, or one returning no morphemes, gives `ParseNegativeRuntime` with the message and the corresponding cause |
| Scenarios.AdjectiveExample | src/lib/index.ts:80-84 | ねむい becomes ねむくない |
| Scenarios.LoneIchidanVerb | src/lib/index.ts:89-90 | a lone single-row verb ending in る has る replaced by ない |
| Scenarios.IchidanExample | src/lib/index.ts:89-90 | 食べる becomes 食べない |
| Scenarios.LoneGodanVerb | src/lib/index.ts:92-96 | a lone five-row verb becomes its table stem plus ない |
| Scenarios.GodanExample | src/lib/index.ts:92-96 | 走る becomes 走らない |
| Scenarios.GodanOutsideTableExample | src/lib/index.ts:92-96 | 泳ぐ becomes 泳ぐない (ぐ is not in the table) |
| Scenarios.SuruExample | src/lib/index.ts:86-87 | する becomes すない |
| Scenarios.PastIchidanExample | src/lib/index.ts:118-122 | 食べ + た becomes 食べなかった |
| Scenarios.PastOfGodanVerb | src/lib/index.ts:123-127 | a five-row verb + た becomes the basic form's stem plus なかった |
| Scenarios.PastGodanExample | src/lib/index.ts:123-127 | 走っ + た becomes 走らなかった |
| Scenarios.DesireExample | src/lib/index.ts:144-146 | 食べ + たい becomes 食べたくない |
| Scenarios.CopulaExample | src/lib/index.ts:130-136 | きれい (noun) + だ becomes きれいじゃない |
| Scenarios.LoneCopulaExample | src/lib/index.ts:130-136 | a lone だ is left as it is |
| Scenarios.NounExample | src/lib/index.ts:166-169 | 猫 becomes 猫じゃない |
| Scenarios.ExecNegatesExample | src/lib/index.ts:10-50 | " ねむいガチャ " gives ねむくない when forced or drawn, and ねむい otherwise |
| Scenarios.NemuiGachaStripped | src/lib/index.ts:19-21 | " ねむいガチャ " trims and strips to ねむい |
| Scenarios.ExecTriggerAloneExample | src/lib/index.ts:19-25 | " ガチャ" gives ガチャじゃない |
| Scenarios.ExecSymbolFails | src/lib/index.ts:35-38 | a lone symbol ！ is `ParseNegativeFailed` |
| Scenarios.ExecBlankExample | src/lib/index.ts:11-13 | an input of spaces and a tab is `InvalidArguments("input is null")` |

## Left out

- A `null` or `undefined` input cannot be represented, because a Dafny
  `string` is always a value. The blank-input half of the check at
  index.ts:11 is modelled.
- The `tokenizer.tokenize` call is the function parameter `Tokenizer`. kuromoji's
  morphological analysis, and whether a given tokenizer's output is faithful
  to its input, are not modelled. The model also does not check that a
  present tokenizer has a `tokenize` member.
- `Math.random()` is the parameter `draw`. Floating-point generation is not
  modelled.
- The `console.error` calls in the error constructors (index.ts:201-205,
  234-239) are left out because they are logging only. The error kinds,
  their messages, their `name` fields and `toString` are modelled. The error
  classes are the datatype `NemuiGacha.Error`, one constructor per class.
- `exec`'s default `isForceNegative = false` (index.ts:10) is not modelled as
  a default. `Exec` always takes the flag as an explicit argument.
- A JavaScript string holding a lone UTF-16 surrogate has no Dafny `string`
  counterpart, so such inputs are outside the model.
- A JavaScript exception thrown by the tokenizer is modelled by its message
  only (`Cause.TokenizerThrew`). The `TypeError` raised on an empty token
  list is the single value `NoLastMorpheme`. Object identity of the original
  error is not modelled.
- `src/App.tsx` is not part of this model. It is React UI state, and its own
  older copy of the adjective and verb rules is not merged with the library.
- `cli/index.ts` is not part of this model. It joins the arguments, builds the
  dictionary and writes output.
- Scenarios: the example morphemes carry tag values as the kuromoji IPA
  dictionary spells them. They are written by hand, not produced by a
  tokenizer.
