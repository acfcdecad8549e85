/** The trigger word of the lottery, and its removal from the end of the input. */
module Gacha {
  import opened Text

  const Katakana: string := "ガチャ"
  /** Half-width katakana: four code points, the voiced mark ﾞ being one of them. */
  const HalfWidth: string := "ｶﾞﾁｬ"
  const Hiragana: string := "がちゃ"

  predicate IsTrigger(k: string) {
    k == Katakana || k == HalfWidth || k == Hiragana
  }

  predicate EndsWithTrigger(s: string) {
    EndsWith(s, Katakana) || EndsWith(s, HalfWidth) || EndsWith(s, Hiragana)
  }

  /**
   * `input.replace(/(ガチャ|ｶﾞﾁｬ|がちゃ)$/u, '')`. The three spellings end in
   * different characters, so at most one of them is a suffix and the
   * alternation order does not matter; one occurrence is removed, never more.
   */
  function RemoveGacha(input: string): (r: string)
    ensures EndsWithTrigger(input) ==> exists k :: IsTrigger(k) && input == r + k
    ensures !EndsWithTrigger(input) ==> r == input
  {
    if EndsWith(input, Katakana) then DropSuffix(input, Katakana)
    else if EndsWith(input, HalfWidth) then DropSuffix(input, HalfWidth)
    else if EndsWith(input, Hiragana) then DropSuffix(input, Hiragana)
    else input
  }

  function DropSuffix(s: string, k: string): (r: string)
    requires EndsWith(s, k)
    ensures s == r + k
  {
    assert s == s[..|s| - |k|] + s[|s| - |k|..];
    s[..|s| - |k|]
  }

  /** Whatever precedes the trigger word comes back exactly, even when it ends in a trigger word itself. */
  lemma RemoveGachaStripsOne(s: string, k: string)
    requires IsTrigger(k)
    ensures RemoveGacha(s + k) == s
  {
    var t := s + k;
    assert t[|t| - |k|..] == k;
    assert t[..|t| - |k|] == s;
    EndsWithLast(t, k);
    // the three spellings end in ャ, ｬ and ゃ, so only k itself can match
    if EndsWith(t, Katakana) { EndsWithLast(t, Katakana); }
    if EndsWith(t, HalfWidth) { EndsWithLast(t, HalfWidth); }
    if EndsWith(t, Hiragana) { EndsWithLast(t, Hiragana); }
  }

  /** `ガチャガチャ` keeps one `ガチャ`: the removal is not repeated. */
  lemma RemoveGachaOnlyOnce()
    ensures RemoveGacha(Katakana + Katakana) == Katakana
    ensures RemoveGacha(RemoveGacha(Katakana + Katakana)) == []
  {
    RemoveGachaStripsOne(Katakana, Katakana);
    RemoveGachaStripsOne([], Katakana);
    assert [] + Katakana == Katakana;
  }

  /** Removing the trigger word leaves nothing exactly when the input is empty or is the trigger word alone. */
  lemma RemoveGachaEmptyIffTrigger(s: string)
    ensures RemoveGacha(s) == [] <==> s == [] || IsTrigger(s)
  {
    if IsTrigger(s) {
      assert [] + s == s;
      RemoveGachaStripsOne([], s);
    }
    if RemoveGacha(s) == [] {
      if EndsWithTrigger(s) {
        var k :| IsTrigger(k) && s == RemoveGacha(s) + k;
        assert s == k;
      }
    }
  }
}
