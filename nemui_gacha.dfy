/**
 * The entry point `exec`: validates its arguments, trims the input, strips a
 * trailing ガチャ, converts what is left to the negative form and then either
 * returns the negative form or, at random, the stripped input. The random
 * number is a parameter (`draw`, standing for `Math.random()`); only whether
 * it is at least 0.5 matters.
 */
module NemuiGacha {
  import opened Wrappers
  import opened Text
  import opened Gacha
  import opened Negation

  /** The three error classes `exec` throws; each carries its message. */
  datatype Error =
    | InvalidArguments(message: string)
    | ParseNegativeRuntime(message: string, originalError: Cause)
    | ParseNegativeFailed(message: string)

  /**
   * The `name` each error class sets. The base class's own name,
   * NemuiGachaError, belongs to no error that `exec` throws.
   */
  function Name(e: Error): string {
    match e
    case InvalidArguments(_) => "InvalidArgumentsError"
    case ParseNegativeRuntime(_, _) => "ParseNegativeRuntimeError"
    case ParseNegativeFailed(_) => "ParseNegativeFailedError"
  }

  lemma NameMark(e: Error)
    ensures |Name(e)| > 13
    ensures Name(e)[13] == (if e.InvalidArguments? then 'n' else if e.ParseNegativeRuntime? then 'R' else 'F')
  {
  }

  function Header(e: Error): string {
    "Name: " + Name(e) + " , Message: "
  }

  /** `toString()`: the error's name, then its message. */
  function Describe(e: Error): (s: string)
    ensures StartsWith(s, "Name: " + Name(e)) && EndsWith(s, e.message)
  {
    var h := Header(e);
    assert (h + e.message)[..|"Name: " + Name(e)|] == "Name: " + Name(e);
    assert (h + e.message)[|h|..] == e.message;
    h + e.message
  }

  /**
   * The text of `toString()` tells which of the three errors was thrown and
   * with what message: the names differ at their fourteenth character.
   */
  lemma DescribeDetermines(e1: Error, e2: Error)
    requires Describe(e1) == Describe(e2)
    ensures e1.InvalidArguments? == e2.InvalidArguments?
    ensures e1.ParseNegativeRuntime? == e2.ParseNegativeRuntime?
    ensures e1.message == e2.message
  {
    var s := Describe(e1);
    var h1, h2 := Header(e1), Header(e2);
    NameMark(e1);
    NameMark(e2);
    assert s[19] == h1[19] == Name(e1)[13];
    assert s[19] == h2[19] == Name(e2)[13];
    assert Name(e1) == Name(e2);
    assert s[|h1|..] == e1.message;
    assert s[|h2|..] == e2.message;
  }

  const InputIsNull: string := "input is null"
  const TokenizerIsNull: string := "tokenizer is null"
  const FailedToParse: string := "Failed to parse negative"
  const SameAsInput: string := "Result text is the same as input text"

  /** The answer to an input that is nothing but the trigger word. */
  const JanaiSuffix: string := "じゃない"

  /** Whether the draw picks the negative form (`Math.random() >= 0.5`). */
  predicate PicksNegative(draw: real) {
    draw >= 0.5
  }

  /**
   * `exec(input, tokenizer, isForceNegative)`; a missing tokenizer is `None`,
   * and what `exec` throws is a `Failure`.
   */
  function Exec(input: string, tokenizer: Option<Tokenizer>, isForceNegative: bool, draw: real): (r: Result<string, Error>)
    // the argument checks come first and are the only source of InvalidArguments
    ensures Trim(input) == [] ==> r == Failure(InvalidArguments(InputIsNull))
    ensures Trim(input) != [] && tokenizer.None? ==> r == Failure(InvalidArguments(TokenizerIsNull))
    ensures (r.Failure? && r.error.InvalidArguments?) <==> (Trim(input) == [] || tokenizer.None?)
    // the trigger word alone: answered without the tokenizer
    ensures Trim(input) != [] && tokenizer.Some? && RemoveGacha(Trim(input)) == [] ==>
      r == Success(Trim(input) + JanaiSuffix)
    // conversion errors
    ensures (r.Failure? && r.error.ParseNegativeRuntime?) <==>
      && Trim(input) != [] && tokenizer.Some? && RemoveGacha(Trim(input)) != []
      && NegativeOf(RemoveGacha(Trim(input)), tokenizer.value).Failure?
    ensures r.Failure? && r.error.ParseNegativeRuntime? ==>
      r.error.originalError == NegativeOf(RemoveGacha(Trim(input)), tokenizer.value).error
    ensures r.Failure? && r.error.ParseNegativeRuntime? ==> r.error.message == FailedToParse
    ensures (r.Failure? && r.error.ParseNegativeFailed?) <==>
      && Trim(input) != [] && tokenizer.Some? && RemoveGacha(Trim(input)) != []
      && NegativeOf(RemoveGacha(Trim(input)), tokenizer.value) == Success(RemoveGacha(Trim(input)))
    ensures r.Failure? && r.error.ParseNegativeFailed? ==> r.error.message == SameAsInput
    // a result: the negative form when forced or drawn, the stripped input otherwise
    ensures r.Success? && RemoveGacha(Trim(input)) != [] ==>
      && tokenizer.Some?
      && var negated := NegativeOf(RemoveGacha(Trim(input)), tokenizer.value);
      && negated.Success? && negated.value != RemoveGacha(Trim(input))
      && (r.value == negated.value <==> isForceNegative || PicksNegative(draw))
      && (r.value != negated.value ==> r.value == RemoveGacha(Trim(input)))
  {
    ExecTrimmed(Trim(input), tokenizer, isForceNegative, draw)
  }

  /** The steps of `exec` after `input.trim()`: every test reads only the trimmed text. */
  function ExecTrimmed(trimmed: string, tokenizer: Option<Tokenizer>, isForceNegative: bool, draw: real): Result<string, Error>
  {
    if trimmed == [] then
      Failure(InvalidArguments(InputIsNull))
    else if tokenizer.None? then
      Failure(InvalidArguments(TokenizerIsNull))
    else
      var removedInput := RemoveGacha(trimmed);
      if removedInput == [] then
        Success(trimmed + JanaiSuffix)
      else
        match NegativeOf(removedInput, tokenizer.value)
        case Failure(cause) => Failure(ParseNegativeRuntime(FailedToParse, cause))
        case Success(negative) =>
          if removedInput == negative then
            Failure(ParseNegativeFailed(SameAsInput))
          else if isForceNegative then
            Success(negative)
          else if PicksNegative(draw) then
            Success(negative)
          else
            Success(removedInput)
  }

  // ---------------------------------------------------------------------------
  // Properties relating several calls

  /** Surrounding whitespace does not matter: `exec` trims before anything else. */
  lemma ExecIgnoresSurroundingWhiteSpace(input: string, tokenizer: Option<Tokenizer>, isForceNegative: bool, draw: real)
    ensures Exec(Trim(input), tokenizer, isForceNegative, draw) == Exec(input, tokenizer, isForceNegative, draw)
  {
    TrimIdempotent(input);
    ExecDependsOnTrim(Trim(input), input, tokenizer, isForceNegative, draw);
  }

  /** `exec` looks at its input only through `input.trim()`. */
  lemma ExecDependsOnTrim(a: string, b: string, tokenizer: Option<Tokenizer>, isForceNegative: bool, draw: real)
    requires Trim(a) == Trim(b)
    ensures Exec(a, tokenizer, isForceNegative, draw) == Exec(b, tokenizer, isForceNegative, draw)
  {
  }

  /** A blank input is rejected whatever the tokenizer, the flag and the draw. */
  lemma ExecBlankInput(input: string, tokenizer: Option<Tokenizer>, isForceNegative: bool, draw: real)
    requires AllWhiteSpace(input)
    ensures Exec(input, tokenizer, isForceNegative, draw) == Failure(InvalidArguments(InputIsNull))
  {
    TrimEmptyIffBlank(input);
  }

  /**
   * The trigger word alone (ガチャ, ｶﾞﾁｬ or がちゃ, with any surrounding
   * whitespace) is answered with itself plus じゃない, the same for every
   * tokenizer, flag and draw: the tokenizer is never consulted.
   */
  lemma ExecTriggerAlone(input: string, k: string, t1: Tokenizer, t2: Tokenizer, f1: bool, f2: bool, d1: real, d2: real)
    requires IsTrigger(k) && Trim(input) == k
    ensures Exec(input, Some(t1), f1, d1) == Success(k + JanaiSuffix)
    ensures Exec(input, Some(t1), f1, d1) == Exec(input, Some(t2), f2, d2)
  {
    RemoveGachaEmptyIffTrigger(k);
  }

  /** With the flag set, the draw plays no part. */
  lemma ExecForcedIgnoresDraw(input: string, tokenizer: Option<Tokenizer>, d1: real, d2: real)
    ensures Exec(input, tokenizer, true, d1) == Exec(input, tokenizer, true, d2)
  {
  }

  /** A draw of 0.5 exactly already picks the negative form. */
  lemma ExecHalfPicksNegative(input: string, tokenizer: Option<Tokenizer>)
    ensures Exec(input, tokenizer, false, 0.5) == Exec(input, tokenizer, true, 0.5)
  {
  }

  /**
   * Every successful result is one of three strings: the trimmed input plus
   * じゃない (trigger word alone), the negative form, or the stripped input;
   * and the forced result is the negative form whenever there is one.
   */
  lemma ExecResultIsOneOfThree(input: string, t: Tokenizer, isForceNegative: bool, draw: real)
    requires Exec(input, Some(t), isForceNegative, draw).Success?
    ensures var r := Exec(input, Some(t), isForceNegative, draw).value;
      var removed := RemoveGacha(Trim(input));
      || (removed == [] && r == Trim(input) + JanaiSuffix)
      || (removed != [] && NegativeOf(removed, t) == Success(r) && r != removed)
      || (removed != [] && r == removed && !isForceNegative && !PicksNegative(draw))
  {
  }

  /**
   * A tokenizer that splits the stripped input into morphemes (their surfaces
   * concatenate back to it) on which no rule of the table fires leads to
   * `ParseNegativeFailed`, whatever the flag and the draw.
   */
  lemma ExecNoRuleFails(input: string, t: Tokenizer, ts: seq<Morpheme>, isForceNegative: bool, draw: real)
    requires Trim(input) != [] && RemoveGacha(Trim(input)) != []
    requires t(RemoveGacha(Trim(input))) == Tokens(ts) && |ts| > 0
    requires Surfaces(ts) == RemoveGacha(Trim(input)) && Replacements(ts) == []
    ensures Exec(input, Some(t), isForceNegative, draw) == Failure(ParseNegativeFailed(SameAsInput))
  {
    NegatedUnchanged(ts);
  }

  /**
   * Conversely, a tokenizer that splits the stripped input into morphemes on
   * which a rule fires and changes the text yields the negative form when
   * forced.
   */
  lemma ExecForcedNegates(input: string, t: Tokenizer, ts: seq<Morpheme>, draw: real)
    requires Trim(input) != [] && RemoveGacha(Trim(input)) != []
    requires t(RemoveGacha(Trim(input))) == Tokens(ts) && |ts| > 0
    requires Negated(ts) != RemoveGacha(Trim(input))
    ensures Exec(input, Some(t), true, draw) == Success(Negated(ts))
  {
  }

  /** A tokenizer that throws, or returns no morpheme at all, leads to `ParseNegativeRuntime` with that cause. */
  lemma ExecTokenizerFailure(input: string, t: Tokenizer, isForceNegative: bool, draw: real)
    requires Trim(input) != [] && RemoveGacha(Trim(input)) != []
    requires t(RemoveGacha(Trim(input))).Throws? || t(RemoveGacha(Trim(input))) == Tokens([])
    ensures var r := Exec(input, Some(t), isForceNegative, draw);
      && r.Failure? && r.error.ParseNegativeRuntime? && r.error.message == FailedToParse
      && (t(RemoveGacha(Trim(input))).Throws? ==>
            r.error.originalError == TokenizerThrew(t(RemoveGacha(Trim(input))).message))
      && (t(RemoveGacha(Trim(input))) == Tokens([]) ==> r.error.originalError == NoLastMorpheme)
  {
    var n := NegativeOf(RemoveGacha(Trim(input)), t);
    assert n.Failure?;
    var r := Exec(input, Some(t), isForceNegative, draw);
    assert r.Failure? && r.error.ParseNegativeRuntime?;
    assert r.error.originalError == n.error;
  }
}
