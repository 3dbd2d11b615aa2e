/** `pluralize`, the one helper of the utilities the model keeps. */
module Utils {
  import opened Wrappers
  import opened Errors

  /**
   * `pluralize(word, n, suffix=…, plural=…)`: the word itself for exactly one,
   * otherwise the plural form when one is given, otherwise the word with the suffix.
   */
  function Pluralize(word: string, n: int, suffix: Option<string>, plural: Option<string>): Result<string, Error> {
    if n == 1 then Success(word)
    else if plural.Some? then Success(plural.value)
    else if suffix.Some? then Success(word + suffix.value)
    else Failure(NeitherSuffixNorPlural)
  }

  /** For one the word is returned unchanged, even with neither form given. */
  lemma PluralizeOne(word: string, suffix: Option<string>, plural: Option<string>)
    ensures Pluralize(word, 1, suffix, plural) == Success(word)
  {
  }

  /** For any other count, zero and negatives included, a given plural wins over a suffix. */
  lemma PluralizePluralFirst(word: string, n: int, suffix: Option<string>, plural: string)
    requires n != 1
    ensures Pluralize(word, n, suffix, Some(plural)) == Success(plural)
  {
  }

  /** Without a plural the suffix is appended: the result starts with the word and ends with the suffix. */
  lemma PluralizeSuffix(word: string, n: int, suffix: string)
    requires n != 1
    ensures Pluralize(word, n, Some(suffix), None).Success?
    ensures var r := Pluralize(word, n, Some(suffix), None).value;
      |r| == |word| + |suffix| && r[..|word|] == word && r[|word|..] == suffix
  {
  }

  /** The call fails exactly when the count is not one and neither form is given. */
  lemma PluralizeFails(word: string, n: int, suffix: Option<string>, plural: Option<string>)
    ensures Pluralize(word, n, suffix, plural).Failure? <==> n != 1 && suffix.None? && plural.None?
    ensures Pluralize(word, n, suffix, plural).Failure? ==>
      Pluralize(word, n, suffix, plural).error == NeitherSuffixNorPlural
  {
  }
}
