/**
 * The progress accounting inside `sync`: the copy tool's output arrives in chunks,
 * each chunk is searched for the leftmost match of the regular expression `\d+%`,
 * and the progress bar is advanced only when that percentage is strictly above the
 * last one reported. The bar itself is reduced to the list of calls made on it.
 */
module Progress {
  import opened Wrappers
  import opened Text

  /** Length of the run of decimal digits starting at position `i` of `s`. */
  function DigitRun(s: string, i: nat): (n: nat)
    requires i <= |s|
    ensures i + n <= |s|
    ensures forall k :: i <= k < i + n ==> IsDigit(s[k])
    ensures i + n == |s| || !IsDigit(s[i + n])
    decreases |s| - i
  {
    if i < |s| && IsDigit(s[i]) then 1 + DigitRun(s, i + 1) else 0
  }

  /** `\d+%` matches `s[i..j+1]`: one or more digits from `i`, then `%` at `j`. */
  ghost predicate PatternMatch(s: string, i: nat, j: nat) {
    i < j < |s| && (forall k :: i <= k < j ==> IsDigit(s[k])) && s[j] == '%'
  }

  /** A match of `\d+%` starts at `i`, and no match starts earlier: what `re.search` returns. */
  ghost predicate LeftmostMatch(s: string, i: nat, j: nat) {
    PatternMatch(s, i, j) && forall i': nat, j': nat :: i' < i ==> !PatternMatch(s, i', j')
  }

  /** A match starts at `i`: the greedy digit run from `i` is followed by `%`. */
  predicate MatchesAt(s: string, i: nat)
    requires i <= |s|
  {
    var n := DigitRun(s, i);
    n > 0 && i + n < |s| && s[i + n] == '%'
  }

  lemma MatchesAtIsPattern(s: string, i: nat)
    requires i <= |s|
    ensures MatchesAt(s, i) ==> PatternMatch(s, i, i + DigitRun(s, i))
    ensures forall j: nat :: PatternMatch(s, i, j) ==> MatchesAt(s, i) && j == i + DigitRun(s, i)
  {
    var n := DigitRun(s, i);
    forall j: nat | PatternMatch(s, i, j)
      ensures MatchesAt(s, i) && j == i + n
    {
      // a longer run would swallow the `%`
      assert j < i + n ==> IsDigit(s[j]);
    }
  }

  /** The first position at or after `i` where a match starts. */
  function Search(s: string, i: nat): (k: Option<nat>)
    requires i <= |s|
    ensures k.Some? ==> i <= k.value < |s| && MatchesAt(s, k.value)
    ensures k.Some? ==> forall j :: i <= j < k.value ==> !MatchesAt(s, j)
    ensures k.None? ==> forall j :: i <= j < |s| ==> !MatchesAt(s, j)
    decreases |s| - i
  {
    if i == |s| then None
    else if MatchesAt(s, i) then Some(i)
    else Search(s, i + 1)
  }

  /** `int(re.search(r"\d+%", chunk).group()[:-1])`, or None when the search finds nothing. */
  function PercentIn(chunk: string): Option<nat> {
    match Search(chunk, 0)
    case None => None
    case Some(i) => Some(DecimalValue(chunk[i..i + DigitRun(chunk, i)]))
  }

  /** PercentIn finds the value of the leftmost `\d+%` match, and nothing when there is none. */
  lemma PercentInIsLeftmostMatch(chunk: string)
    ensures PercentIn(chunk).None? <==> forall i: nat, j: nat :: !PatternMatch(chunk, i, j)
    ensures PercentIn(chunk).Some? ==>
      exists i: nat, j: nat :: LeftmostMatch(chunk, i, j) && i <= j <= |chunk| && AllDigits(chunk[i..j])
        && PercentIn(chunk).value == DecimalValue(chunk[i..j])
  {
    var k := Search(chunk, 0);
    forall i: nat, j: nat | PatternMatch(chunk, i, j)
      ensures k.Some? && k.value <= i
    {
      MatchesAtIsPattern(chunk, i);
    }
    if k.Some? {
      var i := k.value;
      var j := i + DigitRun(chunk, i);
      MatchesAtIsPattern(chunk, i);
      forall i': nat, j': nat | i' < i && PatternMatch(chunk, i', j')
        ensures false
      {
        MatchesAtIsPattern(chunk, i');
      }
      assert LeftmostMatch(chunk, i, j);
    }
  }

  /** A call made on the progress bar. */
  datatype Report =
    | Advance(amount: int)  // `update(task, advance=amount)`, or click's `bar.update(amount)`
    | Complete(total: int)  // `update(task, completed=total)`

  function Last<T>(s: seq<T>): T
    requires s != []
  {
    s[|s| - 1]
  }

  function Init<T>(s: seq<T>): seq<T>
    requires s != []
  {
    s[..|s| - 1]
  }

  /** The percentage reported after one more chunk: it moves only to a strictly greater match. */
  function Raised(before: nat, found: Option<nat>): nat {
    if found.Some? && found.value > before then found.value else before
  }

  /** The advance one more chunk reports. */
  function Step(before: nat, found: Option<nat>): seq<Report> {
    if found.Some? && found.value > before then [Advance(found.value - before)] else []
  }

  /** `current_percentage` after the chunks. */
  function Peak(chunks: seq<string>): nat
  {
    if chunks == [] then 0 else Raised(Peak(Init(chunks)), PercentIn(Last(chunks)))
  }

  /** The advances reported while the chunks are read. */
  function Advances(chunks: seq<string>): seq<Report>
  {
    if chunks == [] then [] else Advances(Init(chunks)) + Step(Peak(Init(chunks)), PercentIn(Last(chunks)))
  }

  /** The bar's `completed` value once the reports have been applied, starting from 0. */
  function Completed(reports: seq<Report>): int
  {
    if reports == [] then 0
    else
      match Last(reports)
      case Advance(d) => Completed(Init(reports)) + d
      case Complete(t) => t
  }

  /**
   * The loop of `sync`: every chunk is searched, and the bar is advanced by the
   * difference whenever the percentage found is above the last one reported.
   */
  method TrackAdvances(chunks: seq<string>) returns (reports: seq<Report>)
    ensures reports == Advances(chunks)
  {
    var current: nat := 0;
    reports := [];
    for i := 0 to |chunks|
      invariant current == Peak(chunks[..i])
      invariant reports == Advances(chunks[..i])
    {
      assert Init(chunks[..i + 1]) == chunks[..i] && Last(chunks[..i + 1]) == chunks[i];
      var found := PercentIn(chunks[i]);
      if found.None? {
        continue;
      }
      var percentage := found.value;
      if current >= percentage {
        continue;
      }
      reports := reports + [Advance(percentage - current)];
      current := percentage;
    }
    assert chunks[..|chunks|] == chunks;
  }

  /** The stream of `sync` with a rich progress bar, which ends with `completed=100`. */
  method TrackProgress(chunks: seq<string>) returns (reports: seq<Report>)
    ensures reports == Advances(chunks) + [Complete(100)]
  {
    reports := TrackAdvances(chunks);
    reports := reports + [Complete(100)];
  }

  /** The same stream driving a click progress bar, which ends with `bar.update(100)`. */
  method TrackProgressBar(chunks: seq<string>) returns (reports: seq<Report>)
    ensures reports == Advances(chunks) + [Advance(100)]
  {
    reports := TrackAdvances(chunks);
    reports := reports + [Advance(100)];
  }

  /** The peak is max(0, every percentage found), whatever order the chunks come in. */
  lemma {:induction false} PeakIsMaximum(chunks: seq<string>)
    ensures forall i :: 0 <= i < |chunks| && PercentIn(chunks[i]).Some? ==>
      PercentIn(chunks[i]).value <= Peak(chunks)
    ensures Peak(chunks) == 0 || exists i :: 0 <= i < |chunks| && PercentIn(chunks[i]) == Some(Peak(chunks))
  {
    if chunks != [] {
      var init := Init(chunks);
      PeakIsMaximum(init);
      assert forall i :: 0 <= i < |init| ==> chunks[i] == init[i];
      if Peak(chunks) != Peak(init) {
        assert PercentIn(chunks[|chunks| - 1]) == Some(Peak(chunks));
      } else if Peak(chunks) != 0 {
        var i :| 0 <= i < |init| && PercentIn(init[i]) == Some(Peak(init));
        assert PercentIn(chunks[i]) == Some(Peak(chunks));
      }
    }
  }

  /** Every advance is positive, so the bar never moves back. */
  lemma {:induction false} AdvancesPositive(chunks: seq<string>)
    ensures forall k :: 0 <= k < |Advances(chunks)| ==>
      Advances(chunks)[k].Advance? && Advances(chunks)[k].amount > 0
  {
    if chunks != [] {
      var init := Init(chunks);
      AdvancesPositive(init);
      var step := Step(Peak(init), PercentIn(Last(chunks)));
      assert Advances(chunks) == Advances(init) + step;
    }
  }

  /** The advances add up to the peak percentage. */
  lemma {:induction false} AdvancesSumToPeak(chunks: seq<string>)
    ensures Completed(Advances(chunks)) == Peak(chunks)
  {
    if chunks != [] {
      var init := Init(chunks);
      AdvancesSumToPeak(init);
      var step := Step(Peak(init), PercentIn(Last(chunks)));
      assert Advances(chunks) == Advances(init) + step;
      if step != [] {
        assert Init(Advances(chunks)) == Advances(init) && Last(Advances(chunks)) == step[0];
      } else {
        assert Advances(chunks) == Advances(init);
      }
    }
  }

  /** After the stream ends the bar reads exactly 100, however many advances preceded. */
  lemma CompletesAtHundred(chunks: seq<string>)
    ensures Completed(Advances(chunks) + [Complete(100)]) == 100
  {
  }

  /**
   * The final `completed=100` never moves the bar back exactly when no chunk reported
   * more than 100 per cent.
   */
  lemma FinalStepMonotone(chunks: seq<string>)
    ensures Completed(Advances(chunks)) <= Completed(Advances(chunks) + [Complete(100)])
      <==> Peak(chunks) <= 100
  {
    AdvancesSumToPeak(chunks);
  }

  /** With click's bar the total reported is the peak plus a further 100. */
  lemma BarOvershoots(chunks: seq<string>)
    ensures Completed(Advances(chunks) + [Advance(100)]) == Peak(chunks) + 100
  {
    AdvancesSumToPeak(chunks);
    assert Init(Advances(chunks) + [Advance(100)]) == Advances(chunks);
  }
}
