/** The query session of CMR/Query.py (`CMRQuery`): the fixed extra
    parameters, the cutoff instant, the subqueries built by the decomposer,
    their count, and the bounded merge of their results. */
module Query {
  import opened Wrappers
  import opened Decompose
  import Text

  /** The page size asked of the catalog unless `max_results` is smaller. */
  const DefaultPageSize: int := 2000

  /** The wall-clock budget of a session, 14.5 minutes, in seconds. */
  const TimeBudget: real := 870.0

  /** An opaque metadata record; the session never looks inside it. */
  datatype Record = Record(fields: map<string, string>)

  /** What the catalog holds for one subquery: its total match count, and
      the records its scrolled pages deliver, `None` for a null entry. */
  datatype Answer = Answer(count: nat, results: seq<Option<Record>>)

  /** The remote catalog, asked with a subquery's parameters and the extra
      parameters. */
  type Catalog = (seq<Pair>, seq<Pair>) -> Answer

  /** A `CMRSubQuery`: its parameters, and what the catalog answers for them. */
  datatype SubQuery = SubQuery(params: seq<Pair>, extraParams: seq<Pair>, count: nat, results: seq<Option<Record>>)

  /** `CMRSubQuery(params=..., extra_params=...)`. */
  function NewSubQuery(params: seq<Pair>, extraParams: seq<Pair>, catalog: Catalog): (sq: SubQuery)
    ensures sq.params == params && sq.extraParams == extraParams
    ensures Answer(sq.count, sq.results) == catalog(params, extraParams)
  {
    var answer := catalog(params, extraParams);
    SubQuery(params, extraParams, answer.count, answer.results)
  }

  /** Why `get_results` stopped: every subquery drained, `max_results`
      reached, or the cutoff passed. */
  datatype StopReason = Exhausted | Capped | TimedOut

  /** The result of draining candidates: the records yielded, how many
      candidates were consumed (drawn and passed both checks), why it
      stopped and the final counter. The candidate at which a run stops has
      been drawn from its subquery but is not consumed. */
  datatype Outcome = Outcome(yielded: seq<Record>, consumed: nat, stop: StopReason, counter: int)

  predicate IsSmallMaxResults(maxResults: Option<int>, pageSize: int) {
    maxResults.Some? && maxResults.value < pageSize
  }

  /** The `page_size` value sent to the catalog: the smaller of
      `max_results` and the default. */
  function RequestedPageSize(maxResults: Option<int>): (size: int)
    ensures size <= DefaultPageSize
    ensures maxResults.Some? ==> size <= maxResults.value
    ensures size == DefaultPageSize || maxResults == Some(size)
  {
    if IsSmallMaxResults(maxResults, DefaultPageSize) then maxResults.value else DefaultPageSize
  }

  /** The page is shrunk exactly when `max_results` is small. */
  lemma SmallMaxResultsShrinksPage(maxResults: Option<int>)
    ensures IsSmallMaxResults(maxResults, DefaultPageSize) <==> RequestedPageSize(maxResults) < DefaultPageSize
  {
  }

  /** The extra parameters sent with every subquery, in order. */
  function ExtraParams(pageSize: int): (ps: seq<Pair>)
    ensures |ps| == 7
    ensures ps[1] == Pair("page_size", Text.Decimal(pageSize))
    ensures forall i :: 0 <= i < |ps| && i != 1 ==> ps[i].field != "page_size"
    ensures ps[4] == Pair("sort_key[]", "-end_date") && ps[5] == Pair("sort_key[]", "granule_ur")
  {
    [ Pair("provider", "ASF"),
      Pair("page_size", Text.Decimal(pageSize)),
      Pair("scroll", "true"),
      Pair("options[temporal][and]", "true"),
      Pair("sort_key[]", "-end_date"),
      Pair("sort_key[]", "granule_ur"),
      Pair("options[platform][ignore_case]", "true") ]
  }

  /** The candidate records of some subqueries, one subquery after the other. */
  function Candidates(subs: seq<SubQuery>): seq<Option<Record>>
    decreases |subs|
  {
    if subs == [] then [] else Candidates(subs[..|subs| - 1]) + subs[|subs| - 1].results
  }

  /** The records among some candidates, in order, `None` left out. */
  function Present(cands: seq<Option<Record>>): seq<Record>
    decreases |cands|
  {
    if cands == [] then []
    else (if cands[0].Some? then [cands[0].value] else []) + Present(cands[1..])
  }

  /** The sum of the subqueries' counts. */
  function TotalCount(subs: seq<SubQuery>): int
    decreases |subs|
  {
    if subs == [] then 0 else TotalCount(subs[..|subs| - 1]) + subs[|subs| - 1].count
  }

  predicate MaxReached(maxResults: Option<int>, counter: int) {
    maxResults.Some? && counter >= maxResults.value
  }

  /** What `get_results` does from candidate `i` on, with the counter at
      `counter`: at each candidate, once drawn, it stops if the clock has
      passed the cutoff, then if the counter has reached `max_results`;
      otherwise it skips a `None` and yields a record, counting it. `clock(k)` is the
      instant at which the `k`-th candidate, once drawn, is checked. */
  function Drain(cands: seq<Option<Record>>, i: nat, counter: int, maxResults: Option<int>,
                 cutoff: real, clock: nat -> real): (o: Outcome)
    requires i <= |cands|
    ensures i <= o.consumed <= |cands|
    decreases |cands| - i
  {
    if i == |cands| then Outcome([], i, Exhausted, counter)
    else if clock(i) > cutoff then Outcome([], i, TimedOut, counter)
    else if MaxReached(maxResults, counter) then Outcome([], i, Capped, counter)
    else
      var rest := Drain(cands, i + 1, if cands[i].Some? then counter + 1 else counter, maxResults, cutoff, clock);
      if cands[i].Some? then rest.(yielded := [cands[i].value] + rest.yielded) else rest
  }

  /** What `Drain` consumes, yields and counts, and why it stops: the
      records of the consumed candidates are yielded and counted; every
      consumed candidate was checked at or before the cutoff; it stops short
      of the end only at a candidate drawn and checked after the cutoff, or
      at one drawn with the counter at or past `max_results`; that candidate
      is not consumed. Every consumed candidate was checked with the counter
      below the cap, so the first candidate drawn at the cap ends the run. */
  lemma {:induction false} DrainSpec(cands: seq<Option<Record>>, i: nat, counter: int, maxResults: Option<int>,
                                     cutoff: real, clock: nat -> real)
    requires i <= |cands|
    ensures var o := Drain(cands, i, counter, maxResults, cutoff, clock);
      o.yielded == Present(cands[i..o.consumed]) &&
      o.counter == counter + |o.yielded| &&
      (o.stop == Exhausted <==> o.consumed == |cands|) &&
      (o.stop == TimedOut ==> clock(o.consumed) > cutoff) &&
      (o.stop == Capped ==> clock(o.consumed) <= cutoff && MaxReached(maxResults, o.counter)) &&
      (forall k :: i <= k < o.consumed ==> clock(k) <= cutoff) &&
      (forall k :: i <= k < o.consumed ==> !MaxReached(maxResults, counter + |Present(cands[i..k])|))
    decreases |cands| - i
  {
    var o := Drain(cands, i, counter, maxResults, cutoff, clock);
    if i < |cands| && clock(i) <= cutoff && !MaxReached(maxResults, counter) {
      var next := if cands[i].Some? then counter + 1 else counter;
      DrainSpec(cands, i + 1, next, maxResults, cutoff, clock);
      var rest := Drain(cands, i + 1, next, maxResults, cutoff, clock);
      PresentStep(cands, i, rest.consumed);
      forall k | i < k < o.consumed
        ensures !MaxReached(maxResults, counter + |Present(cands[i..k])|)
      {
        PresentStep(cands, i, k);
      }
      assert cands[i..i] == [];
    }
  }

  /** The records of `cands[i..k]` are those of candidate `i`, then those of
      the rest. */
  lemma PresentStep(cands: seq<Option<Record>>, i: nat, k: nat)
    requires i < k <= |cands|
    ensures Present(cands[i..k]) == (if cands[i].Some? then [cands[i].value] else []) + Present(cands[i + 1..k])
  {
    assert cands[i..k][0] == cands[i];
    assert cands[i..k][1..] == cands[i + 1..k];
  }

  /** `rest` with `yielded` in front of what it yields. */
  function Prepend(yielded: seq<Record>, rest: Outcome): (o: Outcome)
    ensures o.yielded == yielded + rest.yielded && o.consumed == rest.consumed
    ensures o.stop == rest.stop && o.counter == rest.counter
  {
    rest.(yielded := yielded + rest.yielded)
  }

  /** After `yielded`, draining from candidate `i` with the counter at
      `counter` finishes what `whole` describes. */
  ghost predicate ResumesAt(cands: seq<Option<Record>>, i: nat, counter: int, maxResults: Option<int>,
                            cutoff: real, clock: nat -> real, whole: Outcome, yielded: seq<Record>)
  {
    i <= |cands| && Prepend(yielded, Drain(cands, i, counter, maxResults, cutoff, clock)) == whole
  }

  /** One candidate that passes both checks moves the resumption point on:
      a record is yielded and counted, a `None` is skipped. */
  lemma ResumeAfter(cands: seq<Option<Record>>, i: nat, counter: int, maxResults: Option<int>,
                    cutoff: real, clock: nat -> real, whole: Outcome, yielded: seq<Record>,
                    yielded': seq<Record>, counter': int)
    requires i < |cands| && clock(i) <= cutoff && !MaxReached(maxResults, counter)
    requires ResumesAt(cands, i, counter, maxResults, cutoff, clock, whole, yielded)
    requires cands[i].Some? ==> yielded' == yielded + [cands[i].value] && counter' == counter + 1
    requires cands[i].None? ==> yielded' == yielded && counter' == counter
    ensures ResumesAt(cands, i + 1, counter', maxResults, cutoff, clock, whole, yielded')
  {
  }

  /** Resuming at the end of the candidates finishes the drain as it is. */
  lemma ResumeAtEnd(cands: seq<Option<Record>>, counter: int, maxResults: Option<int>,
                    cutoff: real, clock: nat -> real, whole: Outcome, yielded: seq<Record>)
    requires ResumesAt(cands, |cands|, counter, maxResults, cutoff, clock, whole, yielded)
    ensures whole.yielded == yielded && whole.stop == Exhausted && whole.counter == counter
  {
  }

  lemma {:induction false} PresentAppend(a: seq<Option<Record>>, b: seq<Option<Record>>)
    ensures Present(a + b) == Present(a) + Present(b)
    decreases |a|
  {
    if a != [] {
      var head := if a[0].Some? then [a[0].value] else [];
      assert (a + b)[0] == a[0];
      assert (a + b)[1..] == a[1..] + b;
      PresentAppend(a[1..], b);
      calc {
        Present(a + b);
        head + Present(a[1..] + b);
        head + (Present(a[1..]) + Present(b));
        (head + Present(a[1..])) + Present(b);
        Present(a) + Present(b);
      }
    } else {
      assert a + b == b;
    }
  }

  /** The counter only grows, and never passes `max_results` if it starts
      at or below it. */
  lemma {:induction false} DrainRespectsCap(cands: seq<Option<Record>>, i: nat, counter: int, maxResults: Option<int>,
                                            cutoff: real, clock: nat -> real)
    requires i <= |cands|
    ensures var o := Drain(cands, i, counter, maxResults, cutoff, clock);
      counter <= o.counter &&
      (maxResults.Some? && counter <= maxResults.value ==> o.counter <= maxResults.value)
    decreases |cands| - i
  {
    if i < |cands| && clock(i) <= cutoff && !MaxReached(maxResults, counter) {
      DrainRespectsCap(cands, i + 1, if cands[i].Some? then counter + 1 else counter, maxResults, cutoff, clock);
    }
  }

  /** What is yielded is a prefix of all the records of the candidates. */
  lemma YieldsPrefix(cands: seq<Option<Record>>, i: nat, counter: int, maxResults: Option<int>,
                     cutoff: real, clock: nat -> real)
    requires i <= |cands|
    ensures Drain(cands, i, counter, maxResults, cutoff, clock).yielded <= Present(cands[i..])
  {
    DrainSpec(cands, i, counter, maxResults, cutoff, clock);
    var o := Drain(cands, i, counter, maxResults, cutoff, clock);
    assert cands[i..] == cands[i..o.consumed] + cands[o.consumed..];
    PresentAppend(cands[i..o.consumed], cands[o.consumed..]);
  }

  /** Once the clock passes the cutoff at candidate `k`, that candidate
      (which may be drawn) and the later ones are not consumed, and nothing
      of theirs is yielded. */
  lemma NothingAfterCutoff(cands: seq<Option<Record>>, i: nat, counter: int, maxResults: Option<int>,
                           cutoff: real, clock: nat -> real, k: nat)
    requires i <= k < |cands|
    requires clock(k) > cutoff
    ensures var o := Drain(cands, i, counter, maxResults, cutoff, clock);
      o.consumed <= k && o.stop != Exhausted && o.yielded <= Present(cands[i..k])
  {
    DrainSpec(cands, i, counter, maxResults, cutoff, clock);
    var o := Drain(cands, i, counter, maxResults, cutoff, clock);
    assert cands[i..k] == cands[i..o.consumed] + cands[o.consumed..k];
    PresentAppend(cands[i..o.consumed], cands[o.consumed..k]);
  }

  /** With no `max_results` and no timeout every record is yielded. */
  lemma YieldsAllWhenUnbounded(cands: seq<Option<Record>>, i: nat, counter: int,
                               cutoff: real, clock: nat -> real)
    requires i <= |cands|
    requires forall k :: i <= k < |cands| ==> clock(k) <= cutoff
    ensures var o := Drain(cands, i, counter, None, cutoff, clock);
      o.stop == Exhausted && o.yielded == Present(cands[i..])
  {
    DrainSpec(cands, i, counter, None, cutoff, clock);
    var o := Drain(cands, i, counter, None, cutoff, clock);
    assert cands[i..] == cands[i..|cands|];
  }

  /** With `max_results` set, no timeout and enough records, exactly the
      first `max_results - counter` records are yielded. */
  lemma YieldsExactlyTheCap(cands: seq<Option<Record>>, i: nat, counter: int, max: int,
                            cutoff: real, clock: nat -> real)
    requires i <= |cands|
    requires counter <= max
    requires forall k :: i <= k < |cands| ==> clock(k) <= cutoff
    requires |Present(cands[i..])| >= max - counter
    ensures var o := Drain(cands, i, counter, Some(max), cutoff, clock);
      o.counter == max && o.yielded == Present(cands[i..])[..max - counter]
  {
    DrainSpec(cands, i, counter, Some(max), cutoff, clock);
    var o := Drain(cands, i, counter, Some(max), cutoff, clock);
    DrainRespectsCap(cands, i, counter, Some(max), cutoff, clock);
    YieldsPrefix(cands, i, counter, Some(max), cutoff, clock);
    if o.stop == Exhausted {
      assert cands[i..] == cands[i..|cands|];
    }
    assert |o.yielded| == max - counter;
  }

  /** A whole session yields a prefix of all the records, and counts each
      one it yields. */
  lemma DrainFromStart(cands: seq<Option<Record>>, counter: int, maxResults: Option<int>,
                       cutoff: real, clock: nat -> real)
    ensures var o := Drain(cands, 0, counter, maxResults, cutoff, clock);
      o.counter == counter + |o.yielded| && o.yielded <= Present(cands)
  {
    DrainSpec(cands, 0, counter, maxResults, cutoff, clock);
    YieldsPrefix(cands, 0, counter, maxResults, cutoff, clock);
    assert cands[0..] == cands;
  }

  lemma {:induction false} CandidatesPrefix(subs: seq<SubQuery>, n: nat)
    requires n <= |subs|
    ensures Candidates(subs[..n]) <= Candidates(subs)
    decreases |subs|
  {
    if n < |subs| {
      var init := subs[..|subs| - 1];
      CandidatesPrefix(init, n);
      assert init[..n] == subs[..n];
    } else {
      assert subs[..n] == subs;
    }
  }

  /** The candidates of the first `q + 1` subqueries are those of the first
      `q`, then the results of subquery `q`. */
  lemma CandidatesStep(subs: seq<SubQuery>, q: nat)
    requires q < |subs|
    ensures Candidates(subs[..q + 1]) == Candidates(subs[..q]) + subs[q].results
  {
    assert subs[..q + 1][..q] == subs[..q];
  }

  /** The results of subquery `q` are the candidates numbered after all
      those of the earlier subqueries. */
  lemma CandidatesAt(subs: seq<SubQuery>, q: nat, start: nat)
    requires q < |subs| && start == |Candidates(subs[..q])|
    ensures start + |subs[q].results| == |Candidates(subs[..q + 1])| <= |Candidates(subs)|
    ensures Candidates(subs)[start..start + |subs[q].results|] == subs[q].results
  {
    CandidatesStep(subs, q);
    CandidatesPrefix(subs, q + 1);
    var m := |Candidates(subs[..q + 1])|;
    assert Candidates(subs)[..m] == Candidates(subs[..q + 1]);
    assert Candidates(subs)[start..m] == Candidates(subs[..q + 1])[start..];
  }

  /** For a catalog whose counts are the numbers of records it delivers,
      an unbounded session without timeout yields as many records as the
      count says. */
  lemma {:induction false} CountMatchesUnboundedYield(subs: seq<SubQuery>)
    requires forall i :: 0 <= i < |subs| ==> subs[i].count == |Present(subs[i].results)|
    ensures TotalCount(subs) == |Present(Candidates(subs))|
    decreases |subs|
  {
    if subs != [] {
      var init := subs[..|subs| - 1];
      CountMatchesUnboundedYield(init);
      PresentAppend(Candidates(init), subs[|subs| - 1].results);
    }
  }

  class CMRQuery {
    const maxResults: Option<int>
    const pageSize: int
    const params: seq<Filter>
    const extraParams: seq<Pair>
    const cutoffTime: real
    const subQueries: seq<SubQuery>
    var resultCounter: int

    ghost predicate Valid()
      reads this
    {
      pageSize == DefaultPageSize &&
      extraParams == ExtraParams(RequestedPageSize(maxResults)) &&
      (forall i :: 0 <= i < |subQueries| ==> subQueries[i].extraParams == extraParams) &&
      0 <= resultCounter &&
      (maxResults.Some? && maxResults.value >= 0 ==> resultCounter <= maxResults.value)
    }

    /** `__init__` when the filters decompose; `NewQuery` covers the failure. */
    constructor (params: seq<Filter>, maxResults: Option<int>, inputMap: InputMap, now: real, catalog: Catalog)
      requires SubqueryListFrom(params, inputMap).Success?
      ensures Valid()
      ensures this.params == params && this.maxResults == maxResults
      ensures extraParams[1] == Pair("page_size", Text.Decimal(RequestedPageSize(maxResults)))
      ensures resultCounter == 0
      ensures cutoffTime == now + TimeBudget
      ensures |subQueries| == |SubqueryListFrom(params, inputMap).value|
      ensures forall i :: 0 <= i < |subQueries| ==>
        subQueries[i] == NewSubQuery(SubqueryListFrom(params, inputMap).value[i], extraParams, catalog)
    {
      this.maxResults := maxResults;
      this.pageSize := DefaultPageSize;
      this.params := params;
      var extra := ExtraParams(if IsSmallMaxResults(maxResults, DefaultPageSize) then maxResults.value else DefaultPageSize);
      this.extraParams := extra;
      this.resultCounter := 0;
      this.cutoffTime := now + TimeBudget;
      var queries := SubqueryListFrom(params, inputMap).value;
      this.subQueries := seq(|queries|, i requires 0 <= i < |queries| => NewSubQuery(queries[i], extra, catalog));
    }

    /** `is_out_of_time()`, at the instant the clock reads. */
    predicate IsOutOfTime(instant: real) {
      instant > cutoffTime
    }

    /** `max_results_reached()`: once it holds, the counter sits at the cap. */
    predicate MaxResultsReached(): (reached: bool)
      reads this
      ensures reached && Valid() && maxResults.Some? && maxResults.value >= 0 ==> resultCounter == maxResults.value
    {
      MaxReached(maxResults, resultCounter)
    }

    /** `get_count()`: the sum of the subqueries' counts. */
    method GetCount() returns (count: int)
      ensures count == TotalCount(subQueries)
    {
      count := 0;
      var i := 0;
      while i < |subQueries|
        invariant 0 <= i <= |subQueries|
        invariant count == TotalCount(subQueries[..i])
      {
        assert subQueries[..i + 1][..i] == subQueries[..i];
        count := count + subQueries[i].count;
        i := i + 1;
      }
      assert subQueries[..i] == subQueries;
    }

    /** `get_results()`, run until it stops: the subqueries in order, each
        drained before the next, under the cutoff and `max_results`. */
    method GetResults(clock: nat -> real) returns (yielded: seq<Record>, stop: StopReason)
      requires Valid()
      modifies this
      ensures Valid()
      ensures var o := Drain(Candidates(subQueries), 0, old(resultCounter), maxResults, cutoffTime, clock);
        yielded == o.yielded && stop == o.stop && resultCounter == o.counter
      ensures resultCounter == old(resultCounter) + |yielded|
      ensures yielded <= Present(Candidates(subQueries))
    {
      ghost var cands := Candidates(subQueries);
      ghost var whole := Drain(cands, 0, resultCounter, maxResults, cutoffTime, clock);
      DrainRespectsCap(cands, 0, resultCounter, maxResults, cutoffTime, clock);
      DrainFromStart(cands, resultCounter, maxResults, cutoffTime, clock);
      yielded := [];
      var consumed := 0;
      var q := 0;
      while q < |subQueries|
        invariant 0 <= q <= |subQueries|
        invariant consumed == |Candidates(subQueries[..q])|
        invariant ResumesAt(cands, consumed, resultCounter, maxResults, cutoffTime, clock, whole, yielded)
      {
        var results := subQueries[q].results;
        CandidatesAt(subQueries, q, consumed);
        var stopped;
        consumed, yielded, stopped := DrainResults(results, clock, cands, consumed, whole, yielded);
        if stopped.Some? {
          stop := stopped.value;
          return;
        }
        q := q + 1;
      }
      assert subQueries[..q] == subQueries;
      ResumeAtEnd(cands, resultCounter, maxResults, cutoffTime, clock, whole, yielded);
      stop := Exhausted;
    }

    /** The inner loop of `get_results()` over the results of one subquery,
        which are the candidates from `start` on; `stopped` says whether the
        cutoff or `max_results` ended the session inside it. */
    method DrainResults(results: seq<Option<Record>>, clock: nat -> real, ghost cands: seq<Option<Record>>,
                        start: nat, ghost whole: Outcome, yielded0: seq<Record>)
      returns (consumed: nat, yielded: seq<Record>, stopped: Option<StopReason>)
      requires start + |results| <= |cands|
      requires cands[start..start + |results|] == results
      requires ResumesAt(cands, start, resultCounter, maxResults, cutoffTime, clock, whole, yielded0)
      modifies this
      ensures stopped.None? ==>
        consumed == start + |results| &&
        ResumesAt(cands, consumed, resultCounter, maxResults, cutoffTime, clock, whole, yielded)
      ensures stopped.Some? ==> yielded == whole.yielded && stopped.value == whole.stop && resultCounter == whole.counter
    {
      yielded := yielded0;
      consumed := start;
      var j := 0;
      while j < |results|
        invariant 0 <= j <= |results| && consumed == start + j
        invariant ResumesAt(cands, consumed, resultCounter, maxResults, cutoffTime, clock, whole, yielded)
      {
        if IsOutOfTime(clock(consumed)) {
          return consumed, yielded, Some(TimedOut);
        }
        if MaxResultsReached() {
          return consumed, yielded, Some(Capped);
        }
        ghost var before, counterBefore := yielded, resultCounter;
        var result := results[j];
        assert result == cands[start..start + |results|][j];
        if result.Some? {
          resultCounter := resultCounter + 1;
          yielded := yielded + [result.value];
        }
        ResumeAfter(cands, consumed, counterBefore, maxResults, cutoffTime, clock, whole, before, yielded, resultCounter);
        consumed, j := consumed + 1, j + 1;
      }
      stopped := None;
    }
  }

  /** `CMRQuery(params, max_results)`: an unmapped filter raises before any
      subquery exists. */
  method NewQuery(params: seq<Filter>, maxResults: Option<int>, inputMap: InputMap, now: real, catalog: Catalog)
    returns (r: Result<CMRQuery, DecomposeError>)
    ensures r.Failure? <==> !AllMapped(params, inputMap)
    ensures r.Failure? ==> r.error == SubqueryListFrom(params, inputMap).error
    ensures r.Success? ==>
      fresh(r.value) && r.value.Valid() && r.value.resultCounter == 0 &&
      r.value.params == params && r.value.maxResults == maxResults &&
      r.value.extraParams[1] == Pair("page_size", Text.Decimal(RequestedPageSize(maxResults))) &&
      r.value.cutoffTime == now + TimeBudget &&
      |r.value.subQueries| == |SubqueryListFrom(params, inputMap).value| &&
      forall i :: 0 <= i < |r.value.subQueries| ==>
        r.value.subQueries[i] == NewSubQuery(SubqueryListFrom(params, inputMap).value[i], r.value.extraParams, catalog)
  {
    var queries := SubqueryListFrom(params, inputMap);
    if queries.Failure? {
      return Failure(queries.error);
    }
    var q := new CMRQuery(params, maxResults, inputMap, now, catalog);
    return Success(q);
  }
}
