/**
 * The app's session state: the analysis history and the latest batch's
 * results, with the single-page button, the batch loop and the two clear
 * buttons as the operations that change it.
 */
module App {
  import opened Wrappers
  import opened Documents
  import opened Scoring
  import opened Analysis

  /** One entry of the batch's `errors` list: the input as given, and the reason. */
  datatype BatchError = BatchError(url: string, error: string)

  /** What the batch loop does, in order: run the analysis of item `i`, or sleep one second. */
  datatype Event = Visit(i: nat) | Pause

  /** The events of the first `i` items of an `n`-item batch: each item, then a pause unless it is the last. */
  function Events(i: nat, n: nat): seq<Event> {
    if i == 0 then [] else Events(i - 1, n) + [Visit(i - 1)] + (if i - 1 < n - 1 then [Pause] else [])
  }

  function Pauses(t: seq<Event>): nat {
    if t == [] then 0 else Pauses(t[..|t| - 1]) + (if t[|t| - 1] == Pause then 1 else 0)
  }

  /** The items visited, in order. */
  function Visited(t: seq<Event>): seq<nat> {
    if t == [] then [] else Visited(t[..|t| - 1]) + (if t[|t| - 1].Visit? then [t[|t| - 1].i] else [])
  }

  lemma PausesAppend(t: seq<Event>, u: seq<Event>)
    ensures Pauses(t + u) == Pauses(t) + Pauses(u)
    ensures Visited(t + u) == Visited(t) + Visited(u)
    decreases |u|
  {
    if u != [] {
      assert (t + u)[..|t + u| - 1] == t + u[..|u| - 1];
      PausesAppend(t, u[..|u| - 1]);
    } else {
      assert t + u == t;
    }
  }

  /** Every item is visited once, in input order, and a pause separates each item from the next. */
  lemma {:induction false} PacingCounts(i: nat, n: nat)
    requires i <= n
    ensures i < n ==> Pauses(Events(i, n)) == i
    ensures 0 < i == n ==> Pauses(Events(i, n)) == i - 1
    ensures |Visited(Events(i, n))| == i
    ensures forall k :: 0 <= k < i ==> Visited(Events(i, n))[k] == k
  {
    if i > 0 {
      PacingCounts(i - 1, n);
      EventsStep(i, n);
    }
  }

  /** One more item adds its visit, and a pause unless it is the last. */
  lemma EventsStep(i: nat, n: nat)
    requires 0 < i <= n
    ensures Pauses(Events(i, n)) == Pauses(Events(i - 1, n)) + (if i < n then 1 else 0)
    ensures Visited(Events(i, n)) == Visited(Events(i - 1, n)) + [i - 1]
  {
    var e := Events(i - 1, n);
    var p: seq<Event> := if i - 1 < n - 1 then [Pause] else [];
    assert Events(i, n) == e + ([Visit(i - 1)] + p);
    PausesAppend(e, [Visit(i - 1)] + p);
    PausesAppend([Visit(i - 1)], p);
    assert [Visit(i - 1)][..0] == [];
    assert Pauses([Visit(i - 1)]) == 0 && Visited([Visit(i - 1)]) == [i - 1];
    if p != [] {
      assert [Pause][..0] == [];
    }
    assert Pauses(p) == |p| && Visited(p) == [];
  }

  /** A whole batch of `n` items makes `n - 1` pauses and ends with its last item. */
  lemma BatchPacing(n: nat)
    requires n > 0
    ensures Pauses(Events(n, n)) == n - 1
    ensures Events(n, n)[|Events(n, n)| - 1] == Visit(n - 1)
  {
    PacingCounts(n, n);
  }

  /** `batch_results`: the successful analyses, in input order. */
  function Successes(os: seq<Result<AnalysisResult, string>>): seq<AnalysisResult> {
    if os == [] then []
    else Successes(os[..|os| - 1]) + (if os[|os| - 1].Success? then [os[|os| - 1].value] else [])
  }

  /** `errors`: the input and the reason of every failed analysis, in input order. */
  function Failures(urls: seq<string>, os: seq<Result<AnalysisResult, string>>): seq<BatchError>
    requires |urls| == |os|
  {
    if os == [] then []
    else
      var k := |os| - 1;
      Failures(urls[..k], os[..k]) + (if os[k].Failure? then [BatchError(urls[k], os[k].error)] else [])
  }

  lemma {:induction false} SuccessesAppend(a: seq<Result<AnalysisResult, string>>, b: seq<Result<AnalysisResult, string>>)
    ensures Successes(a + b) == Successes(a) + Successes(b)
    decreases |b|
  {
    if b == [] {
      assert a + b == a;
    } else {
      var k := |b| - 1;
      assert (a + b)[..|a + b| - 1] == a + b[..k];
      SuccessesAppend(a, b[..k]);
    }
  }

  lemma {:induction false} FailuresAppend(ua: seq<string>, a: seq<Result<AnalysisResult, string>>,
                                          ub: seq<string>, b: seq<Result<AnalysisResult, string>>)
    requires |ua| == |a| && |ub| == |b|
    ensures Failures(ua + ub, a + b) == Failures(ua, a) + Failures(ub, b)
    decreases |b|
  {
    if b == [] {
      assert a + b == a && ua + ub == ua;
    } else {
      var k := |b| - 1;
      assert (a + b)[..|a + b| - 1] == a + b[..k];
      assert (ua + ub)[..|a + b| - 1] == ua + ub[..k];
      FailuresAppend(ua, a, ub[..k], b[..k]);
    }
  }

  /**
   * Each item lands in exactly one of the two lists, at its own place: the
   * lists are those of the items before it, then its own entry, then those of
   * the items after it.
   */
  lemma LandsOnce(urls: seq<string>, os: seq<Result<AnalysisResult, string>>, i: int)
    requires |urls| == |os| && 0 <= i < |os|
    ensures Successes(os) == Successes(os[..i]) + Successes([os[i]]) + Successes(os[i + 1..])
    ensures Failures(urls, os) == Failures(urls[..i], os[..i]) + Failures([urls[i]], [os[i]]) + Failures(urls[i + 1..], os[i + 1..])
    ensures |Successes([os[i]])| + |Failures([urls[i]], [os[i]])| == 1
    ensures os[i].Success? ==> Successes([os[i]]) == [os[i].value]
    ensures os[i].Failure? ==> Failures([urls[i]], [os[i]]) == [BatchError(urls[i], os[i].error)]
  {
    assert os == os[..i] + [os[i]] + os[i + 1..];
    assert urls == urls[..i] + [urls[i]] + urls[i + 1..];
    SuccessesAppend(os[..i] + [os[i]], os[i + 1..]);
    SuccessesAppend(os[..i], [os[i]]);
    FailuresAppend(urls[..i] + [urls[i]], os[..i] + [os[i]], urls[i + 1..], os[i + 1..]);
    FailuresAppend(urls[..i], os[..i], [urls[i]], [os[i]]);
    assert [os[i]][..0] == [] && [urls[i]][..0] == [];
  }

  /** `|batch_results| + |errors| == |urls|`. */
  lemma {:induction false} SplitCount(urls: seq<string>, os: seq<Result<AnalysisResult, string>>)
    requires |urls| == |os|
    ensures |Successes(os)| + |Failures(urls, os)| == |os|
  {
    if os != [] {
      SplitCount(urls[..|os| - 1], os[..|os| - 1]);
    }
  }

  /** `[f(xs[k], ys[k]) for k in range(len(xs))]`, built item by item. */
  function Pairwise<R>(xs: seq<string>, ys: seq<string>, f: (string, string) -> R): (rs: seq<R>)
    requires |xs| == |ys|
    ensures |rs| == |xs|
  {
    if xs == [] then []
    else
      var k := |xs| - 1;
      Pairwise(xs[..k], ys[..k], f) + [f(xs[k], ys[k])]
  }

  lemma {:induction false} PairwiseAt<R>(xs: seq<string>, ys: seq<string>, f: (string, string) -> R, i: int)
    requires |xs| == |ys| && 0 <= i < |xs|
    ensures Pairwise(xs, ys, f)[i] == f(xs[i], ys[i])
  {
    var k := |xs| - 1;
    if i < k {
      PairwiseAt(xs[..k], ys[..k], f, i);
    }
  }

  /** `run_analysis` of a URL at a time, against the network `web`. */
  function AnalyzeAt(web: map<string, FetchOutcome>): (string, string) -> Result<AnalysisResult, string> {
    (u, t) => AnalysisOf(u, web, t)
  }

  /** The outcome of every item of a batch, item `i` analysed at time `stamps[i]`. */
  function Outcomes(urls: seq<string>, web: map<string, FetchOutcome>, stamps: seq<string>): (os: seq<Result<AnalysisResult, string>>)
    requires |stamps| == |urls|
    ensures |os| == |urls|
  {
    Pairwise(urls, stamps, AnalyzeAt(web))
  }

  /** Item `i` of the batch is analysed at its own time, whatever the other items are. */
  lemma OutcomesAt(urls: seq<string>, web: map<string, FetchOutcome>, stamps: seq<string>, i: int)
    requires |stamps| == |urls| && 0 <= i < |urls|
    ensures Outcomes(urls, web, stamps)[i] == AnalysisOf(urls[i], web, stamps[i])
  {
    PairwiseAt(urls, stamps, AnalyzeAt(web), i);
  }

  /**
   * `os` holds the outcomes of the first `|os|` items, item `k` analysed at
   * time `stamps[k]`. The trigger lets the solver relate an item to its
   * analysis only where that analysis is already named.
   */
  predicate Analysed(urls: seq<string>, web: map<string, FetchOutcome>, stamps: seq<string>, os: seq<Result<AnalysisResult, string>>) {
    && |stamps| == |urls| && |os| <= |urls|
    && forall k {:trigger AnalysisOf(urls[k], web, stamps[k])} :: 0 <= k < |os| ==> os[k] == AnalysisOf(urls[k], web, stamps[k])
  }

  /** Outcomes for every item are the batch's outcomes. */
  lemma AnalysedOutcomes(urls: seq<string>, web: map<string, FetchOutcome>, stamps: seq<string>, os: seq<Result<AnalysisResult, string>>)
    requires Analysed(urls, web, stamps, os) && |os| == |urls|
    ensures os == Outcomes(urls, web, stamps)
  {
    forall k | 0 <= k < |os| ensures os[k] == Outcomes(urls, web, stamps)[k] {
      OutcomesAt(urls, web, stamps, k);
    }
  }

  /** Every result of the list keeps the facts of a stored result. */
  predicate AllSound(s: seq<AnalysisResult>) {
    forall k :: 0 <= k < |s| ==> Sound(s[k])
  }

  lemma AllSoundSnoc(s: seq<AnalysisResult>, x: AnalysisResult)
    requires AllSound(s) && Sound(x)
    ensures AllSound(s + [x])
  {
  }

  lemma AllSoundAppend(s: seq<AnalysisResult>, t: seq<AnalysisResult>)
    requires AllSound(s) && AllSound(t)
    ensures AllSound(s + t)
  {
  }

  /** `run_analysis` of item `i` of a batch, once the items before it have their outcomes `os`. */
  method AnalyzeItem(urls: seq<string>, web: map<string, FetchOutcome>, stamps: seq<string>,
                     ghost os: seq<Result<AnalysisResult, string>>, i: int)
    returns (r: Result<AnalysisResult, string>)
    requires Analysed(urls, web, stamps, os) && i == |os| < |urls|
    ensures Analysed(urls, web, stamps, os + [r])
    ensures r.Success? ==> Sound(r.value)
  {
    r := AnalyzeSound(urls[i], web, stamps[i]);
    AnalysedSnoc(urls, web, stamps, os, r);
  }

  /** `run_analysis`, with the facts every stored result keeps. */
  method AnalyzeSound(input: string, web: map<string, FetchOutcome>, stamp: string)
    returns (r: Result<AnalysisResult, string>)
    ensures r == AnalysisOf(input, web, stamp)
    ensures r.Success? ==> Sound(r.value)
  {
    r := RunAnalysis(input, web, stamp);
    if r.Success? {
      ResultSound(input, web, stamp);
    }
  }

  /** The outcome of the next item extends the outcomes. */
  lemma AnalysedSnoc(urls: seq<string>, web: map<string, FetchOutcome>, stamps: seq<string>,
                     os: seq<Result<AnalysisResult, string>>, r: Result<AnalysisResult, string>)
    requires Analysed(urls, web, stamps, os) && |os| < |urls|
    requires r == AnalysisOf(urls[|os|], web, stamps[|os|])
    ensures Analysed(urls, web, stamps, os + [r])
  {
    forall k | 0 <= k < |os| + 1 ensures (os + [r])[k] == AnalysisOf(urls[k], web, stamps[k]) {
      if k < |os| {
        assert (os + [r])[k] == os[k];
      }
    }
  }

  /**
   * The batch loop: every item is analysed in order, item `i` at time
   * `stamps[i]`; a success is collected, a failure goes to `errors` with its
   * input, and a pause follows every item but the last.
   */
  method Batch(urls: seq<string>, web: map<string, FetchOutcome>, stamps: seq<string>)
    returns (results: seq<AnalysisResult>, errors: seq<BatchError>, trace: seq<Event>)
    requires |stamps| == |urls|
    ensures results == Successes(Outcomes(urls, web, stamps)) && AllSound(results)
    ensures errors == Failures(urls, Outcomes(urls, web, stamps))
    ensures trace == Events(|urls|, |urls|)
  {
    results := [];
    errors := [];
    trace := [];
    ghost var os: seq<Result<AnalysisResult, string>> := [];
    var i := 0;
    while i < |urls|
      invariant 0 <= i <= |urls| && |os| == i
      invariant Analysed(urls, web, stamps, os)
      invariant results == Successes(os) && AllSound(results)
      invariant errors == Failures(urls[..i], os)
      invariant trace == Events(i, |urls|)
    {
      trace := trace + [Visit(i)];
      var r := AnalyzeItem(urls, web, stamps, os, i);
      if r.Failure? {
        errors := errors + [BatchError(urls[i], r.error)];
      } else {
        AllSoundSnoc(results, r.value);
        results := results + [r.value];
      }
      if i < |urls| - 1 {
        trace := trace + [Pause];
      }
      Snoc(urls, os, r, i);
      os := os + [r];
      i := i + 1;
    }
    assert urls[..i] == urls;
    AnalysedOutcomes(urls, web, stamps, os);
  }

  /** The single-page button over the history `h0`. */
  method Press(h0: seq<AnalysisResult>, input: string, web: map<string, FetchOutcome>, stamp: string)
    returns (shown: Option<Result<AnalysisResult, string>>, h: seq<AnalysisResult>)
    requires AllSound(h0)
    ensures AllSound(h)
    ensures shown == if input == "" then None else Some(AnalysisOf(input, web, stamp))
    ensures h == Session.Record(h0, shown)
  {
    if input == "" {
      shown := None;
    } else {
      var r := AnalyzeSound(input, web, stamp);
      shown := Some(r);
    }
    RecordSound(h0, shown);
    h := Session.Record(h0, shown);
  }

  /** Recording what the button showed keeps the history sound. */
  lemma RecordSound(h0: seq<AnalysisResult>, shown: Option<Result<AnalysisResult, string>>)
    requires AllSound(h0)
    requires shown.Some? && shown.value.Success? ==> Sound(shown.value.value)
    ensures AllSound(Session.Record(h0, shown))
  {
  }

  class Session {
    /** `st.session_state.results_history` */
    var history: seq<AnalysisResult>
    /** `st.session_state.batch_results` */
    var batchResults: seq<AnalysisResult>

    /** Every stored result is the product of an analysis: a total of at most 100 judged by `judge`. */
    predicate Valid()
      reads this
    {
      AllSound(history) && AllSound(batchResults)
    }

    /** Both lists start empty. */
    constructor()
      ensures history == [] && batchResults == []
      ensures Valid()
    {
      history := [];
      batchResults := [];
    }

    /** The history after the single-page button showed `shown`: a success is appended. */
    static function Record(h: seq<AnalysisResult>, shown: Option<Result<AnalysisResult, string>>): seq<AnalysisResult> {
      if shown.Some? && shown.value.Success? then h + [shown.value.value] else h
    }

    /**
     * The single-page button: with a non-empty input the page is analysed, and
     * a result is appended to the history; an error is only shown.
     */
    method AnalyzeOne(input: string, web: map<string, FetchOutcome>, stamp: string)
      returns (shown: Option<Result<AnalysisResult, string>>)
      requires Valid()
      modifies this
      ensures Valid()
      ensures shown == if input == "" then None else Some(AnalysisOf(input, web, stamp))
      ensures history == Record(old(history), shown)
      ensures batchResults == old(batchResults)
    {
      var h;
      shown, h := Press(history, input, web, stamp);
      history := h;
    }

    /**
     * The batch button: with a non-empty list the batch results are reset, the
     * items are analysed in order by `Batch`, and each success goes to both
     * lists.
     */
    method RunBatch(urls: seq<string>, web: map<string, FetchOutcome>, stamps: seq<string>)
      returns (errors: seq<BatchError>, trace: seq<Event>)
      requires |stamps| == |urls|
      requires Valid()
      modifies this
      ensures Valid()
      ensures batchResults == if urls == [] then old(batchResults) else Successes(Outcomes(urls, web, stamps))
      ensures history == old(history) + Successes(Outcomes(urls, web, stamps))
      ensures errors == Failures(urls, Outcomes(urls, web, stamps))
      ensures trace == Events(|urls|, |urls|)
    {
      if urls == [] {
        assert Outcomes(urls, web, stamps) == [];
        return [], [];
      }
      var results;
      results, errors, trace := Batch(urls, web, stamps);
      AllSoundAppend(history, results);
      batchResults := results;
      history := history + results;
    }

    /** The batch clear button. */
    method ClearBatch()
      requires Valid()
      modifies this
      ensures Valid()
      ensures batchResults == [] && history == old(history)
    {
      batchResults := [];
    }

    /** The history clear button. */
    method ClearHistory()
      requires Valid()
      modifies this
      ensures Valid()
      ensures history == [] && batchResults == old(batchResults)
    {
      history := [];
    }
  }

  /** One more outcome extends both lists by its own entry, if any. */
  lemma Snoc(urls: seq<string>, os: seq<Result<AnalysisResult, string>>, r: Result<AnalysisResult, string>, i: int)
    requires 0 <= i < |urls| && |os| == i
    ensures Successes(os + [r]) == Successes(os) + (if r.Success? then [r.value] else [])
    ensures Failures(urls[..i + 1], os + [r]) == Failures(urls[..i], os) + (if r.Failure? then [BatchError(urls[i], r.error)] else [])
  {
    assert (os + [r])[..i] == os;
    assert urls[..i + 1][..i] == urls[..i];
  }
}
