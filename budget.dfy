/** The budget search of `_process_example`: drop trailing sentences,
    `trunc_step` at a time, until both the window's words and its
    linearized target tokenize within `max_seq_length`, or until no
    sentence is left. */
module Budget {
  import opened Basics
  import opened Truncation

  /** What `_process_example` returns: the kept sentences, the surviving
      clusters, the final `trunc_sentences_count`, and the linearization
      `encode` produced for the window, whose space-join is
      `entity_mentions`. The returned `words_str` is the space-join of the
      flattened sentences, so it is not stored. */
  datatype Window = Window(
    sentences: seq<Sentence>,
    clusters: seq<Cluster>,
    truncCount: nat,
    target: seq<string>)

  /** One turn of the search loop at truncation count `k`: `encode` raised,
      or the window with its linearization and whether both the words and
      the linearization fit the budget. */
  datatype Trial = Aborted | Tried(window: Truncated, target: seq<string>, fits: bool)

  function TrialAt(ext: Externals, maxSeqLength: int, words: seq<Sentence>, clusters: seq<Cluster>, k: nat): Trial
  {
    var t := TruncWords(words, clusters, k);
    var flat := Flatten(t.sentences);
    match ext.encode(flat, t.clusters, None, None)
    case None => Aborted
    case Some(encoded) =>
      Tried(t, encoded,
            WithinBudget(maxSeqLength, ext.tokenCount(flat)) && WithinBudget(maxSeqLength, ext.tokenCount(encoded)))
  }

  /** The search the loop performs, from truncation count `k` on. A window
      that is over budget raises the count by `step`; when that window was
      already empty the loop stops with the raised count. */
  function BudgetSearch(ext: Externals, maxSeqLength: int, words: seq<Sentence>, clusters: seq<Cluster>,
                        step: nat, k: nat): Option<Window>
    requires step >= 1
    decreases |words| - k
  {
    match TrialAt(ext, maxSeqLength, words, clusters, k)
    case Aborted => None
    case Tried(t, target, fits) =>
      if fits then Some(Window(t.sentences, t.clusters, k, target))
      else if t.sentences == [] then Some(Window(t.sentences, t.clusters, k + step, target))
      else BudgetSearch(ext, maxSeqLength, words, clusters, step, k + step)
  }

  /** `_process_example`: the source's `while w:` loop. It needs at least
      one sentence (with none, `words_str` is never bound and the source
      fails) and a positive step (with step 0 the loop would not end). */
  method ProcessExample(ext: Externals, maxSeqLength: int, words: seq<Sentence>, clusters: seq<Cluster>, step: nat)
    returns (r: Option<Window>)
    requires |words| > 0
    requires step >= 1
    ensures r == BudgetSearch(ext, maxSeqLength, words, clusters, step, 0)
  {
    var w := words;
    var count: nat := 0;
    var newClusters: seq<Cluster> := [];
    var target: seq<string> := [];
    while w != []
      invariant w != [] ==> count < |words| + step
      invariant w != [] ==> BudgetSearch(ext, maxSeqLength, words, clusters, step, count)
                            == BudgetSearch(ext, maxSeqLength, words, clusters, step, 0)
      invariant w == [] ==> BudgetSearch(ext, maxSeqLength, words, clusters, step, 0)
                            == Some(Window(w, newClusters, count, target))
      decreases |words| + step - count
    {
      var t := TruncWords(words, clusters, count);
      w, newClusters := t.sentences, t.clusters;
      var flat := Flatten(w);
      var inputLength := ext.tokenCount(flat);
      var encoded := ext.encode(flat, newClusters, None, None);
      if encoded.None? {
        assert TrialAt(ext, maxSeqLength, words, clusters, count) == Aborted;
        return None;
      }
      target := encoded.value;
      var outputLength := ext.tokenCount(target);
      ghost var fits := WithinBudget(maxSeqLength, inputLength) && WithinBudget(maxSeqLength, outputLength);
      assert TrialAt(ext, maxSeqLength, words, clusters, count) == Tried(t, target, fits);
      if 0 < maxSeqLength < inputLength {
        count := count + step;
        continue;
      }
      if 0 < maxSeqLength < outputLength {
        count := count + step;
        continue;
      }
      break;
    }
    r := Some(Window(w, newClusters, count, target));
  }

  /** Past the last sentence every truncation count gives the same window. */
  lemma TruncWordsSaturates(words: seq<Sentence>, clusters: seq<Cluster>, j: nat, k: nat)
    requires |words| <= j && |words| <= k
    ensures TruncWords(words, clusters, j) == TruncWords(words, clusters, k)
  {
  }

  /** The window `_process_example` hands back at count `c`: the sentences
      and clusters of `_trunc_words` at `c`, the linearization that `encode`
      produced for them, and a fit to both budgets unless the window is
      empty. */
  ghost predicate IsResultAt(ext: Externals, maxSeqLength: int, words: seq<Sentence>, clusters: seq<Cluster>,
                             w: Window, c: nat)
  {
    var t := TruncWords(words, clusters, c);
    var encoded := ext.encode(Flatten(t.sentences), t.clusters, None, None);
    && w.truncCount == c
    && w.sentences == t.sentences && w.clusters == t.clusters
    && encoded.Some? && w.target == encoded.value
    && (w.sentences == []
        || (WithinBudget(maxSeqLength, ext.tokenCount(Flatten(w.sentences)))
            && WithinBudget(maxSeqLength, ext.tokenCount(w.target))))
  }

  /** Every multiple `j` of the step in `[k, c)` whose window is not empty
      was tried and found over budget. */
  ghost predicate OverBudgetBetween(ext: Externals, maxSeqLength: int, words: seq<Sentence>, clusters: seq<Cluster>,
                                    step: nat, k: nat, c: nat)
    requires step >= 1
  {
    forall j :: k <= j < c && j % step == 0 && TruncWords(words, clusters, j).sentences != [] ==>
      TrialAt(ext, maxSeqLength, words, clusters, j).Tried? && !TrialAt(ext, maxSeqLength, words, clusters, j).fits
  }

  /** Every multiple `j` of the step in `[k, c)` leaves a non-empty window,
      so the loop went on past it. */
  ghost predicate NonEmptyBetween(words: seq<Sentence>, clusters: seq<Cluster>, step: nat, k: nat, c: nat)
    requires step >= 1
  {
    forall j :: k <= j < c && j % step == 0 ==> TruncWords(words, clusters, j).sentences != []
  }

  /** What the search returns, from a count `k` that is a multiple of the
      step: a count `c >= k` that is a multiple of the step, with the
      window of `_trunc_words` at `c`, fitting unless empty, after every
      smaller non-empty multiple from `k` on was over budget. */
  lemma {:induction false} BudgetSearchCharacterized(ext: Externals, maxSeqLength: int, words: seq<Sentence>,
                                                     clusters: seq<Cluster>, step: nat, k: nat)
    requires step >= 1 && k % step == 0
    ensures var r := BudgetSearch(ext, maxSeqLength, words, clusters, step, k);
      r.Some? ==>
        && r.value.truncCount % step == 0 && k <= r.value.truncCount
        && IsResultAt(ext, maxSeqLength, words, clusters, r.value, r.value.truncCount)
        && OverBudgetBetween(ext, maxSeqLength, words, clusters, step, k, r.value.truncCount)
    decreases |words| - k
  {
    var trial := TrialAt(ext, maxSeqLength, words, clusters, k);
    if trial.Tried? {
      var t := trial.window;
      if trial.fits {
        assert BudgetSearch(ext, maxSeqLength, words, clusters, step, k)
               == Some(Window(t.sentences, t.clusters, k, trial.target));
      } else if t.sentences == [] {
        var c := k + step;
        assert BudgetSearch(ext, maxSeqLength, words, clusters, step, k)
               == Some(Window(t.sentences, t.clusters, c, trial.target));
        TruncWordsSaturates(words, clusters, k, c);
        MultipleGap(k, step);
        assert OverBudgetBetween(ext, maxSeqLength, words, clusters, step, k, c) by {
          forall j | k <= j < c && j % step == 0
            ensures j == k
          {
            MultipleBetween(k, j, step);
          }
        }
      } else {
        assert BudgetSearch(ext, maxSeqLength, words, clusters, step, k)
               == BudgetSearch(ext, maxSeqLength, words, clusters, step, k + step);
        MultipleGap(k, step);
        BudgetSearchCharacterized(ext, maxSeqLength, words, clusters, step, k + step);
        var r := BudgetSearch(ext, maxSeqLength, words, clusters, step, k + step);
        if r.Some? {
          var c := r.value.truncCount;
          assert OverBudgetBetween(ext, maxSeqLength, words, clusters, step, k, c) by {
            forall j | k <= j < c && j % step == 0 && TruncWords(words, clusters, j).sentences != []
              ensures TrialAt(ext, maxSeqLength, words, clusters, j).Tried?
                      && !TrialAt(ext, maxSeqLength, words, clusters, j).fits
            {
              MultipleBetween(k, j, step);
            }
          }
        }
      }
    }
  }

  /** The search gives up only when `encode` raised at one of the counts
      it tried: every multiple of the step before that count left a
      non-empty window and was over budget. */
  lemma {:induction false} BudgetSearchAborts(ext: Externals, maxSeqLength: int, words: seq<Sentence>,
                                              clusters: seq<Cluster>, step: nat, k: nat)
    requires step >= 1 && k % step == 0
    requires BudgetSearch(ext, maxSeqLength, words, clusters, step, k).None?
    ensures exists j :: k <= j && j % step == 0 && TrialAt(ext, maxSeqLength, words, clusters, j).Aborted?
                        && NonEmptyBetween(words, clusters, step, k, j)
                        && OverBudgetBetween(ext, maxSeqLength, words, clusters, step, k, j)
    decreases |words| - k
  {
    var trial := TrialAt(ext, maxSeqLength, words, clusters, k);
    if trial.Aborted? {
      assert NonEmptyBetween(words, clusters, step, k, k);
      assert OverBudgetBetween(ext, maxSeqLength, words, clusters, step, k, k);
    } else {
      assert !trial.fits && trial.window.sentences != [];
      assert BudgetSearch(ext, maxSeqLength, words, clusters, step, k)
             == BudgetSearch(ext, maxSeqLength, words, clusters, step, k + step);
      MultipleGap(k, step);
      BudgetSearchAborts(ext, maxSeqLength, words, clusters, step, k + step);
      var j :| k + step <= j && j % step == 0 && TrialAt(ext, maxSeqLength, words, clusters, j).Aborted?
               && NonEmptyBetween(words, clusters, step, k + step, j)
               && OverBudgetBetween(ext, maxSeqLength, words, clusters, step, k + step, j);
      forall i | k <= i < j && i % step == 0
        ensures TruncWords(words, clusters, i).sentences != []
        ensures TrialAt(ext, maxSeqLength, words, clusters, i).Tried?
                && !TrialAt(ext, maxSeqLength, words, clusters, i).fits
      {
        MultipleBetween(k, i, step);
      }
    }
  }

  /** A window the search returns is a prefix of the words, and its
      clusters are those of the words truncated to its flattened length. */
  lemma BudgetSearchPrefix(ext: Externals, maxSeqLength: int, words: seq<Sentence>, clusters: seq<Cluster>,
                           step: nat, k: nat)
    requires step >= 1 && k % step == 0
    ensures var r := BudgetSearch(ext, maxSeqLength, words, clusters, step, k);
      r.Some? ==>
        && |r.value.sentences| <= |words| && r.value.sentences == words[..|r.value.sentences|]
        && r.value.clusters == ClustersBelow(clusters, |Flatten(r.value.sentences)|)
  {
    BudgetSearchCharacterized(ext, maxSeqLength, words, clusters, step, k);
    var r := BudgetSearch(ext, maxSeqLength, words, clusters, step, k);
    if r.Some? {
      TruncWordsPrefix(words, clusters, r.value.truncCount);
    }
  }

  lemma MulAtLeast(d: int, x: int)
    requires d >= 1 && x >= 1
    ensures d * x >= d
  {
  }

  /** Division with remainder is unique. */
  lemma ModUnique(n: int, d: int, q: int, r: int)
    requires d >= 1 && 0 <= r < d && n == d * q + r
    ensures n % d == r
  {
    var q', r' := n / d, n % d;
    assert d * (q' - q) == r - r';
    if q' > q {
      MulAtLeast(d, q' - q);
    } else if q > q' {
      MulAtLeast(d, q - q');
    }
  }

  lemma MultipleGap(k: nat, step: nat)
    requires step >= 1 && k % step == 0
    ensures (k + step) % step == 0
  {
    var a := k / step;
    assert k == step * a;
    assert k + step == step * (a + 1) + 0;
    ModUnique(k + step, step, a + 1, 0);
  }

  /** Between two consecutive multiples of the step there is no other. */
  lemma MultipleBetween(k: nat, j: nat, step: nat)
    requires step >= 1 && k % step == 0 && j % step == 0 && k <= j
    ensures j == k || k + step <= j
  {
    var a, b := k / step, j / step;
    assert k == step * a;
    assert j == step * b;
    if a < b {
      assert step * b >= step * (a + 1);
    } else {
      assert step * b <= step * a;
    }
  }

  /** With `max_seq_length <= 0` the check is off: the count stays 0 and
      the words come back unchanged, unless `encode` raises on them. */
  lemma BudgetDisabled(ext: Externals, maxSeqLength: int, words: seq<Sentence>, clusters: seq<Cluster>, step: nat)
    requires step >= 1 && maxSeqLength <= 0
    ensures var r := BudgetSearch(ext, maxSeqLength, words, clusters, step, 0);
      && (r.None? <==> ext.encode(Flatten(words), ClustersBelow(clusters, |Flatten(words)|), None, None).None?)
      && (r.Some? ==> r.value.truncCount == 0 && r.value.sentences == words
                      && r.value.clusters == ClustersBelow(clusters, |Flatten(words)|))
  {
  }

  /** A window that is over budget only with its last `step` sentences is
      cut exactly once, and the search stops there. */
  lemma BudgetOneStep(ext: Externals, maxSeqLength: int, words: seq<Sentence>, clusters: seq<Cluster>, step: nat)
    requires step >= 1 && step < |words|
    requires TrialAt(ext, maxSeqLength, words, clusters, 0).Tried?
    requires !TrialAt(ext, maxSeqLength, words, clusters, 0).fits
    requires TrialAt(ext, maxSeqLength, words, clusters, step).Tried?
    requires TrialAt(ext, maxSeqLength, words, clusters, step).fits
    ensures var r := BudgetSearch(ext, maxSeqLength, words, clusters, step, 0);
      r.Some? && r.value.truncCount == step && r.value.sentences == words[..|words| - step]
  {
  }
}
