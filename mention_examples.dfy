/** `_binary_clustering_tokenize`: for every paragraph, every cluster and
    every mention of the cluster, one training example pairing the
    paragraph linearized with that mention marked (the input) with the
    paragraph linearized with the whole cluster marked (the target).
    A cluster whose target cannot be produced or is over budget is
    dropped with all its mentions; a mention whose input cannot be
    produced or is over budget is dropped alone. Every dropped mention
    adds one to `num_examples_filtered`. */
module Mentions {
  import opened Basics
  import opened Splitter

  /** One entry of `cluster_examples`: the paragraph's key, document index
      and id, the cluster index, the mention, and the words of the input
      and of the target before they are joined by spaces. */
  datatype ClusterExample = ClusterExample(
    docKey: string,
    docIndex: nat,
    paragraphId: nat,
    clusterIndex: nat,
    mention: Span,
    input: seq<string>,
    output: seq<string>)

  /** The examples made so far and how many mentions were dropped. */
  datatype Tally = Tally(examples: seq<ClusterExample>, filtered: nat)

  function Plus(a: Tally, b: Tally): Tally
  {
    Tally(a.examples + b.examples, a.filtered + b.filtered)
  }

  /** An encoder output that was produced and whose tokenized length fits
      the budget; `None` for the two `continue` paths. */
  function Fitting(ext: Externals, maxSeqLength: int, text: Option<seq<string>>): Option<seq<string>>
  {
    if text.Some? && WithinBudget(maxSeqLength, ext.tokenCount(text.value)) then text else None
  }

  /** `cluster_output_str`: the paragraph with cluster `ci` marked. */
  function ClusterTarget(ext: Externals, maxSeqLength: int, p: Paragraph, ci: nat): Option<seq<string>>
  {
    Fitting(ext, maxSeqLength, ext.encode(Flatten(p.sentences), p.clusters, Some(ci), None))
  }

  /** `mention_input_str`: the paragraph with mention `m` of cluster `ci`
      marked. */
  function MentionInput(ext: Externals, maxSeqLength: int, p: Paragraph, ci: nat, m: Span): Option<seq<string>>
  {
    Fitting(ext, maxSeqLength, ext.encode(Flatten(p.sentences), p.clusters, Some(ci), Some(m)))
  }

  /** What one mention of an accepted cluster contributes. */
  function MentionTally(ext: Externals, maxSeqLength: int, p: Paragraph, ci: nat, target: seq<string>, m: Span): Tally
  {
    match MentionInput(ext, maxSeqLength, p, ci, m)
    case None => Tally([], 1)
    case Some(input) => Tally([ClusterExample(p.docKey, p.docIndex, p.paragraphId, ci, m, input, target)], 0)
  }

  /** The inner `for mention in cluster` loop over the mentions `ms`. */
  function MentionsTally(ext: Externals, maxSeqLength: int, p: Paragraph, ci: nat, target: seq<string>,
                         ms: seq<Span>): Tally
  {
    if |ms| == 0 then Tally([], 0)
    else Plus(MentionsTally(ext, maxSeqLength, p, ci, target, ms[..|ms| - 1]),
              MentionTally(ext, maxSeqLength, p, ci, target, ms[|ms| - 1]))
  }

  /** What cluster `ci` contributes: all its mentions dropped when its
      target fails, otherwise the mentions' own outcomes. */
  function ClusterTally(ext: Externals, maxSeqLength: int, p: Paragraph, ci: nat): Tally
    requires ci < |p.clusters|
  {
    match ClusterTarget(ext, maxSeqLength, p, ci)
    case None => Tally([], |p.clusters[ci]|)
    case Some(target) => MentionsTally(ext, maxSeqLength, p, ci, target, p.clusters[ci])
  }

  /** The `for c_i, cluster in enumerate(clusters)` loop over the first `c`
      clusters of one paragraph. */
  function ParagraphTally(ext: Externals, maxSeqLength: int, p: Paragraph, c: nat): Tally
    requires c <= |p.clusters|
  {
    if c == 0 then Tally([], 0)
    else Plus(ParagraphTally(ext, maxSeqLength, p, c - 1), ClusterTally(ext, maxSeqLength, p, c - 1))
  }

  /** The outer loop over the first `n` paragraphs. */
  function CorpusTally(ext: Externals, maxSeqLength: int, ps: seq<Paragraph>, n: nat): Tally
    requires n <= |ps|
  {
    if n == 0 then Tally([], 0)
    else Plus(CorpusTally(ext, maxSeqLength, ps, n - 1),
              ParagraphTally(ext, maxSeqLength, ps[n - 1], |ps[n - 1].clusters|))
  }

  /** `mentions = sum([len(c) for c in clusters])`, added up over the first
      `n` paragraphs. */
  function MentionTotal(ps: seq<Paragraph>, n: nat): nat
    requires n <= |ps|
  {
    if n == 0 then 0 else MentionTotal(ps, n - 1) + MentionCount(ps[n - 1].clusters)
  }

  /** The `for mention in cluster` loop of an accepted cluster `ci` whose
      target is `target`: the examples it appends and how many mentions it
      drops. */
  method MentionLoop(ext: Externals, maxSeqLength: int, p: Paragraph, words: seq<string>, ci: nat, target: seq<string>)
    returns (made: seq<ClusterExample>, dropped: nat)
    requires ci < |p.clusters| && words == Flatten(p.sentences)
    ensures Tally(made, dropped) == MentionsTally(ext, maxSeqLength, p, ci, target, p.clusters[ci])
  {
    var cluster := p.clusters[ci];
    made := [];
    dropped := 0;
    for j := 0 to |cluster|
      invariant Tally(made, dropped) == MentionsTally(ext, maxSeqLength, p, ci, target, cluster[..j])
    {
      var mention := cluster[j];
      assert cluster[..j + 1][..j] == cluster[..j];
      var input := ext.encode(words, p.clusters, Some(ci), Some(mention));
      if input.None? || !WithinBudget(maxSeqLength, ext.tokenCount(input.value)) {
        dropped := dropped + 1;
      } else {
        made := made + [ClusterExample(p.docKey, p.docIndex, p.paragraphId, ci, mention, input.value, target)];
      }
    }
    assert cluster[..|cluster|] == cluster;
  }

  /** `_binary_clustering_tokenize`: the filter count and the examples. */
  method BinaryClusteringTokenize(ext: Externals, maxSeqLength: int, ps: seq<Paragraph>)
    returns (filtered: nat, examples: seq<ClusterExample>)
    ensures Tally(examples, filtered) == CorpusTally(ext, maxSeqLength, ps, |ps|)
  {
    filtered := 0;
    examples := [];
    for k := 0 to |ps|
      invariant Tally(examples, filtered) == CorpusTally(ext, maxSeqLength, ps, k)
    {
      var p := ps[k];
      var words := Flatten(p.sentences);
      ghost var before := filtered;
      var current: seq<ClusterExample> := [];
      for ci := 0 to |p.clusters|
        invariant before <= filtered
        invariant Tally(current, filtered - before) == ParagraphTally(ext, maxSeqLength, p, ci)
      {
        var cluster := p.clusters[ci];
        var target := ext.encode(words, p.clusters, Some(ci), None);
        if target.None? || !WithinBudget(maxSeqLength, ext.tokenCount(target.value)) {
          filtered := filtered + |cluster|;
        } else {
          var made, dropped := MentionLoop(ext, maxSeqLength, p, words, ci, target.value);
          current := current + made;
          filtered := filtered + dropped;
        }
      }
      examples := examples + current;
    }
  }

  // ---------------------------------------------------------------------
  // Every mention is either emitted or counted as filtered

  lemma {:induction false} MentionsConserve(ext: Externals, maxSeqLength: int, p: Paragraph, ci: nat,
                                            target: seq<string>, ms: seq<Span>)
    ensures var t := MentionsTally(ext, maxSeqLength, p, ci, target, ms);
      |t.examples| + t.filtered == |ms|
  {
    if |ms| > 0 {
      MentionsConserve(ext, maxSeqLength, p, ci, target, ms[..|ms| - 1]);
    }
  }

  /** The examples a paragraph's first `c` clusters make, plus the
      mentions they drop, are exactly their mentions; a cluster whose target
      fails emits nothing and drops all its mentions. */
  lemma {:induction false} ParagraphConserve(ext: Externals, maxSeqLength: int, p: Paragraph, c: nat)
    requires c <= |p.clusters|
    ensures var t := ParagraphTally(ext, maxSeqLength, p, c);
      |t.examples| + t.filtered == |Flatten(p.clusters[..c])|
    ensures c < |p.clusters| && ClusterTarget(ext, maxSeqLength, p, c).None? ==>
              ParagraphTally(ext, maxSeqLength, p, c + 1)
              == Tally(ParagraphTally(ext, maxSeqLength, p, c).examples,
                       ParagraphTally(ext, maxSeqLength, p, c).filtered + |p.clusters[c]|)
  {
    if c > 0 {
      ParagraphConserve(ext, maxSeqLength, p, c - 1);
      assert p.clusters[..c][..c - 1] == p.clusters[..c - 1];
      if ClusterTarget(ext, maxSeqLength, p, c - 1).Some? {
        MentionsConserve(ext, maxSeqLength, p, c - 1, ClusterTarget(ext, maxSeqLength, p, c - 1).value, p.clusters[c - 1]);
      }
    }
    if c < |p.clusters| && ClusterTarget(ext, maxSeqLength, p, c).None? {
      assert ParagraphTally(ext, maxSeqLength, p, c).examples + [] == ParagraphTally(ext, maxSeqLength, p, c).examples;
    }
  }

  /** Over the first `n` paragraphs, the examples plus the filter count
      are the number of mentions. */
  lemma {:induction false} CorpusConserve(ext: Externals, maxSeqLength: int, ps: seq<Paragraph>, n: nat)
    requires n <= |ps|
    ensures var t := CorpusTally(ext, maxSeqLength, ps, n);
      |t.examples| + t.filtered == MentionTotal(ps, n)
  {
    if n > 0 {
      CorpusConserve(ext, maxSeqLength, ps, n - 1);
      var p := ps[n - 1];
      ParagraphConserve(ext, maxSeqLength, p, |p.clusters|);
      assert p.clusters[..|p.clusters|] == p.clusters;
    }
  }

  // ---------------------------------------------------------------------
  // Where each example comes from

  /** An example of paragraph `p`, cluster `ci` with target `target`, for
      mention `m`: both texts were produced and fit the budget. */
  ghost predicate FromParagraph(ext: Externals, maxSeqLength: int, p: Paragraph, e: ClusterExample)
  {
    && e.docKey == p.docKey && e.docIndex == p.docIndex && e.paragraphId == p.paragraphId
    && e.clusterIndex < |p.clusters| && e.mention in p.clusters[e.clusterIndex]
    && ext.encode(Flatten(p.sentences), p.clusters, Some(e.clusterIndex), None) == Some(e.output)
    && ext.encode(Flatten(p.sentences), p.clusters, Some(e.clusterIndex), Some(e.mention)) == Some(e.input)
    && WithinBudget(maxSeqLength, ext.tokenCount(e.output))
    && WithinBudget(maxSeqLength, ext.tokenCount(e.input))
  }

  lemma {:induction false} MentionsFrom(ext: Externals, maxSeqLength: int, p: Paragraph, ci: nat,
                                        target: seq<string>, ms: seq<Span>)
    ensures forall e :: e in MentionsTally(ext, maxSeqLength, p, ci, target, ms).examples ==>
              && e.docKey == p.docKey && e.docIndex == p.docIndex && e.paragraphId == p.paragraphId
              && e.clusterIndex == ci && e.mention in ms && e.output == target
              && MentionInput(ext, maxSeqLength, p, ci, e.mention) == Some(e.input)
  {
    if |ms| > 0 {
      MentionsFrom(ext, maxSeqLength, p, ci, target, ms[..|ms| - 1]);
      forall e | e in MentionsTally(ext, maxSeqLength, p, ci, target, ms[..|ms| - 1]).examples
        ensures e.mention in ms
      {
        assert e.mention in ms[..|ms| - 1];
      }
    }
  }

  /** Every example of a paragraph's first `c` clusters names one of those
      clusters and one of its mentions, with the target and the input the
      encoder made for them, both within budget. */
  lemma {:induction false} ParagraphFrom(ext: Externals, maxSeqLength: int, p: Paragraph, c: nat)
    requires c <= |p.clusters|
    ensures forall e :: e in ParagraphTally(ext, maxSeqLength, p, c).examples ==>
              e.clusterIndex < c && FromParagraph(ext, maxSeqLength, p, e)
  {
    if c > 0 {
      ParagraphFrom(ext, maxSeqLength, p, c - 1);
      var target := ClusterTarget(ext, maxSeqLength, p, c - 1);
      if target.Some? {
        MentionsFrom(ext, maxSeqLength, p, c - 1, target.value, p.clusters[c - 1]);
      }
    }
  }

  /** Every example of the corpus comes from one of its paragraphs. */
  lemma {:induction false} CorpusFrom(ext: Externals, maxSeqLength: int, ps: seq<Paragraph>, n: nat)
    requires n <= |ps|
    ensures forall e :: e in CorpusTally(ext, maxSeqLength, ps, n).examples ==>
              exists k :: 0 <= k < n && FromParagraph(ext, maxSeqLength, ps[k], e)
  {
    if n > 0 {
      CorpusFrom(ext, maxSeqLength, ps, n - 1);
      var p := ps[n - 1];
      ParagraphFrom(ext, maxSeqLength, p, |p.clusters|);
      forall e | e in CorpusTally(ext, maxSeqLength, ps, n).examples
        ensures exists k :: 0 <= k < n && FromParagraph(ext, maxSeqLength, ps[k], e)
      {
        if e in CorpusTally(ext, maxSeqLength, ps, n - 1).examples {
          var k :| 0 <= k < n - 1 && FromParagraph(ext, maxSeqLength, ps[k], e);
        } else {
          assert FromParagraph(ext, maxSeqLength, ps[n - 1], e);
        }
      }
    }
  }

  // ---------------------------------------------------------------------
  // Nothing is dropped when nothing fails

  /** With the budget off and an encoder that never raises, every mention
      of the paragraph becomes an example and nothing is filtered. */
  lemma {:induction false} ParagraphKeepsAll(ext: Externals, maxSeqLength: int, p: Paragraph, c: nat)
    requires maxSeqLength <= 0 && c <= |p.clusters|
    requires forall ci: nat, m: Option<Span> :: ext.encode(Flatten(p.sentences), p.clusters, Some(ci), m).Some?
    ensures ParagraphTally(ext, maxSeqLength, p, c).filtered == 0
    ensures |ParagraphTally(ext, maxSeqLength, p, c).examples| == |Flatten(p.clusters[..c])|
  {
    ParagraphConserve(ext, maxSeqLength, p, c);
    if c > 0 {
      ParagraphKeepsAll(ext, maxSeqLength, p, c - 1);
      var target := ClusterTarget(ext, maxSeqLength, p, c - 1);
      assert ext.encode(Flatten(p.sentences), p.clusters, Some(c - 1), None).Some?;
      MentionsKeepAll(ext, maxSeqLength, p, c - 1, target.value, p.clusters[c - 1]);
    }
  }

  lemma {:induction false} MentionsKeepAll(ext: Externals, maxSeqLength: int, p: Paragraph, ci: nat,
                                           target: seq<string>, ms: seq<Span>)
    requires maxSeqLength <= 0
    requires forall m: Option<Span> :: ext.encode(Flatten(p.sentences), p.clusters, Some(ci), m).Some?
    ensures MentionsTally(ext, maxSeqLength, p, ci, target, ms).filtered == 0
  {
    if |ms| > 0 {
      MentionsKeepAll(ext, maxSeqLength, p, ci, target, ms[..|ms| - 1]);
      assert ext.encode(Flatten(p.sentences), p.clusters, Some(ci), Some(ms[|ms| - 1])).Some?;
    }
  }
}
