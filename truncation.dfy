/** Sentence truncation (`_trunc_words`) and the rule that re-bases a
    document's clusters onto the words that remain after a paragraph has
    been cut off (the comprehension inside `_split_to_paragraphs`). */
module Truncation {
  import opened Basics

  /** A truncated window: the sentences kept and the clusters surviving in it. */
  datatype Truncated = Truncated(sentences: seq<Sentence>, clusters: seq<Cluster>)

  /** The mentions of `spans` whose two ends are both below `n`, in order. */
  function SpansBelow(spans: seq<Span>, n: int): seq<Span>
  {
    if |spans| == 0 then []
    else
      var s := spans[|spans| - 1];
      SpansBelow(spans[..|spans| - 1], n) + (if s.start < n && s.end < n then [s] else [])
  }

  /** The mentions of `spans` whose two ends are both at least `b`, moved
      down by `b`, in order. */
  function SpansFrom(spans: seq<Span>, b: int): seq<Span>
  {
    if |spans| == 0 then []
    else
      var s := spans[|spans| - 1];
      SpansFrom(spans[..|spans| - 1], b) + Moved(s, b)
  }

  /** Mention `s` moved down by `b`, if both its ends are at least `b`. */
  function Moved(s: Span, b: int): seq<Span>
  {
    if s.start >= b && s.end >= b then [Span(s.start - b, s.end - b)] else []
  }

  /** The truncation rule for clusters: keep the mentions below `n`, then
      drop the clusters left empty. */
  function ClustersBelow(clusters: seq<Cluster>, n: int): seq<Cluster>
  {
    if |clusters| == 0 then []
    else
      var c := SpansBelow(clusters[|clusters| - 1], n);
      ClustersBelow(clusters[..|clusters| - 1], n) + (if c == [] then [] else [c])
  }

  /** The re-basing rule for clusters: keep the mentions at or above `b`,
      move them down by `b`, then drop the clusters left empty. */
  function ClustersFrom(clusters: seq<Cluster>, b: int): seq<Cluster>
  {
    if |clusters| == 0 then []
    else
      var c := SpansFrom(clusters[|clusters| - 1], b);
      ClustersFrom(clusters[..|clusters| - 1], b) + (if c == [] then [] else [c])
  }

  /** `_trunc_words(words, clusters, k)`: drop the last `k` sentences
      (`words[:-k]`, so none are left when `k >= len(words)`), then keep
      only the mentions that lie inside the shortened flattened window. */
  function TruncWords(words: seq<Sentence>, clusters: seq<Cluster>, k: nat): Truncated
  {
    var w := if k > 0 then words[..if k < |words| then |words| - k else 0] else words;
    Truncated(w, ClustersBelow(clusters, |Flatten(w)|))
  }

  /** The filter keeps exactly the mentions with both ends below `n`. */
  lemma {:induction false} SpansBelowMembers(spans: seq<Span>, n: int)
    ensures |SpansBelow(spans, n)| <= |spans|
    ensures forall s :: s in SpansBelow(spans, n) <==> s in spans && s.start < n && s.end < n
  {
    if |spans| > 0 {
      var init := spans[..|spans| - 1];
      SpansBelowMembers(init, n);
      assert spans == init + [spans[|spans| - 1]];
    }
  }

  /** Re-basing keeps exactly the mentions with both ends at or above `b`,
      moved down by `b`. */
  lemma {:induction false} SpansFromMembers(spans: seq<Span>, b: int)
    ensures |SpansFrom(spans, b)| <= |spans|
    ensures forall s :: s in SpansFrom(spans, b) <==> s.start >= 0 && s.end >= 0 && Span(s.start + b, s.end + b) in spans
  {
    if |spans| > 0 {
      var init := spans[..|spans| - 1];
      var last := spans[|spans| - 1];
      SpansFromMembers(init, b);
      assert spans == init + [last];
      forall s ensures s in SpansFrom(spans, b) <==> s.start >= 0 && s.end >= 0 && Span(s.start + b, s.end + b) in spans {
        assert Span(s.start + b, s.end + b) in spans <==> Span(s.start + b, s.end + b) in init || Span(s.start + b, s.end + b) == last;
      }
    }
  }

  /** The truncated clusters are never empty and lie below `n`. */
  lemma {:induction false} ClustersBelowShape(clusters: seq<Cluster>, n: int)
    ensures |ClustersBelow(clusters, n)| <= |clusters|
    ensures forall c :: c in ClustersBelow(clusters, n) ==> c != [] && AllBelow(c, n)
  {
    if |clusters| > 0 {
      var init := clusters[..|clusters| - 1];
      ClustersBelowShape(init, n);
      SpansBelowMembers(clusters[|clusters| - 1], n);
    }
  }

  /** The re-based clusters are never empty and hold no negative index. */
  lemma {:induction false} ClustersFromShape(clusters: seq<Cluster>, b: int)
    ensures |ClustersFrom(clusters, b)| <= |clusters|
    ensures forall c :: c in ClustersFrom(clusters, b) ==> c != [] && forall s :: s in c ==> s.start >= 0 && s.end >= 0
  {
    if |clusters| > 0 {
      var init := clusters[..|clusters| - 1];
      ClustersFromShape(init, b);
      SpansFromMembers(clusters[|clusters| - 1], b);
    }
  }

  /** `words[:-k]` keeps the first `len(words) - k` sentences, none when
      `k >= len(words)`, all of them when `k = 0`. */
  lemma TruncWordsPrefix(words: seq<Sentence>, clusters: seq<Cluster>, k: nat)
    ensures var r := TruncWords(words, clusters, k);
      && |r.sentences| == (if k < |words| then |words| - k else 0)
      && r.sentences == words[..|r.sentences|]
  {
  }

  lemma {:induction false} SpansBelowAppend(a: seq<Span>, b: seq<Span>, n: int)
    ensures SpansBelow(a + b, n) == SpansBelow(a, n) + SpansBelow(b, n)
  {
    if |b| == 0 {
      assert a + b == a;
    } else {
      assert (a + b)[..|a + b| - 1] == a + b[..|b| - 1];
      SpansBelowAppend(a, b[..|b| - 1], n);
    }
  }

  lemma {:induction false} SpansFromAppend(a: seq<Span>, b: seq<Span>, base: int)
    ensures SpansFrom(a + b, base) == SpansFrom(a, base) + SpansFrom(b, base)
  {
    if |b| == 0 {
      assert a + b == a;
    } else {
      assert (a + b)[..|a + b| - 1] == a + b[..|b| - 1];
      SpansFromAppend(a, b[..|b| - 1], base);
    }
  }

  /** Truncating the clusters keeps, in their original order, exactly the
      mentions below `n`: the surviving clusters concatenate to the filtered
      list of all mentions. */
  lemma {:induction false} FlattenClustersBelow(clusters: seq<Cluster>, n: int)
    ensures Flatten(ClustersBelow(clusters, n)) == SpansBelow(Flatten(clusters), n)
  {
    if |clusters| > 0 {
      var init := clusters[..|clusters| - 1];
      var last := clusters[|clusters| - 1];
      var c := SpansBelow(last, n);
      FlattenClustersBelow(init, n);
      FlattenAppend(ClustersBelow(init, n), if c == [] then [] else [c]);
      assert Flatten(if c == [] then [] else [c]) == c by {
        if c != [] { assert [c][..0] == []; }
      }
      SpansBelowAppend(Flatten(init), last, n);
    }
  }

  /** Re-basing keeps, in their original order, exactly the mentions at or
      above `b`, moved down by `b`. */
  lemma {:induction false} FlattenClustersFrom(clusters: seq<Cluster>, b: int)
    ensures Flatten(ClustersFrom(clusters, b)) == SpansFrom(Flatten(clusters), b)
  {
    if |clusters| > 0 {
      var init := clusters[..|clusters| - 1];
      var last := clusters[|clusters| - 1];
      var c := SpansFrom(last, b);
      FlattenClustersFrom(init, b);
      FlattenAppend(ClustersFrom(init, b), if c == [] then [] else [c]);
      assert Flatten(if c == [] then [] else [c]) == c by {
        if c != [] { assert [c][..0] == []; }
      }
      SpansFromAppend(Flatten(init), last, b);
    }
  }

  /** The properties `_trunc_words` promises: the first `len(words) - k`
      sentences survive (all of them for `k = 0`, none for `k >= len(words)`),
      the surviving mentions are exactly, in order, those with both ends
      below the flattened length `n` of the window, every one of them lies
      below `n`, and no cluster is left empty. */
  lemma TruncWordsCharacterized(words: seq<Sentence>, clusters: seq<Cluster>, k: nat)
    ensures var r := TruncWords(words, clusters, k);
      var n := |Flatten(r.sentences)|;
      && (k == 0 ==> r.sentences == words)
      && (k >= |words| ==> r.sentences == [] && n == 0)
      && Flatten(r.clusters) == SpansBelow(Flatten(clusters), n)
      && forall c :: c in r.clusters ==> c != [] && AllBelow(c, n)
  {
    var r := TruncWords(words, clusters, k);
    FlattenClustersBelow(clusters, |Flatten(r.sentences)|);
    ClustersBelowShape(clusters, |Flatten(r.sentences)|);
  }

  /** Every mention of `spans` has both ends below `n`. */
  predicate AllBelow(spans: seq<Span>, n: int)
  {
    forall s :: s in spans ==> s.start < n && s.end < n
  }

  /** A window that already holds every mention loses nothing: when every
      mention lies below `n` and no cluster is empty, truncation returns the
      clusters unchanged. */
  lemma {:induction false} ClustersBelowIdentity(clusters: seq<Cluster>, n: int)
    requires forall i :: 0 <= i < |clusters| ==> clusters[i] != [] && AllBelow(clusters[i], n)
    ensures ClustersBelow(clusters, n) == clusters
  {
    if |clusters| > 0 {
      var init := clusters[..|clusters| - 1];
      var last := clusters[|clusters| - 1];
      SpansBelowIdentity(last, n);
      ClustersBelowIdentity(init, n);
      assert clusters == init + [last];
    }
  }

  lemma {:induction false} SpansBelowIdentity(spans: seq<Span>, n: int)
    requires AllBelow(spans, n)
    ensures SpansBelow(spans, n) == spans
  {
    if |spans| > 0 {
      var init := spans[..|spans| - 1];
      assert spans[|spans| - 1] in spans;
      assert AllBelow(init, n) by {
        forall s | s in init ensures s.start < n && s.end < n {
          assert s in spans;
        }
      }
      SpansBelowIdentity(init, n);
      assert spans == init + [spans[|spans| - 1]];
    }
  }

  /** Re-basing by zero only drops mentions with a negative end. */
  lemma {:induction false} SpansFromZero(spans: seq<Span>)
    requires forall i :: 0 <= i < |spans| ==> spans[i].start >= 0 && spans[i].end >= 0
    ensures SpansFrom(spans, 0) == spans
  {
    if |spans| > 0 {
      var init := spans[..|spans| - 1];
      var last := spans[|spans| - 1];
      assert forall i :: 0 <= i < |init| ==> init[i] == spans[i];
      SpansFromZero(init);
      assert Moved(last, 0) == [last];
      assert init + [last] == spans;
    }
  }

  /** Re-basing twice is re-basing once by the sum: re-filtering what
      remained after a first cut is the same as filtering the original
      mentions by the total offset. */
  lemma {:induction false} SpansFromTwice(spans: seq<Span>, a: int, b: int)
    requires b >= 0
    ensures SpansFrom(SpansFrom(spans, a), b) == SpansFrom(spans, a + b)
  {
    if |spans| > 0 {
      var init := spans[..|spans| - 1];
      var s := spans[|spans| - 1];
      var once := Moved(s, a);
      assert SpansFrom(spans, a) == SpansFrom(init, a) + once;
      assert SpansFrom(spans, a + b) == SpansFrom(init, a + b) + Moved(s, a + b);
      calc {
        SpansFrom(SpansFrom(spans, a), b);
        SpansFrom(SpansFrom(init, a) + once, b);
        { SpansFromAppend(SpansFrom(init, a), once, b); }
        SpansFrom(SpansFrom(init, a), b) + SpansFrom(once, b);
        { SpansFromTwice(init, a, b); MovedTwice(s, a, b); }
        SpansFrom(init, a + b) + Moved(s, a + b);
      }
    }
  }

  lemma MovedTwice(s: Span, a: int, b: int)
    requires b >= 0
    ensures SpansFrom(Moved(s, a), b) == Moved(s, a + b)
  {
    if s.start >= a && s.end >= a {
      var t := Span(s.start - a, s.end - a);
      assert [t][..0] == [];
      assert SpansFrom([t], b) == Moved(t, b);
    }
  }

  /** Re-basing by `b` and then truncating at `n` keeps exactly the
      mentions that lie within words `b` to `b + n - 1`, moved down by `b`. */
  lemma WindowMentions(clusters: seq<Cluster>, b: int, n: int)
    ensures forall s :: s in Flatten(ClustersBelow(ClustersFrom(clusters, b), n)) <==>
      && 0 <= s.start < n && 0 <= s.end < n
      && Span(s.start + b, s.end + b) in Flatten(clusters)
  {
    var moved := ClustersFrom(clusters, b);
    FlattenClustersBelow(moved, n);
    FlattenClustersFrom(clusters, b);
    SpansBelowMembers(Flatten(moved), n);
    SpansFromMembers(Flatten(clusters), b);
  }
}
