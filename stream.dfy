/** The subtoken stream `_tokenize` lays out for one paragraph, described
    independently of the tokenizer: word `i` contributes the speaker prefix
    `pre[i]` (possibly empty) and then its subtokens `pcs[i]`. Positions
    handed out to words count the `<s>` token in front of the stream, so
    they are one more than indices into `token_ids`. */
module Subtokens {
  import opened Basics

  /** `token_ids` after the first `n` words. */
  function Stream(pre: seq<seq<int>>, pcs: seq<seq<int>>, n: nat): seq<int>
    requires n <= |pre| && n <= |pcs|
  {
    if n == 0 then [] else Stream(pre, pcs, n - 1) + pre[n - 1] + pcs[n - 1]
  }

  /** Where word `i`'s subtokens start. */
  function StartAt(pre: seq<seq<int>>, pcs: seq<seq<int>>, i: nat): nat
    requires i < |pre| && i < |pcs|
  {
    |Stream(pre, pcs, i)| + |pre[i]| + 1
  }

  /** Where word `i`'s subtokens end. */
  function EndAt(pre: seq<seq<int>>, pcs: seq<seq<int>>, i: nat): nat
    requires i < |pre| && i < |pcs|
  {
    |Stream(pre, pcs, i + 1)|
  }

  /** `word_idx_to_start_token_idx` after the first `n` words. */
  function StartMap(pre: seq<seq<int>>, pcs: seq<seq<int>>, n: nat): map<int, nat>
    requires n <= |pre| && n <= |pcs|
  {
    if n == 0 then map[] else StartMap(pre, pcs, n - 1)[n - 1 := StartAt(pre, pcs, n - 1)]
  }

  /** `word_idx_to_end_token_idx` after the first `n` words. */
  function EndMap(pre: seq<seq<int>>, pcs: seq<seq<int>>, n: nat): map<int, nat>
    requires n <= |pre| && n <= |pcs|
  {
    if n == 0 then map[] else EndMap(pre, pcs, n - 1)[n - 1 := EndAt(pre, pcs, n - 1)]
  }

  /** `k` copies of `x`. */
  function Repeat(x: nat, k: nat): seq<nat>
  {
    if k == 0 then [] else Repeat(x, k - 1) + [x]
  }

  /** `end_token_idx_to_word_idx` after the first `n` words: `0` for
      `<s>`, then the word's index once per token of its speaker prefix
      and once per subtoken. */
  function OwnerList(pre: seq<seq<int>>, pcs: seq<seq<int>>, n: nat): seq<nat>
    requires n <= |pre| && n <= |pcs|
  {
    if n == 0 then [0]
    else OwnerList(pre, pcs, n - 1) + Repeat(n - 1, |pre[n - 1]|) + Repeat(n - 1, |pcs[n - 1]|)
  }

  /** Both maps hold exactly the word indices `0 .. n - 1`. */
  lemma {:induction false} MapKeys(pre: seq<seq<int>>, pcs: seq<seq<int>>, n: nat)
    requires n <= |pre| && n <= |pcs|
    ensures forall i :: i in StartMap(pre, pcs, n) <==> 0 <= i < n
    ensures forall i :: i in EndMap(pre, pcs, n) <==> 0 <= i < n
  {
    if n > 0 {
      MapKeys(pre, pcs, n - 1);
    }
  }

  /** Word `i` is in both maps, with its start and its end. */
  lemma {:induction false} MapAt(pre: seq<seq<int>>, pcs: seq<seq<int>>, n: nat, i: nat)
    requires i < n <= |pre| && n <= |pcs|
    ensures i in StartMap(pre, pcs, n) && StartMap(pre, pcs, n)[i] == StartAt(pre, pcs, i)
    ensures i in EndMap(pre, pcs, n) && EndMap(pre, pcs, n)[i] == EndAt(pre, pcs, i)
  {
    if i < n - 1 {
      MapAt(pre, pcs, n - 1, i);
    }
  }

  lemma {:induction false} RepeatLength(x: nat, k: nat)
    ensures |Repeat(x, k)| == k
  {
    if k > 0 {
      RepeatLength(x, k - 1);
    }
  }

  lemma {:induction false} RepeatIndex(x: nat, k: nat, j: nat)
    requires j < k
    ensures |Repeat(x, k)| == k && Repeat(x, k)[j] == x
  {
    RepeatLength(x, k);
    if j < k - 1 {
      RepeatIndex(x, k - 1, j);
    }
  }

  /** The stream after `i` words is a prefix of the stream after `n`. */
  lemma {:induction false} StreamPrefix(pre: seq<seq<int>>, pcs: seq<seq<int>>, i: nat, n: nat)
    requires i <= n <= |pre| && n <= |pcs|
    ensures |Stream(pre, pcs, i)| <= |Stream(pre, pcs, n)|
    ensures Stream(pre, pcs, n)[..|Stream(pre, pcs, i)|] == Stream(pre, pcs, i)
    decreases n
  {
    if i < n {
      StreamPrefix(pre, pcs, i, n - 1);
      var shorter := Stream(pre, pcs, n - 1);
      var m := |Stream(pre, pcs, i)|;
      assert Stream(pre, pcs, n)[..m] == shorter[..m];
    }
  }

  /** The stream only grows. */
  lemma {:induction false} LengthMono(pre: seq<seq<int>>, pcs: seq<seq<int>>, i: nat, n: nat)
    requires i <= n <= |pre| && n <= |pcs|
    ensures |Stream(pre, pcs, i)| <= |Stream(pre, pcs, n)|
    decreases n
  {
    if i < n {
      LengthMono(pre, pcs, i, n - 1);
    }
  }

  /** The inverse list has one entry per token plus one for `<s>`, which
      maps to word 0. */
  lemma {:induction false} OwnerListLength(pre: seq<seq<int>>, pcs: seq<seq<int>>, n: nat)
    requires n <= |pre| && n <= |pcs|
    ensures |OwnerList(pre, pcs, n)| == |Stream(pre, pcs, n)| + 1
    ensures OwnerList(pre, pcs, n)[0] == 0
  {
    if n > 0 {
      OwnerListLength(pre, pcs, n - 1);
      RepeatLength(n - 1, |pre[n - 1]|);
      RepeatLength(n - 1, |pcs[n - 1]|);
    }
  }

  /** One more word: the definitions, one step each. */
  lemma StreamStep(pre: seq<seq<int>>, pcs: seq<seq<int>>, i: nat)
    requires i < |pre| && i < |pcs|
    ensures Stream(pre, pcs, i + 1) == Stream(pre, pcs, i) + pre[i] + pcs[i]
    ensures StartAt(pre, pcs, i) == |Stream(pre, pcs, i)| + |pre[i]| + 1
    ensures EndAt(pre, pcs, i) == |Stream(pre, pcs, i + 1)|
    ensures StartMap(pre, pcs, i + 1) == StartMap(pre, pcs, i)[i := StartAt(pre, pcs, i)]
    ensures EndMap(pre, pcs, i + 1) == EndMap(pre, pcs, i)[i := EndAt(pre, pcs, i)]
    ensures OwnerList(pre, pcs, i + 1) == OwnerList(pre, pcs, i) + Repeat(i, |pre[i]|) + Repeat(i, |pcs[i]|)
  {
  }

  lemma OwnerListStep(pre: seq<seq<int>>, pcs: seq<seq<int>>, n: nat)
    requires 0 < n <= |pre| && n <= |pcs|
    ensures OwnerList(pre, pcs, n) == OwnerList(pre, pcs, n - 1) + Repeat(n - 1, |pre[n - 1]|) + Repeat(n - 1, |pcs[n - 1]|)
  {
  }

  /** A new word leaves the earlier entries of the inverse list alone. */
  lemma OwnerListKeep(pre: seq<seq<int>>, pcs: seq<seq<int>>, n: nat, k: nat)
    requires 0 < n <= |pre| && n <= |pcs| && k <= |Stream(pre, pcs, n - 1)|
    ensures k < |OwnerList(pre, pcs, n - 1)| < |OwnerList(pre, pcs, n)| + 1
    ensures OwnerList(pre, pcs, n)[k] == OwnerList(pre, pcs, n - 1)[k]
  {
    var init := OwnerList(pre, pcs, n - 1);
    OwnerListStep(pre, pcs, n);
    OwnerListLength(pre, pcs, n - 1);
    var front := init + Repeat(n - 1, |pre[n - 1]|);
    assert OwnerList(pre, pcs, n) == front + Repeat(n - 1, |pcs[n - 1]|);
    assert front[k] == init[k];
  }

  /** The entries a new word adds to the inverse list all name it. */
  lemma OwnerListLast(pre: seq<seq<int>>, pcs: seq<seq<int>>, n: nat, k: nat)
    requires 0 < n <= |pre| && n <= |pcs|
    requires |Stream(pre, pcs, n - 1)| + 1 <= k <= |Stream(pre, pcs, n)|
    ensures k < |OwnerList(pre, pcs, n)| && OwnerList(pre, pcs, n)[k] == n - 1
  {
    var init := OwnerList(pre, pcs, n - 1);
    var a := Repeat(n - 1, |pre[n - 1]|);
    var b := Repeat(n - 1, |pcs[n - 1]|);
    var front := init + a;
    OwnerListStep(pre, pcs, n);
    assert OwnerList(pre, pcs, n) == front + b;
    OwnerListLength(pre, pcs, n - 1);
    RepeatLength(n - 1, |pre[n - 1]|);
    RepeatLength(n - 1, |pcs[n - 1]|);
    assert |Stream(pre, pcs, n)| == |init| - 1 + |a| + |b|;
    if k < |front| {
      RepeatIndex(n - 1, |pre[n - 1]|, k - |init|);
      assert front[k] == a[k - |init|];
    } else {
      RepeatIndex(n - 1, |pcs[n - 1]|, k - |front|);
    }
  }

  /** Every position of word `i`'s speaker prefix and subtokens maps back
      to `i`. */
  lemma {:induction false} OwnerListAt(pre: seq<seq<int>>, pcs: seq<seq<int>>, n: nat, owners: seq<nat>, i: nat, k: nat)
    requires i < n <= |pre| && n <= |pcs| && owners == OwnerList(pre, pcs, n)
    requires |Stream(pre, pcs, i)| + 1 <= k <= EndAt(pre, pcs, i)
    ensures k < |owners| && owners[k] == i
    decreases n
  {
    if i == n - 1 {
      OwnerListLast(pre, pcs, n, k);
    } else {
      LengthMono(pre, pcs, i + 1, n - 1);
      OwnerListAt(pre, pcs, n - 1, OwnerList(pre, pcs, n - 1), i, k);
      OwnerListKeep(pre, pcs, n, k);
    }
  }

  /** Word `i`'s speaker prefix and subtokens sit in the stream where its
      start and end say, the prefix right before its start. */
  lemma {:induction false} StreamSlices(pre: seq<seq<int>>, pcs: seq<seq<int>>, n: nat, i: nat)
    requires i < n <= |pre| && n <= |pcs|
    ensures var t := Stream(pre, pcs, n);
      var lo := |Stream(pre, pcs, i)|;
      var start := StartAt(pre, pcs, i);
      EndAt(pre, pcs, i) <= |t|
      && t[lo..start - 1] == pre[i]
      && t[start - 1..EndAt(pre, pcs, i)] == pcs[i]
  {
    StreamPrefix(pre, pcs, i + 1, n);
    var t := Stream(pre, pcs, n);
    var whole := Stream(pre, pcs, i + 1);
    var lo := |Stream(pre, pcs, i)|;
    var mid := lo + |pre[i]|;
    assert t[lo..mid] == whole[lo..mid];
    assert t[mid..|whole|] == whole[mid..|whole|];
  }

  /** Where word `i` starts and ends, in terms of the maps. */
  lemma WordBounds(pre: seq<seq<int>>, pcs: seq<seq<int>>, n: nat,
                   t: seq<int>, starts: map<int, nat>, ends: map<int, nat>, i: nat)
    requires i < n <= |pre| && n <= |pcs|
    requires t == Stream(pre, pcs, n) && starts == StartMap(pre, pcs, n) && ends == EndMap(pre, pcs, n)
    ensures i in starts && i in ends
    ensures starts[i] == |Stream(pre, pcs, i)| + |pre[i]| + 1 && ends[i] == |Stream(pre, pcs, i + 1)|
    ensures 1 <= starts[i] <= ends[i] + 1 <= |t| + 1
    ensures ends[i] + 1 == starts[i] + |pcs[i]|
  {
    MapAt(pre, pcs, n, i);
    LengthMono(pre, pcs, i + 1, n);
  }

  /** Everything about word `i` at once, in terms of the maps. */
  lemma WordAt(pre: seq<seq<int>>, pcs: seq<seq<int>>, n: nat,
               t: seq<int>, starts: map<int, nat>, ends: map<int, nat>, i: nat)
    requires i < n <= |pre| && n <= |pcs|
    requires t == Stream(pre, pcs, n) && starts == StartMap(pre, pcs, n) && ends == EndMap(pre, pcs, n)
    ensures i in starts && i in ends
    ensures starts[i] == |Stream(pre, pcs, i)| + |pre[i]| + 1 && ends[i] == |Stream(pre, pcs, i + 1)|
    ensures 1 <= starts[i] <= ends[i] + 1 <= |t| + 1
    ensures ends[i] + 1 == starts[i] + |pcs[i]|
    ensures t[starts[i] - 1..ends[i]] == pcs[i]
    ensures t[|Stream(pre, pcs, i)|..starts[i] - 1] == pre[i]
  {
    MapAt(pre, pcs, n, i);
    StreamSlices(pre, pcs, n, i);
  }

  /** Word `j`'s speaker prefix fills the stream from the end of word
      `j - 1` to the start of word `j`. */
  lemma GapAt(pre: seq<seq<int>>, pcs: seq<seq<int>>, n: nat,
              t: seq<int>, starts: map<int, nat>, ends: map<int, nat>, j: nat)
    requires 0 < j < n <= |pre| && n <= |pcs|
    requires t == Stream(pre, pcs, n) && starts == StartMap(pre, pcs, n) && ends == EndMap(pre, pcs, n)
    ensures j - 1 in ends && j in starts
    ensures ends[j - 1] + |pre[j]| + 1 == starts[j] <= |t| + 1
    ensures t[ends[j - 1]..starts[j] - 1] == pre[j]
  {
    MapAt(pre, pcs, n, j - 1);
    WordAt(pre, pcs, n, t, starts, ends, j);
  }

  /** The maps after `n` words: they hold exactly the word indices below
      `n`, and each word's subtokens, and nothing else, lie from its start
      to its end. */
  lemma {:induction false} StreamMaps(pre: seq<seq<int>>, pcs: seq<seq<int>>, n: nat,
                                      t: seq<int>, starts: map<int, nat>, ends: map<int, nat>)
    requires n <= |pre| && n <= |pcs|
    requires t == Stream(pre, pcs, n) && starts == StartMap(pre, pcs, n) && ends == EndMap(pre, pcs, n)
    ensures forall i :: i in starts <==> 0 <= i < n
    ensures forall i :: i in ends <==> 0 <= i < n
    ensures forall i :: 0 <= i < n ==> 1 <= starts[i] <= ends[i] + 1 && ends[i] <= |t|
    ensures forall i :: 0 <= i < n ==> ends[i] + 1 == starts[i] + |pcs[i]| && t[starts[i] - 1..ends[i]] == pcs[i]
  {
    MapKeys(pre, pcs, n);
    forall i | 0 <= i < n
      ensures 1 <= starts[i] <= ends[i] + 1 && ends[i] <= |t|
      ensures ends[i] + 1 == starts[i] + |pcs[i]| && t[starts[i] - 1..ends[i]] == pcs[i]
    {
      WordAt(pre, pcs, n, t, starts, ends, i);
    }
  }

  /** Every word ends before any later word starts. */
  lemma {:induction false} StreamOrder(pre: seq<seq<int>>, pcs: seq<seq<int>>, n: nat,
                                       starts: map<int, nat>, ends: map<int, nat>)
    requires n <= |pre| && n <= |pcs|
    requires starts == StartMap(pre, pcs, n) && ends == EndMap(pre, pcs, n)
    ensures forall i :: i in starts <==> 0 <= i < n
    ensures forall i :: i in ends <==> 0 <= i < n
    ensures forall i, j :: 0 <= i < j < n ==> ends[i] < starts[j]
  {
    MapKeys(pre, pcs, n);
    forall i, j | 0 <= i < j < n
      ensures ends[i] < starts[j]
    {
      MapAt(pre, pcs, n, i);
      MapAt(pre, pcs, n, j);
      LengthMono(pre, pcs, i + 1, j);
    }
  }

  /** The speaker prefixes fill the gaps: the first opens the stream, each
      later one follows the previous word's end, and the last word's end
      closes the stream. */
  lemma {:induction false} StreamGaps(pre: seq<seq<int>>, pcs: seq<seq<int>>, n: nat,
                                      t: seq<int>, starts: map<int, nat>, ends: map<int, nat>)
    requires n <= |pre| && n <= |pcs|
    requires t == Stream(pre, pcs, n) && starts == StartMap(pre, pcs, n) && ends == EndMap(pre, pcs, n)
    ensures forall i :: i in starts <==> 0 <= i < n
    ensures forall i :: i in ends <==> 0 <= i < n
    ensures forall i :: 0 <= i < n ==> 1 <= starts[i] <= |t| + 1
    ensures n > 0 ==> |pre[0]| + 1 == starts[0] && t[..starts[0] - 1] == pre[0]
    ensures forall i, j :: 0 <= i && j == i + 1 && j < n ==>
              ends[i] + |pre[j]| + 1 == starts[j] && t[ends[i]..starts[j] - 1] == pre[j]
    ensures |t| == if n == 0 then 0 else ends[n - 1]
  {
    MapKeys(pre, pcs, n);
    assert forall i :: 0 <= i < n ==> 1 <= starts[i] <= |t| + 1 by {
      forall i | 0 <= i < n
        ensures 1 <= starts[i] <= |t| + 1
      {
        WordBounds(pre, pcs, n, t, starts, ends, i);
      }
    }
    if n > 0 {
      assert |pre[0]| + 1 == starts[0] && t[..starts[0] - 1] == pre[0] by {
        WordAt(pre, pcs, n, t, starts, ends, 0);
        assert t[..starts[0] - 1] == t[0..starts[0] - 1];
      }
      assert |t| == ends[n - 1] by {
        MapAt(pre, pcs, n, n - 1);
      }
    }
    assert forall i, j :: 0 <= i && j == i + 1 && j < n ==>
             ends[i] + |pre[j]| + 1 == starts[j] && t[ends[i]..starts[j] - 1] == pre[j] by {
      forall i, j | 0 <= i && j == i + 1 && j < n
        ensures ends[i] + |pre[j]| + 1 == starts[j] && t[ends[i]..starts[j] - 1] == pre[j]
      {
        GapAt(pre, pcs, n, t, starts, ends, j);
      }
    }
  }

  /** The inverse list after `n` words: one entry for `<s>`, then every
      token of word `i`'s speaker prefix and subtokens maps to `i`. */
  lemma {:induction false} StreamOwners(pre: seq<seq<int>>, pcs: seq<seq<int>>, n: nat,
                                        t: seq<int>, owners: seq<nat>, starts: map<int, nat>, ends: map<int, nat>)
    requires n <= |pre| && n <= |pcs|
    requires t == Stream(pre, pcs, n) && owners == OwnerList(pre, pcs, n)
    requires starts == StartMap(pre, pcs, n) && ends == EndMap(pre, pcs, n)
    ensures |owners| == |t| + 1 && owners[0] == 0
    ensures forall i :: i in starts <==> 0 <= i < n
    ensures forall i :: i in ends <==> 0 <= i < n
    ensures forall i :: 0 <= i < n ==> 1 <= starts[i] - |pre[i]| && ends[i] < |owners|
    ensures forall i, k :: 0 <= i < n && starts[i] - |pre[i]| <= k <= ends[i] ==> 0 <= k < |owners| && owners[k] == i
  {
    OwnerListLength(pre, pcs, n);
    MapKeys(pre, pcs, n);
    forall i | 0 <= i < n
      ensures 1 <= starts[i] - |pre[i]| && ends[i] < |owners|
    {
      WordBounds(pre, pcs, n, t, starts, ends, i);
    }
    forall i: int, k: int | 0 <= i < n && starts[i] - |pre[i]| <= k <= ends[i]
      ensures 0 <= k < |owners| && owners[k] == i
    {
      MapAt(pre, pcs, n, i);
      OwnerListAt(pre, pcs, n, owners, i, k);
    }
  }

  // ---------------------------------------------------------------------
  // The cluster remap

  /** A mention moved to subtoken positions: its start word's start and
      its end word's end; `None` is the `KeyError` of a word index the
      maps do not hold. */
  function RemapSpan(starts: map<int, nat>, ends: map<int, nat>, s: Span): Option<Span>
  {
    if s.start in starts && s.end in ends then Some(Span(starts[s.start], ends[s.end])) else None
  }

  function RemapCluster(starts: map<int, nat>, ends: map<int, nat>, c: Cluster): Option<Cluster>
  {
    if |c| == 0 then Some([])
    else
      match RemapCluster(starts, ends, c[..|c| - 1])
      case None => None
      case Some(init) =>
        match RemapSpan(starts, ends, c[|c| - 1])
        case None => None
        case Some(s) => Some(init + [s])
  }

  /** The cluster comprehension shared by `_tokenize` (gold clusters) and
      `evaluate` (predicted clusters). */
  function RemapClusters(starts: map<int, nat>, ends: map<int, nat>, cs: seq<Cluster>): Option<seq<Cluster>>
  {
    if |cs| == 0 then Some([])
    else
      match RemapClusters(starts, ends, cs[..|cs| - 1])
      case None => None
      case Some(init) =>
        match RemapCluster(starts, ends, cs[|cs| - 1])
        case None => None
        case Some(c) => Some(init + [c])
  }

  /** A cluster moves exactly when both ends of each of its mentions are
      word indices of the maps; it keeps its length, and each mention
      becomes its start word's start and its end word's end. */
  lemma {:induction false} RemapClusterExact(starts: map<int, nat>, ends: map<int, nat>, c: Cluster)
    ensures RemapCluster(starts, ends, c).Some? <==> forall j :: 0 <= j < |c| ==> c[j].start in starts && c[j].end in ends
    ensures RemapCluster(starts, ends, c).Some? ==>
              var r := RemapCluster(starts, ends, c).value;
              |r| == |c| && forall j :: 0 <= j < |c| ==> r[j] == Span(starts[c[j].start], ends[c[j].end])
  {
    if |c| > 0 {
      var init := c[..|c| - 1];
      RemapClusterExact(starts, ends, init);
      assert forall j :: 0 <= j < |init| ==> init[j] == c[j];
    }
  }

  /** The remap keeps the number and the order of the clusters and the
      length of each, and fails exactly when some mention end is not a
      word index of the maps. */
  lemma {:induction false} RemapClustersExact(starts: map<int, nat>, ends: map<int, nat>, cs: seq<Cluster>)
    ensures RemapClusters(starts, ends, cs).Some? <==>
              forall i, j :: 0 <= i < |cs| && 0 <= j < |cs[i]| ==> cs[i][j].start in starts && cs[i][j].end in ends
    ensures RemapClusters(starts, ends, cs).Some? ==>
              var r := RemapClusters(starts, ends, cs).value;
              && |r| == |cs|
              && forall i :: 0 <= i < |cs| ==>
                   |r[i]| == |cs[i]| && forall j :: 0 <= j < |cs[i]| ==> r[i][j] == Span(starts[cs[i][j].start], ends[cs[i][j].end])
  {
    if |cs| > 0 {
      var init := cs[..|cs| - 1];
      RemapClustersExact(starts, ends, init);
      RemapClusterExact(starts, ends, cs[|cs| - 1]);
      assert forall i :: 0 <= i < |init| ==> init[i] == cs[i];
    }
  }
}
