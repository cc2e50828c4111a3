/** `_tokenize`: per paragraph, lay the subtokens of its words out in one
    stream, a speaker prefix before every word whose speaker differs from
    the previous word's; record where each word's subtokens start and end
    and, for every position, the word it belongs to; then move every
    cluster from word indices to subtoken positions. The stream itself is
    described in `Subtokens`; this module supplies the tokenizer's pieces
    and the loop. */
module Aligner {
  import opened Basics
  import opened Splitter
  import opened Subtokens

  /** One entry of `coref_examples`: `end_token_idx_to_word_idx`,
      `token_ids`, the clusters moved to subtoken positions,
      `word_idx_to_start_token_idx` and `word_idx_to_end_token_idx`. */
  datatype Alignment = Alignment(
    subtokenMap: seq<nat>,
    tokenIds: seq<int>,
    clusters: seq<Cluster>,
    starts: map<int, nat>,
    ends: map<int, nat>)

  /** `zip(words, speakers)` stops at the shorter list. */
  function Zipped(words: seq<string>, speakers: seq<string>): (n: nat)
    ensures n <= |words| && n <= |speakers|
    ensures n == |words| || n == |speakers|
  {
    if |words| <= |speakers| then |words| else |speakers|
  }

  /** The speaker prefix placed before word `i`: SPEAKER_START, the
      speaker's subtokens and SPEAKER_END when the speaker differs from
      the previous word's (always for the first word, since the last
      speaker starts as `None`), nothing otherwise. */
  function SpeakerPrefix(ext: Externals, speakers: seq<string>, i: nat): seq<int>
    requires i < |speakers|
  {
    if i == 0 || speakers[i - 1] != speakers[i] then
      [ext.speakerStart] + ext.subtokens(" " + speakers[i]) + [ext.speakerEnd]
    else []
  }

  /** The subtokens of one word, encoded with a leading space. */
  function WordPieces(ext: Externals, word: string): seq<int>
  {
    ext.subtokens(" " + word)
  }

  /** The speaker prefixes of the first `n` words. */
  function Prefixes(ext: Externals, speakers: seq<string>, n: nat): (r: seq<seq<int>>)
    requires n <= |speakers|
    ensures |r| == n
  {
    if n == 0 then [] else Prefixes(ext, speakers, n - 1) + [SpeakerPrefix(ext, speakers, n - 1)]
  }

  /** The subtokens of the first `n` words. */
  function Pieces(ext: Externals, words: seq<string>, n: nat): (r: seq<seq<int>>)
    requires n <= |words|
    ensures |r| == n
  {
    if n == 0 then [] else Pieces(ext, words, n - 1) + [WordPieces(ext, words[n - 1])]
  }

  lemma {:induction false} PrefixesAt(ext: Externals, speakers: seq<string>, n: nat)
    requires n <= |speakers|
    ensures forall i :: 0 <= i < n ==> Prefixes(ext, speakers, n)[i] == SpeakerPrefix(ext, speakers, i)
  {
    if n > 0 {
      PrefixesAt(ext, speakers, n - 1);
    }
  }

  lemma {:induction false} PrefixAt(ext: Externals, speakers: seq<string>, n: nat, i: nat)
    requires i < n <= |speakers|
    ensures Prefixes(ext, speakers, n)[i] == SpeakerPrefix(ext, speakers, i)
  {
    if i < n - 1 {
      PrefixAt(ext, speakers, n - 1, i);
    }
  }

  lemma {:induction false} PieceAt(ext: Externals, words: seq<string>, n: nat, i: nat)
    requires i < n <= |words|
    ensures Pieces(ext, words, n)[i] == WordPieces(ext, words[i])
  {
    if i < n - 1 {
      PieceAt(ext, words, n - 1, i);
    }
  }

  lemma {:induction false} PiecesAt(ext: Externals, words: seq<string>, n: nat)
    requires n <= |words|
    ensures forall i :: 0 <= i < n ==> Pieces(ext, words, n)[i] == WordPieces(ext, words[i])
  {
    if n > 0 {
      PiecesAt(ext, words, n - 1);
    }
  }

  /** What `_tokenize` makes of one paragraph's words, speakers and
      clusters: `None` when a cluster names a word index no word has, or
      when there are fewer speakers than words (the lookups after the
      loop). */
  function Aligned(ext: Externals, words: seq<string>, speakers: seq<string>, clusters: seq<Cluster>): Option<Alignment>
  {
    var n := Zipped(words, speakers);
    var pre := Prefixes(ext, speakers, n);
    var pcs := Pieces(ext, words, n);
    var starts := StartMap(pre, pcs, n);
    var ends := EndMap(pre, pcs, n);
    match RemapClusters(starts, ends, clusters)
    case None => None
    case Some(cs) =>
      if n < |words| then None
      else Some(Alignment(OwnerList(pre, pcs, n), Stream(pre, pcs, n), cs, starts, ends))
  }

  function AlignParagraph(ext: Externals, p: Paragraph): Option<Alignment>
  {
    Aligned(ext, Flatten(p.sentences), Flatten(p.speakers), p.clusters)
  }

  /** The `for _ in range(count)` loops that append word `idx` to
      `end_token_idx_to_word_idx` once per token. */
  method AppendOwner(owners: seq<nat>, idx: nat, count: nat) returns (r: seq<nat>)
    ensures r == owners + Repeat(idx, count)
  {
    r := owners;
    for k := 0 to count
      invariant r == owners + Repeat(idx, k)
    {
      r := r + [idx];
    }
  }

  /** The body of `_tokenize`'s loop for one paragraph. */
  method TokenizeParagraph(ext: Externals, p: Paragraph) returns (r: Option<Alignment>)
    ensures r == AlignParagraph(ext, p)
  {
    var words := Flatten(p.sentences);
    var speakers := Flatten(p.speakers);
    var starts: map<int, nat> := map[];
    var ends: map<int, nat> := map[];
    var owners: seq<nat> := [0];
    var tokenIds: seq<int> := [];
    var lastSpeaker: Option<string> := None;
    var n := Zipped(words, speakers);
    ghost var pre := Prefixes(ext, speakers, n);
    ghost var pcs := Pieces(ext, words, n);
    var idx := 0;
    while idx < n
      invariant idx <= n
      invariant tokenIds == Stream(pre, pcs, idx)
      invariant owners == OwnerList(pre, pcs, idx)
      invariant starts == StartMap(pre, pcs, idx)
      invariant ends == EndMap(pre, pcs, idx)
      invariant lastSpeaker == if idx == 0 then None else Some(speakers[idx - 1])
    {
      var prefix: seq<int>;
      if lastSpeaker != Some(speakers[idx]) {
        prefix := [ext.speakerStart] + ext.subtokens(" " + speakers[idx]) + [ext.speakerEnd];
        lastSpeaker := Some(speakers[idx]);
      } else {
        prefix := [];
      }
      PrefixAt(ext, speakers, n, idx);
      assert prefix == pre[idx];
      StreamStep(pre, pcs, idx);
      owners := AppendOwner(owners, idx, |prefix|);
      tokenIds := tokenIds + prefix;
      starts := starts[idx := |tokenIds| + 1];
      var tokenized := ext.subtokens(" " + words[idx]);
      PieceAt(ext, words, n, idx);
      assert tokenized == pcs[idx];
      owners := AppendOwner(owners, idx, |tokenized|);
      tokenIds := tokenIds + tokenized;
      ends := ends[idx := |tokenIds|];
      idx := idx + 1;
    }
    var clusters := RemapClusters(starts, ends, p.clusters);
    if clusters.None? {
      return None;
    }
    MapKeys(pre, pcs, n);
    for i := 0 to |words|
      invariant i <= n
    {
      if i !in starts || i !in ends {
        return None;
      }
    }
    r := Some(Alignment(owners, tokenIds, clusters.value, starts, ends));
  }

  // ---------------------------------------------------------------------
  // The examples dictionary

  /** The key of a paragraph in `coref_examples`. */
  function KeyOf(p: Paragraph): (string, nat)
  {
    (p.docKey, p.paragraphId)
  }

  /** The dictionary built from the paragraphs `ps` with outcomes `rs`, a
      later paragraph replacing an earlier one with the same key; `None`
      as soon as one paragraph fails. */
  function Collect(ps: seq<Paragraph>, rs: seq<Option<Alignment>>): Option<map<(string, nat), Alignment>>
    requires |ps| == |rs|
  {
    if |ps| == 0 then Some(map[])
    else
      match Collect(ps[..|ps| - 1], rs[..|rs| - 1])
      case None => None
      case Some(m) =>
        match rs[|rs| - 1]
        case None => None
        case Some(a) => Some(m[KeyOf(ps[|ps| - 1]) := a])
  }

  function Results(ext: Externals, ps: seq<Paragraph>): seq<Option<Alignment>>
  {
    seq(|ps|, k requires 0 <= k < |ps| => AlignParagraph(ext, ps[k]))
  }

  /** `coref_examples`. */
  function AlignAll(ext: Externals, ps: seq<Paragraph>): Option<map<(string, nat), Alignment>>
  {
    Collect(ps, Results(ext, ps))
  }

  /** `_tokenize`: the paragraphs in order. */
  method Tokenize(ext: Externals, ps: seq<Paragraph>) returns (r: Option<map<(string, nat), Alignment>>)
    ensures r == AlignAll(ext, ps)
  {
    var examples: map<(string, nat), Alignment> := map[];
    ghost var rs := Results(ext, ps);
    for i := 0 to |ps|
      invariant Collect(ps[..i], rs[..i]) == Some(examples)
    {
      assert ps[..i + 1][..i] == ps[..i] && rs[..i + 1][..i] == rs[..i];
      var a := TokenizeParagraph(ext, ps[i]);
      assert a == rs[i];
      if a.None? {
        CollectFails(ps, rs, i + 1);
        return None;
      }
      examples := examples[KeyOf(ps[i]) := a.value];
    }
    assert ps[..|ps|] == ps && rs[..|rs|] == rs;
    r := Some(examples);
  }

  /** Once a prefix of the paragraphs fails, the whole dictionary does. */
  lemma {:induction false} CollectFails(ps: seq<Paragraph>, rs: seq<Option<Alignment>>, i: nat)
    requires |ps| == |rs| && i <= |ps| && Collect(ps[..i], rs[..i]).None?
    ensures Collect(ps, rs).None?
    decreases |ps| - i
  {
    if i < |ps| {
      assert ps[..i + 1][..i] == ps[..i] && rs[..i + 1][..i] == rs[..i];
      CollectFails(ps, rs, i + 1);
    } else {
      assert ps[..i] == ps && rs[..i] == rs;
    }
  }

  /** The dictionary exists exactly when every paragraph succeeds. */
  lemma {:induction false} CollectSome(ps: seq<Paragraph>, rs: seq<Option<Alignment>>)
    requires |ps| == |rs|
    ensures Collect(ps, rs).Some? <==> forall k :: 0 <= k < |rs| ==> rs[k].Some?
  {
    if |ps| > 0 {
      var init := rs[..|rs| - 1];
      CollectSome(ps[..|ps| - 1], init);
      assert forall k :: 0 <= k < |init| ==> init[k] == rs[k];
    }
  }

  /** The dictionary holds exactly the keys of the paragraphs, and under
      each key the outcome of the last paragraph with that key. */
  lemma {:induction false} CollectLookup(ps: seq<Paragraph>, rs: seq<Option<Alignment>>, m: map<(string, nat), Alignment>)
    requires |ps| == |rs| && Collect(ps, rs) == Some(m)
    ensures forall key :: key in m <==> exists k :: 0 <= k < |ps| && key == KeyOf(ps[k])
    ensures forall k :: 0 <= k < |ps| && (forall l :: k < l < |ps| ==> KeyOf(ps[l]) != KeyOf(ps[k])) ==>
              rs[k] == Some(m[KeyOf(ps[k])])
  {
    if |ps| > 0 {
      var init := ps[..|ps| - 1];
      var initRs := rs[..|rs| - 1];
      var last := ps[|ps| - 1];
      var rest := Collect(init, initRs).value;
      assert m == rest[KeyOf(last) := rs[|rs| - 1].value];
      CollectLookup(init, initRs, rest);
      assert forall k :: 0 <= k < |init| ==> init[k] == ps[k] && initRs[k] == rs[k];
      forall key | key in m
        ensures exists k :: 0 <= k < |ps| && key == KeyOf(ps[k])
      {
        if key != KeyOf(last) {
          var k :| 0 <= k < |init| && key == KeyOf(init[k]);
          assert key == KeyOf(ps[k]);
        } else {
          assert key == KeyOf(ps[|ps| - 1]);
        }
      }
    }
  }

  /** `coref_examples` exists exactly when every paragraph aligns; it holds
      exactly the paragraphs' keys, each with the alignment of the last
      paragraph carrying it. */
  lemma AlignAllLookup(ext: Externals, ps: seq<Paragraph>)
    ensures AlignAll(ext, ps).Some? <==> forall k :: 0 <= k < |ps| ==> AlignParagraph(ext, ps[k]).Some?
    ensures AlignAll(ext, ps).Some? ==>
              var m := AlignAll(ext, ps).value;
              && (forall key :: key in m <==> exists k :: 0 <= k < |ps| && key == KeyOf(ps[k]))
              && forall k :: 0 <= k < |ps| && (forall l :: k < l < |ps| ==> KeyOf(ps[l]) != KeyOf(ps[k])) ==>
                   AlignParagraph(ext, ps[k]) == Some(m[KeyOf(ps[k])])
  {
    var rs := Results(ext, ps);
    CollectSome(ps, rs);
    if AlignAll(ext, ps).Some? {
      CollectLookup(ps, rs, AlignAll(ext, ps).value);
    }
  }

  // ---------------------------------------------------------------------
  // What an alignment promises

  /** An alignment is the stream state after all the words, when there are
      at least as many speakers as words. */
  lemma AlignedFields(ext: Externals, words: seq<string>, speakers: seq<string>, clusters: seq<Cluster>, a: Alignment)
    requires Aligned(ext, words, speakers, clusters) == Some(a)
    ensures |words| <= |speakers|
    ensures var pre := Prefixes(ext, speakers, |words|);
      var pcs := Pieces(ext, words, |words|);
      && a.tokenIds == Stream(pre, pcs, |words|)
      && a.subtokenMap == OwnerList(pre, pcs, |words|)
      && a.starts == StartMap(pre, pcs, |words|)
      && a.ends == EndMap(pre, pcs, |words|)
    ensures RemapClusters(a.starts, a.ends, clusters) == Some(a.clusters)
  {
  }

  /** What the maps of an alignment promise: they hold every word, and
      each word's subtokens, and nothing else, lie from its start to its
      end, so the span is as long as the word's subtokens. */
  lemma {:induction false} AlignmentShape(ext: Externals, words: seq<string>, speakers: seq<string>,
                                          clusters: seq<Cluster>, a: Alignment)
    requires Aligned(ext, words, speakers, clusters) == Some(a)
    ensures |words| <= |speakers|
    ensures forall i :: i in a.starts <==> 0 <= i < |words|
    ensures forall i :: i in a.ends <==> 0 <= i < |words|
    ensures forall i :: 0 <= i < |words| ==> 1 <= a.starts[i] <= a.ends[i] + 1 && a.ends[i] <= |a.tokenIds|
    ensures forall i :: 0 <= i < |words| ==>
              a.ends[i] + 1 == a.starts[i] + |WordPieces(ext, words[i])|
              && a.tokenIds[a.starts[i] - 1..a.ends[i]] == WordPieces(ext, words[i])
  {
    AlignedFields(ext, words, speakers, clusters, a);
    var n := |words|;
    PiecesAt(ext, words, n);
    StreamMaps(Prefixes(ext, speakers, n), Pieces(ext, words, n), n, a.tokenIds, a.starts, a.ends);
  }

  /** Every word of an alignment ends before any later word starts. */
  lemma {:induction false} AlignmentOrder(ext: Externals, words: seq<string>, speakers: seq<string>,
                                          clusters: seq<Cluster>, a: Alignment)
    requires Aligned(ext, words, speakers, clusters) == Some(a)
    ensures forall i :: i in a.starts <==> 0 <= i < |words|
    ensures forall i :: i in a.ends <==> 0 <= i < |words|
    ensures forall i, j :: 0 <= i < j < |words| ==> a.ends[i] < a.starts[j]
  {
    AlignedFields(ext, words, speakers, clusters, a);
    var n := |words|;
    StreamOrder(Prefixes(ext, speakers, n), Pieces(ext, words, n), n, a.starts, a.ends);
  }

  /** The inverse list of an alignment is one longer than the stream, for
      `<s>`, and every token of a word and of the speaker prefix before it
      maps back to the word. */
  lemma {:induction false} AlignmentOwners(ext: Externals, words: seq<string>, speakers: seq<string>,
                                           clusters: seq<Cluster>, a: Alignment)
    requires Aligned(ext, words, speakers, clusters) == Some(a)
    ensures |words| <= |speakers|
    ensures forall i :: i in a.starts <==> 0 <= i < |words|
    ensures forall i :: i in a.ends <==> 0 <= i < |words|
    ensures |a.subtokenMap| == |a.tokenIds| + 1 && a.subtokenMap[0] == 0
    ensures forall i, k :: 0 <= i < |words| && a.starts[i] - |SpeakerPrefix(ext, speakers, i)| <= k <= a.ends[i] ==>
              0 <= k < |a.subtokenMap| && a.subtokenMap[k] == i
  {
    AlignedFields(ext, words, speakers, clusters, a);
    var n := |words|;
    var pre := Prefixes(ext, speakers, n);
    PrefixesAt(ext, speakers, n);
    StreamOwners(pre, Pieces(ext, words, n), n, a.tokenIds, a.subtokenMap, a.starts, a.ends);
    forall i: int, k: int | 0 <= i < n && a.starts[i] - |SpeakerPrefix(ext, speakers, i)| <= k <= a.ends[i]
      ensures 0 <= k < |a.subtokenMap| && a.subtokenMap[k] == i
    {
      assert pre[i] == SpeakerPrefix(ext, speakers, i);
    }
  }

  /** The stream is nothing but the speaker prefixes and the words'
      subtokens, back to back: the first prefix opens the stream, each
      later one follows the previous word's last subtoken, and the last
      word's subtokens close it. A prefix is there exactly when the
      speaker changes, so always before the first word, where it is
      SPEAKER_START, the speaker's subtokens and SPEAKER_END. */
  lemma {:induction false} SpeakerPrefixes(ext: Externals, words: seq<string>, speakers: seq<string>,
                                           clusters: seq<Cluster>, a: Alignment)
    requires Aligned(ext, words, speakers, clusters) == Some(a)
    ensures |words| <= |speakers|
    ensures forall i :: i in a.starts <==> 0 <= i < |words|
    ensures forall i :: i in a.ends <==> 0 <= i < |words|
    ensures forall i :: 0 <= i < |words| ==> 1 <= a.starts[i] <= |a.tokenIds| + 1
    ensures forall i :: 0 <= i < |words| ==>
              (SpeakerPrefix(ext, speakers, i) != [] <==> i == 0 || speakers[i - 1] != speakers[i])
    ensures |words| > 0 ==>
              && a.starts[0] == |ext.subtokens(" " + speakers[0])| + 3
              && a.tokenIds[..a.starts[0] - 1] == [ext.speakerStart] + ext.subtokens(" " + speakers[0]) + [ext.speakerEnd]
    ensures forall i, j :: 0 <= i && j == i + 1 && j < |words| ==>
              && a.ends[i] + |SpeakerPrefix(ext, speakers, j)| + 1 == a.starts[j]
              && a.tokenIds[a.ends[i]..a.starts[j] - 1] == SpeakerPrefix(ext, speakers, j)
    ensures |a.tokenIds| == if |words| == 0 then 0 else a.ends[|words| - 1]
  {
    AlignedFields(ext, words, speakers, clusters, a);
    var n := |words|;
    var pre := Prefixes(ext, speakers, n);
    var pcs := Pieces(ext, words, n);
    PrefixesAt(ext, speakers, n);
    StreamGaps(pre, pcs, n, a.tokenIds, a.starts, a.ends);
  }

  /** Through the inverse list, a moved mention comes back to the words it
      started from, whenever its two end words have subtokens. */
  lemma {:induction false} RemapRoundTrip(ext: Externals, words: seq<string>, speakers: seq<string>,
                                          clusters: seq<Cluster>, a: Alignment)
    requires Aligned(ext, words, speakers, clusters) == Some(a)
    ensures forall i :: i in a.starts <==> 0 <= i < |words|
    ensures forall i :: i in a.ends <==> 0 <= i < |words|
    ensures |a.clusters| == |clusters|
    ensures forall i, j :: 0 <= i < |clusters| && 0 <= j < |clusters[i]| ==>
              var s := clusters[i][j];
              && 0 <= s.start < |words| && 0 <= s.end < |words|
              && j < |a.clusters[i]| && a.clusters[i][j] == Span(a.starts[s.start], a.ends[s.end])
              && a.ends[s.end] < |a.subtokenMap|
              && (WordPieces(ext, words[s.start]) != [] ==>
                    a.starts[s.start] < |a.subtokenMap| && a.subtokenMap[a.starts[s.start]] == s.start)
              && (WordPieces(ext, words[s.end]) != [] ==> a.subtokenMap[a.ends[s.end]] == s.end)
  {
    AlignedFields(ext, words, speakers, clusters, a);
    RemapClustersExact(a.starts, a.ends, clusters);
    AlignmentShape(ext, words, speakers, clusters, a);
    AlignmentOwners(ext, words, speakers, clusters, a);
    forall i, j | 0 <= i < |clusters| && 0 <= j < |clusters[i]|
      ensures var s := clusters[i][j];
              && 0 <= s.start < |words| && 0 <= s.end < |words|
              && j < |a.clusters[i]| && a.clusters[i][j] == Span(a.starts[s.start], a.ends[s.end])
              && a.ends[s.end] < |a.subtokenMap|
              && (WordPieces(ext, words[s.start]) != [] ==>
                    a.starts[s.start] < |a.subtokenMap| && a.subtokenMap[a.starts[s.start]] == s.start)
              && (WordPieces(ext, words[s.end]) != [] ==> a.subtokenMap[a.ends[s.end]] == s.end)
    {
      var s := clusters[i][j];
      assert s.start in a.starts && s.end in a.ends;
      var b, e := s.start, s.end;
      assert a.starts[b] - |SpeakerPrefix(ext, speakers, b)| <= a.starts[b];
      assert a.ends[e] - |SpeakerPrefix(ext, speakers, e)| <= a.ends[e] <= a.ends[e];
    }
  }

  /** A paragraph fails exactly when it has fewer speakers than words or a
      mention end that is not one of its word indices. */
  lemma {:induction false} AlignedSome(ext: Externals, words: seq<string>, speakers: seq<string>, clusters: seq<Cluster>)
    ensures Aligned(ext, words, speakers, clusters).Some? <==>
              && |words| <= |speakers|
              && forall i, j :: 0 <= i < |clusters| && 0 <= j < |clusters[i]| ==>
                   0 <= clusters[i][j].start < |words| && 0 <= clusters[i][j].end < |words|
  {
    var n := Zipped(words, speakers);
    var pre := Prefixes(ext, speakers, n);
    var pcs := Pieces(ext, words, n);
    MapKeys(pre, pcs, n);
    RemapClustersExact(StartMap(pre, pcs, n), EndMap(pre, pcs, n), clusters);
  }
}
