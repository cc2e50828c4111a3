/** `_split_to_paragraphs`: cut every document into budget-sized
    paragraphs, one budget search per paragraph, tracking the number of
    sentences consumed, the word offset of each paragraph, its id, and the
    clusters of what remains. */
module Splitter {
  import opened Basics
  import opened Truncation
  import opened Budget

  /** One entry of `paragraph_examples`; `mentions_examples` holds the same
      entries with `target` (`entity_mentions`) and without the speakers,
      the annotation lines and the offset. */
  datatype Paragraph = Paragraph(
    docIndex: nat,
    docKey: string,
    paragraphId: nat,
    sentences: seq<Sentence>,
    clusters: seq<Cluster>,
    speakers: seq<seq<string>>,
    conllLines: seq<seq<string>>,
    indexShift: nat,
    target: seq<string>)

  /** Which offset the remaining clusters are re-based by. The source
      re-bases the document's original clusters by the word count of the
      previous window only (`PreviousWindow`); re-basing by the running
      offset (`CumulativeShift`) is what the rest of the loop needs: line
      262 cuts the remaining words at the running sentence count, and the
      budget search at line 273 truncates the clusters against that cut,
      so they must be local to it. */
  datatype RemainderBase = PreviousWindow | CumulativeShift

  /** The sentences, speakers and annotation lines a paragraph is cut
      from: the whole document for the first paragraph, then
      `remain_words`, `remain_speakers` and `remain_conll_lines`. */
  datatype Rest = Rest(words: seq<Sentence>, speakers: seq<seq<string>>, conllLines: seq<seq<string>>)

  function Whole(doc: Document): Rest
  {
    Rest(doc.sentences, doc.speakers, doc.conllLines)
  }

  /** The three lists with their first `n` sentences removed, with Python's
      clamped slicing. */
  function Cut(rest: Rest, n: nat): Rest
  {
    Rest(Drop(rest.words, n), Drop(rest.speakers, n), Drop(rest.conllLines, n))
  }

  /** The paragraph built from window `w` of `rest`: the speakers and
      annotation lines are cut at the window's sentence count. */
  function MakeParagraph(docIndex: nat, doc: Document, id: nat, rest: Rest, w: Window, shift: nat): Paragraph
  {
    Paragraph(docIndex, doc.key, id, w.sentences, w.clusters,
              Take(rest.speakers, |w.sentences|), Take(rest.conllLines, |w.sentences|), shift, w.target)
  }

  /** What the loop appends for window `w`: its paragraph, unless no
      cluster survived in it. */
  function Emitted(docIndex: nat, doc: Document, id: nat, rest: Rest, w: Window, shift: nat): seq<Paragraph>
  {
    if w.clusters != [] then [MakeParagraph(docIndex, doc, id, rest, w, shift)] else []
  }

  /** The offset the remaining clusters are re-based by, for a previous
      window of `prevWords` words ending at word `shift + prevWords`. */
  function RemainderOffset(base: RemainderBase, prevWords: nat, shift: nat): nat
  {
    if base == PreviousWindow then prevWords else shift + prevWords
  }

  /** The `while trunced_length < len(words)` loop from a state: `rest`
      not yet consumed, the previous window holding `prevWords` words, the
      previous paragraph's offset `shift` and id `id`. */
  function SplitFrom(ext: Externals, maxSeqLength: int, docIndex: nat, doc: Document, base: RemainderBase,
                     rest: Rest, prevWords: nat, shift: nat, id: nat): Option<seq<Paragraph>>
    decreases |rest.words|, 1
  {
    if rest.words == [] then Some([]) else Turn(ext, maxSeqLength, docIndex, doc, base, rest, prevWords, shift, id)
  }

  /** One turn of the loop body: search the window of what remains, emit
      its paragraph if any cluster survived in it, and stop when the window
      is empty or takes everything that remains. */
  function Turn(ext: Externals, maxSeqLength: int, docIndex: nat, doc: Document, base: RemainderBase,
                rest: Rest, prevWords: nat, shift: nat, id: nat): Option<seq<Paragraph>>
    requires rest.words != []
    decreases |rest.words|, 0
  {
    var remainClusters := ClustersFrom(doc.clusters, RemainderOffset(base, prevWords, shift));
    match BudgetSearch(ext, maxSeqLength, rest.words, remainClusters, 1, 0)
    case None => None
    case Some(w) =>
      var emitted := Emitted(docIndex, doc, id + 1, rest, w, shift + prevWords);
      if w.sentences == [] || w.sentences == rest.words then Some(emitted)
      else Prepend(emitted, SplitFrom(ext, maxSeqLength, docIndex, doc, base, Cut(rest, |w.sentences|),
                                      |Flatten(w.sentences)|, shift + prevWords, id + 1))
  }

  /** `out` followed by the paragraphs of `rest`, if there are any. */
  function Prepend(out: seq<Paragraph>, rest: Option<seq<Paragraph>>): Option<seq<Paragraph>>
  {
    match rest
    case None => None
    case Some(ps) => Some(out + ps)
  }

  lemma PrependAssoc(a: seq<Paragraph>, b: seq<Paragraph>, rest: Option<seq<Paragraph>>)
    ensures Prepend(a, Prepend(b, rest)) == Prepend(a + b, rest)
  {
    if rest.Some? {
      assert a + (b + rest.value) == (a + b) + rest.value;
    }
  }

  lemma PrependNil(rest: Option<seq<Paragraph>>)
    ensures Prepend([], rest) == rest
  {
    if rest.Some? {
      assert [] + rest.value == rest.value;
    }
  }

  /** The paragraphs of one document: the first window is always emitted,
      with id 0 and offset 0; the loop produces the rest. A document without
      sentences fails, as `_process_example` does when it never binds
      `words_str`. */
  function SplitDocumentSpec(ext: Externals, maxSeqLength: int, docIndex: nat, doc: Document,
                             base: RemainderBase): Option<seq<Paragraph>>
  {
    if |doc.sentences| == 0 then None
    else
      match BudgetSearch(ext, maxSeqLength, doc.sentences, doc.clusters, 1, 0)
      case None => None
      case Some(w) =>
        Prepend([MakeParagraph(docIndex, doc, 0, Whole(doc), w, 0)],
                SplitFrom(ext, maxSeqLength, docIndex, doc, base, Cut(Whole(doc), |w.sentences|),
                          |Flatten(w.sentences)|, 0, 0))
  }

  /** One turn of the loop, given the window `w` its budget search returns. */
  lemma {:induction false} SplitFromStep(ext: Externals, maxSeqLength: int, docIndex: nat, doc: Document, base: RemainderBase,
                      rest: Rest, prevWords: nat, shift: nat, id: nat, w: Window)
    requires rest.words != []
    requires BudgetSearch(ext, maxSeqLength, rest.words,
                          ClustersFrom(doc.clusters, RemainderOffset(base, prevWords, shift)), 1, 0) == Some(w)
    ensures SplitFrom(ext, maxSeqLength, docIndex, doc, base, rest, prevWords, shift, id)
            == if w.sentences == [] || w.sentences == rest.words
               then Some(Emitted(docIndex, doc, id + 1, rest, w, shift + prevWords))
               else Prepend(Emitted(docIndex, doc, id + 1, rest, w, shift + prevWords),
                            SplitFrom(ext, maxSeqLength, docIndex, doc, base, Cut(rest, |w.sentences|),
                                      |Flatten(w.sentences)|, shift + prevWords, id + 1))
  {
    assert SplitFrom(ext, maxSeqLength, docIndex, doc, base, rest, prevWords, shift, id)
           == Turn(ext, maxSeqLength, docIndex, doc, base, rest, prevWords, shift, id);
  }

  /** A turn whose window keeps no cluster and leaves sentences over
      emits nothing and goes on with the next state. */
  lemma {:induction false} SkipTurn(ext: Externals, maxSeqLength: int, docIndex: nat, doc: Document, base: RemainderBase,
                 rest: Rest, prevWords: nat, shift: nat, id: nat, w: Window, m: nat, offset: nat)
    requires rest.words != []
    requires BudgetSearch(ext, maxSeqLength, rest.words,
                          ClustersFrom(doc.clusters, RemainderOffset(base, prevWords, shift)), 1, 0) == Some(w)
    requires w.clusters == [] && w.sentences != [] && w.sentences != rest.words
    requires m == |Flatten(w.sentences)| && offset == shift + prevWords
    ensures SplitFrom(ext, maxSeqLength, docIndex, doc, base, rest, prevWords, shift, id)
            == SplitFrom(ext, maxSeqLength, docIndex, doc, base, Cut(rest, |w.sentences|), m, offset, id + 1)
  {
    SplitFromStep(ext, maxSeqLength, docIndex, doc, base, rest, prevWords, shift, id, w);
    PrependNil(SplitFrom(ext, maxSeqLength, docIndex, doc, base, Cut(rest, |w.sentences|), m, offset, id + 1));
  }

  /** A window is never longer than the sentences it is cut from, and it
      is all of them exactly when it is as long. */
  lemma {:induction false} WindowFits(ext: Externals, maxSeqLength: int, words: seq<Sentence>, clusters: seq<Cluster>)
    ensures var r := BudgetSearch(ext, maxSeqLength, words, clusters, 1, 0);
      r.Some? ==> |r.value.sentences| <= |words| && (r.value.sentences == words <==> |r.value.sentences| == |words|)
  {
    BudgetSearchPrefix(ext, maxSeqLength, words, clusters, 1, 0);
  }

  /** The loop's stop test on a window, by lengths. */
  lemma {:induction false} WindowStops(ext: Externals, maxSeqLength: int, words: seq<Sentence>, clusters: seq<Cluster>,
                                       w: Window)
    requires BudgetSearch(ext, maxSeqLength, words, clusters, 1, 0) == Some(w)
    ensures (w.sentences == [] || w.sentences == words) == (|w.sentences| == 0 || |w.sentences| == |words|)
  {
    WindowFits(ext, maxSeqLength, words, clusters);
  }

  /** The per-document body of `_split_to_paragraphs`: `None` when `encode`
      raised inside a budget search, or when the document has no sentence.
      The remaining lists are cut by the window just taken, which is the
      same as slicing the document at `trunced_length`. */
  method SplitDocument(ext: Externals, maxSeqLength: int, docIndex: nat, doc: Document, base: RemainderBase)
    returns (r: Option<seq<Paragraph>>)
    ensures r == SplitDocumentSpec(ext, maxSeqLength, docIndex, doc, base)
  {
    if |doc.sentences| == 0 {
      return None;
    }
    var first := ProcessExample(ext, maxSeqLength, doc.sentences, doc.clusters, 1);
    if first.None? {
      return None;
    }
    WindowFits(ext, maxSeqLength, doc.sentences, doc.clusters);
    var newWords := first.value.sentences;
    var out := [MakeParagraph(docIndex, doc, 0, Whole(doc), first.value, 0)];
    var paragraphId: nat := 0;
    var indexShift: nat := 0;
    var truncedLength: nat := |newWords|;
    var remain := Cut(Whole(doc), truncedLength);
    while truncedLength < |doc.sentences|
      invariant truncedLength + |remain.words| == |doc.sentences| || (remain.words == [] && truncedLength >= |doc.sentences|)
      invariant SplitDocumentSpec(ext, maxSeqLength, docIndex, doc, base)
                == Prepend(out, SplitFrom(ext, maxSeqLength, docIndex, doc, base,
                                          remain, |Flatten(newWords)|, indexShift, paragraphId))
      decreases |doc.sentences| - truncedLength
    {
      var fullTruncedLength := |Flatten(newWords)|;
      var previousShift := indexShift;
      indexShift := indexShift + fullTruncedLength;
      var remainClusters := ClustersFrom(doc.clusters, RemainderOffset(base, fullTruncedLength, previousShift));
      var next := ProcessExample(ext, maxSeqLength, remain.words, remainClusters, 1);
      if next.None? {
        return None;
      }
      var w := next.value;
      WindowFits(ext, maxSeqLength, remain.words, remainClusters);
      SplitFromStep(ext, maxSeqLength, docIndex, doc, base, remain, fullTruncedLength,
                    previousShift, paragraphId, w);
      newWords := w.sentences;
      paragraphId := paragraphId + 1;
      truncedLength := truncedLength + |newWords|;
      var emitted := Emitted(docIndex, doc, paragraphId, remain, w, indexShift);
      PrependAssoc(out, emitted, SplitFrom(ext, maxSeqLength, docIndex, doc, base, Cut(remain, |newWords|),
                                           |Flatten(newWords)|, indexShift, paragraphId));
      if w.clusters != [] {
        out := out + [MakeParagraph(docIndex, doc, paragraphId, remain, w, indexShift)];
      } else {
        assert out == out + [];
      }
      if newWords == [] {
        break;
      }
      if newWords == remain.words {
        break;
      }
      remain := Cut(remain, |newWords|);
    }
    assert out + [] == out;
    r := Some(out);
  }

  /** The paragraphs of documents `docs[i..]`, in document order, the
      first of them numbered `i`. */
  function SplitCorpusSpec(ext: Externals, maxSeqLength: int, docs: seq<Document>, base: RemainderBase,
                           i: nat): Option<seq<Paragraph>>
    decreases |docs| - i
  {
    if i >= |docs| then Some([])
    else
      match SplitDocumentSpec(ext, maxSeqLength, i, docs[i], base)
      case None => None
      case Some(ps) => Prepend(ps, SplitCorpusSpec(ext, maxSeqLength, docs, base, i + 1))
  }

  /** `_split_to_paragraphs`: the documents in order, `idx` counting them. */
  method SplitToParagraphs(ext: Externals, maxSeqLength: int, docs: seq<Document>, base: RemainderBase)
    returns (r: Option<seq<Paragraph>>)
    ensures r == SplitCorpusSpec(ext, maxSeqLength, docs, base, 0)
  {
    var out: seq<Paragraph> := [];
    var idx := 0;
    PrependNil(SplitCorpusSpec(ext, maxSeqLength, docs, base, 0));
    while idx < |docs|
      invariant idx <= |docs|
      invariant SplitCorpusSpec(ext, maxSeqLength, docs, base, 0) == Prepend(out, SplitCorpusSpec(ext, maxSeqLength, docs, base, idx))
    {
      var ps := SplitDocument(ext, maxSeqLength, idx, docs[idx], base);
      CorpusStep(ext, maxSeqLength, docs, base, idx, ps);
      if ps.None? {
        return None;
      }
      PrependAssoc(out, ps.value, SplitCorpusSpec(ext, maxSeqLength, docs, base, idx + 1));
      out := out + ps.value;
      idx := idx + 1;
    }
    assert out + [] == out;
    r := Some(out);
  }

  /** One document of the corpus: its paragraphs, or the failure it makes
      of the whole corpus. */
  lemma CorpusStep(ext: Externals, maxSeqLength: int, docs: seq<Document>, base: RemainderBase,
                   i: nat, ps: Option<seq<Paragraph>>)
    requires i < |docs| && ps == SplitDocumentSpec(ext, maxSeqLength, i, docs[i], base)
    ensures ps.None? ==> SplitCorpusSpec(ext, maxSeqLength, docs, base, i) == None
    ensures ps.Some? ==> SplitCorpusSpec(ext, maxSeqLength, docs, base, i)
                         == Prepend(ps.value, SplitCorpusSpec(ext, maxSeqLength, docs, base, i + 1))
  {
  }

  /** `Drop` twice is `Drop` by the sum, clamping included. */
  lemma {:induction false} DropDrop<T>(s: seq<T>, a: nat, b: nat)
    ensures Drop(Drop(s, a), b) == Drop(s, a + b)
  {
    if a + b <= |s| {
      assert s[a..][b..] == s[a + b..];
    }
  }

  /** Paragraph `p` was cut from document `doc` at sentence `t`: its
      sentences are consecutive sentences of the document from `t` on, its
      speakers and annotation lines are cut at the same counts, and its
      `index_shift` is the number of words before sentence `t`. */
  predicate PlacedAt(doc: Document, p: Paragraph, t: nat)
  {
    && t + |p.sentences| <= |doc.sentences|
    && p.sentences == doc.sentences[t..t + |p.sentences|]
    && p.speakers == Take(Drop(doc.speakers, t), |p.sentences|)
    && p.conllLines == Take(Drop(doc.conllLines, t), |p.sentences|)
    && p.indexShift == |Flatten(doc.sentences[..t])|
  }

  /** The loop state `rest` is what remains of `doc` after its first `t`
      sentences, and those hold `offset` words. */
  predicate RestAt(doc: Document, rest: Rest, offset: nat, t: nat)
  {
    && t <= |doc.sentences|
    && rest == Cut(Whole(doc), t)
    && offset == |Flatten(doc.sentences[..t])|
  }

  /** Every mention of the paragraph lies inside it, and no cluster is empty. */
  predicate MentionsInside(p: Paragraph)
  {
    forall c :: c in p.clusters ==> c != [] && AllBelow(c, |Flatten(p.sentences)|)
  }

  /** Ids strictly increase, and each paragraph's words end before the
      next paragraph's begin. */
  predicate Ordered(ps: seq<Paragraph>)
  {
    forall i, j :: 0 <= i < j < |ps| ==>
      && ps[i].paragraphId < ps[j].paragraphId
      && ps[i].indexShift + |Flatten(ps[i].sentences)| <= ps[j].indexShift
  }

  /** What holds of every paragraph the loop emits: it belongs to the
      document, its clusters are non-empty and their mentions lie inside
      it, and it is cut from the document at some sentence. With re-basing
      by the running offset, its clusters are exactly the document's
      mentions inside it, moved down by its offset. */
  ghost predicate Emittable(doc: Document, docIndex: nat, base: RemainderBase, p: Paragraph)
  {
    && p.docIndex == docIndex && p.docKey == doc.key
    && p.clusters != []
    && MentionsInside(p)
    && (exists t :: PlacedAt(doc, p, t))
    && (base == CumulativeShift ==>
          p.clusters == ClustersBelow(ClustersFrom(doc.clusters, p.indexShift), |Flatten(p.sentences)|))
  }

  /** Every paragraph of `ps` is emittable. */
  ghost predicate AllEmittable(doc: Document, docIndex: nat, base: RemainderBase, ps: seq<Paragraph>)
    decreases |ps|
  {
    ps == [] || (Emittable(doc, docIndex, base, ps[0]) && AllEmittable(doc, docIndex, base, ps[1..]))
  }

  lemma {:induction false} AllEmittableIndex(doc: Document, docIndex: nat, base: RemainderBase,
                                             ps: seq<Paragraph>, k: nat)
    requires AllEmittable(doc, docIndex, base, ps) == true && k < |ps|
    ensures Emittable(doc, docIndex, base, ps[k]) == true
    decreases k
  {
    var tail := ps[1..];
    if k > 0 {
      assert tail[k - 1] == ps[k];
      AllEmittableIndex(doc, docIndex, base, tail, k - 1);
    }
  }

  /** The state the loop starts from is the whole document. */
  lemma StartRestAt(doc: Document)
    ensures RestAt(doc, Whole(doc), 0, 0)
  {
    assert doc.sentences[0..] == doc.sentences && doc.speakers[0..] == doc.speakers;
    assert doc.conllLines[0..] == doc.conllLines && doc.sentences[..0] == [];
  }

  /** After a window that is a prefix of what remains after `t`
      sentences, what remains is what remains after `t + |ws|` sentences. */
  lemma {:induction false} NextRestAt(doc: Document, rest: Rest, offset: nat, t: nat, ws: seq<Sentence>, offset': nat)
    requires RestAt(doc, rest, offset, t)
    requires |ws| <= |rest.words| && ws == rest.words[..|ws|]
    requires offset' == offset + |Flatten(ws)|
    ensures RestAt(doc, Cut(rest, |ws|), offset', t + |ws|)
  {
    var m := |ws|;
    DropDrop(doc.sentences, t, m);
    DropDrop(doc.speakers, t, m);
    DropDrop(doc.conllLines, t, m);
    assert doc.sentences[..t + m] == doc.sentences[..t] + ws;
    FlattenAppend(doc.sentences[..t], ws);
  }

  /** One turn of the loop on `rest`: the window is a prefix of `rest`,
      and the paragraph built from it has the properties of an emitted one
      whenever it is emitted. */
  lemma {:induction false} HeadParagraph(ext: Externals, maxSeqLength: int, docIndex: nat, doc: Document, base: RemainderBase,
                      rest: Rest, prevWords: nat, shift: nat, id: nat, w: Window, offset: nat, t: nat)
    requires offset == shift + prevWords && RestAt(doc, rest, offset, t)
    requires BudgetSearch(ext, maxSeqLength, rest.words,
                          ClustersFrom(doc.clusters, RemainderOffset(base, prevWords, shift)), 1, 0) == Some(w)
    ensures |w.sentences| <= |rest.words| && w.sentences == rest.words[..|w.sentences|]
    ensures w.clusters != [] ==>
      Emittable(doc, docIndex, base, MakeParagraph(docIndex, doc, id + 1, rest, w, offset))
  {
    var remainClusters := ClustersFrom(doc.clusters, RemainderOffset(base, prevWords, shift));
    BudgetSearchPrefix(ext, maxSeqLength, rest.words, remainClusters, 1, 0);
    HeadEmittable(docIndex, doc, base, rest, id, w, offset, t, RemainderOffset(base, prevWords, shift));
  }

  /** The paragraph of a window that is a prefix of `rest` is placed where
      `rest` starts, and its clusters are those of the remaining clusters
      truncated to it. */
  lemma HeadEmittable(docIndex: nat, doc: Document, base: RemainderBase, rest: Rest, id: nat, w: Window,
                      offset: nat, t: nat, rebase: int)
    requires RestAt(doc, rest, offset, t)
    requires |w.sentences| <= |rest.words| && w.sentences == rest.words[..|w.sentences|]
    requires w.clusters == ClustersBelow(ClustersFrom(doc.clusters, rebase), |Flatten(w.sentences)|)
    requires base == CumulativeShift ==> rebase == offset
    ensures w.clusters != [] ==>
      Emittable(doc, docIndex, base, MakeParagraph(docIndex, doc, id + 1, rest, w, offset))
  {
    ClustersBelowShape(ClustersFrom(doc.clusters, rebase), |Flatten(w.sentences)|);
    HeadPlaced(doc, rest, offset, t, MakeParagraph(docIndex, doc, id + 1, rest, w, offset));
  }

  /** A paragraph whose sentences start `rest`, with the speakers and
      lines cut at the same count, is placed at the sentence `rest` starts at. */
  lemma HeadPlaced(doc: Document, rest: Rest, offset: nat, t: nat, p: Paragraph)
    requires RestAt(doc, rest, offset, t)
    requires |p.sentences| <= |rest.words| && p.sentences == rest.words[..|p.sentences|]
    requires p.speakers == Take(rest.speakers, |p.sentences|) && p.conllLines == Take(rest.conllLines, |p.sentences|)
    requires p.indexShift == offset
    ensures PlacedAt(doc, p, t)
  {
    assert doc.sentences[t..][..|p.sentences|] == doc.sentences[t..t + |p.sentences|];
  }

  /** The paragraphs emitted from a state with id `id`, when there are
      any: in order, each emittable, with a larger id and an offset at
      least `low`. The lemmas below state it as `Shaped(..) == true`, a
      form the verifier keeps whole instead of splitting it into its
      conjuncts. */
  ghost predicate Shaped(r: Option<seq<Paragraph>>, doc: Document, docIndex: nat, base: RemainderBase,
                         id: nat, low: nat)
  {
    r.Some? ==>
      && Ordered(r.value)
      && Above(r.value, id, low)
      && AllEmittable(doc, docIndex, base, r.value)
  }

  /** Every paragraph of `ps` has an id larger than `id` and an offset at
      least `low`. */
  predicate Above(ps: seq<Paragraph>, id: nat, low: nat)
  {
    forall k :: 0 <= k < |ps| ==> id < ps[k].paragraphId && low <= ps[k].indexShift
  }

  /** A paragraph in front of ordered paragraphs that all lie above it,
      both in id and in words, keeps them ordered. */
  lemma {:induction false} ConsOrdered(p: Paragraph, qs: seq<Paragraph>, low: nat)
    requires Ordered(qs) && Above(qs, p.paragraphId, low)
    requires p.indexShift + |Flatten(p.sentences)| <= low
    ensures Ordered([p] + qs)
  {
    var ps := [p] + qs;
    forall i, j | 0 <= i < j < |ps|
      ensures ps[i].paragraphId < ps[j].paragraphId
      ensures ps[i].indexShift + |Flatten(ps[i].sentences)| <= ps[j].indexShift
    {
      assert ps[j] == qs[j - 1];
      if i > 0 {
        assert ps[i] == qs[i - 1];
      }
    }
  }

  lemma {:induction false} ConsAbove(p: Paragraph, qs: seq<Paragraph>, id: nat, low: nat, low': nat)
    requires Above(qs, id + 1, low') && low <= low'
    requires id < p.paragraphId && low <= p.indexShift
    ensures Above([p] + qs, id, low)
  {
    var ps := [p] + qs;
    forall k | 0 <= k < |ps|
      ensures id < ps[k].paragraphId && low <= ps[k].indexShift
    {
      if k > 0 {
        assert ps[k] == qs[k - 1];
      }
    }
  }

  lemma ConsAboveNil(qs: seq<Paragraph>, id: nat, low: nat, low': nat)
    requires Above(qs, id + 1, low') && low <= low'
    ensures Above(qs, id, low)
  {
  }

  /** Putting a paragraph emitted from a state in front of the paragraphs
      emitted from the next state keeps them in shape. */
  lemma {:induction false} PrependShape(doc: Document, docIndex: nat, base: RemainderBase, p: Paragraph,
                     emitted: seq<Paragraph>, rec: Option<seq<Paragraph>>, id: nat, offset: nat, offset': nat)
    requires emitted == [] || emitted == [p]
    requires emitted == [p] ==> Emittable(doc, docIndex, base, p) == true
    requires p.paragraphId == id + 1 && p.indexShift == offset && offset + |Flatten(p.sentences)| <= offset'
    requires Shaped(rec, doc, docIndex, base, id + 1, offset') == true
    ensures Shaped(Prepend(emitted, rec), doc, docIndex, base, id, offset) == true
  {
    if rec.Some? {
      var qs := rec.value;
      if emitted == [] {
        assert emitted + qs == qs;
        ConsAboveNil(qs, id, offset, offset');
      } else {
        var ps := [p] + qs;
        assert ps[0] == p && ps[1..] == qs;
        ConsAbove(p, qs, id, offset, offset');
        ConsOrdered(p, qs, offset');
      }
    }
  }

  /** Every paragraph the loop emits from the state after `t` sentences,
      `offset` words into the document: it belongs to the document, has a
      larger id and non-empty clusters whose mentions lie inside it, and is
      cut from the document; the emitted paragraphs are in order. With
      re-basing by the running offset, each paragraph's clusters are
      exactly the document's mentions inside it, moved down by its offset. */
  lemma {:induction false} SplitFromShape(ext: Externals, maxSeqLength: int, docIndex: nat, doc: Document,
                                          base: RemainderBase, rest: Rest, prevWords: nat, shift: nat, id: nat,
                                          offset: nat, t: nat)
    requires offset == shift + prevWords && RestAt(doc, rest, offset, t)
    ensures Shaped(SplitFrom(ext, maxSeqLength, docIndex, doc, base, rest, prevWords, shift, id),
                   doc, docIndex, base, id, offset) == true
    decreases |rest.words|, 3
  {
    if rest.words != [] {
      var found := BudgetSearch(ext, maxSeqLength, rest.words,
                                ClustersFrom(doc.clusters, RemainderOffset(base, prevWords, shift)), 1, 0);
      if found.Some? {
        TurnShape(ext, maxSeqLength, docIndex, doc, base, rest, prevWords, shift, id, offset, t, found.value);
      }
    }
  }

  /** `SplitFromShape` for a state whose window is `w`. */
  lemma {:induction false} TurnShape(ext: Externals, maxSeqLength: int, docIndex: nat, doc: Document,
                                     base: RemainderBase, rest: Rest, prevWords: nat, shift: nat, id: nat,
                                     offset: nat, t: nat, w: Window)
    requires offset == shift + prevWords && RestAt(doc, rest, offset, t)
    requires rest.words != []
    requires BudgetSearch(ext, maxSeqLength, rest.words,
                          ClustersFrom(doc.clusters, RemainderOffset(base, prevWords, shift)), 1, 0) == Some(w)
    ensures Shaped(SplitFrom(ext, maxSeqLength, docIndex, doc, base, rest, prevWords, shift, id),
                   doc, docIndex, base, id, offset) == true
    decreases |rest.words|, 2
  {
    var n := |Flatten(w.sentences)|;
    var rec := if |w.sentences| == 0 || |w.sentences| == |rest.words| then Some([])
               else SplitFrom(ext, maxSeqLength, docIndex, doc, base, Cut(rest, |w.sentences|), n, offset, id + 1);
    TurnEquation(ext, maxSeqLength, docIndex, doc, base, rest, prevWords, shift, id, offset, w, n, rec);
    TurnRestShape(ext, maxSeqLength, docIndex, doc, base, rest, prevWords, shift, id, offset, t, w, n, rec);
  }

  /** What one turn emits, in front of the paragraphs after it, is in shape. */
  lemma {:induction false} TurnRestShape(ext: Externals, maxSeqLength: int, docIndex: nat, doc: Document,
                                         base: RemainderBase, rest: Rest, prevWords: nat, shift: nat, id: nat,
                                         offset: nat, t: nat, w: Window, n: nat, rec: Option<seq<Paragraph>>)
    requires offset == shift + prevWords && n == |Flatten(w.sentences)| && RestAt(doc, rest, offset, t)
    requires BudgetSearch(ext, maxSeqLength, rest.words,
                          ClustersFrom(doc.clusters, RemainderOffset(base, prevWords, shift)), 1, 0) == Some(w)
    requires rec == if |w.sentences| == 0 || |w.sentences| == |rest.words| then Some([])
                    else SplitFrom(ext, maxSeqLength, docIndex, doc, base, Cut(rest, |w.sentences|), n, offset, id + 1)
    ensures Shaped(Prepend(Emitted(docIndex, doc, id + 1, rest, w, offset), rec),
                   doc, docIndex, base, id, offset) == true
    decreases |rest.words|, 1
  {
    HeadParagraph(ext, maxSeqLength, docIndex, doc, base, rest, prevWords, shift, id, w, offset, t);
    RestShape(ext, maxSeqLength, docIndex, doc, base, rest, w, n, offset, id, rec, t);
    PrependShape(doc, docIndex, base, MakeParagraph(docIndex, doc, id + 1, rest, w, offset),
                 Emitted(docIndex, doc, id + 1, rest, w, offset), rec, id, offset, offset + n);
  }

  /** One turn of the loop, with the rest of its paragraphs named `rec`. */
  lemma TurnEquation(ext: Externals, maxSeqLength: int, docIndex: nat, doc: Document,
                     base: RemainderBase, rest: Rest, prevWords: nat, shift: nat, id: nat,
                     offset: nat, w: Window, n: nat, rec: Option<seq<Paragraph>>)
    requires offset == shift + prevWords && n == |Flatten(w.sentences)|
    requires rest.words != []
    requires BudgetSearch(ext, maxSeqLength, rest.words,
                          ClustersFrom(doc.clusters, RemainderOffset(base, prevWords, shift)), 1, 0) == Some(w)
    requires rec == if |w.sentences| == 0 || |w.sentences| == |rest.words| then Some([])
                    else SplitFrom(ext, maxSeqLength, docIndex, doc, base, Cut(rest, |w.sentences|), n, offset, id + 1)
    ensures SplitFrom(ext, maxSeqLength, docIndex, doc, base, rest, prevWords, shift, id)
            == Prepend(Emitted(docIndex, doc, id + 1, rest, w, offset), rec)
  {
    var next := SplitFrom(ext, maxSeqLength, docIndex, doc, base, Cut(rest, |w.sentences|), n, offset, id + 1);
    var turn := SplitFrom(ext, maxSeqLength, docIndex, doc, base, rest, prevWords, shift, id);
    StepByLength(ext, maxSeqLength, docIndex, doc, base, rest, prevWords, shift, id, w, n, offset, next, turn);
    TurnCases(|w.sentences| == 0 || |w.sentences| == |rest.words|, Emitted(docIndex, doc, id + 1, rest, w, offset),
              next, turn, rec);
  }

  /** `SplitFromStep` with the loop's stop test by lengths. */
  lemma StepByLength(ext: Externals, maxSeqLength: int, docIndex: nat, doc: Document, base: RemainderBase,
                     rest: Rest, prevWords: nat, shift: nat, id: nat, w: Window, n: nat, offset: nat,
                     next: Option<seq<Paragraph>>, turn: Option<seq<Paragraph>>)
    requires offset == shift + prevWords && n == |Flatten(w.sentences)|
    requires rest.words != []
    requires BudgetSearch(ext, maxSeqLength, rest.words,
                          ClustersFrom(doc.clusters, RemainderOffset(base, prevWords, shift)), 1, 0) == Some(w)
    requires next == SplitFrom(ext, maxSeqLength, docIndex, doc, base, Cut(rest, |w.sentences|), n, offset, id + 1)
    requires turn == SplitFrom(ext, maxSeqLength, docIndex, doc, base, rest, prevWords, shift, id)
    ensures turn == if |w.sentences| == 0 || |w.sentences| == |rest.words|
                    then Some(Emitted(docIndex, doc, id + 1, rest, w, offset))
                    else Prepend(Emitted(docIndex, doc, id + 1, rest, w, offset), next)
  {
    SplitFromStep(ext, maxSeqLength, docIndex, doc, base, rest, prevWords, shift, id, w);
    WindowStops(ext, maxSeqLength, rest.words, ClustersFrom(doc.clusters, RemainderOffset(base, prevWords, shift)), w);
  }

  /** The two ways a turn ends, as one: a last turn emits its own
      paragraphs, any other turn puts them in front of the next state's. */
  lemma TurnCases(stops: bool, emitted: seq<Paragraph>, next: Option<seq<Paragraph>>,
                  turn: Option<seq<Paragraph>>, rec: Option<seq<Paragraph>>)
    requires turn == if stops then Some(emitted) else Prepend(emitted, next)
    requires rec == if stops then Some([]) else next
    ensures turn == Prepend(emitted, rec)
  {
    if stops {
      assert emitted + [] == emitted;
    }
  }

  /** The paragraphs after the first of a turn are in shape. */
  lemma {:induction false} RestShape(ext: Externals, maxSeqLength: int, docIndex: nat, doc: Document,
                                     base: RemainderBase, rest: Rest, w: Window, n: nat, offset: nat, id: nat,
                                     rec: Option<seq<Paragraph>>, t: nat)
    requires RestAt(doc, rest, offset, t)
    requires n == |Flatten(w.sentences)| && |w.sentences| <= |rest.words| && w.sentences == rest.words[..|w.sentences|]
    requires rec == if |w.sentences| == 0 || |w.sentences| == |rest.words| then Some([])
                    else SplitFrom(ext, maxSeqLength, docIndex, doc, base, Cut(rest, |w.sentences|), n, offset, id + 1)
    ensures Shaped(rec, doc, docIndex, base, id + 1, offset + n) == true
    decreases |rest.words|, 0
  {
    if |w.sentences| == 0 || |w.sentences| == |rest.words| {
      ShapedNil(doc, docIndex, base, id + 1, offset + n);
    } else {
      NextRestAt(doc, rest, offset, t, w.sentences, offset + n);
      SplitFromShape(ext, maxSeqLength, docIndex, doc, base, Cut(rest, |w.sentences|), n, offset, id + 1,
                     offset + n, t + |w.sentences|);
    }
  }

  lemma ShapedNil(doc: Document, docIndex: nat, base: RemainderBase, id: nat, low: nat)
    ensures Shaped(Some([]), doc, docIndex, base, id, low) == true
  {
  }

  /** The first window of a document is cut from its start, with the
      clusters `_trunc_words` keeps. */
  lemma {:induction false} FirstParagraph(ext: Externals, maxSeqLength: int, docIndex: nat, doc: Document, w: Window)
    requires BudgetSearch(ext, maxSeqLength, doc.sentences, doc.clusters, 1, 0) == Some(w)
    ensures var p := MakeParagraph(docIndex, doc, 0, Whole(doc), w, 0);
      && PlacedAt(doc, p, 0)
      && MentionsInside(p)
      && p.clusters == ClustersBelow(doc.clusters, |Flatten(p.sentences)|)
    ensures |w.sentences| <= |doc.sentences| && w.sentences == doc.sentences[..|w.sentences|]
  {
    assert doc.sentences[..0] == [] && doc.speakers[0..] == doc.speakers && doc.conllLines[0..] == doc.conllLines;
    BudgetSearchPrefix(ext, maxSeqLength, doc.sentences, doc.clusters, 1, 0);
    ClustersBelowShape(doc.clusters, |Flatten(w.sentences)|);
  }

  /** What `_split_to_paragraphs` promises of one document's paragraphs:
      the first is always emitted, with id 0 and offset 0, cut from the
      start of the document, with the clusters of `_trunc_words`; every
      later one is emittable; ids strictly increase and the paragraphs'
      words follow one another without overlap. A document without
      sentences fails. */
  lemma {:induction false} SplitDocumentShape(ext: Externals, maxSeqLength: int, docIndex: nat, doc: Document, base: RemainderBase)
    ensures |doc.sentences| == 0 ==> SplitDocumentSpec(ext, maxSeqLength, docIndex, doc, base).None?
    ensures var r := SplitDocumentSpec(ext, maxSeqLength, docIndex, doc, base);
      r.Some? ==>
        && |r.value| >= 1
        && r.value[0].paragraphId == 0 && r.value[0].indexShift == 0
        && r.value[0].docIndex == docIndex && r.value[0].docKey == doc.key
        && PlacedAt(doc, r.value[0], 0)
        && MentionsInside(r.value[0])
        && r.value[0].clusters == ClustersBelow(doc.clusters, |Flatten(r.value[0].sentences)|)
        && Ordered(r.value)
        && forall k :: 1 <= k < |r.value| ==> Emittable(doc, docIndex, base, r.value[k])
  {
    if |doc.sentences| > 0 {
      var found := BudgetSearch(ext, maxSeqLength, doc.sentences, doc.clusters, 1, 0);
      if found.Some? {
        var w := found.value;
        FirstParagraph(ext, maxSeqLength, docIndex, doc, w);
        var p := MakeParagraph(docIndex, doc, 0, Whole(doc), w, 0);
        var n := |Flatten(w.sentences)|;
        var next := Cut(Whole(doc), |w.sentences|);
        StartRestAt(doc);
        NextRestAt(doc, Whole(doc), 0, 0, w.sentences, n);
        SplitFromShape(ext, maxSeqLength, docIndex, doc, base, next, n, 0, 0, n, |w.sentences|);
        FirstThenRest(doc, docIndex, base, p, n, SplitFrom(ext, maxSeqLength, docIndex, doc, base, next, n, 0, 0));
      }
    }
  }

  /** A document whose untruncated window fits to begin with comes back
      as one paragraph: all its sentences, all its clusters (when each is
      non-empty and inside the document), id 0 and offset 0. Nothing is
      left for the loop. */
  lemma {:induction false} SplitDocumentWhole(ext: Externals, maxSeqLength: int, docIndex: nat, doc: Document,
                                              base: RemainderBase)
    requires |doc.sentences| > 0
    requires TrialAt(ext, maxSeqLength, doc.sentences, doc.clusters, 0).Tried?
    requires TrialAt(ext, maxSeqLength, doc.sentences, doc.clusters, 0).fits
    requires forall i :: 0 <= i < |doc.clusters| ==>
               doc.clusters[i] != [] && AllBelow(doc.clusters[i], |Flatten(doc.sentences)|)
    ensures var r := SplitDocumentSpec(ext, maxSeqLength, docIndex, doc, base);
      && r.Some? && |r.value| == 1
      && r.value[0].sentences == doc.sentences && r.value[0].clusters == doc.clusters
      && r.value[0].paragraphId == 0 && r.value[0].indexShift == 0
      && r.value[0].docIndex == docIndex && r.value[0].docKey == doc.key
  {
    var t := TruncWords(doc.sentences, doc.clusters, 0);
    assert t.sentences == doc.sentences;
    ClustersBelowIdentity(doc.clusters, |Flatten(doc.sentences)|);
    var w := BudgetSearch(ext, maxSeqLength, doc.sentences, doc.clusters, 1, 0).value;
    assert w.sentences == doc.sentences && w.clusters == doc.clusters;
    assert Cut(Whole(doc), |w.sentences|).words == [];
  }

  /** The first paragraph of a document in front of the paragraphs that
      follow it: in order, and the later ones emittable. */
  lemma FirstThenRest(doc: Document, docIndex: nat, base: RemainderBase, p: Paragraph, n: nat,
                      rec: Option<seq<Paragraph>>)
    requires n == |Flatten(p.sentences)| && p.paragraphId == 0 && p.indexShift == 0
    requires Shaped(rec, doc, docIndex, base, 0, n) == true
    ensures var r := Prepend([p], rec);
      r.Some? ==>
        && |r.value| >= 1 && r.value[0] == p
        && Ordered(r.value)
        && forall k :: 1 <= k < |r.value| ==> Emittable(doc, docIndex, base, r.value[k])
  {
    if rec.Some? {
      var qs := rec.value;
      var ps := [p] + qs;
      assert ps[0] == p && ps[1..] == qs;
      forall k | 1 <= k < |ps|
        ensures Emittable(doc, docIndex, base, ps[k])
      {
        AllEmittableIndex(doc, docIndex, base, qs, k - 1);
        assert ps[k] == qs[k - 1];
      }
      ConsOrdered(p, qs, n);
    }
  }

  /** Every paragraph of `ps` comes from document `docIndex` with key `key`. */
  predicate FromDocument(ps: seq<Paragraph>, docIndex: nat, key: string)
  {
    forall k :: 0 <= k < |ps| ==> ps[k].docIndex == docIndex && ps[k].docKey == key
  }

  lemma {:induction false} SplitDocumentKeys(ext: Externals, maxSeqLength: int, docIndex: nat, doc: Document, base: RemainderBase)
    ensures var r := SplitDocumentSpec(ext, maxSeqLength, docIndex, doc, base);
      r.Some? ==> FromDocument(r.value, docIndex, doc.key) && Ordered(r.value)
  {
    SplitDocumentShape(ext, maxSeqLength, docIndex, doc, base);
  }

  /** Paragraphs from documents `i` on, tagged with their document's index
      and key, grouped by document in order and within a document ordered
      by id. */
  predicate CorpusOrdered(ps: seq<Paragraph>, docs: seq<Document>, i: nat)
  {
    && (forall k :: 0 <= k < |ps| ==> i <= ps[k].docIndex < |docs| && ps[k].docKey == docs[ps[k].docIndex].key)
    && (forall a, b :: 0 <= a < b < |ps| ==>
          || ps[a].docIndex < ps[b].docIndex
          || (ps[a].docIndex == ps[b].docIndex && ps[a].paragraphId < ps[b].paragraphId))
  }

  lemma {:induction false} CorpusPrepend(ps: seq<Paragraph>, qs: seq<Paragraph>, docs: seq<Document>, i: nat)
    requires i < |docs| && FromDocument(ps, i, docs[i].key) && Ordered(ps)
    requires CorpusOrdered(qs, docs, i + 1)
    ensures CorpusOrdered(ps + qs, docs, i)
  {
    var all := ps + qs;
    forall k | 0 <= k < |all|
      ensures i <= all[k].docIndex < |docs| && all[k].docKey == docs[all[k].docIndex].key
    {
      if k >= |ps| {
        assert all[k] == qs[k - |ps|];
      }
    }
    forall a, b | 0 <= a < b < |all|
      ensures || all[a].docIndex < all[b].docIndex
              || (all[a].docIndex == all[b].docIndex && all[a].paragraphId < all[b].paragraphId)
    {
      if a >= |ps| {
        assert all[a] == qs[a - |ps|] && all[b] == qs[b - |ps|];
      } else if b >= |ps| {
        assert all[b] == qs[b - |ps|];
      }
    }
  }

  /** The paragraphs of the corpus from document `i` on are grouped by
      document in order, each tagged with its document's index and key, and
      within a document ordered by id: no two share a document index and a
      paragraph id, which is the key `evaluate` looks them up by. */
  lemma {:induction false} SplitCorpusShape(ext: Externals, maxSeqLength: int, docs: seq<Document>,
                                            base: RemainderBase, i: nat)
    ensures var r := SplitCorpusSpec(ext, maxSeqLength, docs, base, i);
      r.Some? ==> CorpusOrdered(r.value, docs, i)
    decreases |docs| - i
  {
    if i < |docs| {
      var first := SplitDocumentSpec(ext, maxSeqLength, i, docs[i], base);
      if first.Some? {
        SplitDocumentKeys(ext, maxSeqLength, i, docs[i], base);
        SplitCorpusShape(ext, maxSeqLength, docs, base, i + 1);
        var rec := SplitCorpusSpec(ext, maxSeqLength, docs, base, i + 1);
        if rec.Some? {
          CorpusPrepend(first.value, rec.value, docs, i);
        }
      }
    }
  }

  /** Externals for a concrete run: one token per word, and a linearizer
      that copies the words. */
  function WordPerToken(): Externals
  {
    Externals(ws => |ws|, s => [], (ws, cs, tag, mention) => Some(ws), 0, 0)
  }

  /** A document of three one-word sentences whose only mention is its
      last word. */
  function LastWordDocument(): Document
  {
    Document("d", [["a"], ["b"], ["c"]], [[Span(2, 2)]], [["x"], ["x"], ["x"]], [])
  }

  lemma FlattenSingles()
    ensures Flatten([["a"]]) == ["a"] && Flatten([["b"]]) == ["b"] && Flatten([["c"]]) == ["c"]
    ensures Flatten([["a"], ["b"]]) == ["a", "b"] && Flatten([["b"], ["c"]]) == ["b", "c"]
    ensures Flatten([["a"], ["b"], ["c"]]) == ["a", "b", "c"]
  {
    FlattenOne(["a"]);
    FlattenOne(["b"]);
    FlattenOne(["c"]);
    FlattenTwo(["a"], ["b"]);
    FlattenTwo(["b"], ["c"]);
    var abc: seq<seq<string>> := [["a"], ["b"], ["c"]];
    assert abc[..2] == [["a"], ["b"]];
  }

  lemma FlattenOne<T>(x: seq<T>)
    ensures Flatten([x]) == x
  {
    assert [x][..0] == [];
  }

  lemma FlattenTwo<T>(x: seq<T>, y: seq<T>)
    ensures Flatten([x, y]) == x + y
  {
    FlattenOne(x);
    assert [x, y][..1] == [x];
  }

  /** The one-token budget keeps only the first sentence of the document. */
  lemma {:induction false} LastWordDocumentFirstWindow()
    ensures BudgetSearch(WordPerToken(), 1, LastWordDocument().sentences, LastWordDocument().clusters, 1, 0)
            == Some(Window([["a"]], [], 2, ["a"]))
  {
    var ext := WordPerToken();
    var doc := LastWordDocument();
    var a, b, c := ["a"], ["b"], ["c"];
    FlattenSingles();
    assert [Span(2, 2)][..0] == [];
    assert [[Span(2, 2)]][..0] == [];
    assert ClustersBelow([[Span(2, 2)]], 1) == [];
    assert TruncWords(doc.sentences, doc.clusters, 0).sentences == [a, b, c];
    assert TruncWords(doc.sentences, doc.clusters, 1).sentences == [a, b];
    assert TruncWords(doc.sentences, doc.clusters, 2).sentences == [a];
  }

  /** The mention moved down by `b` words, for the two offsets below. */
  lemma LastWordMoved()
    ensures ClustersFrom(LastWordDocument().clusters, 1) == [[Span(1, 1)]]
    ensures ClustersFrom(LastWordDocument().clusters, 2) == [[Span(0, 0)]]
  {
    assert SpansFrom([Span(2, 2)], 1) == [Span(1, 1)];
    assert SpansFrom([Span(2, 2)], 2) == [Span(0, 0)];
  }

  /** The two sentences that remain after the first window. */
  lemma LastWordRemainders()
    ensures Cut(Whole(LastWordDocument()), 1).words == [["b"], ["c"]]
    ensures Cut(Cut(Whole(LastWordDocument()), 1), 1).words == [["c"]]
  {
  }

  /** The one-token budget keeps the first of the two remaining sentences;
      the mention moved down by one word is the second word, so nothing of
      it is kept. */
  lemma {:induction false} SecondWindow()
    ensures BudgetSearch(WordPerToken(), 1, [["b"], ["c"]], [[Span(1, 1)]], 1, 0)
            == Some(Window([["b"]], [], 1, ["b"]))
  {
    var b, c := ["b"], ["c"];
    FlattenSingles();
    assert [Span(1, 1)][..0] == [];
    assert [[Span(1, 1)]][..0] == [];
    assert ClustersBelow([[Span(1, 1)]], 1) == [];
    assert TruncWords([b, c], [[Span(1, 1)]], 0).sentences == [b, c];
    assert TruncWords([b, c], [[Span(1, 1)]], 1).sentences == [b];
  }

  /** As written, the last window sees the mention one word past itself. */
  lemma {:induction false} LastWindowAsWritten()
    ensures BudgetSearch(WordPerToken(), 1, [["c"]], [[Span(1, 1)]], 1, 0) == Some(Window([["c"]], [], 0, ["c"]))
  {
    var c := ["c"];
    FlattenSingles();
    assert [Span(1, 1)][..0] == [];
    assert [[Span(1, 1)]][..0] == [];
    assert ClustersBelow([[Span(1, 1)]], 1) == [];
    assert TruncWords([c], [[Span(1, 1)]], 0).sentences == [c];
  }

  /** Re-based by the running offset, the last window holds the mention. */
  lemma {:induction false} LastWindowCorrected()
    ensures BudgetSearch(WordPerToken(), 1, [["c"]], [[Span(0, 0)]], 1, 0)
            == Some(Window([["c"]], [[Span(0, 0)]], 0, ["c"]))
  {
    var c := ["c"];
    FlattenSingles();
    assert [Span(0, 0)][..0] == [];
    assert [[Span(0, 0)]][..0] == [];
    assert SpansBelow([Span(0, 0)], 1) == [Span(0, 0)];
    assert ClustersBelow([[Span(0, 0)]], 1) == [[Span(0, 0)]];
    assert TruncWords([c], [[Span(0, 0)]], 0).sentences == [c];
  }

  /** As written, the mention is re-based by one word, to the second word
      of what remains, and no later window holds it. */
  lemma {:induction false} LastWordDocumentAsWritten()
    ensures SplitFrom(WordPerToken(), 1, 0, LastWordDocument(), PreviousWindow,
                      Cut(Whole(LastWordDocument()), 1), 1, 0, 0) == Some([])
  {
    var ext := WordPerToken();
    var doc := LastWordDocument();
    var rest1 := Cut(Whole(doc), 1);
    var rest2 := Cut(rest1, 1);
    LastWordMoved();
    LastWordRemainders();
    SecondWindow();
    LastWindowAsWritten();
    var w1 := Window([["b"]], [], 1, ["b"]);
    var w2 := Window([["c"]], [], 0, ["c"]);
    FlattenOne(["b"]);
    SkipTurn(ext, 1, 0, doc, PreviousWindow, rest1, 1, 0, 0, w1, 1, 1);
    SplitFromStep(ext, 1, 0, doc, PreviousWindow, rest2, 1, 1, 1, w2);
  }

  /** Re-based by the running offset, the mention lands on the first word
      of the last window, which is emitted as paragraph 2 at offset 2. */
  lemma {:induction false} LastWordDocumentCorrected(ext: Externals, doc: Document, rest1: Rest)
    requires ext == WordPerToken() && doc == LastWordDocument() && rest1 == Cut(Whole(doc), 1)
    ensures SplitFrom(ext, 1, 0, doc, CumulativeShift, rest1, 1, 0, 0) == Some([LastParagraph()])
  {
    CorrectedSecondTurn(ext, doc, rest1);
    CorrectedLastTurn(ext, doc, Cut(rest1, 1));
  }

  /** The second window keeps no cluster: re-basing by the running
      offset of one word goes on with the last sentence. */
  lemma {:induction false} CorrectedSecondTurn(ext: Externals, doc: Document, rest1: Rest)
    requires ext == WordPerToken() && doc == LastWordDocument() && rest1 == Cut(Whole(doc), 1)
    ensures SplitFrom(ext, 1, 0, doc, CumulativeShift, rest1, 1, 0, 0)
            == SplitFrom(ext, 1, 0, doc, CumulativeShift, Cut(rest1, 1), 1, 1, 1)
  {
    LastWordMoved();
    LastWordRemainders();
    SecondWindow();
    FlattenOne(["b"]);
    var w1 := Window([["b"]], [], 1, ["b"]);
    assert |w1.sentences| == 1;
    SkipTurn(ext, 1, 0, doc, CumulativeShift, rest1, 1, 0, 0, w1, 1, 1);
  }

  /** The last turn, re-basing by the running offset of two words. */
  lemma {:induction false} CorrectedLastTurn(ext: Externals, doc: Document, rest2: Rest)
    requires ext == WordPerToken() && doc == LastWordDocument() && rest2 == Cut(Cut(Whole(doc), 1), 1)
    ensures SplitFrom(ext, 1, 0, doc, CumulativeShift, rest2, 1, 1, 1) == Some([LastParagraph()])
  {
    LastWordMoved();
    LastWordRemainders();
    LastWindowCorrected();
    SplitFromStep(ext, 1, 0, doc, CumulativeShift, rest2, 1, 1, 1, Window([["c"]], [[Span(0, 0)]], 0, ["c"]));
  }

  /** The paragraph re-basing by the running offset emits last: the last
      sentence, as paragraph 2 at offset 2, with the mention at its first word. */
  function LastParagraph(): Paragraph
  {
    MakeParagraph(0, LastWordDocument(), 2, Cut(Cut(Whole(LastWordDocument()), 1), 1),
                  Window([["c"]], [[Span(0, 0)]], 0, ["c"]), 2)
  }

  lemma LastParagraphFields()
    ensures LastParagraph().sentences == [["c"]] && LastParagraph().indexShift == 2
    ensures LastParagraph().paragraphId == 2 && LastParagraph().clusters == [[Span(0, 0)]]
  {
  }

  /** With a budget of one token per paragraph, the source as written
      emits only the first paragraph, without clusters: the mention on the
      last word is re-based by one word instead of two and falls outside
      the last window. Re-basing by the running offset emits that window
      with the mention at its first word. */
  lemma {:induction false} PreviousWindowLosesMention()
    ensures var asWritten := SplitDocumentSpec(WordPerToken(), 1, 0, LastWordDocument(), PreviousWindow);
      && asWritten.Some? && |asWritten.value| == 1 && asWritten.value[0].clusters == []
    ensures var corrected := SplitDocumentSpec(WordPerToken(), 1, 0, LastWordDocument(), CumulativeShift);
      && corrected.Some? && |corrected.value| == 2
      && corrected.value[1].sentences == [["c"]]
      && corrected.value[1].indexShift == 2
      && corrected.value[1].clusters == [[Span(0, 0)]]
  {
    LastWordDocumentFirstWindow();
    LastWordDocumentAsWritten();
    LastWordDocumentCorrected(WordPerToken(), LastWordDocument(), Cut(Whole(LastWordDocument()), 1));
    LastParagraphFields();
    FlattenSingles();
  }
}
