/** Shared vocabulary of the preprocessor: words, mention spans, clusters,
    documents, the collaborators it calls without defining them, and the
    Python list helpers (flattening, clamped slicing) it relies on. */
module Basics {

  datatype Option<T> = None | Some(value: T)

  /** A sentence is a list of words. */
  type Sentence = seq<string>

  /** A mention `[start, end]`: inclusive word indices into the flattened
      word list of a document or paragraph. The corpus format does not
      forbid negative indices, so they are plain integers. */
  datatype Span = Span(start: int, end: int)

  /** A coreference cluster is an ordered list of mentions. */
  type Cluster = seq<Span>

  /** One decoded corpus document: its sentences, its clusters over the
      flattened words, per-word speakers grouped by sentence, and the
      original annotation lines grouped by sentence. */
  datatype Document = Document(
    key: string,
    sentences: seq<Sentence>,
    clusters: seq<Cluster>,
    speakers: seq<seq<string>>,
    conllLines: seq<seq<string>>)

  /** The collaborators the preprocessor calls but does not define.
      - `tokenCount(ws)`: the length of
        `tokenizer(' '.join(ws), padding="max_length")["input_ids"]`, the
        tokenizer applied to the words joined by single spaces;
      - `subtokens(s)`: `tokenizer.encode(s, add_special_tokens=False)`;
      - `encode(words, clusters, clusterTag, mentionTag)`: the linearizer,
        `None` when it raises;
      - `speakerStart`, `speakerEnd`: the ids of SPEAKER_START and SPEAKER_END. */
  datatype Externals = Externals(
    tokenCount: seq<string> -> nat,
    subtokens: string -> seq<int>,
    encode: (seq<string>, seq<Cluster>, Option<nat>, Option<Span>) -> Option<seq<string>>,
    speakerStart: int,
    speakerEnd: int)

  /** The negation of the source's rejection test `0 < max_seq_length < length`;
      a budget of zero or less accepts every length. */
  predicate WithinBudget(maxSeqLength: int, length: nat)
  {
    !(0 < maxSeqLength < length)
  }

  /** `flatten_list_of_lists`: the concatenation of the inner lists, in order. */
  function Flatten<T>(xss: seq<seq<T>>): seq<T>
  {
    if |xss| == 0 then [] else Flatten(xss[..|xss| - 1]) + xss[|xss| - 1]
  }

  lemma {:induction false} FlattenAppend<T>(a: seq<seq<T>>, b: seq<seq<T>>)
    ensures Flatten(a + b) == Flatten(a) + Flatten(b)
  {
    if |b| == 0 {
      assert a + b == a;
    } else {
      var init := b[..|b| - 1];
      assert (a + b)[..|a + b| - 1] == a + init;
      assert (a + b)[|a + b| - 1] == b[|b| - 1];
      FlattenAppend(a, init);
      assert Flatten(a + b) == Flatten(a) + Flatten(init) + b[|b| - 1];
    }
  }

  lemma FlattenSplit<T>(xss: seq<seq<T>>, t: nat)
    requires t <= |xss|
    ensures Flatten(xss) == Flatten(xss[..t]) + Flatten(xss[t..])
  {
    assert xss == xss[..t] + xss[t..];
    FlattenAppend(xss[..t], xss[t..]);
  }

  /** `sum(len(c) for c in clusters)`: the number of mentions. */
  function MentionCount(clusters: seq<Cluster>): nat
  {
    |Flatten(clusters)|
  }

  /** Python's `s[:n]` for `n >= 0`: the slice is clamped to the list. */
  function Take<T>(s: seq<T>, n: nat): seq<T>
  {
    if n <= |s| then s[..n] else s
  }

  /** Python's `s[n:]` for `n >= 0`: the slice is clamped to the list. */
  function Drop<T>(s: seq<T>, n: nat): seq<T>
  {
    if n <= |s| then s[n..] else []
  }
}
