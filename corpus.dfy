/** The bookkeeping of `_parse_jsonlines` over already decoded documents:
    the dictionary keyed by document key and the three running maxima. */
module Corpus {
  import opened Basics

  function Max(a: int, b: int): int
  {
    if a < b then b else a
  }

  /** `max(len(cluster) for cluster in clusters) if clusters else 0`. */
  function LargestCluster(clusters: seq<Cluster>): nat
  {
    if |clusters| == 0 then 0 else Max(LargestCluster(clusters[..|clusters| - 1]), |clusters[|clusters| - 1]|)
  }

  /** The largest cluster is at least as long as every cluster, and is the
      length of one of them when there is any. */
  lemma {:induction false} LargestClusterIsMaximum(clusters: seq<Cluster>)
    ensures forall c :: 0 <= c < |clusters| ==> |clusters[c]| <= LargestCluster(clusters)
    ensures |clusters| > 0 ==> exists c :: 0 <= c < |clusters| && |clusters[c]| == LargestCluster(clusters)
  {
    if |clusters| > 0 {
      var init := clusters[..|clusters| - 1];
      LargestClusterIsMaximum(init);
      forall c | 0 <= c < |clusters| - 1
        ensures |clusters[c]| <= LargestCluster(clusters)
      {
        assert clusters[c] == init[c];
      }
      var last := |clusters| - 1;
      if LargestCluster(init) <= |clusters[last]| {
        assert |clusters[last]| == LargestCluster(clusters);
      } else {
        var c :| 0 <= c < |init| && |init[c]| == LargestCluster(init);
        assert clusters[c] == init[c];
      }
    }
  }

  /** The three statistics the reader tracks per document. */
  datatype Statistic = MentionNumber | ClusterSize | ClusterNumber

  function Measure(d: Document, s: Statistic): nat
  {
    match s
    case MentionNumber => MentionCount(d.clusters)
    case ClusterSize => LargestCluster(d.clusters)
    case ClusterNumber => |d.clusters|
  }

  /** The running maximum of a statistic over the first `n` documents,
      starting from `-1`. */
  function RunningMax(docs: seq<Document>, s: Statistic, n: nat): int
    requires n <= |docs|
  {
    if n == 0 then -1 else Max(RunningMax(docs, s, n - 1), Measure(docs[n - 1], s))
  }

  /** The maximum is `-1` for no documents and otherwise the statistic of
      some document, bounding the statistic of every document. */
  lemma {:induction false} RunningMaxIsMaximum(docs: seq<Document>, s: Statistic, n: nat)
    requires n <= |docs|
    ensures n == 0 <==> RunningMax(docs, s, n) == -1
    ensures forall i :: 0 <= i < n ==> Measure(docs[i], s) <= RunningMax(docs, s, n)
    ensures n > 0 ==> exists i :: 0 <= i < n && Measure(docs[i], s) == RunningMax(docs, s, n)
  {
    if n > 0 {
      RunningMaxIsMaximum(docs, s, n - 1);
    }
  }

  /** `examples[doc_key] = ...` for the first `n` documents: a later
      document replaces an earlier one with the same key. */
  function Examples(docs: seq<Document>, n: nat): map<string, Document>
    requires n <= |docs|
  {
    if n == 0 then map[] else Examples(docs, n - 1)[docs[n - 1].key := docs[n - 1]]
  }

  /** The dictionary holds exactly the keys read, each bound to the last
      document read under it. */
  lemma {:induction false} ExamplesLastWins(docs: seq<Document>, n: nat)
    requires n <= |docs|
    ensures forall i :: 0 <= i < n ==> docs[i].key in Examples(docs, n)
    ensures forall k :: k in Examples(docs, n) ==>
              exists i :: 0 <= i < n && docs[i].key == k && Examples(docs, n)[k] == docs[i]
                          && forall j :: i < j < n ==> docs[j].key != k
  {
    if n > 0 {
      ExamplesLastWins(docs, n - 1);
      var m := Examples(docs, n);
      forall k | k in m
        ensures exists i :: 0 <= i < n && docs[i].key == k && m[k] == docs[i]
                            && forall j :: i < j < n ==> docs[j].key != k
      {
        if k != docs[n - 1].key {
          assert k in Examples(docs, n - 1) && m[k] == Examples(docs, n - 1)[k];
          var i :| 0 <= i < n - 1 && docs[i].key == k && Examples(docs, n - 1)[k] == docs[i]
                   && forall j :: i < j < n - 1 ==> docs[j].key != k;
          assert forall j :: i < j < n ==> docs[j].key != k;
        } else {
          assert docs[n - 1].key == k && m[k] == docs[n - 1];
        }
      }
    }
  }

  /** `examples[d.key] = d` on a Python dict, seen as its list of entries
      in iteration order: an existing key keeps its position and takes the
      new value, a new key goes last. */
  function Upsert(items: seq<Document>, d: Document): seq<Document>
  {
    if |items| == 0 then [d]
    else if items[0].key == d.key then [d] + items[1..]
    else [items[0]] + Upsert(items[1..], d)
  }

  /** The entries of the dictionary after the first `n` documents. */
  function Items(docs: seq<Document>, n: nat): seq<Document>
    requires n <= |docs|
  {
    if n == 0 then [] else Upsert(Items(docs, n - 1), docs[n - 1])
  }

  /** The keys of the entries, in order. */
  function Keys(items: seq<Document>): (ks: seq<string>)
    ensures |ks| == |items|
  {
    if |items| == 0 then [] else [items[0].key] + Keys(items[1..])
  }

  /** No key appears in two entries. */
  predicate DistinctKeys(items: seq<Document>)
  {
    |items| == 0 || (items[0].key !in Keys(items[1..]) && DistinctKeys(items[1..]))
  }

  lemma {:induction false} KeysAt(items: seq<Document>, i: nat)
    requires i < |items|
    ensures Keys(items)[i] == items[i].key
  {
    if i > 0 {
      KeysAt(items[1..], i - 1);
    }
  }

  lemma {:induction false} KeysOfEntries(items: seq<Document>)
    ensures forall e :: e in items ==> e.key in Keys(items)
  {
    if |items| > 0 {
      KeysOfEntries(items[1..]);
      assert items == [items[0]] + items[1..];
    }
  }

  /** Distinct keys, stated on positions. */
  lemma {:induction false} DistinctKeysAt(items: seq<Document>, i: nat, j: nat)
    requires DistinctKeys(items) && i < j < |items|
    ensures items[i].key != items[j].key
  {
    if i == 0 {
      KeysAt(items[1..], j - 1);
    } else {
      DistinctKeysAt(items[1..], i - 1, j - 1);
    }
  }

  /** Upserting adds `d`'s key to the keys and nothing else. */
  lemma {:induction false} UpsertKeys(items: seq<Document>, d: Document)
    ensures forall k :: k in Keys(Upsert(items, d)) <==> k == d.key || k in Keys(items)
  {
    if |items| > 0 && items[0].key != d.key {
      UpsertKeys(items[1..], d);
    }
  }

  /** Upserting keeps the keys distinct. */
  lemma {:induction false} UpsertDistinct(items: seq<Document>, d: Document)
    requires DistinctKeys(items)
    ensures DistinctKeys(Upsert(items, d))
  {
    if |items| > 0 && items[0].key != d.key {
      UpsertDistinct(items[1..], d);
      UpsertKeys(items[1..], d);
    }
  }

  /** After upserting, `d` is an entry and every other entry is an old one
      under another key. */
  lemma {:induction false} UpsertEntries(items: seq<Document>, d: Document)
    requires DistinctKeys(items)
    ensures d in Upsert(items, d)
    ensures forall e :: e in Upsert(items, d) ==> e == d || (e.key != d.key && e in items)
  {
    if |items| > 0 {
      if items[0].key != d.key {
        UpsertEntries(items[1..], d);
        assert Upsert(items, d) == [items[0]] + Upsert(items[1..], d);
      } else {
        assert Upsert(items, d) == [d] + items[1..];
        KeysOfEntries(items[1..]);
      }
    }
  }

  /** The dictionary's entries in iteration order agree with the keyed view:
      no key twice, one entry per key read, each holding the dictionary's
      value for it. */
  lemma {:induction false} ItemsAgree(docs: seq<Document>, n: nat)
    requires n <= |docs|
    ensures DistinctKeys(Items(docs, n))
    ensures forall k :: k in Examples(docs, n) <==> k in Keys(Items(docs, n))
    ensures forall e :: e in Items(docs, n) ==> e.key in Examples(docs, n) && Examples(docs, n)[e.key] == e
  {
    if n > 0 {
      ItemsAgree(docs, n - 1);
      UpsertDistinct(Items(docs, n - 1), docs[n - 1]);
      UpsertKeys(Items(docs, n - 1), docs[n - 1]);
      UpsertEntries(Items(docs, n - 1), docs[n - 1]);
    }
  }

  /** `_parse_jsonlines` after decoding: the dictionary's entries in
      iteration order and the maxima of the mention count, the cluster size
      and the cluster count. */
  method ParseJsonlines(docs: seq<Document>)
    returns (examples: seq<Document>, maxMentionNum: int, maxClusterSize: int, maxNumClusters: int)
    ensures examples == Items(docs, |docs|)
    ensures maxMentionNum == RunningMax(docs, MentionNumber, |docs|)
    ensures maxClusterSize == RunningMax(docs, ClusterSize, |docs|)
    ensures maxNumClusters == RunningMax(docs, ClusterNumber, |docs|)
  {
    examples := [];
    maxMentionNum := -1;
    maxClusterSize := -1;
    maxNumClusters := -1;
    for n := 0 to |docs|
      invariant examples == Items(docs, n)
      invariant maxMentionNum == RunningMax(docs, MentionNumber, n)
      invariant maxClusterSize == RunningMax(docs, ClusterSize, n)
      invariant maxNumClusters == RunningMax(docs, ClusterNumber, n)
    {
      var d := docs[n];
      maxMentionNum := Max(maxMentionNum, |Flatten(d.clusters)|);
      maxClusterSize := Max(maxClusterSize, if |d.clusters| > 0 then LargestCluster(d.clusters) else 0);
      maxNumClusters := Max(maxNumClusters, if |d.clusters| > 0 then |d.clusters| else 0);
      examples := Upsert(examples, d);
    }
  }
}
