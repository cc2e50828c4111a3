# Verified model of the s2e-coref test-set preprocessor

This project models the preprocessing half of `CoresDatasetPreProcessorTest`. That class turns a coreference corpus into model inputs for a sequence-to-sequence coreference resolver. The corpus is one document per line, each with sentences, clusters of `[start, end]` word spans, speakers and the original CoNLL-2012 annotation lines.

The class works in these stages:

1. **Reading** (`_parse_jsonlines`). It builds a dictionary keyed by document key and tracks three running maxima.
2. **Truncation** (`_trunc_words`). It drops the last *k* sentences of a document. It keeps only the mentions that lie inside what remains and drops the clusters left empty.
3. **Budget search** (`_process_example`). It raises *k* until both tokenized lengths fit `max_seq_length`:
   - the length of the window's words;
   - the length of the linearization `encode` produces for the window.
4. **Paragraph splitting** (`_split_to_paragraphs`). It cuts every document into budget-sized paragraphs. For each one it tracks:
   - the sentences consumed;
   - the word offset (`index_shift`);
   - the paragraph id;
   - the clusters of what remains.
5. **Subtoken alignment** (`_tokenize`). It lays out the subtokens of each paragraph's words, with a speaker prefix wherever the speaker changes. It records where each word starts and ends and which word each position belongs to. It then moves every cluster from word indices to subtoken positions. `evaluate` moves predicted clusters the same way.
6. **Mention examples** (`_binary_clustering_tokenize`). It makes one example per mention of every cluster whose target fits. It counts every dropped mention.
7. **Gold file** (`to_ontonotes`). It rewrites every annotation line with the document key, the paragraph id and the word's index.

Each stage that the source writes as a loop is a `method` with loop invariants. Its `ensures` ties the result to a recursive specification function. The properties the source promises are then proved as lemmas about those functions.

The outside collaborators are parameters, gathered in `Basics.Externals`:
- the tokenizer's padded length;
- the tokenizer's subtokens;
- the linearizer `encode`, which returns `None` where it raises;
- the ids of `SPEAKER_START` and `SPEAKER_END`.

| file | module | models |
|---|---|---|
| `basics.dfy` | `Basics` | spans, clusters, documents, collaborators, `flatten_list_of_lists`, clamped slicing |
| `corpus.dfy` | `Corpus` | the dictionary and running maxima of `_parse_jsonlines` |
| `truncation.dfy` | `Truncation` | `_trunc_words` and the re-basing comprehension of `_split_to_paragraphs` |
| `budget.dfy` | `Budget` | `_process_example` |
| `splitter.dfy` | `Splitter` | `_split_to_paragraphs` |
| `stream.dfy` | `Subtokens` | the subtoken stream, its maps and the cluster remap |
| `aligner.dfy` | `Aligner` | `_tokenize` |
| `mention_examples.dfy` | `Mentions` | `_binary_clustering_tokenize` |
| `gold_file.dfy` | `GoldFile` | `to_ontonotes` |

All source paths below are in `s2e-coref/cores_tokens_test.py`.

## Model

| member | source | states |
|---|---|---|
| Corpus.LargestClusterIsMaximum | s2e-coref/cores_tokens_test.py:193 | The largest cluster size bounds every cluster's length, and it is the length of some cluster when there is one. |
| Corpus.RunningMaxIsMaximum | s2e-coref/cores_tokens_test.py:178-180 | Each running maximum is -1 exactly when no document was read. Otherwise it bounds the statistic of every document read and equals the statistic of one of them. |
| Corpus.ExamplesLastWins | s2e-coref/cores_tokens_test.py:195 | The dictionary holds every key read. Each key is bound to the last document read under it. |
| Corpus.KeysOfEntries | s2e-coref/cores_tokens_test.py:195 | Every entry's key is among the dictionary's keys. |
| Corpus.DistinctKeysAt | s2e-coref/cores_tokens_test.py:195 | Two different positions of the dictionary's entry list never hold the same key. |
| Corpus.UpsertKeys | s2e-coref/cores_tokens_test.py:195 | Assigning `examples[doc_key]` adds that key to the keys and nothing else. |
| Corpus.UpsertDistinct | s2e-coref/cores_tokens_test.py:195 | Assigning `examples[doc_key]` never makes a key appear twice. |
| Corpus.UpsertEntries | s2e-coref/cores_tokens_test.py:195 | After the assignment the new document is an entry. Every other entry is an old one under a different key. |
| Corpus.ItemsAgree | s2e-coref/cores_tokens_test.py:195 | The entries, in dict iteration order, have distinct keys and exactly the dictionary's keys. Each entry is the dictionary's value for its key. |
| Corpus.ParseJsonlines | s2e-coref/cores_tokens_test.py:176-197 | Returns the dictionary's entries in iteration order and the three running maxima (mentions, largest cluster, cluster count), all starting from -1. |
| Truncation.SpansBelowMembers | s2e-coref/cores_tokens_test.py:206 | The mention filter keeps exactly the mentions with `start < n` and `end < n`. |
| Truncation.ClustersBelowShape | s2e-coref/cores_tokens_test.py:206-207 | No truncated cluster is empty, and every mention in one lies below `n`. |
| Truncation.FlattenClustersBelow | s2e-coref/cores_tokens_test.py:206-207 | The surviving clusters concatenate to the filtered list of all mentions, in their original order. |
| Truncation.TruncWordsPrefix | s2e-coref/cores_tokens_test.py:200-203 | `words[:-k]` keeps the first `len(words) - k` sentences: none when `k >= len(words)`, all of them when `k = 0`. |
| Truncation.TruncWordsCharacterized | s2e-coref/cores_tokens_test.py:199-210 | `_trunc_words` keeps all sentences for `k = 0` and none for `k >= len`. It keeps, in order, exactly the mentions below the window's flattened length `n`, all of them below `n`, in non-empty clusters. |
| Truncation.ClustersBelowIdentity | s2e-coref/cores_tokens_test.py:206-207 | If every mention is already below `n` and no cluster is empty, truncation changes nothing. |
| Truncation.SpansBelowIdentity | s2e-coref/cores_tokens_test.py:206 | Mentions that all lie below `n` pass the filter unchanged. |
| Truncation.SpansFromMembers | s2e-coref/cores_tokens_test.py:269-270 | Re-basing by `b` keeps exactly the mentions with both ends at least `b`, moved down by `b`. |
| Truncation.ClustersFromShape | s2e-coref/cores_tokens_test.py:269-271 | No re-based cluster is empty, and none holds a negative index. |
| Truncation.FlattenClustersFrom | s2e-coref/cores_tokens_test.py:269-271 | The re-based clusters concatenate to the re-based list of all mentions, in order. |
| Truncation.SpansFromZero | s2e-coref/cores_tokens_test.py:269-270 | Re-basing non-negative mentions by zero changes nothing. |
| Truncation.SpansFromTwice | s2e-coref/cores_tokens_test.py:266-271 | Re-basing by `a` and then by `b >= 0` is re-basing once by `a + b`. |
| Truncation.MovedTwice | s2e-coref/cores_tokens_test.py:269-270 | The same holds for one mention. |
| Truncation.WindowMentions | s2e-coref/cores_tokens_test.py:269-273 | Re-basing by `b` and then truncating to `n` words keeps exactly the mentions within words `b` to `b + n - 1`, moved down by `b`. |
| Budget.ProcessExample | s2e-coref/cores_tokens_test.py:212-244 | The `while w:` loop returns the window of the budget search from count 0. It requires a non-empty document and a positive step. |
| Budget.TruncWordsSaturates | s2e-coref/cores_tokens_test.py:200-203 | Every truncation count past the last sentence gives the same window. |
| Budget.BudgetSearchCharacterized | s2e-coref/cores_tokens_test.py:216-242 | The returned count is a multiple of the step. The window is `_trunc_words` at that count, with `encode`'s output, and fits both budgets unless it is empty. Every smaller non-empty multiple was over budget. |
| Budget.BudgetSearchAborts | s2e-coref/cores_tokens_test.py:216-240 | The search fails only when `encode` raised at some multiple `j` of the step. Every multiple before `j` was tried, left a non-empty window and was over budget, so `j` is a count the loop reached. |
| Budget.BudgetSearchPrefix | s2e-coref/cores_tokens_test.py:217 | The returned sentences are a prefix of the words. Its clusters are the input clusters truncated to its flattened length. |
| Budget.BudgetDisabled | s2e-coref/cores_tokens_test.py:235-242 | With `max_seq_length <= 0` the count stays 0 and the words come back unchanged. The call fails exactly when `encode` raises on them. |
| Budget.BudgetOneStep | s2e-coref/cores_tokens_test.py:235-242 | A document over budget at count 0 that fits at `step` is cut exactly once: the count is `step` and the window is the first `len - step` sentences. |
| Splitter.SkipTurn | s2e-coref/cores_tokens_test.py:277-284 | A window without clusters emits nothing, but the id and the offset still advance. |
| Splitter.WindowFits | s2e-coref/cores_tokens_test.py:273-290 | A window is never longer than what remains, and it equals what remains exactly when it is as long. |
| Splitter.WindowStops | s2e-coref/cores_tokens_test.py:286-292 | The loop's two stop tests, expressed by lengths. |
| Splitter.SplitDocument | s2e-coref/cores_tokens_test.py:251-293 | The per-document loop computes the paragraphs of the specification. It fails when `encode` raised or the document has no sentence. |
| Splitter.SplitToParagraphs | s2e-coref/cores_tokens_test.py:246-295 | The loop over documents, with `idx` counting them, computes the corpus specification. |
| Splitter.DropDrop | s2e-coref/cores_tokens_test.py:262-264 | Slicing `[a:]` and then `[b:]` is slicing `[a + b:]`, with clamping. |
| Splitter.StartRestAt | s2e-coref/cores_tokens_test.py:251-259 | The loop starts from the whole document at word 0. |
| Splitter.NextRestAt | s2e-coref/cores_tokens_test.py:262-278 | After a window, what remains is the document after `trunced_length + len(new_words)` sentences, and the offset grows by the window's word count. |
| Splitter.HeadParagraph | s2e-coref/cores_tokens_test.py:260-282 | A turn's window is a prefix of what remains. Its paragraph, when emitted, has every emittable property. |
| Splitter.HeadEmittable | s2e-coref/cores_tokens_test.py:273-282 | A paragraph cut from the start of what remains, with the truncated remaining clusters, is emittable. |
| Splitter.HeadPlaced | s2e-coref/cores_tokens_test.py:274-275 | Such a paragraph is cut from the document at the sentence where what remains starts. Its speakers and annotation lines are cut at the same counts. |
| Splitter.FirstParagraph | s2e-coref/cores_tokens_test.py:254-257 | The first window is cut from the document's start, with the clusters of `_trunc_words`, all of them inside it. |
| Splitter.ConsOrdered | s2e-coref/cores_tokens_test.py:277-281 | Putting a paragraph in front of later ones with larger ids and offsets keeps the paragraphs ordered. |
| Splitter.PrependShape | s2e-coref/cores_tokens_test.py:277-281 | What one turn emits, in front of what the next state emits, keeps ids increasing and words disjoint. |
| Splitter.SplitFromShape | s2e-coref/cores_tokens_test.py:259-292 | Every paragraph emitted from a loop state is emittable, and the paragraphs are ordered. An emittable paragraph has the document's key, a larger id, non-empty clusters inside it, and is cut at some sentence. With the running offset, its clusters are exactly the document's mentions inside it. |
| Splitter.TurnShape | s2e-coref/cores_tokens_test.py:259-292 | The same, for a state whose window is known. |
| Splitter.RestShape | s2e-coref/cores_tokens_test.py:286-292 | The paragraphs after a turn are emittable, have larger ids, and start after that turn's words. |
| Splitter.SplitDocumentShape | s2e-coref/cores_tokens_test.py:251-292 | A document without sentences fails. Otherwise the first paragraph is always emitted, with id 0 and offset 0, at the start, with the clusters of `_trunc_words`. Every later one is emittable. Ids strictly increase, and the paragraphs' words follow one another without overlap. |
| Splitter.SplitDocumentWhole | s2e-coref/cores_tokens_test.py:251-261 | A document whose untruncated window fits, and whose clusters are all non-empty and inside it, comes back as exactly one paragraph with all its sentences, its original clusters, id 0 and offset 0. |
| Splitter.SplitDocumentKeys | s2e-coref/cores_tokens_test.py:257-280 | Every paragraph of a document carries its index and key, in order. |
| Splitter.CorpusPrepend | s2e-coref/cores_tokens_test.py:293 | One document's ordered paragraphs in front of the later documents' paragraphs keep the corpus grouped by document. |
| Splitter.SplitCorpusShape | s2e-coref/cores_tokens_test.py:246-295 | The corpus paragraphs are grouped by document in order, and ordered by id within a document. No two share a (document, id) pair. |
| Splitter.LastWordDocumentFirstWindow | s2e-coref/cores_tokens_test.py:212-244 | On the three-word example with a one-token budget, the first window is its first sentence. |
| Splitter.SecondWindow | s2e-coref/cores_tokens_test.py:262-273 | The second window keeps one sentence and no cluster. |
| Splitter.LastWindowAsWritten | s2e-coref/cores_tokens_test.py:266-273 | As written, the last window sees the mention one word past its end. |
| Splitter.LastWindowCorrected | s2e-coref/cores_tokens_test.py:266-273 | Re-based by the running offset, the last window holds the mention. |
| Splitter.LastWordDocumentAsWritten | s2e-coref/cores_tokens_test.py:266-271 | As written, the turns after the first window of the example emit nothing. |
| Splitter.LastWordDocumentCorrected | s2e-coref/cores_tokens_test.py:266-271 | Re-based by the running offset, they emit the last sentence as paragraph 2 at offset 2, with the mention on its first word. |
| Splitter.PreviousWindowLosesMention | s2e-coref/cores_tokens_test.py:266-271 | As written, the example yields one paragraph without clusters. Corrected, it yields two, the second holding the mention. |
| Subtokens.MapKeys | s2e-coref/cores_tokens_test.py:143-164 | `word_idx_to_start_token_idx` and `word_idx_to_end_token_idx` hold exactly the word indices seen. |
| Subtokens.MapAt | s2e-coref/cores_tokens_test.py:157-164 | Each word index maps to its start and its end. |
| Subtokens.StreamPrefix | s2e-coref/cores_tokens_test.py:156-162 | `token_ids` only grows, each earlier value being a prefix of the later one. |
| Subtokens.OwnerListLength | s2e-coref/cores_tokens_test.py:145-161 | `end_token_idx_to_word_idx` has one entry per token plus one for `<s>`, which maps to word 0. |
| Subtokens.OwnerListAt | s2e-coref/cores_tokens_test.py:154-161 | Every position of word `i`'s speaker prefix and subtokens maps back to `i`. |
| Subtokens.StreamSlices | s2e-coref/cores_tokens_test.py:156-163 | Word `i`'s prefix and subtokens sit in the stream right before its start and from its start to its end. |
| Subtokens.StreamMaps | s2e-coref/cores_tokens_test.py:143-164 | Both maps are total over the words. Each word's subtokens, and nothing else, lie from its start to its end, so `end - start + 1` is their count. |
| Subtokens.StreamOrder | s2e-coref/cores_tokens_test.py:157-164 | Every word ends before any later word starts. |
| Subtokens.StreamGaps | s2e-coref/cores_tokens_test.py:149-163 | The speaker prefixes fill the gaps between words: the first opens the stream, each later one follows the previous word's end, and the last word's end closes the stream. |
| Subtokens.StreamOwners | s2e-coref/cores_tokens_test.py:145-161 | The inverse list is one longer than the stream. Every token of a word, and of the prefix placed before it, maps back to that word. |
| Subtokens.RemapClusterExact | s2e-coref/cores_tokens_test.py:165-167 | A cluster moves exactly when every mention end is a word index of the maps. It keeps its length, and each mention becomes its start word's start and its end word's end. |
| Subtokens.RemapClustersExact | s2e-coref/cores_tokens_test.py:331-332 | The comprehension of lines 165-167, which `evaluate` repeats for predicted clusters, keeps the number, order and length of clusters. It fails exactly when some end is not a word index. |
| Aligner.Zipped | s2e-coref/cores_tokens_test.py:149 | `zip(words, speakers)` runs to the shorter list. |
| Aligner.AppendOwner | s2e-coref/cores_tokens_test.py:154-161 | The `for _ in range(...)` loops append the word index once per token. |
| Aligner.TokenizeParagraph | s2e-coref/cores_tokens_test.py:139-170 | The per-paragraph loop computes the alignment specification. |
| Aligner.Tokenize | s2e-coref/cores_tokens_test.py:135-174 | The loop over paragraphs builds `coref_examples` as specified. |
| Aligner.CollectFails | s2e-coref/cores_tokens_test.py:139-173 | Once a paragraph fails, the whole dictionary does. |
| Aligner.CollectSome | s2e-coref/cores_tokens_test.py:139-173 | The dictionary exists exactly when every paragraph succeeds. |
| Aligner.CollectLookup | s2e-coref/cores_tokens_test.py:169-170 | The dictionary holds exactly the paragraphs' `(doc_key, paragraph_id)` keys. Each holds the result of the last paragraph with that key. |
| Aligner.AlignAllLookup | s2e-coref/cores_tokens_test.py:135-174 | `coref_examples` exists exactly when every paragraph aligns. It holds exactly their keys, each with the last such paragraph's alignment. |
| Aligner.AlignmentShape | s2e-coref/cores_tokens_test.py:143-164 | Both maps are total over the words. Word `i` spans exactly its subtokens: `end[i] - start[i] + 1 == len(subtok(word_i))`. |
| Aligner.AlignmentOrder | s2e-coref/cores_tokens_test.py:157-164 | `start[j] > end[i]` for every `i < j`. |
| Aligner.AlignmentOwners | s2e-coref/cores_tokens_test.py:145-161 | `len(end_token_idx_to_word_idx) == len(token_ids) + 1`. Every position of word `i` and of the prefix before it maps back to `i`. |
| Aligner.SpeakerPrefixes | s2e-coref/cores_tokens_test.py:148-156 | A prefix is inserted exactly when the speaker changes, so always at word 0, and is `SPEAKER_START + subtok(speaker) + SPEAKER_END`. The stream is prefixes and subtokens back to back. |
| Aligner.RemapRoundTrip | s2e-coref/cores_tokens_test.py:154-167 | Every gold mention moves to `(start[s], end[e])`. Through the inverse list these positions map back to `s` and `e` whenever those words have subtokens. |
| Aligner.AlignedSome | s2e-coref/cores_tokens_test.py:165-173 | A paragraph fails exactly when it has fewer speakers than words, or a mention end that is not a word index (the `KeyError`s). |
| Mentions.MentionLoop | s2e-coref/cores_tokens_test.py:79-96 | The mention loop of an accepted cluster computes the mentions' tally: examples emitted and mentions dropped. |
| Mentions.BinaryClusteringTokenize | s2e-coref/cores_tokens_test.py:53-99 | The nested loops compute the corpus tally: `cluster_examples` and `num_examples_filtered`. |
| Mentions.MentionsConserve | s2e-coref/cores_tokens_test.py:79-96 | Every mention of an accepted cluster is either emitted or filtered. |
| Mentions.ParagraphConserve | s2e-coref/cores_tokens_test.py:60-96 | A paragraph's examples plus its filter increase equal its mention count. A cluster whose target fails or is over budget adds `len(cluster)` and emits nothing. |
| Mentions.CorpusConserve | s2e-coref/cores_tokens_test.py:53-99 | Over the corpus, examples plus the filter count equal the total number of mentions. |
| Mentions.MentionsFrom | s2e-coref/cores_tokens_test.py:79-96 | Every example of a cluster carries the paragraph's key, cluster index, target and a mention of the cluster, with the input the encoder made for it. |
| Mentions.ParagraphFrom | s2e-coref/cores_tokens_test.py:60-96 | Every example names some `c_i` with `mention in clusters[c_i]`, and both its texts were produced within budget. |
| Mentions.CorpusFrom | s2e-coref/cores_tokens_test.py:53-99 | Every example of the corpus comes from one of its paragraphs. |
| Mentions.ParagraphKeepsAll | s2e-coref/cores_tokens_test.py:60-96 | With the budget off and an encoder that never raises, every mention becomes an example and nothing is filtered. |
| Mentions.MentionsKeepAll | s2e-coref/cores_tokens_test.py:79-96 | The same for one cluster's mentions. |
| GoldFile.NatToString | s2e-coref/cores_tokens_test.py:118-120 | `str(n)` is a non-empty string of digits that starts with '0' only for 0. |
| GoldFile.ParseNatToString | s2e-coref/cores_tokens_test.py:118-120 | `str(n)` reads back as `n`. |
| GoldFile.NatToStringWidth | s2e-coref/cores_tokens_test.py:117-120 | `str(n)` fits in `k` columns exactly when `n < 10^k`. |
| GoldFile.Spaces | s2e-coref/cores_tokens_test.py:117-119 | `k * ' '` is `k` spaces. |
| GoldFile.RightAlignedShape | s2e-coref/cores_tokens_test.py:117-120 | The padded number is `max(width, len(str(n)))` long: spaces, then its digits, reading back as `n`. |
| GoldFile.ColumnFits | s2e-coref/cores_tokens_test.py:117-120 | A number below `10^width` fills its column exactly and reads back. |
| GoldFile.Word | s2e-coref/cores_tokens_test.py:114 | The first field of a line is its longest prefix without whitespace. |
| GoldFile.WordOfField | s2e-coref/cores_tokens_test.py:114 | A field followed by whitespace, or by nothing, is the first field. |
| GoldFile.FieldsJoinSpaced | s2e-coref/cores_tokens_test.py:114 | `' '.join(ws).split() == ws` for fields without whitespace. |
| GoldFile.TrimSpaces | s2e-coref/cores_tokens_test.py:117-120 | Stripping the padding gives the digits back. |
| GoldFile.GoldLineColumns | s2e-coref/cores_tokens_test.py:113-121 | For ids below 10000 and indices below 100000, a rewritten line is the key, then 4 columns reading back as `paragraph_id`, then 5 reading back as the within-sentence `word_idx`, then `line[29:]`. |
| GoldFile.SentencesCheckAll | s2e-coref/cores_tokens_test.py:109-115 | The recursive check of the first `n` sentences means each of them passes. |
| GoldFile.ChecksMeaning | s2e-coref/cores_tokens_test.py:109-115 | The assertions hold exactly when the sentence and line-group counts agree, every sentence has one line per word, and every line's first two fields joined by `_` are the key. |
| GoldFile.WriteSentence | s2e-coref/cores_tokens_test.py:112-122 | A sentence's lines are written as specified, and it fails exactly when a line does not name the key. |
| GoldFile.WriteBlock | s2e-coref/cores_tokens_test.py:107-124 | A paragraph's block is the header, the sentences each followed by a newline, and `#end document`. It fails exactly when an assertion fails. |
| GoldFile.OntonotesFails | s2e-coref/cores_tokens_test.py:103-124 | Once a paragraph fails an assertion, the whole file does. |
| GoldFile.ToOntonotes | s2e-coref/cores_tokens_test.py:101-124 | The loop writes the specified text: the blocks in paragraph order, separated by newlines. |

## Behaviour that follows the code

- The word index in a rewritten gold line counts words within the sentence, from the `enumerate` at line 112. It is not a document-wide index, and `index_shift` is not added to it. The model follows the code.
- A word whose subtokens are empty gets `end = start - 1` (lines 157-163). The model does not assume every word has subtokens. The round trip through the inverse list is stated for words that have them.
- Splitting does not keep every mention of a document. A mention that crosses a paragraph boundary is dropped by truncation. The re-basing at lines 266-271 loses or misplaces more (see Findings).
- A later window in which no cluster survives is skipped at line 279. Its words belong to no paragraph, so the paragraphs of a document need not cover all its words. `Splitter.SkipTurn` states this: such a turn emits nothing, while the id and the offset still advance past its words.

## Left out

- File reading and JSON decoding in `_parse_jsonlines`. `Corpus.ParseJsonlines` starts from already decoded documents.
- The `'EMPTY!'` placeholder for a document without `full_sentences`. Annotation lines are always a list of line groups here.
- File writing in `to_ontonotes`. The model returns the text instead. When an assertion fails it returns `None` and does not keep the partial file written before the failure.
- The `print` logging in every stage, and the unused `words_str` and `mentions` intermediates.
- The tokenizer, `encode` and torch tensor construction and padding, because they are foreign libraries. Only the padded length, the subtokens and `encode`'s output or failure are kept, as parameters. The tokenizer is assumed total; only `encode` can raise.
- Mention examples hold the words of the input and target rather than their space-joined strings. Nothing in the core reads them apart from the tokenizer's length.
- Non-ASCII whitespace in `str.split`. `GoldFile.IsSpace` separates on the ten ASCII characters Python treats as whitespace (space, tab, line feed, carriage return, vertical tab, form feed and `\x1c` to `\x1f`). The non-ASCII ones Python also splits on, such as `\x85` and `\xa0`, are word characters in the model.
- `evaluate` beyond the predicted-cluster remap (`Subtokens.RemapClusters`), because it does pickle I/O, calls external evaluators and computes floating-point scores.
- `unite_paragraph_clusters`, because it cannot run as written: its comprehension order is wrong and it calls `extend` on a dict.
- `generate_true_cluster_example`, because it uses undefined constants. `__len__`, because it uses an undefined attribute.
- `create_datasets`, `load_pickles`, `get_cores_tokens` and the `cores_eval.py` driver, because they are argument parsing, pickle caching, a constant list and process plumbing.
- Budget.ProcessExample: requires at least one sentence, because with none the source returns an unbound `words_str`. It also requires a positive step, because with step 0 the loop would not end. `Splitter` always calls it with step 1 and reports an empty document as a failure.
- The dictionary as the input of `_split_to_paragraphs`. `Splitter.SplitToParagraphs` takes the dictionary's entries in iteration order, which is what `Corpus.ParseJsonlines` returns.

## Findings

| source | as written | input that shows it | evidently intended | confidence | as-written member | corrected member |
|---|---|---|---|---|---|---|
| s2e-coref/cores_tokens_test.py:266-271 | After each window, `remain_clusters` re-bases the document's original clusters by the previous window's word count (`full_trunced_length`), not by the running `index_shift`. From the third paragraph on, mentions land at the wrong word, or drop out. | A document of three one-word sentences `a`, `b`, `c` with the single cluster `[[2, 2]]`, one token per word, and `max_seq_length = 1`. That tokenizer is idealised, since the real one pads to `max_length` and never gives so short an input, but any document cut into three or more windows with a mention in the third loses or misplaces it the same way. The mention is re-based by 1 instead of 2, so no window holds it, and only the first paragraph, without clusters, is emitted. | Re-base by the running offset, so that the last paragraph is emitted with the mention `[0, 0]` at offset 2. Line 262 cuts `remain_words` at the cumulative `trunced_length`, and `_process_example` at line 273 truncates the clusters against that cut, so the clusters must be local to it too. | not executed | Splitter.LastWordDocumentAsWritten | Splitter.LastWordDocumentCorrected |

`Splitter.PreviousWindowLosesMention` sets the two outcomes side by side on that input. The `RemainderBase` parameter selects between the behaviours. For the corrected one (`CumulativeShift`), `Splitter.SplitDocumentShape` proves that every later paragraph's clusters are exactly the document's mentions inside it, moved down by its offset. The as-written behaviour (`PreviousWindow`) keeps the other properties: ordering, placement, and mentions inside the window.
