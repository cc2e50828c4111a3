/** `to_ontonotes`: the gold file in the CoNLL-2012 layout, one document
    block per paragraph. Each annotation line is rewritten so that it
    starts with the document key, the paragraph id right-aligned to four
    columns and the word's index within its sentence right-aligned to
    five columns, followed by the original line from column 29 on. */
module GoldFile {
  import opened Basics
  import opened Splitter

  // ---------------------------------------------------------------------
  // `str` of a natural number

  predicate IsDigit(c: char)
  {
    '0' <= c <= '9'
  }

  predicate IsDigits(s: string)
  {
    forall i :: 0 <= i < |s| ==> IsDigit(s[i])
  }

  function Digit(d: nat): (c: char)
    requires d < 10
    ensures IsDigit(c) && c as int - '0' as int == d
  {
    ('0' as int + d) as char
  }

  /** Python's `str(n)` for `n >= 0`: decimal digits, no leading zero. */
  function NatToString(n: nat): (s: string)
    ensures |s| >= 1 && IsDigits(s)
    ensures s[0] == '0' <==> n == 0
    decreases n
  {
    if n < 10 then [Digit(n)] else NatToString(n / 10) + [Digit(n % 10)]
  }

  /** The value of a string of decimal digits. */
  function ParseNat(s: string): nat
    requires IsDigits(s)
  {
    if s == [] then 0 else ParseNat(s[..|s| - 1]) * 10 + (s[|s| - 1] as int - '0' as int)
  }

  lemma {:induction false} ParseNatToString(n: nat)
    ensures ParseNat(NatToString(n)) == n
    decreases n
  {
    if n >= 10 {
      ParseNatToString(n / 10);
      var s := NatToString(n);
      assert s[..|s| - 1] == NatToString(n / 10);
    }
  }

  function Pow10(k: nat): nat
  {
    if k == 0 then 1 else 10 * Pow10(k - 1)
  }

  /** `str(n)` has at most `k` digits exactly when `n < 10^k`. */
  lemma {:induction false} NatToStringWidth(n: nat, k: nat)
    requires k >= 1
    ensures |NatToString(n)| <= k <==> n < Pow10(k)
    decreases n
  {
    if n >= 10 {
      if k == 1 {
        assert Pow10(1) == 10;
      } else {
        NatToStringWidth(n / 10, k - 1);
      }
    } else {
      PowAtLeastTen(k);
    }
  }

  lemma {:induction false} PowAtLeastTen(k: nat)
    requires k >= 1
    ensures Pow10(k) >= 10
  {
    if k > 1 {
      PowAtLeastTen(k - 1);
    }
  }

  // ---------------------------------------------------------------------
  // Right alignment

  function Spaces(k: nat): (s: string)
    ensures |s| == k && forall i :: 0 <= i < k ==> s[i] == ' '
  {
    if k == 0 then "" else " " + Spaces(k - 1)
  }

  /** `(width - len(str(n))) * ' ' + str(n)`: repeating a string a
      negative number of times gives the empty string, so a number wider
      than the column is written in full. */
  function RightAligned(width: nat, n: nat): string
  {
    var d := NatToString(n);
    (if |d| < width then Spaces(width - |d|) else "") + d
  }

  /** Leading spaces removed. */
  function TrimStart(s: string): string
  {
    if s != [] && s[0] == ' ' then TrimStart(s[1..]) else s
  }

  lemma {:induction false} TrimSpaces(k: nat, d: string)
    requires d == [] || d[0] != ' '
    ensures TrimStart(Spaces(k) + d) == d
  {
    if k > 0 {
      assert (Spaces(k) + d)[1..] == Spaces(k - 1) + d;
      TrimSpaces(k - 1, d);
    }
  }

  /** A right-aligned number fills its column exactly when it fits, is
      spaces followed by its digits, and reads back as the number. */
  lemma RightAlignedShape(width: nat, n: nat)
    ensures var r := RightAligned(width, n);
      var d := NatToString(n);
      && |r| == (if |d| < width then width else |d|)
      && r[|r| - |d|..] == d
      && (forall i :: 0 <= i < |r| - |d| ==> r[i] == ' ')
      && IsDigits(TrimStart(r)) && ParseNat(TrimStart(r)) == n
  {
    var d := NatToString(n);
    var k := if |d| < width then width - |d| else 0;
    assert RightAligned(width, n) == Spaces(k) + d;
    TrimSpaces(k, d);
    ParseNatToString(n);
  }

  // ---------------------------------------------------------------------
  // `line.split()`

  /** The ASCII characters `str.split()` separates on: space, tab, line
      feed, carriage return, vertical tab, form feed and the four
      information separators `\x1c` to `\x1f`. */
  predicate IsSpace(c: char)
  {
    c == ' ' || c == '\t' || c == '\n' || c == '\r' || c == '\U{0B}' || c == '\U{0C}'
    || ('\U{1C}' <= c <= '\U{1F}')
  }

  /** The longest prefix of `s` without whitespace. */
  function Word(s: string): (w: string)
    ensures |w| <= |s| && w == s[..|w|]
    ensures forall i :: 0 <= i < |w| ==> !IsSpace(w[i])
    ensures |w| < |s| ==> IsSpace(s[|w|])
  {
    if s == [] || IsSpace(s[0]) then [] else [s[0]] + Word(s[1..])
  }

  /** `s.split()`: the maximal runs of non-whitespace characters. */
  function Fields(s: string): seq<string>
    decreases |s|
  {
    if s == [] then []
    else if IsSpace(s[0]) then Fields(s[1..])
    else [Word(s)] + Fields(s[|Word(s)|..])
  }

  /** `' '.join(ws)`. */
  function JoinSpaced(ws: seq<string>): string
  {
    if |ws| == 0 then "" else if |ws| == 1 then ws[0] else ws[0] + " " + JoinSpaced(ws[1..])
  }

  predicate IsField(w: string)
  {
    w != [] && forall i :: 0 <= i < |w| ==> !IsSpace(w[i])
  }

  lemma {:induction false} WordOfField(w: string, rest: string)
    requires IsField(w) && (rest == [] || IsSpace(rest[0]))
    ensures Word(w + rest) == w
  {
    if |w| > 1 {
      assert (w + rest)[1..] == w[1..] + rest;
      WordOfField(w[1..], rest);
    } else {
      assert (w + rest)[1..] == rest;
    }
  }

  /** Splitting fields joined by single spaces gives the fields back. */
  lemma {:induction false} FieldsJoinSpaced(ws: seq<string>)
    requires forall i :: 0 <= i < |ws| ==> IsField(ws[i])
    ensures Fields(JoinSpaced(ws)) == ws
  {
    if |ws| == 1 {
      WordOfField(ws[0], "");
      assert ws[0] + "" == ws[0];
      assert ws[0][|ws[0]|..] == [];
    } else if |ws| > 1 {
      var s := JoinSpaced(ws);
      var tail := JoinSpaced(ws[1..]);
      assert s == ws[0] + (" " + tail);
      WordOfField(ws[0], " " + tail);
      assert s[|ws[0]|..] == " " + tail;
      assert (" " + tail)[1..] == tail;
      FieldsJoinSpaced(ws[1..]);
    }
  }

  // ---------------------------------------------------------------------
  // One rewritten line

  /** `assert doc_key == f'{row[0]}_{row[1]}'` with `row = line.split()`;
      a line with fewer than two fields fails too, on the index. */
  predicate KeyMatches(docKey: string, line: string)
  {
    var row := Fields(line);
    |row| >= 2 && docKey == row[0] + "_" + row[1]
  }

  /** `new_line`: the key, the paragraph id in four columns, the word index
      in five, then the line from column 29 on. */
  function GoldLine(docKey: string, paragraphId: nat, wordIdx: nat, line: string): string
  {
    docKey + RightAligned(4, paragraphId) + RightAligned(5, wordIdx) + Drop(line, 29)
  }

  /** A number below `10^width` fills its column exactly and reads back. */
  lemma ColumnFits(width: nat, n: nat)
    requires 1 <= width && n < Pow10(width)
    ensures |RightAligned(width, n)| == width
    ensures IsDigits(TrimStart(RightAligned(width, n))) && ParseNat(TrimStart(RightAligned(width, n))) == n
  {
    NatToStringWidth(n, width);
    RightAlignedShape(width, n);
  }

  /** For a paragraph id below 10000 and a word index below 100000 the
      rewritten line has fixed columns: the key, then four columns that
      read back as the paragraph id, five that read back as the word
      index, and the rest of the original line. */
  lemma GoldLineColumns(docKey: string, paragraphId: nat, wordIdx: nat, line: string)
    requires paragraphId < 10000 && wordIdx < 100000
    ensures var g := GoldLine(docKey, paragraphId, wordIdx, line);
      var k := |docKey|;
      && |g| == k + 9 + |Drop(line, 29)|
      && g[..k] == docKey
      && IsDigits(TrimStart(g[k..k + 4])) && ParseNat(TrimStart(g[k..k + 4])) == paragraphId
      && IsDigits(TrimStart(g[k + 4..k + 9])) && ParseNat(TrimStart(g[k + 4..k + 9])) == wordIdx
      && g[k + 9..] == Drop(line, 29)
  {
    assert Pow10(4) == 10000 && Pow10(5) == 100000;
    ColumnFits(4, paragraphId);
    ColumnFits(5, wordIdx);
    var a := RightAligned(4, paragraphId);
    var b := RightAligned(5, wordIdx);
    var rest := Drop(line, 29);
    var g := GoldLine(docKey, paragraphId, wordIdx, line);
    var k := |docKey|;
    assert g == docKey + a + b + rest;
    assert g[..k] == docKey;
    assert g[k..k + 4] == a;
    assert g[k + 4..k + 9] == b;
    assert g[k + 9..] == rest;
  }

  // ---------------------------------------------------------------------
  // The whole file

  /** The rewritten lines of the first `n` lines of one sentence. */
  function SentenceLines(docKey: string, paragraphId: nat, lines: seq<string>, n: nat): string
    requires n <= |lines|
  {
    if n == 0 then "" else SentenceLines(docKey, paragraphId, lines, n - 1) + GoldLine(docKey, paragraphId, n - 1, lines[n - 1])
  }

  /** The first `n` sentences of a block, each followed by a newline. */
  function BlockBody(docKey: string, paragraphId: nat, groups: seq<seq<string>>, n: nat): string
    requires n <= |groups|
  {
    if n == 0 then ""
    else BlockBody(docKey, paragraphId, groups, n - 1) + SentenceLines(docKey, paragraphId, groups[n - 1], |groups[n - 1]|) + "\n"
  }

  function Header(p: Paragraph): string
  {
    "#begin document (" + p.docKey + "); part " + NatToString(p.paragraphId) + "\n"
  }

  /** The block of one paragraph. */
  function Block(p: Paragraph): string
  {
    Header(p) + BlockBody(p.docKey, p.paragraphId, p.conllLines, |p.conllLines|) + "#end document"
  }

  /** Every line of a sentence names the document key. */
  predicate LinesNameKey(docKey: string, lines: seq<string>)
  {
    forall j :: 0 <= j < |lines| ==> KeyMatches(docKey, lines[j])
  }

  /** Sentence `s` has one annotation line per word, each naming the key. */
  predicate SentenceChecks(p: Paragraph, s: nat)
    requires s < |p.sentences| && s < |p.conllLines|
  {
    |p.sentences[s]| == |p.conllLines[s]| && LinesNameKey(p.docKey, p.conllLines[s])
  }

  /** The first `n` sentences pass their checks. */
  predicate SentencesCheck(p: Paragraph, n: nat)
    requires n <= |p.sentences| && n <= |p.conllLines|
  {
    n == 0 || (SentencesCheck(p, n - 1) && SentenceChecks(p, n - 1))
  }

  /** The two assertions of `to_ontonotes` for one paragraph: as many
      annotation lines as words in every sentence, and every line naming
      the document key. */
  predicate Checks(p: Paragraph)
  {
    |p.sentences| == |p.conllLines| && SentencesCheck(p, |p.sentences|)
  }

  lemma {:induction false} SentencesCheckAll(p: Paragraph, n: nat)
    requires n <= |p.sentences| && n <= |p.conllLines|
    ensures SentencesCheck(p, n) <==> forall s :: 0 <= s < n ==> SentenceChecks(p, s)
  {
    if n > 0 {
      SentencesCheckAll(p, n - 1);
    }
  }

  /** The assertions hold exactly when the sentence and line-group counts
      agree and every sentence has one line per word, each naming the key. */
  lemma ChecksMeaning(p: Paragraph)
    ensures Checks(p) <==>
              && |p.sentences| == |p.conllLines|
              && forall s :: 0 <= s < |p.sentences| ==>
                   |p.sentences[s]| == |p.conllLines[s]|
                   && forall j :: 0 <= j < |p.conllLines[s]| ==> KeyMatches(p.docKey, p.conllLines[s][j])
  {
    if |p.sentences| == |p.conllLines| {
      SentencesCheckAll(p, |p.sentences|);
      forall s | 0 <= s < |p.sentences|
        ensures SentenceChecks(p, s) <==>
                  |p.sentences[s]| == |p.conllLines[s]|
                  && forall j :: 0 <= j < |p.conllLines[s]| ==> KeyMatches(p.docKey, p.conllLines[s][j])
      {
      }
    }
  }

  /** The text written for the first `n` paragraphs, blocks separated by a
      newline; `None` when an assertion fails. */
  function Ontonotes(ps: seq<Paragraph>, n: nat): Option<string>
    requires n <= |ps|
  {
    if n == 0 then Some("")
    else
      match Ontonotes(ps, n - 1)
      case None => None
      case Some(text) =>
        if Checks(ps[n - 1]) then Some(text + (if n > 1 then "\n" else "") + Block(ps[n - 1])) else None
  }

  /** The lines of one sentence: `None` when a line does not name the key. */
  method WriteSentence(docKey: string, paragraphId: nat, lines: seq<string>) returns (r: Option<string>)
    ensures r.Some? <==> LinesNameKey(docKey, lines)
    ensures r.Some? ==> r.value == SentenceLines(docKey, paragraphId, lines, |lines|)
  {
    var out := "";
    for j := 0 to |lines|
      invariant forall j' :: 0 <= j' < j ==> KeyMatches(docKey, lines[j'])
      invariant out == SentenceLines(docKey, paragraphId, lines, j)
    {
      var line := lines[j];
      var row := Fields(line);
      if |row| < 2 || docKey != row[0] + "_" + row[1] {
        return None;
      }
      var newLine := docKey;
      newLine := newLine + RightAligned(4, paragraphId);
      newLine := newLine + RightAligned(5, j);
      newLine := newLine + Drop(line, 29);
      out := out + newLine;
    }
    r := Some(out);
  }

  /** The block of one paragraph: `None` when an assertion fails. */
  method WriteBlock(p: Paragraph) returns (r: Option<string>)
    ensures r.Some? <==> Checks(p)
    ensures r.Some? ==> r.value == Block(p)
  {
    var header := "#begin document (" + p.docKey + "); part " + NatToString(p.paragraphId) + "\n";
    if |p.sentences| != |p.conllLines| {
      return None;
    }
    var body := "";
    for s := 0 to |p.sentences|
      invariant SentencesCheck(p, s)
      invariant body == BlockBody(p.docKey, p.paragraphId, p.conllLines, s)
    {
      var lines := p.conllLines[s];
      if |p.sentences[s]| != |lines| {
        assert !SentenceChecks(p, s);
        SentencesCheckAll(p, |p.sentences|);
        return None;
      }
      var text := WriteSentence(p.docKey, p.paragraphId, lines);
      if text.None? {
        assert !SentenceChecks(p, s);
        SentencesCheckAll(p, |p.sentences|);
        return None;
      }
      BlockBodyStep(p.docKey, p.paragraphId, p.conllLines, s);
      body := body + text.value + "\n";
    }
    r := Some(header + body + "#end document");
  }

  lemma BlockBodyStep(docKey: string, paragraphId: nat, groups: seq<seq<string>>, n: nat)
    requires n < |groups|
    ensures BlockBody(docKey, paragraphId, groups, n + 1)
            == BlockBody(docKey, paragraphId, groups, n) + SentenceLines(docKey, paragraphId, groups[n], |groups[n]|) + "\n"
  {
  }

  lemma OntonotesStep(ps: seq<Paragraph>, i: nat, text: string, block: Option<string>)
    requires i < |ps| && Ontonotes(ps, i) == Some(text)
    requires block.Some? <==> Checks(ps[i])
    requires block.Some? ==> block.value == Block(ps[i])
    ensures Ontonotes(ps, i + 1) == if block.None? then None else Some(text + (if i > 0 then "\n" else "") + block.value)
  {
  }

  /** `to_ontonotes`, with the file replaced by the text written to it. */
  method ToOntonotes(ps: seq<Paragraph>) returns (r: Option<string>)
    ensures r == Ontonotes(ps, |ps|)
  {
    var out := "";
    for i := 0 to |ps|
      invariant Ontonotes(ps, i) == Some(out)
    {
      ghost var before := out;
      if i > 0 {
        out := out + "\n";
      } else {
        assert out == before + "";
      }
      ghost var separated := out;
      var block := WriteBlock(ps[i]);
      OntonotesStep(ps, i, before, block);
      if block.None? {
        OntonotesFails(ps, i + 1);
        return None;
      }
      out := out + block.value;
      assert out == separated + block.value;
    }
    r := Some(out);
  }

  /** Once a paragraph fails, the whole file does. */
  lemma {:induction false} OntonotesFails(ps: seq<Paragraph>, i: nat)
    requires i <= |ps| && Ontonotes(ps, i).None?
    ensures Ontonotes(ps, |ps|).None?
    decreases |ps| - i
  {
    if i < |ps| {
      OntonotesFails(ps, i + 1);
    }
  }
}
