/**
 * The server's flashcard extractor, `generateFlashcardsFromContent`: from the
 * text of an uploaded document and its file name it builds question/answer
 * cards by a fixed sequence of heuristic stages (headings, definitions,
 * lists, keyword sentences, a summary, sections, explicit Q/A pairs), keeps
 * the first card for each normalised front, backfills from chunks of the
 * text when fewer than three survive, and returns at most fifteen.
 *
 * The three stages driven by regular expressions with lazy quantifiers and
 * look-aheads (definitions, numbered and bullet lists, Q/A pairs) take what
 * those expressions matched as input, `PatternMatches`; everything the code
 * does with the matches (caps, guards, trimming, truncation) is modelled.
 */
module Extractor {
  import opened Wrappers
  import opened Seqs
  import opened Text

  datatype Card = Card(front: string, back: string)

  /** The two capture groups of one regular-expression match; "" stands for an empty or missing group. */
  datatype Capture = Capture(first: string, second: string)

  /** What the uninterpreted regular expressions matched in the raw content, each list in match order. */
  datatype PatternMatches = PatternMatches(
    definitions: seq<seq<Capture>>,   // one list per definition pattern, in the order the patterns are tried
    numbered: Option<seq<string>>,    // the numbered-list matches; None when `match` returned null
    bullets: Option<seq<string>>,     // the bullet-list matches; None when `match` returned null
    qa: seq<Capture>)                 // question and answer groups of the Q/A pattern

  /** The most cards one document yields. */
  const MaxCards := 15
  /** A card's back must be longer than this to survive deduplication. */
  const MinBackLength := 10
  /** Fronts are compared on this many characters, lower-cased. */
  const KeyLength := 50

  // ---------------------------------------------------------------------
  // Splitting the document

  /** `content.replace(/\s+/g, ' ').trim()`. */
  function Normalize(content: string): string
  {
    Trim(Collapse(content))
  }

  function DropLineFeeds(s: string): (r: string)
    ensures |r| <= |s|
    ensures s != [] && s[0] == '\n' ==> |r| < |s|
    ensures r == [] || r[0] != '\n'
  {
    if s != [] && s[0] == '\n' then DropLineFeeds(s[1..]) else s
  }

  /**
   * `content.split(/\n\n+/)`: the pieces between maximal runs of two or more
   * line feeds. No piece holds a blank line, and the first piece starts with
   * the text's first character unless the text opens with a blank line.
   */
  function SplitBlankLines(s: string): (r: seq<string>)
    ensures |r| >= 1
    ensures forall i :: 0 <= i < |r| ==> !Contains(r[i], "\n\n")
    ensures s != [] && !(|s| >= 2 && s[0] == '\n' && s[1] == '\n') ==> r[0] != [] && r[0][0] == s[0]
    decreases |s|
  {
    if s == [] then [""]
    else if |s| >= 2 && s[0] == '\n' && s[1] == '\n' then [""] + SplitBlankLines(DropLineFeeds(s))
    else
      var rest := SplitBlankLines(s[1..]);
      assert !Contains([s[0]] + rest[0], "\n\n") by {
        var p := [s[0]] + rest[0];
        assert p[1..] == rest[0];
        if |p| >= 2 {
          assert p[..2] == [p[0], p[1]];
          assert p[0] == '\n' ==> p[1] == rest[0][0] == s[1];
        }
      }
      [[s[0]] + rest[0]] + rest[1..]
  }

  predicate IsParagraph(p: string)
  {
    |Trim(p)| > 20
  }

  /** The blank-line separated pieces whose trimmed length exceeds 20. */
  function Paragraphs(content: string): (r: seq<string>)
    ensures forall i :: 0 <= i < |r| ==> |Trim(r[i])| > 20
  {
    Filter(SplitBlankLines(content), IsParagraph)
  }

  predicate IsTerminator(c: char)
  {
    c == '.' || c == '!' || c == '?'
  }

  /** Where the run of terminators (or of other characters) that starts at position i of `s` ends. */
  function RunEnd(s: string, i: nat, terminators: bool): (j: nat)
    requires i <= |s|
    ensures i <= j <= |s|
    ensures j < |s| ==> IsTerminator(s[j]) != terminators
    ensures i < |s| && IsTerminator(s[i]) == terminators ==> j > i
    decreases |s| - i
  {
    if i < |s| && IsTerminator(s[i]) == terminators then RunEnd(s, i + 1, terminators) else i
  }

  /** Every character of the run is of the kind asked for. */
  lemma {:induction false} RunEndAll(s: string, i: nat, terminators: bool, k: nat)
    requires i <= |s| && i <= k < RunEnd(s, i, terminators)
    ensures IsTerminator(s[k]) == terminators
    decreases |s| - i
  {
    if k > i {
      RunEndAll(s, i + 1, terminators, k);
    }
  }

  /**
   * `normalized.match(/[^.!?]+[.!?]+/g) || []`: each sentence is a maximal
   * run of non-terminators followed by its maximal run of terminators; text
   * after the last terminator is not a sentence. The matches from position i on.
   */
  function SentencesFrom(s: string, i: nat): seq<string>
    requires i <= |s|
    decreases |s| - i
  {
    var start := RunEnd(s, i, true);
    var body := RunEnd(s, start, false);
    if body == |s| then []
    else
      var end := RunEnd(s, body, true);
      [s[start..end]] + SentencesFrom(s, end)
  }

  function Sentences(s: string): seq<string>
  {
    SentencesFrom(s, 0)
  }

  predicate IsHeadingLine(line: string)
  {
    5 < |Trim(line)| < 100 && '.' !in line
  }

  /** The first five lines whose trimmed length is strictly between 5 and 100 and which hold no '.'. */
  function Headings(content: string): (r: seq<string>)
    ensures |r| <= 5
    ensures forall i :: 0 <= i < |r| ==> IsHeadingLine(r[i])
  {
    Take(Filter(Split(content, '\n'), IsHeadingLine), 5)
  }

  // ---------------------------------------------------------------------
  // Stage 1: headings paired with paragraphs

  /** "What is <topic>?" */
  function WhatIs(topic: string): string
  {
    "What is " + topic + "?"
  }

  function HeadingCard(headings: seq<string>, paragraphs: seq<string>, i: nat): seq<Card>
    requires i < |headings|
  {
    var headingText := Trim(headings[i]);
    if headingText != "" && i < |paragraphs| then
      [Card(WhatIs(ToLower(headingText)), Trim(Prefix(paragraphs[i], 300)))]
    else []
  }

  /** The cards of the first n headings. */
  function HeadingCards(headings: seq<string>, paragraphs: seq<string>, n: nat): seq<Card>
    requires n <= |headings|
  {
    if n == 0 then [] else HeadingCards(headings, paragraphs, n - 1) + HeadingCard(headings, paragraphs, n - 1)
  }

  // ---------------------------------------------------------------------
  // Stage 2: definitions

  function DefinitionCard(m: Capture): seq<Card>
  {
    if m.first != "" && m.second != "" then
      var term := Trim(m.first);
      var definition := Trim(m.second);
      if 3 < |term| < 80 && ',' !in term then [Card(WhatIs(term), definition)] else []
    else []
  }

  /** The cards of the first three matches of one definition pattern. */
  function DefinitionCardsOf(matches: seq<Capture>): seq<Card>
  {
    FlatMap(Take(matches, 3), DefinitionCard)
  }

  function DefinitionCards(patterns: seq<seq<Capture>>): seq<Card>
  {
    FlatMap(patterns, DefinitionCardsOf)
  }

  // ---------------------------------------------------------------------
  // Stage 3: numbered and bullet lists

  /** The first seven items, each trimmed, one per line. */
  function ListBack(items: seq<string>): string
  {
    Join(Map(Take(items, 7), Trim), "\n")
  }

  function ListCards(fileName: string, numbered: Option<seq<string>>, bullets: Option<seq<string>>): seq<Card>
  {
    (if numbered.Some? && |numbered.value| > 2
     then [Card("List the key points from " + fileName, ListBack(numbered.value))] else [])
    + (if bullets.Some? && |bullets.value| > 2
       then [Card("What are the main items discussed?", ListBack(bullets.value))] else [])
  }

  // ---------------------------------------------------------------------
  // Stage 4: sentences with an educational keyword

  const Keywords: seq<string> := [
    "important", "significant", "key", "main", "primary", "essential",
    "define", "definition", "concept", "theory", "principle",
    "rule", "law", "formula", "equation", "theorem",
    "example", "instance", "case", "demonstrates",
    "because", "therefore", "thus", "hence", "consequently",
    "first", "second", "third", "finally", "lastly"
  ]

  predicate HasKeyword(sentence: string)
  {
    exists k | k in Keywords :: Contains(ToLower(sentence), k)
  }

  function KeywordCard(sentence: string): seq<Card>
  {
    var trimmed := Trim(sentence);
    if 30 < |trimmed| < 300 then
      var words := Split(trimmed, ' ');
      if |words| > 5 then [Card("Explain: \"" + Join(Take(words, 8), " ") + "...\"", trimmed)] else []
    else []
  }

  /** The cards of the first five keyword sentences. */
  /** The sentences that get a keyword card: the first five that mention a keyword. */
  function KeywordSentences(sentences: seq<string>): (r: seq<string>)
    ensures |r| <= 5
    ensures forall j :: 0 <= j < |r| ==> HasKeyword(r[j])
  {
    Take(Filter(sentences, HasKeyword), 5)
  }

  function KeywordCards(sentences: seq<string>): seq<Card>
  {
    FlatMap(KeywordSentences(sentences), KeywordCard)
  }

  // ---------------------------------------------------------------------
  // Stage 5: summary

  /** The position of the last '.' in `s`, if any. */
  function LastDot(s: string): (r: Option<nat>)
    ensures r.Some? ==> r.value < |s| && s[r.value] == '.' && '.' !in s[r.value + 1..]
    ensures r.None? ==> '.' !in s
  {
    if s == [] then None
    else if s[|s| - 1] == '.' then Some(|s| - 1)
    else
      var r := LastDot(s[..|s| - 1]);
      assert s == s[..|s| - 1] + [s[|s| - 1]];
      r
  }

  /**
   * `fileName.replace(/\.[^/.]+$/, '')`: the name without its extension, where
   * the extension is a final '.' followed by at least one character and no '/'.
   */
  function StripExtension(fileName: string): (r: string)
    ensures |r| <= |fileName| && r == fileName[..|r|]
    ensures r != fileName ==>
      fileName[|r|] == '.' && |r| + 1 < |fileName|
      && '.' !in fileName[|r| + 1..] && '/' !in fileName[|r| + 1..]
    ensures forall i ::
              0 <= i && i + 1 < |fileName| && fileName[i] == '.'
              && '.' !in fileName[i + 1..] && '/' !in fileName[i + 1..] ==>
              r == fileName[..i]
  {
    match LastDot(fileName)
    case None => fileName
    case Some(i) => if i + 1 < |fileName| && '/' !in fileName[i + 1..] then fileName[..i] else fileName
  }

  function SummaryCards(sentences: seq<string>, fileName: string): seq<Card>
  {
    if |sentences| >= 3 then
      [Card("What is the introduction/overview of " + StripExtension(fileName) + "?",
            Prefix(Join(sentences[..3], " "), 400))]
    else []
  }

  // ---------------------------------------------------------------------
  // Stage 6: sections

  /** `paragraphs.slice(1, 4)`. */
  function SectionParagraphs(paragraphs: seq<string>): (r: seq<string>)
    ensures |r| <= 3
  {
    if |paragraphs| <= 1 then [] else paragraphs[1..if |paragraphs| < 4 then |paragraphs| else 4]
  }

  function SectionCard(sections: seq<string>, j: nat): seq<Card>
    requires j < |sections|
  {
    var para := Trim(sections[j]);
    if |para| > 50 then [Card("What is discussed in section " + NatToString(j + 1) + "?", Prefix(para, 350))] else []
  }

  /** The cards of the first n section paragraphs. */
  function SectionCardsUpTo(sections: seq<string>, n: nat): seq<Card>
    requires n <= |sections|
  {
    if n == 0 then [] else SectionCardsUpTo(sections, n - 1) + SectionCard(sections, n - 1)
  }

  /** Section cards are made only from at least three paragraphs and while fewer than five cards exist. */
  function SectionCards(paragraphs: seq<string>, cardsSoFar: nat): seq<Card>
  {
    if |paragraphs| >= 3 && cardsSoFar < 5 then
      var sections := SectionParagraphs(paragraphs);
      SectionCardsUpTo(sections, |sections|)
    else []
  }

  // ---------------------------------------------------------------------
  // Stage 7: explicit question/answer pairs

  function QaCard(m: Capture): seq<Card>
  {
    if m.first != "" && m.second != "" then [Card(Trim(m.first), Prefix(Trim(m.second), 400))] else []
  }

  /** The cards of the first three Q/A matches. */
  function QaCards(qa: seq<Capture>): seq<Card>
  {
    FlatMap(Take(qa, 3), QaCard)
  }

  // ---------------------------------------------------------------------
  // All stages, in emission order

  function CardsBeforeSections(content: string, fileName: string, m: PatternMatches): seq<Card>
  {
    var sentences := Sentences(Normalize(content));
    var headings := Headings(content);
    HeadingCards(headings, Paragraphs(content), |headings|)
    + DefinitionCards(m.definitions)
    + ListCards(fileName, m.numbered, m.bullets)
    + KeywordCards(sentences)
    + SummaryCards(sentences, fileName)
  }

  /** Every card the stages push, before deduplication. */
  function Candidates(content: string, fileName: string, m: PatternMatches): seq<Card>
  {
    var before := CardsBeforeSections(content, fileName, m);
    before + SectionCards(Paragraphs(content), |before|) + QaCards(m.qa)
  }

  // ---------------------------------------------------------------------
  // Deduplication

  /** `card.front.toLowerCase().substring(0, 50)`. */
  function Key(c: Card): string
  {
    Prefix(ToLower(c.front), KeyLength)
  }

  predicate HasLongBack(c: Card)
  {
    |c.back| > MinBackLength
  }

  function Keys(cards: seq<Card>): set<string>
  {
    if cards == [] then {} else Keys(cards[..|cards| - 1]) + {Key(cards[|cards| - 1])}
  }

  /** The forEach over the pushed cards: a card is kept when its key is new and its back is long enough. */
  function Dedup(cards: seq<Card>): seq<Card>
  {
    if cards == [] then []
    else
      var kept := Dedup(cards[..|cards| - 1]);
      var c := cards[|cards| - 1];
      if Key(c) !in Keys(kept) && HasLongBack(c) then kept + [c] else kept
  }

  // ---------------------------------------------------------------------
  // Backfill from chunks of the normalised text

  function ChunkFront(i: nat): string
  {
    "What is covered in part " + NatToString(i + 1) + " of the document?"
  }

  /** Chunk i of five equal parts of `normalized`, trimmed, as a card when longer than 50 characters. */
  function ChunkCard(normalized: string, i: nat): seq<Card>
  {
    var chunkSize := |normalized| / 5;
    var chunk := Trim(Substring(normalized, i * chunkSize, (i + 1) * chunkSize));
    if |chunk| > 50 then [Card(ChunkFront(i), Prefix(chunk, 300))] else []
  }

  /** The `for (i...; i < 5 && cards.length < 5; i++)` loop, from iteration i on. */
  function BackfillFrom(cards: seq<Card>, normalized: string, i: nat): seq<Card>
    decreases 5 - i
  {
    if i < 5 && |cards| < 5 then BackfillFrom(cards + ChunkCard(normalized, i), normalized, i + 1) else cards
  }

  function Backfill(cards: seq<Card>, normalized: string): seq<Card>
  {
    if |cards| < 3 then BackfillFrom(cards, normalized, 0) else cards
  }

  // ---------------------------------------------------------------------
  // The whole extractor

  function ShortContentCard(normalized: string, fileName: string): Card
  {
    Card("What is this document about?", if normalized == "" then "This is the file: " + fileName else normalized)
  }

  /** The cards for a document whose normalised text has at least 50 characters. */
  function LongContentCards(content: string, fileName: string, m: PatternMatches): seq<Card>
  {
    var normalized := Normalize(content);
    Take(Backfill(Dedup(Candidates(content, fileName, m)), normalized), MaxCards)
  }

  /** `generateFlashcardsFromContent(content, fileName)`. */
  function Extract(content: string, fileName: string, m: PatternMatches): seq<Card>
  {
    var normalized := Normalize(content);
    if |normalized| < 50 then [ShortContentCard(normalized, fileName)]
    else LongContentCards(content, fileName, m)
  }
}
