/**
 * What the extractor guarantees about the cards it returns: the shape of
 * each stage's cards, the first-occurrence meaning of the deduplication,
 * the closed form of the chunk backfill, and the bounds and edge cases of
 * the whole extractor.
 */
module ExtractorProperties {
  import opened Wrappers
  import opened Seqs
  import opened Text
  import opened Extractor

  // ---------------------------------------------------------------------
  // Sentences

  /** `x` is a run of one or more non-terminators followed by k.. terminators, split at k. */
  predicate SplitsAt(x: string, k: int)
  {
    0 < k < |x|
    && (forall i :: 0 <= i < k ==> !IsTerminator(x[i]))
    && (forall i :: k <= i < |x| ==> IsTerminator(x[i]))
  }

  /** What one match of `/[^.!?]+[.!?]+/` looks like. */
  predicate IsSentence(x: string)
  {
    exists k | 0 < k < |x| :: SplitsAt(x, k)
  }

  /** A match: the non-terminators from `start` to `body`, then the terminators up to `end`. */
  lemma FirstSentence(s: string, start: nat, body: nat, end: nat)
    requires start < |s| && !IsTerminator(s[start])
    requires body == RunEnd(s, start, false) < |s|
    requires end == RunEnd(s, body, true)
    ensures SplitsAt(s[start..end], body - start)
  {
    var x := s[start..end];
    forall k | 0 <= k < body - start
      ensures !IsTerminator(x[k])
    {
      RunEndAll(s, start, false, start + k);
    }
    forall k | body - start <= k < |x|
      ensures IsTerminator(x[k])
    {
      RunEndAll(s, body, true, start + k);
    }
  }

  lemma {:induction false} SentencesFromShape(s: string, i: nat)
    requires i <= |s|
    ensures forall x :: x in SentencesFrom(s, i) ==> IsSentence(x) && exists k :: i <= k && OccursAt(s, x, k)
    decreases |s| - i
  {
    var start := RunEnd(s, i, true);
    var body := RunEnd(s, start, false);
    if body < |s| {
      var end := RunEnd(s, body, true);
      assert IsSentence(s[start..end]) by {
        FirstSentence(s, start, body, end);
      }
      assert OccursAt(s, s[start..end], start);
      SentencesFromShape(s, end);
    }
  }

  /** Every sentence is a match of the sentence pattern copied from the text. */
  lemma SentencesShape(s: string)
    ensures forall x :: x in Sentences(s) ==> IsSentence(x) && exists k :: OccursAt(s, x, k)
  {
    SentencesFromShape(s, 0);
  }

  // ---------------------------------------------------------------------
  // Paragraphs and heading lines

  /** A paragraph is exactly a blank-line piece with more than 20 characters once trimmed; the pieces keep their order. */
  lemma ParagraphsExactly(content: string)
    ensures forall x :: x in Paragraphs(content) <==> x in SplitBlankLines(content) && |Trim(x)| > 20
    ensures IsSubsequence(Paragraphs(content), SplitBlankLines(content))
    ensures forall i :: 0 <= i < |Paragraphs(content)| ==> !Contains(Paragraphs(content)[i], "\n\n")
  {
    var pieces := SplitBlankLines(content);
    forall x
      ensures x in Paragraphs(content) <==> x in pieces && |Trim(x)| > 20
    {
      FilterMembership(pieces, IsParagraph, x);
    }
    FilterIsSubsequence(pieces, IsParagraph);
    forall i | 0 <= i < |Paragraphs(content)|
      ensures !Contains(Paragraphs(content)[i], "\n\n")
    {
      FilterMembership(pieces, IsParagraph, Paragraphs(content)[i]);
    }
  }

  /**
   * The headings are the heading lines among the first k lines, in order, for
   * some k: five of them, or fewer when the whole text has been read.
   */
  lemma HeadingsAreFirstFive(content: string)
    ensures exists k ::
              0 <= k <= |Split(content, '\n')| && Headings(content) == Filter(Split(content, '\n')[..k], IsHeadingLine)
              && (|Headings(content)| < 5 ==> k == |Split(content, '\n')|)
  {
    var k := TakeFilter(Split(content, '\n'), IsHeadingLine, 5);
  }

  // ---------------------------------------------------------------------
  // Stage 1: headings

  /** The card of a heading and the paragraph in the same position: the lower-cased heading asked about, the paragraph's first 300 characters as answer. */
  predicate IsHeadingCard(c: Card, heading: string, paragraph: string)
  {
    c == Card(WhatIs(ToLower(Trim(heading))), Trim(Prefix(paragraph, 300)))
  }

  lemma {:induction false} HeadingCardsUpTo(headings: seq<string>, paragraphs: seq<string>, n: nat)
    requires n <= |headings|
    requires forall i :: 0 <= i < |headings| ==> Trim(headings[i]) != ""
    ensures var r := HeadingCards(headings, paragraphs, n);
      |r| == (if n < |paragraphs| then n else |paragraphs|)
      && forall i :: 0 <= i < |r| ==> IsHeadingCard(r[i], headings[i], paragraphs[i])
  {
    if n > 0 {
      HeadingCardsUpTo(headings, paragraphs, n - 1);
      var prev := HeadingCards(headings, paragraphs, n - 1);
      var last := HeadingCard(headings, paragraphs, n - 1);
      assert HeadingCards(headings, paragraphs, n) == prev + last;
      var headingText := Trim(headings[n - 1]);
      assert headingText != "";
      if n - 1 < |paragraphs| {
        var c := Card(WhatIs(ToLower(headingText)), Trim(Prefix(paragraphs[n - 1], 300)));
        assert last == [c];
        assert IsHeadingCard(c, headings[n - 1], paragraphs[n - 1]);
        assert |prev| == n - 1;
      } else {
        assert last == [];
      }
      var r := prev + last;
      forall i | 0 <= i < |r|
        ensures IsHeadingCard(r[i], headings[i], paragraphs[i])
      {
        if i < |prev| {
          assert r[i] == prev[i];
        } else {
          assert |prev| == n - 1 && i == n - 1;
          assert r[i] == last[0];
        }
      }
    }
  }

  /** The i-th heading is paired with the i-th paragraph, for as many headings as there are paragraphs. */
  lemma HeadingCardsPairing(content: string)
    ensures var headings := Headings(content);
      var paragraphs := Paragraphs(content);
      var r := HeadingCards(headings, paragraphs, |headings|);
      |r| <= 5
      && |r| == (if |headings| < |paragraphs| then |headings| else |paragraphs|)
      && forall i :: 0 <= i < |r| ==> IsHeadingCard(r[i], headings[i], paragraphs[i])
  {
    var headings := Headings(content);
    forall i | 0 <= i < |headings|
      ensures Trim(headings[i]) != ""
    {
      assert IsHeadingLine(headings[i]);
    }
    HeadingCardsUpTo(headings, Paragraphs(content), |headings|);
  }

  // ---------------------------------------------------------------------
  // Stage 2: definitions

  /** "What is <term>?" for a trimmed term of 4 to 79 characters without a comma, and a trimmed definition. */
  predicate IsDefinitionCard(c: Card)
  {
    |c.front| >= 9 && c.front[..8] == "What is " && c.front[|c.front| - 1] == '?'
    && 3 < |c.front| - 9 < 80
    && ',' !in c.front[8..|c.front| - 1]
    && IsTrimmed(c.front[8..|c.front| - 1])
    && IsTrimmed(c.back)
  }

  /**
   * The card a definition match yields: both groups present, the trimmed
   * term 4 to 79 characters long without a comma, asked as "What is <term>?"
   * and answered by the trimmed definition.
   */
  predicate IsDefinitionCardOf(c: Card, m: Capture)
  {
    m.first != "" && m.second != "" && 3 < |Trim(m.first)| < 80 && ',' !in Trim(m.first)
    && c == Card(WhatIs(Trim(m.first)), Trim(m.second))
  }

  /** A match yields at most one card, exactly the one `IsDefinitionCardOf` describes. */
  lemma DefinitionCardShape(m: Capture)
    ensures |DefinitionCard(m)| <= 1
    ensures forall c :: c in DefinitionCard(m) <==> IsDefinitionCardOf(c, m)
    ensures forall c :: c in DefinitionCard(m) ==> IsDefinitionCard(c)
  {
    if m.first != "" && m.second != "" {
      var term := Trim(m.first);
      if 3 < |term| < 80 && ',' !in term {
        var front := "What is " + term + "?";
        assert front[8..|front| - 1] == term;
        assert front[..8] == "What is ";
      }
    }
  }

  /** The cards of one pattern: those of its first three matches, in both directions. */
  lemma DefinitionCardsOfShape(ms: seq<Capture>)
    ensures |DefinitionCardsOf(ms)| <= 3
    ensures forall c :: c in DefinitionCardsOf(ms) ==> IsDefinitionCard(c)
    ensures forall c :: c in DefinitionCardsOf(ms) ==>
      exists i :: 0 <= i < |ms| && i < 3 && IsDefinitionCardOf(c, ms[i])
    ensures forall c, i :: 0 <= i < |ms| && i < 3 && IsDefinitionCardOf(c, ms[i]) ==> c in DefinitionCardsOf(ms)
  {
    var chosen := Take(ms, 3);
    forall m | m in chosen
      ensures |DefinitionCard(m)| <= 1
      ensures forall c :: c in DefinitionCard(m) ==> IsDefinitionCard(c)
    {
      DefinitionCardShape(m);
    }
    FlatMapLength(chosen, DefinitionCard, 1);
    FlatMapAll(chosen, DefinitionCard, IsDefinitionCard);
    forall c | c in DefinitionCardsOf(ms)
      ensures exists i :: 0 <= i < |ms| && i < 3 && IsDefinitionCardOf(c, ms[i])
    {
      FlatMapMembership(chosen, DefinitionCard, c);
      var i :| 0 <= i < |chosen| && c in DefinitionCard(chosen[i]);
      DefinitionCardShape(chosen[i]);
      assert chosen[i] == ms[i];
    }
    forall c, i | 0 <= i < |ms| && i < 3 && IsDefinitionCardOf(c, ms[i])
      ensures c in DefinitionCardsOf(ms)
    {
      assert chosen[i] == ms[i];
      DefinitionCardShape(ms[i]);
      FlatMapMembership(chosen, DefinitionCard, c);
    }
  }

  /**
   * At most three definition cards per pattern; a card is in the result
   * exactly when it is the card of one of the first three matches of some
   * pattern.
   */
  lemma DefinitionCardsShape(patterns: seq<seq<Capture>>)
    ensures |DefinitionCards(patterns)| <= 3 * |patterns|
    ensures forall c :: c in DefinitionCards(patterns) ==> IsDefinitionCard(c)
    ensures forall c :: c in DefinitionCards(patterns) ==>
      exists p, i :: 0 <= p < |patterns| && 0 <= i < |patterns[p]| && i < 3 && IsDefinitionCardOf(c, patterns[p][i])
    ensures forall c, p, i ::
              0 <= p < |patterns| && 0 <= i < |patterns[p]| && i < 3 && IsDefinitionCardOf(c, patterns[p][i]) ==>
              c in DefinitionCards(patterns)
  {
    forall ms | ms in patterns
      ensures |DefinitionCardsOf(ms)| <= 3
      ensures forall c :: c in DefinitionCardsOf(ms) ==> IsDefinitionCard(c)
    {
      DefinitionCardsOfShape(ms);
    }
    FlatMapLength(patterns, DefinitionCardsOf, 3);
    FlatMapAll(patterns, DefinitionCardsOf, IsDefinitionCard);
    forall c | c in DefinitionCards(patterns)
      ensures exists p, i :: 0 <= p < |patterns| && 0 <= i < |patterns[p]| && i < 3 && IsDefinitionCardOf(c, patterns[p][i])
    {
      FlatMapMembership(patterns, DefinitionCardsOf, c);
      var p :| 0 <= p < |patterns| && c in DefinitionCardsOf(patterns[p]);
      DefinitionCardsOfShape(patterns[p]);
    }
    forall c, p, i | 0 <= p < |patterns| && 0 <= i < |patterns[p]| && i < 3 && IsDefinitionCardOf(c, patterns[p][i])
      ensures c in DefinitionCards(patterns)
    {
      DefinitionCardsOfShape(patterns[p]);
      FlatMapMembership(patterns, DefinitionCardsOf, c);
    }
  }

  // ---------------------------------------------------------------------
  // Stage 3: lists

  /**
   * A list card's back, split at its line feeds, gives the lines of the
   * first seven trimmed items in turn: exactly those items when none of
   * them holds a line feed itself, more lines when an item spans several
   * (the list patterns match across line feeds).
   */
  lemma ListBackLines(items: seq<string>)
    requires items != []
    ensures Split(ListBack(items), '\n') == SplitEach(Map(Take(items, 7), Trim), '\n')
    ensures (forall i :: 0 <= i < |items| ==> '\n' !in Trim(items[i])) ==>
      Split(ListBack(items), '\n') == Map(Take(items, 7), Trim)
  {
    var lines := Map(Take(items, 7), Trim);
    SplitJoinEach(lines, '\n');
    if forall i :: 0 <= i < |items| ==> '\n' !in Trim(items[i]) {
      forall i | 0 <= i < |lines|
        ensures '\n' !in lines[i]
      {
        assert Take(items, 7)[i] == items[i];
      }
      SplitJoin(lines, '\n');
    }
  }

  /** A two-line item followed by two one-line items gives four lines, not three. */
  lemma ListBackMultiLineItem()
    ensures Split(ListBack(["1. a" + "\n" + "b", "2. c", "3. d"]), '\n') == ["1. a", "b", "2. c", "3. d"]
  {
    var first, second, third := "1. a" + "\n" + "b", "2. c", "3. d";
    var items := [first, second, third];
    TrimmedItems(items);
    assert items[1..] == [second, third] && items[1..][1..] == [third];
    assert Join(items[1..], "\n") == second + "\n" + third;
    assert ListBack(items) == first + "\n" + (second + "\n" + third);
    SplitAtSep(first, second + "\n" + third, '\n');
    SplitTwoLines("1. a", "b");
    SplitTwoLines(second, third);
  }

  lemma TrimmedItems(items: seq<string>)
    requires |items| == 3 && forall i :: 0 <= i < 3 ==> IsTrimmed(items[i])
    ensures Map(Take(items, 7), Trim) == items
  {
  }

  lemma SplitTwoLines(x: string, y: string)
    requires '\n' !in x && '\n' !in y
    ensures Split(x + "\n" + y, '\n') == [x, y]
  {
    assert Join([x, y], "\n") == x + "\n" + y;
    SplitJoin([x, y], '\n');
  }

  /** A numbered-list card exactly when more than two numbered items matched, a bullet card likewise, in that order. */
  lemma ListCardsShape(fileName: string, numbered: Option<seq<string>>, bullets: Option<seq<string>>)
    ensures var r := ListCards(fileName, numbered, bullets);
      var hasNumbered := numbered.Some? && |numbered.value| > 2;
      var hasBullets := bullets.Some? && |bullets.value| > 2;
      |r| == (if hasNumbered then 1 else 0) + (if hasBullets then 1 else 0)
      && (hasNumbered ==> r[0] == Card("List the key points from " + fileName, ListBack(numbered.value)))
      && (hasBullets ==> r[|r| - 1] == Card("What are the main items discussed?", ListBack(bullets.value)))
  {
  }

  // ---------------------------------------------------------------------
  // Stage 4: keyword sentences

  /** `Explain: "<first words>..."` over a trimmed sentence of 31 to 299 characters. */
  predicate IsKeywordCard(c: Card)
  {
    StartsWith(c.front, "Explain: \"") && |c.front| >= 14 && c.front[|c.front| - 4..] == "...\""
    && 30 < |c.back| < 300 && IsTrimmed(c.back)
    && |Split(c.back, ' ')| > 5
  }

  /** The card a sentence yields: its trimmed text, 31 to 299 characters and more than five words, explained by its first eight words. */
  predicate IsKeywordCardOf(c: Card, sentence: string)
  {
    var trimmed := Trim(sentence);
    30 < |trimmed| < 300 && |Split(trimmed, ' ')| > 5
    && c == Card("Explain: \"" + Join(Take(Split(trimmed, ' '), 8), " ") + "...\"", trimmed)
  }

  /**
   * The keyword sentences are the sentences that mention a keyword among the
   * first k sentences, in order, for some k: five of them, or fewer when all
   * sentences have been read.
   */
  lemma KeywordSentencesAreFirstFive(sentences: seq<string>)
    ensures exists k ::
              0 <= k <= |sentences| && KeywordSentences(sentences) == Filter(sentences[..k], HasKeyword)
              && (|KeywordSentences(sentences)| < 5 ==> k == |sentences|)
  {
    var k := TakeFilter(sentences, HasKeyword, 5);
  }

  /** A sentence yields at most one card, exactly the one `IsKeywordCardOf` describes. */
  lemma KeywordCardShape(sentence: string)
    ensures |KeywordCard(sentence)| <= 1
    ensures forall c :: c in KeywordCard(sentence) <==> IsKeywordCardOf(c, sentence)
    ensures forall c :: c in KeywordCard(sentence) ==> IsKeywordCard(c)
  {
    var trimmed := Trim(sentence);
    if 30 < |trimmed| < 300 && |Split(trimmed, ' ')| > 5 {
      var front := "Explain: \"" + Join(Take(Split(trimmed, ' '), 8), " ") + "...\"";
      assert front[..10] == "Explain: \"";
      assert front[|front| - 4..] == "...\"";
      assert Trim(trimmed) == trimmed;
    }
  }

  /**
   * At most five keyword cards; a card is in the result exactly when it is
   * the card of one of the keyword sentences.
   */
  lemma KeywordCardsShape(sentences: seq<string>)
    ensures |KeywordCards(sentences)| <= 5
    ensures forall c :: c in KeywordCards(sentences) ==> IsKeywordCard(c)
    ensures forall c :: c in KeywordCards(sentences) ==>
      exists j :: 0 <= j < |KeywordSentences(sentences)| && IsKeywordCardOf(c, KeywordSentences(sentences)[j])
    ensures forall c, j ::
              0 <= j < |KeywordSentences(sentences)| && IsKeywordCardOf(c, KeywordSentences(sentences)[j]) ==>
              c in KeywordCards(sentences)
  {
    var chosen := KeywordSentences(sentences);
    forall s | s in chosen
      ensures |KeywordCard(s)| <= 1
      ensures forall c :: c in KeywordCard(s) ==> IsKeywordCard(c)
    {
      KeywordCardShape(s);
    }
    FlatMapLength(chosen, KeywordCard, 1);
    FlatMapAll(chosen, KeywordCard, IsKeywordCard);
    forall c | c in KeywordCards(sentences)
      ensures exists j :: 0 <= j < |chosen| && IsKeywordCardOf(c, chosen[j])
    {
      FlatMapMembership(chosen, KeywordCard, c);
      var j :| 0 <= j < |chosen| && c in KeywordCard(chosen[j]);
      KeywordCardShape(chosen[j]);
    }
    forall c, j | 0 <= j < |chosen| && IsKeywordCardOf(c, chosen[j])
      ensures c in KeywordCards(sentences)
    {
      KeywordCardShape(chosen[j]);
      FlatMapMembership(chosen, KeywordCard, c);
    }
  }

  // ---------------------------------------------------------------------
  // Stage 5: summary

  /** The summary card names the file without its extension and joins the first three sentences, cut at 400. */
  lemma SummaryCardShape(sentences: seq<string>, fileName: string)
    ensures var r := SummaryCards(sentences, fileName);
      (|r| == 1 <==> |sentences| >= 3) && |r| <= 1
      && forall c :: c in r ==>
           c.front == "What is the introduction/overview of " + StripExtension(fileName) + "?"
           && |c.back| == (if |Join(sentences[..3], " ")| < 400 then |Join(sentences[..3], " ")| else 400)
           && c.back == Join(sentences[..3], " ")[..|c.back|]
  {
  }

  // ---------------------------------------------------------------------
  // Stage 6: sections

  /** A section card: section 1, 2 or 3, and a back of 51 to 350 characters. */
  predicate IsSectionCard(c: Card)
  {
    (c.front == "What is discussed in section 1?"
     || c.front == "What is discussed in section 2?"
     || c.front == "What is discussed in section 3?")
    && 50 < |c.back| <= 350
  }

  /** The card of section `number` made from `paragraph`: asked by number, answered by the trimmed paragraph cut at 350. */
  predicate IsSectionCardOf(c: Card, paragraph: string, number: nat)
  {
    |Trim(paragraph)| > 50
    && c == Card("What is discussed in section " + NatToString(number) + "?", Prefix(Trim(paragraph), 350))
  }

  lemma {:induction false} SectionCardsUpToShape(sections: seq<string>, n: nat)
    requires n <= |sections| <= 3
    ensures |SectionCardsUpTo(sections, n)| <= n
    ensures forall c :: c in SectionCardsUpTo(sections, n) ==> IsSectionCard(c)
    ensures forall c :: c in SectionCardsUpTo(sections, n) ==> exists j :: 0 <= j < n && IsSectionCardOf(c, sections[j], j + 1)
    ensures forall c, j :: 0 <= j < n && IsSectionCardOf(c, sections[j], j + 1) ==> c in SectionCardsUpTo(sections, n)
  {
    if n > 0 {
      SectionCardsUpToShape(sections, n - 1);
      SectionCardShape(sections, n - 1);
      assert SectionCardsUpTo(sections, n) == SectionCardsUpTo(sections, n - 1) + SectionCard(sections, n - 1);
      SectionCardsUpToStep(sections, n - 1, n);
    }
  }

  /** The cards of the first n sections come from those sections, given that this holds for n - 1. */
  lemma SectionCardsUpToStep(sections: seq<string>, m: nat, n: nat)
    requires n == m + 1 <= |sections|
    requires forall c :: c in SectionCardsUpTo(sections, m) ==> exists j :: 0 <= j < m && IsSectionCardOf(c, sections[j], j + 1)
    requires forall c, j :: 0 <= j < m && IsSectionCardOf(c, sections[j], j + 1) ==> c in SectionCardsUpTo(sections, m)
    requires forall c :: c in SectionCard(sections, m) <==> IsSectionCardOf(c, sections[m], n)
    ensures forall c :: c in SectionCardsUpTo(sections, n) ==> exists j :: 0 <= j < n && IsSectionCardOf(c, sections[j], j + 1)
    ensures forall c, j :: 0 <= j < n && IsSectionCardOf(c, sections[j], j + 1) ==> c in SectionCardsUpTo(sections, n)
  {
    var prev := SectionCardsUpTo(sections, m);
    var last := SectionCard(sections, m);
    assert SectionCardsUpTo(sections, n) == prev + last;
    forall c | c in prev + last
      ensures exists j :: 0 <= j < n && IsSectionCardOf(c, sections[j], j + 1)
    {
      if c !in prev {
        assert IsSectionCardOf(c, sections[m], m + 1);
      }
    }
  }

  /** Section j + 1 has a card exactly when its trimmed paragraph is longer than 50 characters. */
  lemma SectionCardShape(sections: seq<string>, j: nat)
    requires j < |sections| && j < 3
    ensures |SectionCard(sections, j)| == if |Trim(sections[j])| > 50 then 1 else 0
    ensures forall c :: c in SectionCard(sections, j) <==> IsSectionCardOf(c, sections[j], j + 1)
    ensures forall c :: c in SectionCard(sections, j) ==> IsSectionCard(c)
  {
    assert NatToString(j + 1) == [DigitChar(j + 1)];
    if j == 0 {
      assert DigitChar(1) == '1';
    } else if j == 1 {
      assert DigitChar(2) == '2';
    } else {
      assert DigitChar(3) == '3';
    }
  }

  /**
   * No section cards unless there are three paragraphs and fewer than five
   * cards; then paragraphs 1 to 3 (counting from 0) are sections 1 to 3, and
   * each has its card exactly when it is long enough.
   */
  lemma SectionCardsShape(paragraphs: seq<string>, cardsSoFar: nat)
    ensures |SectionCards(paragraphs, cardsSoFar)| <= 3
    ensures (|paragraphs| < 3 || cardsSoFar >= 5) ==> SectionCards(paragraphs, cardsSoFar) == []
    ensures forall c :: c in SectionCards(paragraphs, cardsSoFar) ==> IsSectionCard(c)
    ensures |paragraphs| >= 3 && cardsSoFar < 5 ==>
      forall c :: c in SectionCards(paragraphs, cardsSoFar) ==>
        exists j :: 1 <= j < |paragraphs| && j <= 3 && IsSectionCardOf(c, paragraphs[j], j)
    ensures |paragraphs| >= 3 && cardsSoFar < 5 ==>
      forall c, j :: 1 <= j < |paragraphs| && j <= 3 && IsSectionCardOf(c, paragraphs[j], j) ==>
        c in SectionCards(paragraphs, cardsSoFar)
  {
    if |paragraphs| >= 3 && cardsSoFar < 5 {
      var sections := SectionParagraphs(paragraphs);
      SectionCardsUpToShape(sections, |sections|);
      forall c | c in SectionCards(paragraphs, cardsSoFar)
        ensures exists j :: 1 <= j < |paragraphs| && j <= 3 && IsSectionCardOf(c, paragraphs[j], j)
      {
        var j :| 0 <= j < |sections| && IsSectionCardOf(c, sections[j], j + 1);
        assert sections[j] == paragraphs[j + 1];
      }
      forall c, j | 1 <= j < |paragraphs| && j <= 3 && IsSectionCardOf(c, paragraphs[j], j)
        ensures c in SectionCards(paragraphs, cardsSoFar)
      {
        assert sections[j - 1] == paragraphs[j];
      }
    }
  }

  // ---------------------------------------------------------------------
  // Stage 7: question/answer pairs

  /** A trimmed question, and an answer of at most 400 characters. */
  predicate IsQaCard(c: Card)
  {
    IsTrimmed(c.front) && |c.back| <= 400
  }

  /** The card of a match with both groups: the trimmed question, the trimmed answer cut at 400. */
  predicate IsQaCardOf(c: Card, m: Capture)
  {
    m.first != "" && m.second != ""
    && c == Card(Trim(m.first), Prefix(Trim(m.second), 400))
  }

  /** Each of the first three matches with both groups gives its card, and no other card is made. */
  lemma QaCardsShape(qa: seq<Capture>)
    ensures |QaCards(qa)| <= 3
    ensures forall c :: c in QaCards(qa) ==> IsQaCard(c)
    ensures forall c :: c in QaCards(qa) ==> exists i :: 0 <= i < |qa| && i < 3 && IsQaCardOf(c, qa[i])
    ensures forall c, i :: 0 <= i < |qa| && i < 3 && IsQaCardOf(c, qa[i]) ==> c in QaCards(qa)
  {
    var chosen := Take(qa, 3);
    forall m | m in chosen
      ensures |QaCard(m)| <= 1
      ensures forall c :: c in QaCard(m) ==> IsQaCard(c)
    {
    }
    FlatMapLength(chosen, QaCard, 1);
    FlatMapAll(chosen, QaCard, IsQaCard);
    forall c | c in QaCards(qa)
      ensures exists i :: 0 <= i < |qa| && i < 3 && IsQaCardOf(c, qa[i])
    {
      FlatMapMembership(chosen, QaCard, c);
    }
    forall c, i | 0 <= i < |qa| && i < 3 && IsQaCardOf(c, qa[i])
      ensures c in QaCards(qa)
    {
      FlatMapMembership(chosen, QaCard, c);
      assert chosen[i] == qa[i];
    }
  }

  // ---------------------------------------------------------------------
  // Deduplication

  lemma {:induction false} KeysMembership(cards: seq<Card>, k: string)
    ensures k in Keys(cards) <==> exists i :: 0 <= i < |cards| && Key(cards[i]) == k
  {
    if cards != [] {
      var init := cards[..|cards| - 1];
      KeysMembership(init, k);
      if exists i :: 0 <= i < |init| && Key(init[i]) == k {
        var i :| 0 <= i < |init| && Key(init[i]) == k;
        assert cards[i] == init[i];
      }
      if exists i :: 0 <= i < |cards| && Key(cards[i]) == k {
        var i :| 0 <= i < |cards| && Key(cards[i]) == k;
        if i < |init| {
          assert init[i] == cards[i];
        }
      }
    }
  }

  /** The kept cards all have a back longer than ten characters, and no two share a key. */
  lemma {:induction false} DedupUniqueKeys(cards: seq<Card>)
    ensures var r := Dedup(cards);
      |r| <= |cards|
      && (forall i :: 0 <= i < |r| ==> HasLongBack(r[i]))
      && (forall i, j :: 0 <= i < j < |r| ==> Key(r[i]) != Key(r[j]))
  {
    if cards != [] {
      var kept := Dedup(cards[..|cards| - 1]);
      DedupUniqueKeys(cards[..|cards| - 1]);
      var c := cards[|cards| - 1];
      if Key(c) !in Keys(kept) && HasLongBack(c) {
        KeysMembership(kept, Key(c));
        var r := kept + [c];
        forall i, j | 0 <= i < j < |r|
          ensures Key(r[i]) != Key(r[j])
        {
          if j == |kept| {
            assert r[i] == kept[i];
          }
        }
      }
    }
  }

  /** A key is kept exactly when some card with a long back has it. */
  lemma {:induction false} DedupKeys(cards: seq<Card>, k: string)
    ensures k in Keys(Dedup(cards)) <==> exists j :: 0 <= j < |cards| && HasLongBack(cards[j]) && Key(cards[j]) == k
  {
    if cards != [] {
      var init := cards[..|cards| - 1];
      var c := cards[|cards| - 1];
      var kept := Dedup(init);
      DedupKeys(init, k);
      if Key(c) !in Keys(kept) && HasLongBack(c) {
        assert (kept + [c])[..|kept|] == kept;
        assert Keys(kept + [c]) == Keys(kept) + {Key(c)};
      }
      if exists j :: 0 <= j < |init| && HasLongBack(init[j]) && Key(init[j]) == k {
        var j :| 0 <= j < |init| && HasLongBack(init[j]) && Key(init[j]) == k;
        assert cards[j] == init[j];
      }
      if exists j :: 0 <= j < |cards| && HasLongBack(cards[j]) && Key(cards[j]) == k {
        var j :| 0 <= j < |cards| && HasLongBack(cards[j]) && Key(cards[j]) == k;
        if j < |init| {
          assert init[j] == cards[j];
        } else {
          DedupKeys(init, Key(c));
        }
      }
    }
  }

  /** cards[j] has a long back and no earlier card with a long back has its key. */
  predicate IsFirstOccurrence(cards: seq<Card>, j: nat)
    requires j < |cards|
  {
    HasLongBack(cards[j])
    && forall i :: 0 <= i < j ==> !(HasLongBack(cards[i]) && Key(cards[i]) == Key(cards[j]))
  }

  /** The first n cards that are first occurrences, in order: what deduplication is meant to keep. */
  function FirstOccurrences(cards: seq<Card>, n: nat): seq<Card>
    requires n <= |cards|
  {
    if n == 0 then []
    else FirstOccurrences(cards, n - 1) + (if IsFirstOccurrence(cards, n - 1) then [cards[n - 1]] else [])
  }

  lemma {:induction false} DedupPrefix(cards: seq<Card>, n: nat)
    requires n <= |cards|
    ensures Dedup(cards[..n]) == FirstOccurrences(cards, n)
  {
    if n > 0 {
      DedupPrefix(cards, n - 1);
      var init := cards[..n - 1];
      assert cards[..n][..n - 1] == init;
      var c := cards[n - 1];
      var kept := Dedup(init);
      forall k
        ensures k in Keys(kept) <==> exists i :: 0 <= i < n - 1 && HasLongBack(cards[i]) && Key(cards[i]) == k
      {
        DedupKeys(init, k);
        if exists i :: 0 <= i < n - 1 && HasLongBack(cards[i]) && Key(cards[i]) == k {
          var i :| 0 <= i < n - 1 && HasLongBack(cards[i]) && Key(cards[i]) == k;
          assert init[i] == cards[i];
        }
      }
      assert IsFirstOccurrence(cards, n - 1) <==> Key(c) !in Keys(kept) && HasLongBack(c);
    }
  }

  /** Deduplication keeps exactly the first card of each key among those with a back longer than ten. */
  lemma DedupIsFirstOccurrences(cards: seq<Card>)
    ensures Dedup(cards) == FirstOccurrences(cards, |cards|)
  {
    DedupPrefix(cards, |cards|);
    assert cards[..|cards|] == cards;
  }

  // ---------------------------------------------------------------------
  // Backfill

  /** The chunk cards from chunk i on, all of them. */
  function ChunkCards(normalized: string, i: nat): seq<Card>
    decreases 5 - i
  {
    if i < 5 then ChunkCard(normalized, i) + ChunkCards(normalized, i + 1) else []
  }

  /**
   * Part i of the five equal parts of the normalised text: characters
   * i * (n / 5) up to (i + 1) * (n / 5); the last n % 5 characters belong to
   * no part.
   */
  function Part(normalized: string, i: nat): (r: string)
    requires i < 5
    ensures |r| == |normalized| / 5
  {
    var chunkSize := |normalized| / 5;
    ChunkBounds(i, chunkSize, |normalized|);
    normalized[i * chunkSize..(i + 1) * chunkSize]
  }

  /** The card for part i: the question naming the part, the trimmed part cut at 300 characters. */
  predicate IsChunkCardOf(c: Card, part: string, i: nat)
    requires i < 5
  {
    c == Card("What is covered in part " + [DigitChar(i + 1)] + " of the document?", Prefix(Trim(part), 300))
  }

  /**
   * Part i yields one card exactly when its trimmed text is longer than 50
   * characters, and that card is the one `IsChunkCardOf` describes; its
   * front has the part's digit at position 24.
   */
  lemma ChunkCardShape(normalized: string, i: nat)
    requires i < 5
    ensures |ChunkCard(normalized, i)| == if |Trim(Part(normalized, i))| > 50 then 1 else 0
    ensures forall c :: c in ChunkCard(normalized, i) <==>
      |Trim(Part(normalized, i))| > 50 && IsChunkCardOf(c, Part(normalized, i), i)
    ensures forall c :: c in ChunkCard(normalized, i) ==>
      50 < |c.back| <= 300 && |c.front| == 42 && c.front[24] == DigitChar(i + 1)
  {
    var chunkSize := |normalized| / 5;
    ChunkBounds(i, chunkSize, |normalized|);
    assert Substring(normalized, i * chunkSize, (i + 1) * chunkSize) == Part(normalized, i);
    var front := ChunkFront(i);
    assert NatToString(i + 1) == [DigitChar(i + 1)];
    assert front == "What is covered in part " + [DigitChar(i + 1)] + " of the document?";
    assert |front| == 42 && front[24] == DigitChar(i + 1);
  }

  /** A chunk card's back length and the digit that numbers its part, which is at least i + 1. */
  predicate IsChunkCardFrom(c: Card, i: nat)
  {
    50 < |c.back| <= 300 && |c.front| == 42 && '0' <= c.front[24] <= '9' && c.front[24] as int >= 49 + i
  }

  /** Numbered chunk cards in increasing part order. */
  predicate OrderedChunkCards(r: seq<Card>, i: nat)
  {
    (forall j :: 0 <= j < |r| ==> IsChunkCardFrom(r[j], i))
    && (forall j, k :: 0 <= j < k < |r| ==> r[j].front[24] < r[k].front[24])
  }

  /** Putting part i's card, if any, before the ordered cards of the later parts keeps them ordered. */
  lemma ChunkCardsCons(head: seq<Card>, rest: seq<Card>, i: nat)
    requires |head| <= 1
    requires forall c :: c in head ==> IsChunkCardFrom(c, i) && c.front[24] as int == 49 + i
    requires OrderedChunkCards(rest, i + 1)
    ensures OrderedChunkCards(head + rest, i)
  {
    var r := head + rest;
    if head != [] {
      assert head[0] in head;
    }
    forall j | 0 <= j < |r|
      ensures IsChunkCardFrom(r[j], i)
    {
      if j < |head| {
        assert r[j] == head[j];
      } else {
        assert r[j] == rest[j - |head|];
      }
    }
    forall j, k | 0 <= j < k < |r|
      ensures r[j].front[24] < r[k].front[24]
    {
      if j < |head| {
        assert r[j] == head[0];
        assert r[k] == rest[k - 1];
      } else {
        assert r[j] == rest[j - |head|];
        assert r[k] == rest[k - |head|];
      }
    }
  }

  /** Chunk cards carry backs of 51 to 300 characters and fronts numbered in increasing part order. */
  lemma {:induction false} ChunkCardsOrdered(normalized: string, i: nat)
    requires i <= 5
    ensures |ChunkCards(normalized, i)| <= 5 - i
    ensures OrderedChunkCards(ChunkCards(normalized, i), i)
    decreases 5 - i
  {
    if i < 5 {
      ChunkCardShape(normalized, i);
      ChunkCardsOrdered(normalized, i + 1);
      ChunkCardsCons(ChunkCard(normalized, i), ChunkCards(normalized, i + 1), i);
    }
  }

  /** A chunk card's key is its whole lower-cased front, whose part digit is kept. */
  lemma ChunkKeyDigit(c: Card)
    requires |c.front| == 42 && '0' <= c.front[24] <= '9'
    ensures Key(c)[24] == c.front[24]
  {
    ToLowerAt(c.front, 24);
  }

  /** No two chunk cards share a key. */
  lemma ChunkKeysDistinct(normalized: string)
    ensures var r := ChunkCards(normalized, 0);
      |r| <= 5 && forall j, k :: 0 <= j < k < |r| ==> Key(r[j]) != Key(r[k])
  {
    var r := ChunkCards(normalized, 0);
    ChunkCardsOrdered(normalized, 0);
    assert OrderedChunkCards(r, 0);
    forall j, k | 0 <= j < k < |r|
      ensures Key(r[j]) != Key(r[k])
    {
      assert IsChunkCardFrom(r[j], 0) && IsChunkCardFrom(r[k], 0);
      ChunkKeyDigit(r[j]);
      ChunkKeyDigit(r[k]);
    }
  }

  /** One iteration of the backfill loop, on sequences: appending part i's card keeps the closed form. */
  lemma BackfillStep(cards: seq<Card>, head: seq<Card>, rest: seq<Card>, after: seq<Card>)
    requires |head| <= 1 && |cards| < 5
    requires after == (cards + head) + Take(rest, 5 - |cards + head|)
    ensures after == cards + Take(head + rest, 5 - |cards|)
  {
    TakeAppend(head, rest, 5 - |cards|);
  }

  lemma {:induction false} BackfillFromClosedForm(cards: seq<Card>, normalized: string, i: nat)
    requires |cards| <= 5 && i <= 5
    ensures BackfillFrom(cards, normalized, i) == cards + Take(ChunkCards(normalized, i), 5 - |cards|)
    decreases 5 - i
  {
    if i < 5 && |cards| < 5 {
      var head := ChunkCard(normalized, i);
      var rest := ChunkCards(normalized, i + 1);
      ChunkCardShape(normalized, i);
      BackfillFromClosedForm(cards + head, normalized, i + 1);
      assert BackfillFrom(cards, normalized, i) == BackfillFrom(cards + head, normalized, i + 1);
      assert ChunkCards(normalized, i) == head + rest;
      BackfillStep(cards, head, rest, BackfillFrom(cards, normalized, i));
    } else if i == 5 {
      assert ChunkCards(normalized, i) == [];
    }
  }

  /**
   * When fewer than three cards survive deduplication, the chunk cards are
   * appended in part order until there are five cards or the parts run out.
   */
  lemma BackfillClosedForm(cards: seq<Card>, normalized: string)
    requires |cards| < 3
    ensures Backfill(cards, normalized) == cards + Take(ChunkCards(normalized, 0), 5 - |cards|)
    ensures |Backfill(cards, normalized)| <= 5
  {
    BackfillFromClosedForm(cards, normalized, 0);
  }

  /** A text shorter than 255 characters has chunks of at most 50 characters, so no chunk yields a card. */
  lemma ShortTextHasNoChunkCards(normalized: string, i: nat)
    requires |normalized| < 255 && i <= 5
    ensures ChunkCards(normalized, i) == []
    decreases 5 - i
  {
    if i < 5 {
      var chunkSize := |normalized| / 5;
      ChunkBounds(i, chunkSize, |normalized|);
      var sub := Substring(normalized, i * chunkSize, (i + 1) * chunkSize);
      assert |sub| == chunkSize <= 50;
      ShortTextHasNoChunkCards(normalized, i + 1);
    }
  }

  /** Chunk i of five lies within the text. */
  lemma ChunkBounds(i: nat, chunkSize: nat, length: nat)
    requires i < 5 && chunkSize == length / 5
    ensures 0 <= i * chunkSize <= (i + 1) * chunkSize <= length
  {
    assert (i + 1) * chunkSize <= 5 * chunkSize by {
      MulLeft(i + 1, 5, chunkSize);
    }
  }

  lemma MulLeft(a: nat, b: nat, c: nat)
    requires a <= b
    ensures a * c <= b * c
  {
  }

  /**
   * The chunk backfill does not consult the keys already kept, so a
   * surviving card whose front is a chunk question is repeated: here the
   * first two cards share the key "what is covered in part 1 of the document?".
   */
  lemma BackfillCanRepeatKey()
    ensures var cards := [Card(ChunkFront(0), "an earlier answer")];
      var normalized := seq(300, _ => 'a');
      var r := Backfill(cards, normalized);
      |r| >= 2 && Key(r[0]) == Key(r[1])
  {
    var cards := [Card(ChunkFront(0), "an earlier answer")];
    var normalized := seq(300, _ => 'a');
    FirstChunkOfLetters(normalized);
    assert ChunkCards(normalized, 0) == ChunkCard(normalized, 0) + ChunkCards(normalized, 1);
    BackfillClosedForm(cards, normalized);
  }

  /** The first of five chunks of 300 letters gives a card asking about part 1. */
  lemma FirstChunkOfLetters(normalized: string)
    requires normalized == seq(300, _ => 'a')
    ensures |ChunkCard(normalized, 0)| == 1 && ChunkCard(normalized, 0)[0].front == ChunkFront(0)
  {
    var chunk := Substring(normalized, 0, 60);
    assert chunk == normalized[0..60];
    assert !IsSpace(chunk[0]) && !IsSpace(chunk[59]);
    assert Trim(chunk) == chunk;
  }

  // ---------------------------------------------------------------------
  // The whole extractor

  /** Normalised text has no white space at either end, and inside only single blanks. */
  lemma NormalizeShape(content: string)
    ensures IsTrimmed(Normalize(content))
    ensures SingleBlanks(Normalize(content))
  {
    var collapsed := Collapse(content);
    TrimIsSlice(collapsed);
    var i, j :| 0 <= i <= j <= |collapsed| && Trim(collapsed) == collapsed[i..j];
    SingleBlanksSlice(collapsed, i, j);
  }

  /**
   * Normalised text is the words of the document joined by single blanks:
   * it keeps every non-space character, in order, and adds none.
   */
  lemma NormalizeWords(content: string)
    ensures Normalize(content) == Join(Words(content), " ")
    ensures NonSpace(Normalize(content)) == NonSpace(content)
  {
    TrimCollapse(content);
    JoinNonSpace(Words(content));
    WordsCoverText(content);
  }

  /** A document whose normalised text is shorter than 50 characters gets exactly the one overview card. */
  lemma ShortContent(content: string, fileName: string, m: PatternMatches)
    requires |Normalize(content)| < 50
    ensures Extract(content, fileName, m) == [ShortContentCard(Normalize(content), fileName)]
    ensures Extract(content, fileName, m)[0].front == "What is this document about?"
    ensures Normalize(content) == "" ==> Extract(content, fileName, m)[0].back == "This is the file: " + fileName
  {
  }

  /** Cards that all have a back longer than ten characters and pairwise different keys. */
  predicate WellDeduplicated(cards: seq<Card>)
  {
    (forall i :: 0 <= i < |cards| ==> HasLongBack(cards[i]))
    && (forall i, j :: 0 <= i < j < |cards| ==> Key(cards[i]) != Key(cards[j]))
  }

  /** The chunk cards appended by the backfill all have backs longer than ten characters. */
  lemma BackfillLongBacks(d: seq<Card>, added: seq<Card>)
    requires forall i :: 0 <= i < |d| ==> HasLongBack(d[i])
    requires forall j :: 0 <= j < |added| ==> 50 < |added[j].back|
    ensures forall i :: 0 <= i < |d + added| ==> HasLongBack((d + added)[i])
  {
    var r := d + added;
    forall i | 0 <= i < |r|
      ensures HasLongBack(r[i])
    {
      if i < |d| {
        assert r[i] == d[i];
      } else {
        assert r[i] == added[i - |d|];
      }
    }
  }

  /** `r` is `d` followed by the first chunk cards, up to five cards in all. */
  predicate IsBackfilled(r: seq<Card>, d: seq<Card>, normalized: string)
    requires |d| <= 5
  {
    r == d + Take(ChunkCards(normalized, 0), 5 - |d|)
  }

  /**
   * The returned cards `r` for deduplicated cards `d`: at most fifteen, each
   * with a back of more than ten characters; the first fifteen of `d`, no
   * two sharing a key, when `d` has three or more; otherwise `d` followed by
   * chunk cards, up to five cards in all.
   */
  predicate IsFinal(r: seq<Card>, d: seq<Card>, normalized: string)
  {
    |r| <= MaxCards
    && (forall i :: 0 <= i < |r| ==> HasLongBack(r[i]))
    && (|d| >= 3 ==> r == Take(d, MaxCards) && WellDeduplicated(r))
    && (|d| < 3 ==> |r| <= 5 && IsBackfilled(r, d, normalized))
  }

  /** Every document gets at most fifteen cards, each with a non-empty back; a short one gets exactly one. */
  lemma ExtractBounds(content: string, fileName: string, m: PatternMatches)
    ensures |Extract(content, fileName, m)| <= MaxCards
    ensures |Normalize(content)| < 50 ==> |Extract(content, fileName, m)| == 1
    ensures forall i :: 0 <= i < |Extract(content, fileName, m)| ==> Extract(content, fileName, m)[i].back != ""
  {
    if |Normalize(content)| >= 50 {
      LongContent(content, fileName, m);
    }
  }

  /** What the last two steps, backfill and the cut at fifteen, make of the deduplicated cards. */
  lemma FinalCards(d: seq<Card>, normalized: string)
    requires WellDeduplicated(d)
    ensures IsFinal(Take(Backfill(d, normalized), MaxCards), d, normalized)
  {
    if |d| < 3 {
      BackfillClosedForm(d, normalized);
      ChunkCardsOrdered(normalized, 0);
      var chunks := ChunkCards(normalized, 0);
      var added := Take(chunks, 5 - |d|);
      assert OrderedChunkCards(chunks, 0);
      forall j | 0 <= j < |added|
        ensures 50 < |added[j].back|
      {
        assert added[j] == chunks[j];
        assert IsChunkCardFrom(chunks[j], 0);
      }
      BackfillLongBacks(d, added);
    } else {
      var r := Take(d, MaxCards);
      assert forall i :: 0 <= i < |r| ==> r[i] == d[i];
    }
  }

  /**
   * The cards for a longer document: at most fifteen, each with a back of
   * more than ten characters. When deduplication keeps three or more, they
   * are its first fifteen and no two share a key; otherwise the chunk cards
   * follow them, up to five cards in all.
   */
  lemma LongContent(content: string, fileName: string, m: PatternMatches)
    requires |Normalize(content)| >= 50
    ensures Extract(content, fileName, m) == LongContentCards(content, fileName, m)
    ensures IsFinal(LongContentCards(content, fileName, m), Dedup(Candidates(content, fileName, m)), Normalize(content))
  {
    FinalOfCandidates(Candidates(content, fileName, m), Normalize(content));
  }

  /** Deduplication, backfill and the cut at fifteen, from any candidate list. */
  lemma FinalOfCandidates(candidates: seq<Card>, normalized: string)
    ensures IsFinal(Take(Backfill(Dedup(candidates), normalized), MaxCards), Dedup(candidates), normalized)
  {
    DedupUniqueKeys(candidates);
    FinalCards(Dedup(candidates), normalized);
  }

  /**
   * The extractor can return no card at all: a normalised text of 50 to 254
   * characters from which every candidate is dropped has chunks too short
   * to backfill from.
   */
  lemma NoCardsWhenNothingSurvives(content: string, fileName: string, m: PatternMatches)
    requires 50 <= |Normalize(content)| < 255
    requires Dedup(Candidates(content, fileName, m)) == []
    ensures Extract(content, fileName, m) == []
  {
    NothingToBackfill(Normalize(content));
  }

  /** With no card kept and fewer than 255 characters, backfill and cut leave nothing. */
  lemma NothingToBackfill(normalized: string)
    requires |normalized| < 255
    ensures Take(Backfill([], normalized), MaxCards) == []
  {
    BackfillClosedForm([], normalized);
    ShortTextHasNoChunkCards(normalized, 0);
  }
}
