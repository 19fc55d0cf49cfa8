/**
 * `generateFlashcardsFromContent` as the server runs it: one `flashcards`
 * list that each stage pushes onto in turn, a `forEach` with a `seenFronts`
 * set for deduplication, and a bounded `for` loop for the chunk backfill.
 * Each loop is proved to compute the matching function of `Extractor`, so
 * everything proved there holds of what this method returns.
 */
module Generator {
  import opened Seqs
  import opened Text
  import opened Extractor

  /** `items.forEach(x => flashcards.push(...f(x)))`. */
  method PushEach<A>(flashcards: seq<Card>, items: seq<A>, f: A -> seq<Card>) returns (out: seq<Card>)
    ensures out == flashcards + FlatMap(items, f)
  {
    out := flashcards;
    var i := 0;
    while i < |items|
      invariant 0 <= i <= |items|
      invariant out == flashcards + FlatMap(items[..i], f)
    {
      FlatMapSnoc(items, f, i);
      out := out + f(items[i]);
      i := i + 1;
    }
    assert items[..i] == items;
  }

  /** Stage 1, onto the empty list: the i-th heading with the i-th paragraph. */
  method AddHeadingCards(headings: seq<string>, paragraphs: seq<string>) returns (flashcards: seq<Card>)
    ensures flashcards == HeadingCards(headings, paragraphs, |headings|)
  {
    flashcards := [];
    var index := 0;
    while index < |headings|
      invariant 0 <= index <= |headings|
      invariant flashcards == HeadingCards(headings, paragraphs, index)
    {
      HeadingStep(headings, paragraphs, index);
      var headingText := Trim(headings[index]);
      if headingText != "" && index < |paragraphs| {
        flashcards := flashcards + [Card(WhatIs(ToLower(headingText)), Trim(Prefix(paragraphs[index], 300)))];
      }
      index := index + 1;
    }
  }

  /** One turn of the headings loop: the next heading adds its card, if it has one. */
  lemma HeadingStep(headings: seq<string>, paragraphs: seq<string>, index: nat)
    requires index < |headings|
    ensures var headingText := Trim(headings[index]);
      HeadingCards(headings, paragraphs, index + 1) == HeadingCards(headings, paragraphs, index) +
        if headingText != "" && index < |paragraphs| then [Card(WhatIs(ToLower(headingText)), Trim(Prefix(paragraphs[index], 300)))] else []
  {
  }

  /** Stage 2: each definition pattern in turn, its first three matches. */
  method AddDefinitionCards(flashcards: seq<Card>, patterns: seq<seq<Capture>>) returns (out: seq<Card>)
    ensures out == flashcards + DefinitionCards(patterns)
  {
    out := flashcards;
    var p := 0;
    while p < |patterns|
      invariant 0 <= p <= |patterns|
      invariant out == flashcards + FlatMap(patterns[..p], DefinitionCardsOf)
    {
      DefinitionStep(flashcards, patterns, p, out);
      out := PushEach(out, Take(patterns[p], 3), DefinitionCard);
      p := p + 1;
    }
    assert patterns[..p] == patterns;
  }

  /** One turn of the definitions loop: the next pattern's cards extend the prefix. */
  lemma DefinitionStep(flashcards: seq<Card>, patterns: seq<seq<Capture>>, p: nat, out: seq<Card>)
    requires p < |patterns|
    requires out == flashcards + FlatMap(patterns[..p], DefinitionCardsOf)
    ensures out + FlatMap(Take(patterns[p], 3), DefinitionCard) == flashcards + FlatMap(patterns[..p + 1], DefinitionCardsOf)
  {
    FlatMapSnoc(patterns, DefinitionCardsOf, p);
  }

  /** Stage 6: up to three section paragraphs, numbered from 1. */
  method AddSectionCards(flashcards: seq<Card>, paragraphs: seq<string>) returns (out: seq<Card>)
    ensures out == flashcards + SectionCards(paragraphs, |flashcards|)
  {
    out := flashcards;
    if |paragraphs| >= 3 && |flashcards| < 5 {
      var sections := SectionParagraphs(paragraphs);
      var index := 0;
      while index < |sections|
        invariant 0 <= index <= |sections|
        invariant out == flashcards + SectionCardsUpTo(sections, index)
      {
        var para := Trim(sections[index]);
        if |para| > 50 {
          out := out + [Card("What is discussed in section " + NatToString(index + 1) + "?", Prefix(para, 350))];
        }
        index := index + 1;
      }
    }
  }

  /** The `seenFronts` pass: the first card of each key whose back is longer than ten characters. */
  method Deduplicate(flashcards: seq<Card>) returns (unique: seq<Card>)
    ensures unique == Dedup(flashcards)
  {
    unique := [];
    var seenFronts: set<string> := {};
    var k := 0;
    while k < |flashcards|
      invariant 0 <= k <= |flashcards|
      invariant unique == Dedup(flashcards[..k])
      invariant seenFronts == Keys(unique)
    {
      var card := flashcards[k];
      var normalizedFront := Prefix(ToLower(card.front), KeyLength);
      assert flashcards[..k + 1][..k] == flashcards[..k];
      if normalizedFront !in seenFronts && |card.back| > MinBackLength {
        assert (unique + [card])[..|unique|] == unique;
        seenFronts := seenFronts + {normalizedFront};
        unique := unique + [card];
      }
      k := k + 1;
    }
    assert flashcards[..k] == flashcards;
  }

  /** The chunk backfill: while fewer than five cards, one card per chunk of more than fifty characters. */
  method AddChunkCards(cards: seq<Card>, normalized: string) returns (out: seq<Card>)
    ensures out == Backfill(cards, normalized)
  {
    out := cards;
    if |out| < 3 {
      var chunkSize := |normalized| / 5;
      var i := 0;
      while i < 5 && |out| < 5
        invariant 0 <= i <= 5
        invariant BackfillFrom(out, normalized, i) == BackfillFrom(cards, normalized, 0)
        decreases 5 - i
      {
        var chunk := Trim(Substring(normalized, i * chunkSize, (i + 1) * chunkSize));
        ghost var before := out;
        if |chunk| > 50 {
          out := out + [Card(ChunkFront(i), Prefix(chunk, 300))];
        }
        assert out == before + ChunkCard(normalized, i);
        i := i + 1;
      }
    }
  }

  /** Stages 1 to 5, from an empty list. */
  method CardsBeforeSectionsOf(headings: seq<string>, paragraphs: seq<string>, sentences: seq<string>,
                               fileName: string, m: PatternMatches) returns (flashcards: seq<Card>)
    ensures flashcards == HeadingCards(headings, paragraphs, |headings|) + DefinitionCards(m.definitions)
      + ListCards(fileName, m.numbered, m.bullets) + KeywordCards(sentences) + SummaryCards(sentences, fileName)
  {
    flashcards := AddHeadingCards(headings, paragraphs);
    flashcards := AddDefinitionCards(flashcards, m.definitions);
    ghost var afterDefinitions := flashcards;
    if m.numbered.Some? && |m.numbered.value| > 2 {
      flashcards := flashcards + [Card("List the key points from " + fileName, ListBack(m.numbered.value))];
    }
    if m.bullets.Some? && |m.bullets.value| > 2 {
      flashcards := flashcards + [Card("What are the main items discussed?", ListBack(m.bullets.value))];
    }
    assert flashcards == afterDefinitions + ListCards(fileName, m.numbered, m.bullets);
    flashcards := PushEach(flashcards, KeywordSentences(sentences), KeywordCard);
    ghost var afterKeywords := flashcards;
    if |sentences| >= 3 {
      flashcards := flashcards + [Card("What is the introduction/overview of " + StripExtension(fileName) + "?",
                                       Prefix(Join(sentences[..3], " "), 400))];
    }
    assert flashcards == afterKeywords + SummaryCards(sentences, fileName);
  }

  /** Stages 6 and 7, after the first five. */
  method CandidatesOf(before: seq<Card>, paragraphs: seq<string>, qa: seq<Capture>) returns (flashcards: seq<Card>)
    ensures flashcards == before + SectionCards(paragraphs, |before|) + QaCards(qa)
  {
    flashcards := AddSectionCards(before, paragraphs);
    flashcards := PushEach(flashcards, Take(qa, 3), QaCard);
  }

  /** `generateFlashcardsFromContent(content, fileName)`, stage by stage. */
  method GenerateFlashcardsFromContent(content: string, fileName: string, m: PatternMatches) returns (finalCards: seq<Card>)
    ensures finalCards == Extract(content, fileName, m)
  {
    var normalizedContent := Normalize(content);
    if |normalizedContent| < 50 {
      return [ShortContentCard(normalizedContent, fileName)];
    }
    var paragraphs := Paragraphs(content);
    var sentences := Sentences(normalizedContent);
    var headings := Headings(content);

    var flashcards := CardsBeforeSectionsOf(headings, paragraphs, sentences, fileName, m);
    assert flashcards == CardsBeforeSections(content, fileName, m);
    flashcards := CandidatesOf(flashcards, paragraphs, m.qa);
    assert flashcards == Candidates(content, fileName, m);

    var uniqueFlashcards := Deduplicate(flashcards);
    uniqueFlashcards := AddChunkCards(uniqueFlashcards, normalizedContent);
    finalCards := Take(uniqueFlashcards, MaxCards);
  }
}
