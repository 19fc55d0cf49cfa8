# Flashmind: a verified model of flashcard extraction, spaced repetition and the community board

Flashmind turns uploaded study documents into flashcards. It schedules their
reviews with a variant of the SuperMemo SM-2 algorithm and lets users share
decks on a community board. This project models that behaviour in Dafny and
proves properties of the model. It covers three parts.

- **The extractor** (`generateFlashcardsFromContent` in the edge function) builds cards from plain text and a file name:
  - a short-text guard;
  - heading/paragraph pairs;
  - definition matches;
  - numbered and bullet lists;
  - keyword sentences;
  - a summary card;
  - section cards;
  - explicit Q/A pairs.

  It then keeps the first card for each lower-cased 50-character front, backfills from five chunks of the text when fewer than three cards survive, and cuts the list at fifteen.
  - `Extractor` defines each stage as a function.
  - `Generator` is the imperative code itself: the `flashcards` list pushed stage by stage, the `seenFronts` loop and the bounded backfill loop. Each loop is proved to compute the matching `Extractor` function.
  - `ExtractorProperties` proves what the stages and the whole extractor guarantee.
- **Scheduling on the server** (`Scheduler`, with the SM-2 arithmetic shared in `Sm2`):
  - the review update of a stored card: ease factor with a 1.3 floor, new interval, review count;
  - the daily streak on the user record;
  - the due-card filter;
  - the mastery buckets.
- **The client components**:
  - `StudyMode`: the study screen's own SM-2 variant, and the session state driven by `handleAnswer` and `finishSession`.
  - `Community`: the search and category filter, tag parsing, the board statistics, and the share and download handlers.

Representation choices:
- **Ease factors** are integers in hundredths (2.5 is 250). For an integer quality the SM-2 change is then exact: +10, 0, −14, −32, −54, −80 for qualities 5 down to 0.
- **Rounding.** `Math.round(i × ef)` becomes `(i × efH + 50) / 100` with floor division.
- **Times** are integer milliseconds. The user's study days are integer day numbers.
- **JavaScript's `x || d`** on a numeric field is written out (`Scheduler.OrDefault`): a missing or zero value reads as `d`.
- **React components** are classes whose fields are the component's state variables:
  - each handler is a method proved against a function on the whole state;
  - the community filter effect is the class invariant `Board.Valid`.
- **Regular expressions.** The three stages driven by regular expressions with lazy quantifiers and look-aheads are definitions, lists and Q/A. What those expressions matched is an input (`Extractor.PatternMatches`). Everything the code does with the matches is modelled.
- **Exact models.** These are modelled exactly:
  - the sentence regex `/[^.!?]+[.!?]+/g`;
  - the blank-line split `/\n\n+/`;
  - the `\s+` collapse, `trim`, `split`, `join` and `substring`;
  - the extension strip `/\.[^/.]+$/`.

## Behaviour worth knowing

- **The extractor can return no card.** A normalised text of 50 to 254 characters from which every candidate is dropped has chunks of at most 50 characters, so nothing is backfilled and the result is empty (`ExtractorProperties.NoCardsWhenNothingSurvives`).
- **The backfill fills up to five cards**, although it only starts when fewer than three cards survive. It ignores the fronts already kept, so the final list can repeat a normalised front (`ExtractorProperties.BackfillCanRepeatKey`).
- **A list item can span several lines.** The list patterns carry the `s` flag, so an item runs on across line feeds until the next numbered (or bulleted) line, a blank line or the end. Such an item puts several lines on the card's back (`ExtractorProperties.ListBackMultiLineItem`).
- **Keyword sentences need 31 to 299 characters**, strictly between 30 and 300, and more than five space-separated words.
- **Quality is not validated.** The server checks only that `quality` is present. The update formula is applied to whatever integer arrives, and the model takes any integer quality, without a precondition.
- **A quality-4 answer leaves the ease factor unchanged.** The change is 0.1 − 1 × (0.08 + 0.02) = 0 (`Sm2.EaseDelta`).
- **The study screen's intervals are 1, 6, 16.** These come from three perfect answers from the defaults. The third interval is `round(6 × 2.7)`, using the ease factor from before the third update (`StudyMode.ThreePerfectAnswers`).
- **The server's intervals are 6, 16, 45.** Starting from interval 1, it branches on the old interval instead of the repetition count (`Scheduler.ThreePerfectReviews`).

## Model

| member | source | states |
|---|---|---|
| Text.Trim | src/supabase/functions/server/index.tsx:1258 | `trim` leaves neither end white space, never lengthens, and leaves an already trimmed string unchanged; what it removes is stated by `Text.TrimIsSlice` |
| Text.TrimIsSlice | src/supabase/functions/server/index.tsx:1288 | `trim` returns one contiguous piece of its input, and every character before and after that piece is white space |
| Text.Collapse | src/supabase/functions/server/index.tsx:1258 | `replace(/\s+/g, ' ')` never lengthens; the only white space left is single blanks, each followed by a non-space; the first character is kept, or becomes a blank when it is white space |
| Text.Words | src/supabase/functions/server/index.tsx:1258 | the words of a text are non-empty and hold no white space |
| Text.WordsCoverText | src/supabase/functions/server/index.tsx:1258 | the words hold every non-space character of the text, in order, and nothing else: they are its maximal non-space runs |
| Text.CollapseWords | src/supabase/functions/server/index.tsx:1258 | `replace(/\s+/g, ' ')` is one blank for leading white space, the words joined by single blanks, and one blank for white space after the last word |
| Text.TrimCollapse | src/supabase/functions/server/index.tsx:1258 | trimming the collapsed text leaves exactly the words joined by single blanks |
| Text.ToLowerAt | src/supabase/functions/server/index.tsx:1415 | `toLowerCase` maps each character on its own and keeps the length |
| Text.Substring | src/supabase/functions/server/index.tsx:1429 | `substring` clamps both bounds to the string and returns the slice between in-range bounds |
| Text.ContainsAt | src/components/Community.tsx:211-216 | `includes` holds exactly when a copy of the needle starts at some position |
| Text.SplitJoin | src/components/Community.tsx:299 | splitting on a one-character separator undoes joining with it when no piece holds the separator |
| Text.SplitAtSep | src/supabase/functions/server/index.tsx:1331 | splitting text that holds a separator splits the parts on either side of it separately |
| Text.SplitJoinEach | src/supabase/functions/server/index.tsx:1331 | splitting pieces joined by the separator gives the split of each piece in turn, for any pieces |
| Text.NatToString | src/supabase/functions/server/index.tsx:1390 | `String(n)` is a non-empty run of decimal digits, the single digit for n < 10 |
| Extractor.SplitBlankLines | src/supabase/functions/server/index.tsx:1273 | `split(/\n\n+/)` gives at least one piece, no piece holds two line feeds in a row, and the first piece starts with the text's first character unless the text opens with a blank line |
| Extractor.Paragraphs | src/supabase/functions/server/index.tsx:1273 | every paragraph kept has a trimmed length above 20 |
| ExtractorProperties.ParagraphsExactly | src/supabase/functions/server/index.tsx:1273 | a piece is a paragraph exactly when its trimmed length is above 20; the paragraphs keep the pieces' order and hold no blank line |
| Extractor.Headings | src/supabase/functions/server/index.tsx:1280-1282 | at most five heading lines, each of trimmed length strictly between 5 and 100 and without '.' |
| ExtractorProperties.HeadingsAreFirstFive | src/supabase/functions/server/index.tsx:1280-1282 | the headings are exactly the heading lines of the first k lines, in order, for some k; there are fewer than five only when k covers every line |
| Extractor.StripExtension | src/supabase/functions/server/index.tsx:1380 | the result is a prefix of the file name; what is removed is a final '.' and at least one character holding neither '.' nor '/'; and whenever the name has such an extension, exactly that extension is removed |
| Extractor.SectionParagraphs | src/supabase/functions/server/index.tsx:1387 | `slice(1, 4)` yields at most three paragraphs |
| Extractor.RunEnd | src/supabase/functions/server/index.tsx:1274 | a run of terminators (or of other characters) ends at the first character of the other kind or at the end of the text, and is non-empty when its first character is of its kind |
| ExtractorProperties.FirstSentence | src/supabase/functions/server/index.tsx:1274 | each regex match is the non-terminator run followed by the terminator run after it |
| ExtractorProperties.SentencesShape | src/supabase/functions/server/index.tsx:1274 | `Extractor.Sentences`: every sentence is one or more non-terminators followed by one or more of '.', '!', '?', copied from the normalised text |
| ExtractorProperties.HeadingCardsUpTo | src/supabase/functions/server/index.tsx:1287-1295 | `Extractor.HeadingCards`: heading j yields a card exactly when j is below the paragraph count: "What is <lower-cased heading>?" with paragraph j cut to 300 and trimmed |
| ExtractorProperties.HeadingCardsPairing | src/supabase/functions/server/index.tsx:1280-1295 | there are min(headings, paragraphs) ≤ 5 heading cards, the i-th pairing heading i with paragraph i |
| ExtractorProperties.DefinitionCardShape | src/supabase/functions/server/index.tsx:1308-1318 | a match yields at most one card, and a card is its card exactly when both groups are present, the trimmed term has 4 to 79 characters and no comma, and the card is "What is <term>?" with the trimmed definition |
| ExtractorProperties.DefinitionCardsOfShape | src/supabase/functions/server/index.tsx:1306-1320 | `Extractor.DefinitionCardsOf`: a card comes from one pattern exactly when it is the card of one of that pattern's first three matches |
| ExtractorProperties.DefinitionCardsShape | src/supabase/functions/server/index.tsx:1305-1321 | `Extractor.DefinitionCards`: at most three cards per pattern; a card is in the result exactly when it is the card of one of the first three matches of some pattern |
| ExtractorProperties.ListBackLines | src/supabase/functions/server/index.tsx:1324-1331 | splitting a list card's back at line feeds gives the lines of the first seven trimmed items one after the other; these are exactly the trimmed items when no item holds a line feed, and an item spanning several lines (the list patterns match across line feeds) gives several |
| ExtractorProperties.ListBackMultiLineItem | src/supabase/functions/server/index.tsx:1324-1331 | an example: the items "1. a⏎b", "2. c", "3. d" give a back that splits into four lines, not three |
| ExtractorProperties.ListCardsShape | src/supabase/functions/server/index.tsx:1327-1341 | `Extractor.ListCards`: a numbered card exactly when more than two numbered items matched, a bullet card likewise, numbered first |
| ExtractorProperties.KeywordCardsShape | src/supabase/functions/server/index.tsx:1361-1375 | `Extractor.KeywordCards`: at most five cards; a card is in the result exactly when it is the card of one of the keyword sentences |
| Extractor.KeywordSentences | src/supabase/functions/server/index.tsx:1353-1361 | at most five sentences, each mentioning a keyword in lower case |
| ExtractorProperties.KeywordSentencesAreFirstFive | src/supabase/functions/server/index.tsx:1353-1361 | the keyword sentences are those among the first k sentences, in order: five of them, or fewer only when every sentence was read |
| ExtractorProperties.KeywordCardShape | src/supabase/functions/server/index.tsx:1362-1374 | a sentence yields at most one card, and a card is its card exactly when the trimmed sentence has 31 to 299 characters and more than five words, and the card explains its first eight words with the trimmed sentence as answer |
| ExtractorProperties.SummaryCardShape | src/supabase/functions/server/index.tsx:1378-1383 | `Extractor.SummaryCards`: a summary card exactly when there are three sentences; it names the file without extension, and its back is the first min(400, n) characters of the first three sentences joined by blanks, n being the joined length |
| ExtractorProperties.SectionCardShape | src/supabase/functions/server/index.tsx:1387-1394 | section j + 1 has one card exactly when its trimmed paragraph is longer than 50 characters: "What is discussed in section j + 1?" with the trimmed paragraph cut at 350 |
| ExtractorProperties.SectionCardsUpToShape | src/supabase/functions/server/index.tsx:1387-1394 | the cards of the first n sections are exactly the cards of those sections that have one; at most n, numbered 1 to 3, backs of 51 to 350 characters |
| ExtractorProperties.SectionCardsShape | src/supabase/functions/server/index.tsx:1386-1395 | `Extractor.SectionCards`: no section cards with fewer than three paragraphs or five cards so far; otherwise paragraph j, for j from 1 to 3, gives the card of section j exactly when it is long enough |
| ExtractorProperties.QaCardsShape | src/supabase/functions/server/index.tsx:1401-1408 | `Extractor.QaCards`: each of the first three matches with both groups gives the card (trimmed question, trimmed answer cut at 400), and there is no other card; at most three |
| ExtractorProperties.KeysMembership | src/supabase/functions/server/index.tsx:1412-1418 | the `seenFronts` set holds exactly the normalised fronts of the kept cards |
| ExtractorProperties.DedupUniqueKeys | src/supabase/functions/server/index.tsx:1411-1420 | kept cards all have backs longer than ten characters and pairwise distinct normalised fronts |
| ExtractorProperties.DedupKeys | src/supabase/functions/server/index.tsx:1411-1420 | a normalised front is kept exactly when some candidate with a long back has it |
| ExtractorProperties.DedupPrefix | src/supabase/functions/server/index.tsx:1414-1420 | after n candidates the kept list is exactly the first occurrences among them, in order |
| ExtractorProperties.DedupIsFirstOccurrences | src/supabase/functions/server/index.tsx:1411-1420 | `Extractor.Dedup`: deduplication keeps exactly the first long-backed card of each normalised front, in emission order |
| ExtractorProperties.ChunkCardShape | src/supabase/functions/server/index.tsx:1429-1435 | part i yields one card exactly when its trimmed text is longer than 50 characters; the card is "What is covered in part i+1 of the document?" with the trimmed part cut at 300 characters |
| ExtractorProperties.Part | src/supabase/functions/server/index.tsx:1427-1430 | the five parts of the normalised text have `floor(n / 5)` characters each |
| ExtractorProperties.ChunkCardsCons | src/supabase/functions/server/index.tsx:1428-1436 | putting part i's card before the ordered cards of later parts keeps them in part order |
| ExtractorProperties.ChunkCardsOrdered | src/supabase/functions/server/index.tsx:1428-1436 | the chunk cards from part i on number at most 5 − i, in increasing part order |
| ExtractorProperties.ChunkKeyDigit | src/supabase/functions/server/index.tsx:1415 | a chunk card's normalised front keeps its part digit |
| ExtractorProperties.ChunkKeysDistinct | src/supabase/functions/server/index.tsx:1428-1436 | no two chunk cards share a normalised front |
| ExtractorProperties.BackfillStep | src/supabase/functions/server/index.tsx:1428-1436 | one loop iteration keeps the closed form "cards, then the first chunk cards up to five in all" |
| ExtractorProperties.BackfillFromClosedForm | src/supabase/functions/server/index.tsx:1428-1436 | from part i on, the loop appends the first of the remaining chunk cards until there are five |
| ExtractorProperties.BackfillClosedForm | src/supabase/functions/server/index.tsx:1425-1437 | `Extractor.Backfill`: with fewer than three cards, the chunk cards are appended in part order up to five cards in all |
| ExtractorProperties.ShortTextHasNoChunkCards | src/supabase/functions/server/index.tsx:1427-1430 | a text shorter than 255 characters yields no chunk card |
| ExtractorProperties.BackfillCanRepeatKey | src/supabase/functions/server/index.tsx:1425-1437 | an example, not a rule: a kept card asking about part 1, over a text of 300 letters, is followed by the part-1 chunk card, so the result repeats a normalised front |
| ExtractorProperties.BackfillLongBacks | src/supabase/functions/server/index.tsx:1430-1434 | appending chunk cards keeps every back longer than ten characters |
| ExtractorProperties.NormalizeShape | src/supabase/functions/server/index.tsx:1258 | `Extractor.Normalize`: normalised text has no white space at either end, and inside only single blanks |
| ExtractorProperties.NormalizeWords | src/supabase/functions/server/index.tsx:1258 | `Extractor.Normalize` is the words of the document joined by single blanks, and keeps every non-space character in order |
| ExtractorProperties.ShortContent | src/supabase/functions/server/index.tsx:1258-1269 | below 50 normalised characters the result is exactly one "What is this document about?" card, backed by the text or "This is the file: <name>" |
| ExtractorProperties.FinalCards | src/supabase/functions/server/index.tsx:1425-1440 | the final list has at most fifteen long-backed cards: the first fifteen unique cards when three or more survived, else them plus backfill up to five |
| ExtractorProperties.LongContent | src/supabase/functions/server/index.tsx:1271-1449 | for 50 normalised characters or more: at most 15 cards, all backs longer than 10, a prefix of the deduplicated list with distinct fronts when it has 3 or more cards, else that list plus chunk cards |
| ExtractorProperties.ExtractBounds | src/supabase/functions/server/index.tsx:1250-1450 | `Extractor.Extract`: at most fifteen cards, each with a non-empty back; exactly one card below 50 normalised characters |
| ExtractorProperties.NoCardsWhenNothingSurvives | src/supabase/functions/server/index.tsx:1425-1449 | a 50 to 254 character text whose candidates all drop out yields no card |
| Generator.PushEach | src/supabase/functions/server/index.tsx:1361-1375 | a `forEach` that pushes each element's cards leaves the list followed by all those cards in order |
| Generator.AddHeadingCards | src/supabase/functions/server/index.tsx:1287-1295 | the heading loop pushes exactly the heading cards |
| Generator.AddDefinitionCards | src/supabase/functions/server/index.tsx:1305-1321 | the nested definition loops push exactly the definition cards |
| Generator.AddSectionCards | src/supabase/functions/server/index.tsx:1386-1395 | the section loop pushes exactly the section cards, given the count so far |
| Generator.Deduplicate | src/supabase/functions/server/index.tsx:1411-1420 | the `seenFronts` loop computes the first-occurrence deduplication |
| Generator.AddChunkCards | src/supabase/functions/server/index.tsx:1425-1437 | the bounded `for` loop computes the backfill |
| Generator.CardsBeforeSectionsOf | src/supabase/functions/server/index.tsx:1287-1383 | stages one to five push their cards in order |
| Generator.CandidatesOf | src/supabase/functions/server/index.tsx:1386-1408 | stages six and seven push their cards after the first five |
| Generator.GenerateFlashcardsFromContent | src/supabase/functions/server/index.tsx:1250-1450 | the imperative extractor returns exactly `Extractor.Extract`, so every property above holds of it |
| Sm2.EaseDelta | src/supabase/functions/server/index.tsx:630 | the ease change for qualities 5 to 0 is +0.10, 0, −0.14, −0.32, −0.54, −0.80 |
| Sm2.EaseDeltaMonotone | src/supabase/functions/server/index.tsx:630 | a better answer never changes the ease factor less favourably than a worse one |
| Sm2.EaseDeltaSign | src/supabase/functions/server/index.tsx:630 | qualities below 4 lower the ease factor, 4 keeps it, 5 raises it |
| Sm2.FlooredEase | src/supabase/functions/server/index.tsx:630-631 | the new ease factor is the old one plus the change, or 1.3 when that falls below 1.3 |
| Sm2.RoundHundredths | src/supabase/functions/server/index.tsx:640 | `Math.round(x/100)` is the integer within a half of x/100, halves rounding up |
| Sm2.ScaleInterval | src/supabase/functions/server/index.tsx:640 | `Math.round(interval × ef)` is within a half of the exact product |
| Sm2.ScaleIntervalGrows | src/supabase/functions/server/index.tsx:640 | scaling an interval of two days or more by an ease of at least 1.3 adds at least a day |
| Sm2.ScaleIntervalPositive | src/components/StudyMode.tsx:236 | scaling by an ease factor of at least 1.3 never shortens a positive interval |
| Scheduler.NextEaseFactor | src/supabase/functions/server/index.tsx:627-631 | a missing ease reads as 2.5; the result is old plus change when that is at least 1.3 and exactly 1.3 otherwise, pass or fail |
| Scheduler.NextInterval | src/supabase/functions/server/index.tsx:628-643 | a failed answer gives 1; a pass after an interval of 1 (or none) gives 6; otherwise the rounded product with the new ease |
| Scheduler.NextIntervalGrows | src/supabase/functions/server/index.tsx:633-643 | every new interval is at least a day; a pass strictly lengthens any interval of two days or more |
| Scheduler.CardRecord.constructor | src/supabase/functions/server/index.tsx:433-444 | a new card is due now with interval 1, ease 2.5 and no reviews |
| Scheduler.CardRecord.RecordReview | src/supabase/functions/server/index.tsx:626-651 | the card gets the new ease and interval, is due the interval in days after now, has one more review and was last reviewed now; validity is kept |
| Scheduler.ThreePerfectReviews | src/supabase/functions/server/index.tsx:626-643 | three perfect answers on a new card give intervals 6, 16, 45 and ease 2.6, 2.7, 2.8 |
| Scheduler.StudyOn | src/supabase/functions/server/index.tsx:670-688 | same day: streak kept, one more card today; the day after the last: streak + 1 and 1 card today; otherwise streak 1 and 1 card today; the last day becomes today |
| Scheduler.UserRecord.constructor | src/supabase/functions/server/index.tsx:168-174 | a new user has streak 0, no cards today and no study day |
| Scheduler.UserRecord.RecordStudyDay | src/supabase/functions/server/index.tsx:668-690 | the in-place update of the user record is `StudyOn` of the old stats |
| Scheduler.NoOccurrencesAfter | src/supabase/functions/server/index.tsx:670-688 | a day later than every earlier study day has not been counted yet |
| Scheduler.StreakCountsConsecutiveDays | src/supabase/functions/server/index.tsx:668-690 | over any non-decreasing sequence of study days, the streak is the number of days in the last stretch with no day missed, and today's count is the number of reviews on the last day |
| Scheduler.LastRunLength | src/supabase/functions/server/index.tsx:679-684 | every non-empty study history has a last stretch without a missed day |
| Scheduler.DueCards | src/supabase/functions/server/index.tsx:590-595 | the due cards are present cards of the list whose next review is not after now |
| Scheduler.DueCardsMembership | src/supabase/functions/server/index.tsx:590-595 | a card is due exactly when it is in the list and its next review is not after now |
| Scheduler.MasteryPartition | src/supabase/functions/server/index.tsx:899-903 | beginner (≤ 2 reviews), intermediate (3 to 5) and advanced (> 5) counts add up to the number of cards |
| Scheduler.MasteryLevels | src/supabase/functions/server/index.tsx:899-903 | the three counts partition the cards; each of the three buckets is non-zero when a card falls in it |
| Scheduler.BucketsNonEmpty | src/supabase/functions/server/index.tsx:900-902 | a card with at most two reviews makes beginner non-zero, one with three to five intermediate, one with more than five advanced |
| StudyMode.CalculateNextReview | src/components/StudyMode.tsx:224-258 | fail: repetitions 0 and interval 1; pass: repetitions + 1 and interval 1, 6 or the rounded product with the old ease; ease is old plus change, or exactly 1.3 when that falls below 1.3; due the interval in days after now; other fields kept |
| StudyMode.ThreePerfectAnswers | src/components/StudyMode.tsx:229-249 | three perfect answers from the defaults give intervals 1, 6, 16 and ease 2.8 |
| StudyMode.FailureResets | src/components/StudyMode.tsx:239-243 | a failed answer gives the same schedule whatever the card's repetitions and interval were |
| StudyMode.ReviewKeepsSchedule | src/components/StudyMode.tsx:224-258 | an answer keeps ease ≥ 1.3 and interval ≥ 1; once a card has two repetitions a pass never shortens its interval |
| StudyMode.Reschedule | src/components/StudyMode.tsx:270-272 | only cards with the answered card's id are replaced; all others are unchanged |
| StudyMode.DueCards | src/components/StudyMode.tsx:143 | every due card's review time has come |
| StudyMode.DueCardsExactly | src/components/StudyMode.tsx:310 | a card is due exactly when it is in the deck and its review time has come; the due list keeps deck order |
| StudyMode.ReviewStarted | src/components/StudyMode.tsx:151-167 | with no due card nothing changes; otherwise a spaced session over the due cards starts at card 0 with no correct answers |
| StudyMode.FinishedFrom | src/components/StudyMode.tsx:296-316 | `finishSession` as a closure: the results and a spaced session's due list come from the state the handler was created with, and are written over the current state, whose deck, session and index are kept |
| StudyMode.Finished | src/components/StudyMode.tsx:296-316 | results report the session's correct answers, total and cards; a spaced session's due list is redrawn from the deck |
| StudyMode.Answered | src/components/StudyMode.tsx:264-280 | the reschedule and the counter update keep the session index in range |
| StudyMode.AnswerAsWritten | src/components/StudyMode.tsx:260-316 | handling an answer as written keeps the session index in range |
| StudyMode.Answer | src/components/StudyMode.tsx:260-294 | correct answers rise by 1 exactly when quality ≥ 3; only a spaced session reschedules, and only the current card; the index advances before the last card; on the last card the session finishes with the updated count |
| StudyMode.AnswerAll | src/components/StudyMode.tsx:260-294 | answering card after card keeps the session index in range |
| StudyMode.AnswerAllAsWritten | src/components/StudyMode.tsx:260-316 | answering card after card as written keeps the session index in range |
| StudyMode.SessionCountsEveryAnswer | src/components/StudyMode.tsx:260-316 | answering every remaining card ends the session with a count of every correct answer and a due list drawn from the rescheduled deck |
| StudyMode.SessionAsWrittenMissesLastAnswer | src/components/StudyMode.tsx:283-305 | as written, the reported count misses exactly the last answer when it was correct |
| StudyMode.StaleFinishCounterexample | src/components/StudyMode.tsx:292-311 | a one-card spaced session answered 5 reports 0 correct and keeps the card due as written; 1 correct and nothing due when finished on the updated state |
| StudyMode.StudyScreen.constructor | src/components/StudyMode.tsx:140-144 | the screen mounts with the deck and the due list drawn from it |
| StudyMode.StudyScreen.StartReviewSession | src/components/StudyMode.tsx:151-167 | the in-place update is `ReviewStarted` of the old state |
| StudyMode.StudyScreen.FinishSession | src/components/StudyMode.tsx:296-316 | the in-place update is `Finished` of the old state, keeping `Valid` |
| StudyMode.StudyScreen.HandleAnswer | src/components/StudyMode.tsx:260-294 | the in-place update is `Answer` of the old state, keeping the index in range |
| StudyMode.StudyScreen.HandleAnswerAsWritten | src/components/StudyMode.tsx:260-316 | the in-place update is `AnswerAsWritten` of the old state: on the last card the results and due list come from the state before the answer |
| Community.MatchesQueryAt | src/components/Community.tsx:210-217 | a deck matches the search exactly when the lower-cased query occurs in its lower-cased title, description, a tag or author; the empty query matches every deck |
| Community.FilterDecks | src/components/Community.tsx:207-224 | the filtered list is no longer than the deck list |
| Community.FilterDecksIsFilter | src/components/Community.tsx:208-221 | the two chained filters equal one filter by "matches the query (when given) and is in the category (unless all)" |
| Community.FilterDecksExactly | src/components/Community.tsx:207-224 | a deck is listed exactly when it is on the board, matches the lower-cased query in title, description, a tag or author (when the query is non-empty), and has the chosen category (unless all); the listing is a subsequence of the board |
| Community.ParseTags | src/components/Community.tsx:299 | no parsed tag is empty |
| Community.ParseTagsShape | src/components/Community.tsx:299 | every parsed tag is trimmed and holds no comma |
| Community.ParseJoinedTags | src/components/Community.tsx:299 | non-empty, trimmed, comma-free tags written with commas parse back to themselves |
| Community.UniqueCategories | src/components/Community.tsx:203 | the number of distinct categories is at most the number of decks and at least one when there is a deck |
| Community.CategoriesBound | src/components/Community.tsx:203 | there are no more categories than decks |
| Community.SharedDeck | src/components/Community.tsx:289-302 | the shared deck is by 'You' with rating, ratings, cards and downloads 0, the form's fields and the parsed tags |
| Community.FindDeck | src/components/Community.tsx:227 | `find` returns the first deck of the board with the id, or none when no deck has it |
| Community.CountDownload | src/components/Community.tsx:275-277 | decks with the id gain one download; all others are unchanged |
| Community.DownloadAddsToTotal | src/components/Community.tsx:275-277 | a download raises total downloads by the number of decks with that id |
| Community.DownloadKeepsCategories | src/components/Community.tsx:275-277 | a download changes no category |
| Community.ShareStats | src/components/Community.tsx:304 | sharing adds no downloads and at most one category, none when the category exists |
| Community.TotalDownloadsAppend | src/components/Community.tsx:202 | the download total of two lists joined is the sum of their totals |
| Community.PrependTotal | src/components/Community.tsx:202 | prepending a deck adds its downloads to the total |
| Community.Board.constructor | src/components/Community.tsx:188-191 | the board mounts with the sample decks, unfiltered, no query, all categories |
| Community.Board.SetSearchQuery | src/components/Community.tsx:207-224 | changing the query re-runs the filter effect; nothing else changes |
| Community.Board.SetCategory | src/components/Community.tsx:207-224 | changing the category re-runs the filter effect; nothing else changes |
| Community.Board.ShareDeck | src/components/Community.tsx:283-308 | shared exactly when title, description and category are filled: the new deck goes first, previous decks follow in order, and the form and dialog reset; otherwise nothing changes; the filter invariant is kept |
| Community.Board.Download | src/components/Community.tsx:226-281 | the matching deck counts one more download and nothing else changes; an unknown id changes nothing; the filter invariant is kept |

## Findings

| source | as written | input that shows it | evidently intended | confidence | as-written member | corrected member |
|---|---|---|---|---|---|---|
| src/components/StudyMode.tsx:260-316 | on the last card `handleAnswer` calls `finishSession`, which reads the `studySession` and `flashcards` of the render the handler belongs to, so the results and the new due list are taken from before the answer just given | a spaced session of one due card answered with quality 5: results report 0 correct of 1, and the card, just rescheduled a day ahead, stays in the due list | the results count every answer of the session and the due list is drawn from the rescheduled deck | not executed | StudyMode.SessionAsWrittenMissesLastAnswer | StudyMode.SessionCountsEveryAnswer |

The as-written code is `StudyMode.AnswerAsWritten`, and `StudyMode.StaleFinishCounterexample` shows the concrete input above. The corrected handler is `StudyMode.Answer`, which the class method `StudyMode.StudyScreen.HandleAnswer` implements.

## Left out

- HTTP routing, authentication, ownership checks and the key-value store calls around the modelled blocks are not part of this model. Neither are the request validation of `/study/record` or the session records it writes. When the user record is missing, the server skips the streak update; the model always has a record to update.
- `processFileContent` (storage download, PDF parsing) is not part of this model. Neither are the file cache with its timer, nor the upload retry loop. All are I/O and timers.
- The regular expressions for definitions, numbered and bullet lists, and Q/A pairs are not interpreted. Their matches are an input (`Extractor.PatternMatches`), because their lazy quantifiers, look-aheads and dotall flag are outside the model.
- `toLowerCase` maps only the ASCII letters. Lengths count characters, not UTF-16 code units.
- Text.Prefix: only the length of the result is stated.
- Extractor.Sentences carries no contract of its own. Its shape is stated by `ExtractorProperties.SentencesShape`, which does not state that no match is missed.
- Scheduler.CardRecord.RecordReview: the next review is now plus the interval in days of 86 400 000 ms each. The server's calendar `setDate`, which differs across daylight-saving changes, is not modelled. The ISO date strings and invalid dates are left out too.
- Scheduler.UserRecord.RecordStudyDay: days are integer day numbers. `toDateString` and the local time zone are not modelled.
- Ease factors are exact hundredths; the source computes them in binary floating point and stores the unrounded float. After several answers the stored ease drifts from the exact hundredth. For example, a new server card answered 2, 1, 3, 4, 4 has an ease of 2.5 − 0.32 − 0.54 − 0.14, which in double arithmetic is 1.4999999999999998, not 1.5. Its fifth interval is `Math.round(9 × 1.4999999999999998)` = 13 in the source but 14 in the model, which rounds the exact half up. On the study screen, answers 2, 1, 3, 4, 4, 3 show the same 13 against 14.
- Sm2.ScaleInterval: the rounding of `interval × ef` can differ from the source by one day when the exact product lands on a half, because the source's ease has drifted below the exact hundredth.
- Scheduler.NextInterval: the same one-day difference on half-way products as `Sm2.ScaleInterval`.
- StudyMode.CalculateNextReview: the same one-day difference on half-way products as `Sm2.ScaleInterval`.
- Study screen state left out:
  - the start time and the minutes spent;
  - the category list;
  - the category and study-all sessions, which shuffle with `Math.random`;
  - the sample cards;
  - the toast messages.
- StudyMode.AnswerAll: every answer of a session uses the same `now`.
- The community board's `avgRating` (a float mean), the JSON export built on download, and the star rendering are left out. So are the sample decks' contents.
- Community.CountDownload: `downloads` is unbounded, without the float limits of JavaScript numbers.
