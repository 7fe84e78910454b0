# Campus location chatbot: matcher and dialogue handlers

This project models the core of the in-campus localization chatbot's
`ActionProvider` and proves properties of the model. It has two parts.

The **fuzzy location matcher** is `findBestMatch(query, targetList,
threshold = 0.45)` with its helper `getScore`. It works in four stages.

1. It normalises the query: lower-case, `trim`, and delete every character
   outside `[a-z0-9\s]`. Then it splits the query into whitespace tokens.
   A query with no tokens matches nothing.
2. A one-token query goes first through a fast path. That path returns the
   FIRST target, in list order, whose similarity to the token is at least
   0.6. The similarity is `1 - d / max(len)`, where `d` is the Levenshtein
   distance from a dynamic-programming table. Both the token and the
   target's letters and digits must be at least three characters long.
3. Otherwise, or when no target is close enough, every target gets a score.
   The score is the token overlap (`getScore`) between the query tokens and
   the target's tokens. The target's tokens are its words, with the
   generic words " block", " court", " cell", " lab" and " gate" deleted,
   plus the whole name joined by `_`. A bonus of 0.15 is added when the
   sanitised query contains the target with its whitespace removed. The
   earliest target with the strictly greatest score is kept.
4. The kept target is accepted when its score reaches `threshold`, or
   failing that when it exceeds 0.3.

The **dialogue handlers** answer in three steps: query → block → floor →
room. The campus directory (block → floor → rooms) and the phrase →
direction dictionary are ordered association lists, in key insertion
order. Every JavaScript `find` over them is a first-hit search.

- `handleQuery` matches the query against the phrase keys followed by the
  block keys.
  - With no match it sends an apology.
  - For a block it sends the direction and then a floor prompt carrying
    that block.
  - For any other location it sends the direction alone.
- `handleFloorSelect` resolves a block by a case-insensitive prefix and a
  floor by case-insensitive equality. On success it sends the context line
  and the room prompt carrying that floor's rooms.
- `handleRoomSelect` takes the last space-separated field as the room id.
  It resolves a block by prefix, a floor by case-insensitive containment,
  and a room by exact id. It always sends exactly one message.
- `updateChatbotState` appends one message to the transcript.

A key that `find` returns is tested for truthiness (`if (!blockKey)`), so a
found key that is the empty string counts as not found. The model keeps
that: an empty block key gives "Invalid block selected.", and an empty
floor key gives the matching no-floor message.

Each handler only appends to the transcript, which is the `messages`
field of the `ActionProvider` class.

Files:

- `optional.dfy`: `Option` and the first-hit search `FindIndex`.
- `text.dfy`: ASCII case mapping, the JavaScript `\s` class, `trim`,
  class deletion, tokens, `includes`, generic-word deletion and
  `split(' ').pop()`.
- `levenshtein.dfy`: the recursive edit distance and the in-place table
  fill proved equal to it.
- `matcher.dfy`: scoring, the matcher as a function (`BestMatch`) and as
  the source's loops (`FindBestMatch`), and their properties.
- `dialogue.dfy`: the directory, the messages, the reply functions, the
  `ActionProvider` class and the round-trip properties of the widget
  buttons.
- `matcher_scenarios.dfy` and `scenarios.dfy`: worked cases on concrete
  strings and on a small directory with the same quirks as the shipped
  one.

Points of the code worth knowing, which the model follows:

- The code deletes ` block`, ` court`, ` cell`, ` lab` and ` gate` as
  plain substrings anywhere in the target, also inside a longer word, not
  only as trailing words: "main gateway" becomes "mainway"
  (`MatcherScenarios.GenericWordInsideAWord`).
- A failed floor selection is answered `No specific rooms found for the
  <floor>. Please try another floor or block.`. The text "No rooms found
  for this floor." is used only for room selection.
- Room selection does not send the room's stored direction alone. It
  wraps it in `To reach **<name>** in <floor>, … Directions: …`.
- The 0.45 threshold and the band above 0.3 return the same target. So
  with any threshold above 0.3, the default included, only the 0.3 band
  decides (`Matcher.PrimaryThresholdRedundant`).

## Model

| member | source | states |
|---|---|---|
| Optional.FindIndex | src/chatbot/ActionProvider.js:518-520 | JavaScript `find` over keys in order. The result is the first accepted position: every earlier element is rejected. It is none exactly when every element is rejected. |
| Text.Trim | src/chatbot/ActionProvider.js:13 | `trim` returns a contiguous slice of its input. Everything before and after the slice is whitespace. Neither end of the result is whitespace. Every non-whitespace character of the input is kept. |
| Text.IsSpace | src/chatbot/ActionProvider.js:14 | The JavaScript `\s` class holds space, tab, line feed and carriage return, and no ASCII letter or digit. |
| Text.Lower | src/chatbot/ActionProvider.js:13 | `toLowerCase` keeps the length, leaves no ASCII capital, maps each capital to its small letter (raising its code point by 32), and leaves every other character unchanged. |
| Text.Upper | src/chatbot/ActionProvider.js:481 | `toUpperCase` keeps the length, leaves no ASCII small letter, maps each small letter to its capital (lowering its code point by 32), and leaves every other character unchanged. |
| Text.ReplaceSpaces | src/chatbot/ActionProvider.js:65 | `replace(/\s/g, ch)` turns each whitespace character into `ch`, keeps every other character, and leaves no whitespace when `ch` is not whitespace. |
| Text.Filter | src/chatbot/ActionProvider.js:13 | Deleting the characters outside a class never lengthens the string. The result holds only characters the class accepts, and every such character of the input. |
| Text.FilterSingleton | src/chatbot/ActionProvider.js:13 | A single character is kept exactly when the class accepts it. With `FilterAppend` this fixes the result of class deletion for every input. |
| Text.FilterAppend | src/chatbot/ActionProvider.js:62 | Character-class deletion distributes over concatenation. |
| Text.Tokens | src/chatbot/ActionProvider.js:14 | `split(/\s+/)` with empty strings removed gives non-empty tokens with no whitespace in them. |
| Text.TokensSplitAtSpace | src/chatbot/ActionProvider.js:14 | Splitting at a whitespace character gives the tokens of the part before it followed by the tokens of the part after it. |
| Text.WordLengthIs | src/chatbot/ActionProvider.js:14 | The leading word is exactly the run of non-whitespace characters that ends at the first whitespace or at the end. |
| Text.TokensEmptyIff | src/chatbot/ActionProvider.js:14-16 | A string has no tokens exactly when it is all whitespace. |
| Text.TokensOfWord | src/chatbot/ActionProvider.js:63 | A non-empty word without whitespace is its own single token. |
| Text.Contains | src/chatbot/ActionProvider.js:67 | `includes` is true exactly when the pattern occurs at some position. |
| Text.ContainsBetween | src/chatbot/ActionProvider.js:67 | A string placed between two others is contained in the whole. |
| Text.GenericPrefixLength | src/chatbot/ActionProvider.js:61 | The alternative of ` block| court| cell| lab| gate` that matches at the start, tried in order. The matched text is one of the five words, and no word matches when the result is 0. |
| Text.RemoveGeneric | src/chatbot/ActionProvider.js:61 | Global generic-word deletion never lengthens the string and introduces no character. A string in which no generic word occurs is left unchanged. |
| Text.RemoveGenericKeepsWord | src/chatbot/ActionProvider.js:61 | A leading word without spaces survives the generic-word deletion unchanged. |
| Text.LastField | src/chatbot/ActionProvider.js:564 | `split(' ').pop()` is the suffix after the last space, or the whole string when it has none. It contains no space. |
| Text.LastFieldAfterSpace | src/chatbot/ActionProvider.js:564 | The id is recovered from the room-button payload `<floor> <id>` whenever the id has no space, whatever the floor name. |
| Text.TrimNoEdgeSpace | src/chatbot/ActionProvider.js:13 | `trim` leaves a string alone when neither end is whitespace. |
| Levenshtein.Min3 | src/chatbot/ActionProvider.js:37-41 | `Math.min` of three: at most each argument and equal to one of them. |
| Levenshtein.LevStep | src/chatbot/ActionProvider.js:36-41 | The distance of two prefixes is the minimum of deletion, insertion and substitution, the cost being 0 for equal last characters. |
| Levenshtein.RowIsLev | src/chatbot/ActionProvider.js:34-43 | A row built by the recurrence from the distances of the shorter prefix holds the distances of the next prefix. |
| Levenshtein.FilledRowIsLev | src/chatbot/ActionProvider.js:34-43 | A row filled in place by the recurrence, below a row holding the distances of the shorter prefix, holds the distances of the next prefix. |
| Levenshtein.FillRow | src/chatbot/ActionProvider.js:35-42 | Filling row `i` in place makes every cell of the row obey the recurrence and changes no other cell of the table. |
| Levenshtein.EditDistance | src/chatbot/ActionProvider.js:30-44 | The table fill with its borders returns the edit distance of the two strings. |
| Levenshtein.LevAtMostMax | src/chatbot/ActionProvider.js:45 | The distance is at most the longer length, so the similarity is never negative. |
| Levenshtein.LevAtLeastLengthGap | src/chatbot/ActionProvider.js:45 | The distance is at least the difference of the lengths. |
| Levenshtein.LevZeroIff | src/chatbot/ActionProvider.js:45 | The distance is 0 exactly for equal strings, so the similarity is 1 exactly then. |
| Levenshtein.LevSymmetric | src/chatbot/ActionProvider.js:37-41 | Deletion and insertion cost the same, so the distance does not depend on the order of the strings. |
| Levenshtein.LevDropLast | src/chatbot/ActionProvider.js:38 | Dropping the last character costs at most one edit. |
| Levenshtein.LevReplaceLast | src/chatbot/ActionProvider.js:40 | Replacing the last character costs at most one edit. |
| Levenshtein.LevAppendSame | src/chatbot/ActionProvider.js:36-40 | A common last character never raises the distance. |
| Matcher.Sanitize | src/chatbot/ActionProvider.js:13 | The sanitised query holds only lower-case ASCII letters, digits and whitespace. A letter or digit occurs in it exactly when it occurs in the lower-cased query. |
| Matcher.AlnumOnly | src/chatbot/ActionProvider.js:26 | The normalised target holds only lower-case ASCII letters and digits, and holds exactly those of the lower-cased target. |
| Matcher.Similarity | src/chatbot/ActionProvider.js:45 | The similarity lies in [0, 1] when the distance is at most the longer length. It is 1 exactly for distance 0. |
| Matcher.CloseEnough | src/chatbot/ActionProvider.js:28-48 | The fast-path test on one target: both the token and the target's letters and digits are at least three long, and the similarity reaches 0.6. |
| Matcher.NoTokensIffNoAlnum | src/chatbot/ActionProvider.js:13-16 | The sanitised query has no tokens exactly when the query has no ASCII letter or digit once lower-cased. |
| Matcher.RatioFacts | src/chatbot/ActionProvider.js:7 | A ratio of naturals is non-negative. It is at most 1 when the numerator is at most the denominator. It is 0 only for a zero numerator. Being at most 0.4 is the integer test `5d <= 2m`. |
| Matcher.SimilarityInUnitInterval | src/chatbot/ActionProvider.js:45 | The similarity of two strings, not both empty, lies in [0, 1] and is 1 exactly for equal strings. |
| Matcher.CloseEnoughInIntegers | src/chatbot/ActionProvider.js:28-48 | The fast-path test is: both lengths at least 3 and `5 * distance <= 2 * max length`. |
| Matcher.FirstClose | src/chatbot/ActionProvider.js:25-52 | The fast path's choice is the first close-enough target, with no close target before it. It is none exactly when no target is close enough. |
| Matcher.FastHit | src/chatbot/ActionProvider.js:25-52 | The target the fast path returns is one of the targets and close enough. There is none exactly when no target is close enough. |
| Matcher.FastPath | src/chatbot/ActionProvider.js:22-53 | The single-token loop, with its early return and the Levenshtein table, returns exactly `FastHit`: the first close-enough target, or nothing when there is none. |
| Matcher.CountIn | src/chatbot/ActionProvider.js:5 | The filtered count is the number of positions of the query whose token is in the target set. So it is at most the number of query tokens, and positive exactly when some query token is in the set. |
| Matcher.GetScore | src/chatbot/ActionProvider.js:2-8 | `getScore` is 0 for an empty target list and never negative. It is positive exactly when some query token is a target token. |
| Matcher.CountInDistinct | src/chatbot/ActionProvider.js:5-6 | For distinct query tokens, the filtered count is the size of the set intersection. |
| Matcher.DistinctInit | src/chatbot/ActionProvider.js:5-6 | Dropping the last of distinct tokens leaves them distinct, and the last is not among the rest. |
| Matcher.ScoreAtMostOne | src/chatbot/ActionProvider.js:2-8 | For distinct query tokens the score is at most 1: intersection over union. |
| Matcher.TargetTokens | src/chatbot/ActionProvider.js:58-65 | The target's token list is never empty and ends with the lower-cased target with its whitespace turned into `_`. |
| Matcher.TargetScore | src/chatbot/ActionProvider.js:67-73 | A target's score is never negative. For distinct query tokens it is at most 1.15. |
| Matcher.RunningMax | src/chatbot/ActionProvider.js:75-78 | The loop's running maximum starts at 0 and replaces only on a strictly greater score. It is the maximum of the scores, or 0 if none is positive. Its position is the earliest reaching it, and there is no position exactly when the maximum is 0. |
| Matcher.RunningMaxStep | src/chatbot/ActionProvider.js:75-78 | One more score replaces the running best exactly when it is strictly greater. |
| Matcher.BestTarget | src/chatbot/ActionProvider.js:77 | The loop's `bestMatch` is present exactly when a position was recorded, and is then one of the targets. |
| Matcher.ScoreTargets | src/chatbot/ActionProvider.js:57-79 | After the scoring loop, `maxScore` is the running maximum of all scores and `bestMatch` is the target at its position. |
| Matcher.Resolve | src/chatbot/ActionProvider.js:82-91 | The kept target is answered exactly when the best score reaches the threshold or exceeds 0.3. Otherwise there is no answer. An answer is one of the targets. |
| Matcher.BestMatch | src/chatbot/ActionProvider.js:11-92 | The matcher's answer is always one of the targets. |
| Matcher.FindBestMatch | src/chatbot/ActionProvider.js:11-92 | The source's control flow (empty tokens, fast path, scoring loop, two bands) returns exactly `BestMatch`. |
| Matcher.NoAlnumNoMatch | src/chatbot/ActionProvider.js:13-16 | A query with no ASCII letter or digit matches nothing, at any threshold. |
| Matcher.FastPathTakesFirst | src/chatbot/ActionProvider.js:22-50 | A one-token query is answered with the first close-enough target, however close later targets are. |
| Matcher.FastPathFallsThrough | src/chatbot/ActionProvider.js:22-57 | A one-token query with no close-enough target is answered by the scoring stage, not refused outright. |
| Matcher.ScoringBands | src/chatbot/ActionProvider.js:82-91 | The scoring stage answers exactly when the best score is positive and reaches the threshold or exceeds 0.3. It then answers a target whose score is the maximum and beats every earlier target. |
| Matcher.PrimaryThresholdRedundant | src/chatbot/ActionProvider.js:82-89 | With a threshold above 0.3, the scoring stage answers exactly when the best score exceeds 0.3. |
| Matcher.EmptyTargetScore | src/chatbot/ActionProvider.js:60-73 | The empty target scores exactly the 0.15 substring bonus. |
| Matcher.ScoringNeverEmpty | src/chatbot/ActionProvider.js:82-91 | With a threshold above 0.15, the scoring stage never answers the empty string. |
| Matcher.NeverEmptyMatch | src/chatbot/ActionProvider.js:466 | With a threshold above 0.15, the matcher never answers "". So the handler's truthiness test fails only for no-match. |
| Dialogue.BlockKeys | src/chatbot/ActionProvider.js:468 | `Object.keys(campusMap)` lists the block keys in order, one per block. |
| Dialogue.PhraseKeys | src/chatbot/ActionProvider.js:460 | `Object.keys(locationDirections)` lists the phrase keys in order, one per phrase. |
| Dialogue.LookupDirection | src/chatbot/ActionProvider.js:471 | A dictionary lookup finds a value exactly when the key is one of the phrase keys, and the value found is stored under that key. |
| Dialogue.StartsWithIgnoringCase | src/chatbot/ActionProvider.js:518-519 | A prefix test ignoring case holds exactly when the prefix is no longer than the string and agrees with its start character by character once both are lower-cased. |
| Dialogue.FindBlock | src/chatbot/ActionProvider.js:518-520 | The block is the first whose key, lower-cased, starts the lower-cased selector. It is none exactly when no block key does. |
| Dialogue.FindFloorEqual | src/chatbot/ActionProvider.js:529-531 | The floor is the first whose key equals the selector up to case. It is none exactly when none does. |
| Dialogue.FindFloorWithin | src/chatbot/ActionProvider.js:578-580 | The floor is the first whose lower-cased key occurs in the lower-cased query. It is none exactly when none does. |
| Dialogue.FindRoom | src/chatbot/ActionProvider.js:590 | The room is the first with exactly that id. It is none exactly when no room has it. |
| Dialogue.DirectionFor | src/chatbot/ActionProvider.js:471-472 | The reply is the stored direction when it is present and non-empty, and the "Found **…**!" fallback otherwise. |
| Dialogue.FloorPrompt | src/chatbot/ActionProvider.js:481 | The floor prompt names the block in upper case. |
| Dialogue.NoSpecificRooms | src/chatbot/ActionProvider.js:534 | The no-floor message quotes the selector as given. |
| Dialogue.ContextFor | src/chatbot/ActionProvider.js:541 | The context is the block's stored direction, or the empty string when there is none. |
| Dialogue.HeadingTo | src/chatbot/ActionProvider.js:543-544 | The context line names the floor and quotes the block's stored direction. |
| Dialogue.ToReach | src/chatbot/ActionProvider.js:592-594 | The room answer names the room and its floor and quotes the room's directions. |
| Dialogue.UnknownRoomId | src/chatbot/ActionProvider.js:595 | The unknown-room message quotes the id that was looked up. |
| Dialogue.Truthy | src/chatbot/ActionProvider.js:466 | A JavaScript truthy match is present and not the empty string. |
| Dialogue.QueryReplies | src/chatbot/ActionProvider.js:466-513 | No truthy match gives the apology alone. A match gives its direction message with `parse`, followed by a floor prompt carrying the block exactly when the match is a block key. |
| Dialogue.FloorReplies | src/chatbot/ActionProvider.js:517-554 | With `b` the block `FindBlock` returns: no block, or an empty block key, gives "Invalid block selected."; otherwise the replies are those for block `b`. The reply has one or two messages. It has two exactly when the found block and its first floor equal to the selector up to case both have non-empty keys. |
| Dialogue.BlockFloorReplies | src/chatbot/ActionProvider.js:529-554 | With `f` the first floor of the block equal to the selector up to case: no such floor, or an empty floor key, gives the no-specific-rooms message quoting the selector. Otherwise the replies are the context line for floor `f` with the block's stored direction (or "" when there is none), then the room prompt carrying floor `f`'s key and rooms. |
| Dialogue.RoomReply | src/chatbot/ActionProvider.js:560-598 | Exactly one plain message. With `b` the block `FindBlock` returns: no block, or an empty block key, gives "Invalid block selected."; otherwise the reply is the one for block `b`. |
| Dialogue.BlockRoomReply | src/chatbot/ActionProvider.js:578-598 | One plain message. With `f` the first floor of the block whose key occurs in the query up to case: no such floor, or an empty floor key, gives "No rooms found for this floor.". Otherwise, with the query's last field as the id, the reply gives the directions of the first room of floor `f` with that id, or the unknown-id message quoting the id. |
| Dialogue.ActionProvider.constructor | src/chatbot/ActionProvider.js:96-101 | The provider holds the given directory, dictionary and transcript. |
| Dialogue.ActionProvider.AllKnownLocations | src/chatbot/ActionProvider.js:460 | The candidates are the phrase keys in order, followed by the block keys in order. |
| Dialogue.ActionProvider.UpdateChatbotState | src/chatbot/ActionProvider.js:605-610 | The transcript becomes the old transcript plus the one message. |
| Dialogue.ActionProvider.HandleQuery | src/chatbot/ActionProvider.js:458-514 | The transcript gains exactly the replies for the matcher's answer to the query over all known locations at the default threshold. |
| Dialogue.ActionProvider.HandleFloorSelect | src/chatbot/ActionProvider.js:517-556 | The transcript gains exactly the floor-selection replies, through two or one appends. |
| Dialogue.ActionProvider.HandleRoomSelect | src/chatbot/ActionProvider.js:560-600 | The transcript gains exactly one message, the room-selection reply. |
| Dialogue.ApologyIffNoMatch | src/chatbot/ActionProvider.js:463-513 | At the default threshold, the apology is sent exactly when the matcher finds nothing. |
| Dialogue.BlockMatchOffersFloors | src/chatbot/ActionProvider.js:468-493 | A match on a non-empty block key is answered with that block's direction and then a floor prompt for that same block. |
| Dialogue.FloorSelectRoundTrip | src/chatbot/ActionProvider.js:517-554 | A floor button sends its floor key. With non-empty block and floor keys it gets that floor's room prompt back when three conditions hold. The key must start with its block key up to case. No earlier block key may start it. No earlier floor of the block may have the same key up to case. |
| Dialogue.UnprefixedFloorUnreachable | src/chatbot/ActionProvider.js:518-526 | A selector that no block key starts gets only "Invalid block selected.", both as a floor and as a room selection. |
| Dialogue.RoomSelectRoundTrip | src/chatbot/ActionProvider.js:560-595 | A room button sends `<floor> <id>`. With non-empty block and floor keys, when its block and floor resolve back and the id has no space, the reply gives the directions of the FIRST room of that floor with that id. |
| Scenarios.LeadingSpaceFloorIsUnreachable | src/chatbot/ActionProvider.js:108 | The floor key " a block Ground Floor", which starts with a space, can never be selected: its button gets "Invalid block selected.". |
| Scenarios.FirstFloorIsReachable | src/chatbot/ActionProvider.js:114 | The button for "a block 1st Floor" gets that floor's room prompt. |
| Scenarios.FloorSelectIgnoresCase | src/chatbot/ActionProvider.js:529-531 | "b block ground floor" selects the stored floor "b block Ground Floor" and offers its rooms. |
| Scenarios.DuplicateRoomIdAnswersFirstRoom | src/chatbot/ActionProvider.js:174-181 | The button of a later room sharing the id "B-G-01" gets the directions of the first room with that id. |
| MatcherScenarios.GenericWordInsideAWord | src/chatbot/ActionProvider.js:61 | " gate" is deleted even when it starts a longer word. |
| MatcherScenarios.MainGateTokens | src/chatbot/ActionProvider.js:58-65 | The tokens of "main gate" are "main" and "main_gate". |
| MatcherScenarios.RepeatedTokenScoresAboveOne | src/chatbot/ActionProvider.js:5-7 | A repeated query token is counted twice against a union counting it once, so `getScore(["lab","lab"], ["lab"])` is 2. |
| MatcherScenarios.CanteensQueryTokens | src/chatbot/ActionProvider.js:13-14 | "Canteens!" normalises to the single token "canteens". |
| MatcherScenarios.CanteensOneFromCanteen | src/chatbot/ActionProvider.js:34-44 | The edit distance of "canteens" and "canteen" is exactly 1. |
| MatcherScenarios.CanteensCloseToCanteen | src/chatbot/ActionProvider.js:45-48 | "canteens" is at distance exactly 1 from "canteen", so its similarity is 7/8, above 0.6. |
| MatcherScenarios.MisspeltSingleWordMatches | src/chatbot/ActionProvider.js:22-50 | "Canteens!" is answered with "canteen" on the fast path. |
| MatcherScenarios.CddOneFromCcd | src/chatbot/ActionProvider.js:34-44 | The edit distance of "cdd" and "ccd" is exactly 1. |
| MatcherScenarios.CddCloseToCcd | src/chatbot/ActionProvider.js:45-48 | "cdd" is at distance exactly 1 from "ccd", so its similarity is 2/3, above 0.6. |
| MatcherScenarios.SingleTypoMatches | src/chatbot/ActionProvider.js:22-50 | "cdd" is answered with "ccd" on the fast path. |

## Left out

- The shipped directory and dictionary contents (lines 105-455) are not copied in. The class takes them as constructor parameters. The scenarios use a small excerpt with the same quirks.
- Case mapping covers ASCII letters only. JavaScript's `toLowerCase`/`toUpperCase` also map other letters, some of them onto ASCII (the Kelvin sign becomes `k`). Such letters are not modelled.
- Strings are sequences of Unicode scalar values, not UTF-16 code units. Lengths, and so the three-character minimum and the edit distance, differ for characters outside the Basic Multilingual Plane.
- Regular expressions are not interpreted. Each pattern the code uses is written out as the function it computes: class deletion, whitespace split, global alternation deletion and `\s` replacement.
- Scores and similarities are exact rationals. Double-precision rounding is not modelled.
- `createChatBotMessage` is reduced to text, widget payload and the `parse` flag. Message ids, any other option, and how `parse` renders markdown are not modelled.
- `setState` is not modelled. Its functional update, batching and the rest of the chat state are replaced by a direct append to the `messages` field. `createClientMessage` and `stateRef` are not modelled.
- The React widgets that render the floor and room buttons (src/chatbot/widgets.js) are not part of this model. Only the payload the buttons send back is used, in the round-trip lemmas.
- MessageParser (src/chatbot/MessageParser.js) and the bot configuration (src/chatbot/config.js) are not part of this model.
- Object key order is insertion order. JavaScript puts integer-like keys first, and no key in the shipped data is integer-like.
- Lookups see only own keys. `locationDirections[key]` for an inherited name such as "constructor" would find a prototype member in JavaScript.
- Text.Filter: its own contract states only which characters the result holds and that it is no longer. Its exact value is fixed by Text.FilterSingleton and Text.FilterAppend together.
- Text.RemoveGeneric: its contract states that it never lengthens, introduces no character, and is the identity on a string in which no generic word occurs. Where generic words occur, the exact result (one left-to-right pass of non-overlapping deletions) is fixed by its definition and by Text.RemoveGenericKeepsWord and MatcherScenarios.GenericWordInsideAWord, not by the contract.
- Text.Tokens: its own contract states only that tokens are non-empty and free of whitespace. Its exact value is fixed by Text.TokensSplitAtSpace, Text.TokensOfWord and Text.TokensEmptyIff together.
- Dialogue.FloorPrompt, Dialogue.NoSpecificRooms, Dialogue.HeadingTo, Dialogue.ToReach and Dialogue.UnknownRoomId: the contracts state which values each message quotes, not its whole wording. The wording is in their definitions.
- Keys are taken to be distinct, as in a JavaScript object. With a repeated key, an object literal keeps the key at its first position but with the last value, while the model's first-hit lookups would see the first entry. The shipped data repeats no block, floor or phrase key.
- Matcher.BestMatch: the contract states only that an answer is one of the targets. Its behaviour is stated by the lemmas about it and by `FindBestMatch`, which equals it.
- The `|| []` guard on a floor's room list (line 589) has no counterpart, because every floor in the model has a room list.
