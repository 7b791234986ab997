# Advent of Code solvers: the post-parsing logic, modelled and proved

This project models the logic of four Advent of Code solvers that runs after
their input has been parsed.

- **Day 5, seeds through an almanac** (`src/day_5.rs`, `src/bin/05.rs`).
  - A `Chunk` is a half-open interval `[start, end)`.
  - A `MapItem` is an offset rule: the source range `[source_start, source_start + range)` moves to `dest_start`.
  - `mapper` sends one value through a stage of rules, and the first rule covering it wins.
  - `range_mapper` and `ranges_mapper` send whole intervals through a stage. Each interval splits into remapped intersections and unmapped leftover fragments.
  - `seed_chunk_expand` and `seed_expand` read the seed line as (start, length) pairs.
  - Part one chains seven stages for each seed and takes the least location. Part two does the same with intervals and takes the least interval start.
- **Day 4, scratchcards** (`src/day_4.rs`, `src/bin/04.rs`).
  - A card's matches are the hand numbers found among its winning numbers.
  - `count_to_score` doubles the score for each match after the first.
  - `process_card` adds one copy to each of the next `matches` cards in a mutable id → count buffer.
  - Part two plays every card in id order, once per copy held.
- **Day 2, cube game** (`src/day_2.rs`).
  - `eveline` checks every handful of a game against the 12 red / 13 green / 14 blue bag.
  - `eveline_2` multiplies the per-colour maxima over the handfuls.
  - `hans_fulmer` reads a colour that is absent from a handful as 0.
- **Day 1, calibration values** (`src/lib.rs`, `src/bin/01.rs`).
  - `find_first` finds the earliest token, which is a digit or one of the words `one` … `nine`.
  - `find_last` finds the latest token by searching the reversed line for reversed words.
  - `parse_frag` combines them as `10 * first + last`.
  - Part one scans each line from both ends for numeric characters. A line without one panics, and so does any `'-'` in the input.

Parsed values are the inputs: seeds and rules as naturals, cards as records,
handfuls as (red, green, blue) triples, and lines as strings. A panic in the
source becomes the `Panics(reason)` alternative of a `Run` result. Its reason
is the message the Rust runtime would print. Loops that build vectors or
update the buffer in place are methods, each proved equal to a specification
function. The properties are then lemmas about those functions.

Each file holds one module:

| file | module |
|---|---|
| `wrappers.dfy` | `Option` and `Run` (return or panic) |
| `chunks.dfy` | `Chunk`, `intersection`, `non_overlap`, `to_u64s`, value counting |
| `remap_rules.dfy` | `MapItem`, `from_set`, `mapper` |
| `range_mapping.dfy` | `range_mapper`, `ranges_mapper` and their conservation laws |
| `seeds.dfy` | `seed_chunk_expand`, `seed_expand` |
| `seed_locations.dfy` | the two parts of day 5 |
| `scratchcards.dfy` | match counting, `count_to_score`, `process_card` on a `CardBuffer` class |
| `scratchcard_totals.dfy` | the two parts of day 4 |
| `cube_game.dfy` | `hans_fulmer`, `eveline`, `eveline_2` |
| `calibration.dfy` | `find_first`, `find_last`, `parse_frag` |
| `calibration_sum.dfy` | the two parts of day 1 |
| `*_example.dfy` | the repository's test cases |

## Model

| member | source | states |
|---|---|---|
| Chunks.Chunk.Intersection | src/day_5.rs:225-254 | None exactly when the chunks do not overlap, otherwise `[max of starts, min of ends)`; a value lies in the result iff it lies in both chunks; valid and non-empty inputs give a valid, non-empty result |
| Chunks.Chunk.NonOverlap | src/day_5.rs:177-215 | None exactly when `other` lies inside this chunk; otherwise one or two fragments, in increasing order, each inside `other` and outside this chunk, valid and non-empty; a disjoint `other` comes back unchanged; the final `panic!` is never reached, since the function is total over its case split |
| Chunks.NonOverlapCount | src/day_5.rs:177-215 | each value of `other` outside this chunk lies in exactly one fragment, and no other value lies in any |
| Chunks.Complementarity | src/day_5.rs:177-254 | the intersection together with the fragments holds every value of `other` exactly once and nothing else |
| Chunks.OverlapExamples | src/day_5.rs:313-360 | the four `test_non_overlap` cases: `[4,6)` against `[2,5)`, `[2,8)`, `[4,6)` and `[5,8)` |
| Chunks.Points | src/day_5.rs:217-223 | the values of a chunk are `start, start + 1, …`, one per unit of its length |
| Chunks.ToU64s | src/day_5.rs:217-223 | the pushing loop of `to_u64s` lists exactly the chunk's values in increasing order |
| Chunks.PointsCount | src/day_5.rs:217-223 | each value of a chunk is listed once and no other value is listed |
| Chunks.FlatCount | src/day_5.rs:150-153 | concatenating the values of several chunks lists each value once per chunk that holds it |
| Chunks.CountCovered | src/day_5.rs:121-154 | a value is counted by a list of chunks iff some chunk holds it |
| RemapRules.MapItem.IsCovering | src/day_5.rs:56-61 | true iff `source_start <= s < source_start + range` |
| RemapRules.MapItem.Map | src/day_5.rs:62-64 | the value is shifted by `dest_start - source_start`; this ensures only rearranges the shift, and what the shift means is proved through `MapChunk` (pointwise agreement) and `Mapper` |
| RemapRules.MapItem.MapChunk | src/day_5.rs:65-73 | for a chunk inside the rule's source range: the result is valid, has the same length and agrees value by value with `map` |
| RemapRules.FromSet | src/day_5.rs:48-55 | panics with the `assert_eq!` message exactly when the line does not hold three numbers; otherwise the rule reads destination, source, range in that order |
| RemapRules.Mapper | src/day_5.rs:76-83 | the first rule in list order that covers the value maps it; with no covering rule the value maps to itself |
| RemapRules.MapperCovered | src/day_5.rs:76-83 | with disjoint sources, any rule covering the value is the one that maps it |
| RemapRules.MapAllPermutation | src/day_5.rs:76-83 | mapping every value of two lists holding the same values gives two lists holding the same values |
| RangeMapping.RangeMapper | src/day_5.rs:85-111 | the method's result is the remapped intersections in rule order, followed by the leftover fragments |
| RangeMapping.KeepOutside | src/day_5.rs:100-108 | one pass of the `untransformed` loop keeps the fragments of every chunk that lie outside the excluded chunk |
| RangeMapping.RangesMapper | src/day_5.rs:113-119 | the result is the concatenation of `range_mapper` over the inputs, in order, and every chunk in it is valid |
| RangeMapping.ExcludeOneCount | src/day_5.rs:100-108 | one exclusion pass removes the excluded values and keeps the count of every other value |
| RangeMapping.SubtractCount | src/day_5.rs:99-108 | after all exclusions, a value keeps its count iff no excluded chunk holds it, and is gone otherwise |
| RangeMapping.TransformedCount | src/day_5.rs:88-97 | with disjoint rule sources, the intersections hold each covered input value once and nothing else |
| RangeMapping.TransformedCovered | src/day_5.rs:88-97 | a value lies in some intersection iff it is in the input and some rule covers it |
| RangeMapping.LeftoverCount | src/day_5.rs:99-109 | the leftover fragments hold each input value that no rule covers, once, and nothing else |
| RangeMapping.Partition | src/day_5.rs:85-111 | with disjoint sources, the intersections and leftovers together hold exactly the input's values |
| RangeMapping.LeftoverFixed | src/day_5.rs:76-83 | the leftover values are fixed points of `mapper` |
| RangeMapping.RemappedAgrees | src/day_5.rs:88-97 | with disjoint sources, the remapped intersections list `mapper` of the intersected values, in order |
| RangeMapping.Conservation | src/day_5.rs:85-111 | with disjoint sources, the values of `range_mapper`'s output are exactly `mapper` of each input value, counted with multiplicity |
| RangeMapping.IdentityPassthrough | src/day_5.rs:85-111 | when no rule intersects the input, the output is the input alone |
| RangeMapping.SoleHit | src/day_5.rs:85-111 | when exactly one rule intersects the input and contains it, the output is that rule's shifted chunk |
| RangeMapping.Singleton | src/day_5.rs:76-111 | with disjoint sources, `[v, v+1)` maps to `[[mapper(v), mapper(v)+1)]` |
| RangeMapping.AtLeastOne | src/day_5.rs:85-111 | the output is never empty |
| RangeMapping.RangeMapShape | src/day_5.rs:85-111 | every output chunk is valid; a non-empty input with non-empty rules gives only non-empty chunks |
| RangeMapping.RangesConservation | src/day_5.rs:113-119 | with disjoint sources, the values of `ranges_mapper`'s output are exactly `mapper` of each input value, counted with multiplicity |
| RangeMapping.RangesShape | src/day_5.rs:113-119 | the output is valid, at least as long as the input, and non-empty chunks stay non-empty |
| Seeds.SeedChunks | src/day_5.rs:156-167 | `len/2` chunks; chunk `k` is `[seeds[2k], seeds[2k] + seeds[2k+1])` |
| Seeds.SeedChunkExpand | src/day_5.rs:156-167 | panics with the `assert_eq!` message exactly on an odd-length list; otherwise returns the pair chunks in pair order |
| Seeds.SeedExpand | src/day_5.rs:121-154 | panics exactly on an odd-length list; otherwise lists each value of the union of the seed ranges exactly once and nothing else |
| Seeds.SeedExpandExample | src/day_5.rs:302-310 | for `79 14 55 13`, the values listed are `79 ..= 92` and `55 ..= 67`, each once |
| SeedLocations.SeedLocation | src/bin/05.rs:8-16 | one seed is sent through `mapper` in the fixed stage order seed-to-soil … humidity-to-location |
| SeedLocations.LocationSteps | src/bin/05.rs:9-15 | a location is the seven `mapper` calls nested in the source's order |
| SeedLocations.AllLocations | src/bin/05.rs:7-17 | `locs[i]` is the location of seed `i` |
| SeedLocations.Least | src/bin/05.rs:18-19 | the first element after sorting is an element of the list and is at most every element |
| SeedLocations.PartOne | src/bin/05.rs:5-20 | panics (index 0 of an empty vector) exactly when there are no seeds; otherwise returns the location of some seed that is at most every seed's location |
| SeedLocations.PipelineSteps | src/bin/05.rs:28-34 | the interval pipeline is the seven `ranges_mapper` calls nested in the source's order |
| SeedLocations.LeastStart | src/bin/05.rs:37-42 | the first start after sorting is the start of some chunk and is at most every chunk start |
| SeedLocations.PartTwo | src/bin/05.rs:22-43 | panics on an odd seed list (`assert_eq!`) or an empty one (index 0); otherwise returns the least start of the piped seed chunks; for a well-formed almanac (every stage with disjoint rule sources and positive rule ranges, every seed range of positive length) that is the least location over all seed values in the ranges |
| SeedLocations.PipelineConservation | src/bin/05.rs:28-34 | with disjoint sources at every stage, the interval pipeline holds exactly the scalar chain's image of the input values |
| SeedLocations.ChainReachesPipeline | src/bin/05.rs:28-34 | the scalar location of every seed value lies in some output chunk |
| SeedLocations.PipelineComesFromChain | src/bin/05.rs:28-34 | every value in the output chunks is the scalar location of some seed value |
| SeedLocations.LeastStartIsLeastLocation | src/bin/05.rs:37-42 | for a well-formed almanac (every stage with disjoint rule sources and positive rule ranges, every seed range of positive length), the least output start is the least scalar location over all seed values |
| SeedLocations.PipelineEmpty | src/bin/05.rs:28-42 | the pipeline output is empty iff there are no seed chunks, so part two panics on index 0 only without seeds |
| SeedLocations.PipelineLength | src/bin/05.rs:28-34 | the pipeline never shortens the chunk list |
| SeedLocations.PipelineShape | src/bin/05.rs:28-34 | non-empty chunks stay non-empty through stages whose rules have positive ranges |
| AlmanacExample.ExamplePartOne | src/bin/05.rs:49-53 | on the test almanac, part one answers 35 |
| AlmanacExample.Seed82 | src/bin/05.rs:61-77 | the scalar chain takes seed 82 to location 46 |
| AlmanacExample.ExamplePartTwo | src/bin/05.rs:55-59 | on the test almanac, part two answers 46 |
| AlmanacExample.ExampleSeedChunks | src/day_5.rs:263-264 | the test seed line gives the chunks `[79, 93)` and `[55, 68)` |
| Scratchcards.Matches | src/day_4.rs:33-38 | the match count is at most the number of hand entries |
| Scratchcards.CountMatches | src/day_4.rs:33-38 | the counting loop counts the hand entries, with repetition, that occur among the winning numbers |
| Scratchcards.MatchesAll | src/day_4.rs:33-38 | every hand entry matches iff the count equals the hand's length |
| Scratchcards.MatchesNone | src/day_4.rs:33-38 | the count is 0 iff no hand entry is a winning number |
| Scratchcards.ScoreDoubles | src/day_4.rs:50-55 | one match scores 1, and each further match doubles the score |
| Scratchcards.CountToScore | src/day_4.rs:50-55 | for at most 32 matches, the score fits in a `u32`, as `2_u32.pow(count - 1)` needs |
| Scratchcards.ScoreExamples | src/day_4.rs:95-104 | scores 0, 1, 2, 8, 16, 32 for 0, 1, 2, 4, 5, 6 matches |
| Scratchcards.Credit | src/day_4.rs:39-46 | entries `id+1 ..= id+count` grow by one, a missing one appears as 1, and every other id keeps its value or stays absent, `id` itself included |
| Scratchcards.CreditTotal | src/day_4.rs:39-46 | crediting adds exactly the match count to the sum of the buffer entries below any bound past the last credited id, and so to the sum of the whole buffer |
| Scratchcards.CardBuffer.ProcessCard | src/day_4.rs:32-48 | the buffer becomes the old buffer credited with the card's match count, and nothing else changes |
| Scratchcards.CardBuffer.CreditFollowing | src/day_4.rs:39-46 | the `1..=mtchs` loop credits exactly the following `mtchs` ids |
| Scratchcards.CardBuffer.Bump | src/day_4.rs:41-45 | `get_mut` increments a present entry and `insert` adds a missing one as 1 |
| ScratchcardTotals.PartOne | src/bin/04.rs:7-21 | the total is the sum of every card's score |
| ScratchcardTotals.ScoreSumPermutation | src/bin/04.rs:11-19 | the total does not depend on the order in which the map yields the cards |
| ScratchcardTotals.CollectInOrder | src/bin/04.rs:25-28 | panics (missing key) exactly when some id in `1..=n` is not a key; otherwise returns the cards in id order |
| ScratchcardTotals.PlayCard | src/bin/04.rs:33-39 | a card is processed `1 + buffer[card.id]` times, a count that stays fixed because processing never touches the card's own entry; each id it reaches gains that many copies, and all other entries are unchanged |
| ScratchcardTotals.CardStep | src/bin/04.rs:32-40 | after card `p+1` is played, the buffer holds, for every id, the copies won from cards `1 ..= p+1` |
| ScratchcardTotals.WonSettled | src/bin/04.rs:32-40 | a card only wins copies of later cards, so its own count is settled before it is played |
| ScratchcardTotals.SumBuffer | src/bin/04.rs:41-46 | the total is the card count plus every entry whose id is at most the card count, in any key order |
| ScratchcardTotals.TotalIsOriginalsPlusWon | src/bin/04.rs:41-47 | the cards held are the originals plus all copies won |
| ScratchcardTotals.TotalAtLeastCards | src/bin/04.rs:41-47 | the total is at least the number of cards |
| ScratchcardTotals.PartTwo | src/bin/04.rs:23-48 | panics exactly when an id in `1..=n` is missing; otherwise returns the cards held after playing in id order, which is at least `n` |
| ScratchcardExample.ExamplePartOne | src/bin/04.rs:54-58 | with the example's match counts the scores sum to 13 |
| ScratchcardExample.ExamplePartTwo | src/bin/04.rs:60-64 | with the example's match counts 30 cards are held |
| CubeGame.Handful.Raise | src/day_2.rs:27-35 | each colour of the accumulator becomes the larger of the two counts |
| CubeGame.FirstCount | src/day_2.rs:49-67 | a colour absent from the handful counts 0; otherwise the count of its first mention |
| CubeGame.HansFulmer | src/day_2.rs:49-74 | each colour's count is that of its first mention, or 0 |
| CubeGame.HansFulmerExample | src/day_2.rs:88-89 | `3 blue, 4 red` reads as `(4, 0, 3)` |
| CubeGame.Eveline | src/day_2.rs:4-21 | `Some(game_id)` iff every handful fits 12 red, 13 green, 14 blue; None iff some handful does not |
| CubeGame.Maxima | src/day_2.rs:25-37 | each colour's maximum is at least every handful's count and equals one of them or 0 |
| CubeGame.Eveline2 | src/day_2.rs:23-39 | always Some, holding the product of the three per-colour maxima |
| CubeGame.EvelineByMaxima | src/day_2.rs:4-39 | `eveline` is Some iff the maxima of `eveline_2` fit the bag |
| CubeGameExample.EvelineExamples | src/day_2.rs:94-116 | the five test games give `Some(12)`, `Some(2)`, None, None, `Some(5)` |
| CubeGameExample.Eveline2Examples | src/day_2.rs:117-139 | the five test games give powers 48, 12, 1560, 630, 36 |
| Calibration.RevTokensAsWritten | src/lib.rs:29 | the reversed words are `eno owt eerht ruof evif xis neves thgie enin`, the source's pattern |
| Calibration.MatchAt | src/lib.rs:24-25 | at a position, the first alternative in pattern order that the text starts with, or None iff no alternative starts there |
| Calibration.Find | src/lib.rs:24-25 | the earliest position where some alternative matches, or None iff no position matches |
| Calibration.FindFirst | src/lib.rs:23-26 | None iff no token starts anywhere; otherwise the token starting at the earliest such position |
| Calibration.FindLast | src/lib.rs:28-37 | None iff no token ends anywhere; otherwise a forward-spelled token ending at the latest such position |
| Calibration.FindFirstNoneIffFindLastNone | src/lib.rs:23-37 | `find_first` is None iff `find_last` is None |
| Calibration.TokenStartUnique | src/lib.rs:24 | at most one token starts at any position, so the alternation's order never matters |
| Calibration.TokenEndUnique | src/lib.rs:29 | at most one token ends at any position |
| Calibration.FindFirstIs | src/lib.rs:23-26 | a token at the earliest token position is what `find_first` returns |
| Calibration.FindLastIs | src/lib.rs:28-37 | a token ending at the latest token end is what `find_last` returns |
| Calibration.TokenValue | src/lib.rs:9-19 | a digit is read as its value; a word is its position in `one … nine` |
| Calibration.ParseFrag | src/lib.rs:7-21 | with the `one … nine` table both callers pass, panics with the `unwrap` message exactly when no token occurs; otherwise a value of at most 99 |
| Calibration.ParseFragDigits | src/lib.rs:7-21 | the tens digit is the first token's value and the units digit the last token's |
| Calibration.ParseFragReads | src/lib.rs:7-21 | for the token starting earliest in the line and the token ending latest, the result is `10 * first + last`, stated by positions in the line and not through the two searches |
| Calibration.SingleTokenTwice | src/lib.rs:7-21 | a line with a single token gives `11 * d` |
| CalibrationExample.FindFirstDigit | src/lib.rs:45 | `fh5one7twokkk` starts with token `5` |
| CalibrationExample.FindFirstWord | src/lib.rs:46 | `fhoonthreetwokkk` starts with token `three` |
| CalibrationExample.FindFirstOverlap | src/lib.rs:47 | `jdhitwone` starts with token `two` |
| CalibrationExample.FindLastWord | src/lib.rs:52 | `fh5one7twokkk` ends with token `two` |
| CalibrationExample.FindLastOverlap | src/lib.rs:53 | `fhoonthreetwonek` ends with token `one`, overlapping `two` |
| CalibrationExample.FindLastDigit | src/lib.rs:54 | `7jdhitwpnnn` ends with token `7` |
| CalibrationExample.ParseFragExample | src/lib.rs:57-71 | `1twone3foursixiii` gives 16 |
| CalibrationSum.Split | src/bin/01.rs:15 | the pieces contain no newline and join back to the input |
| CalibrationSum.SplitJoin | src/bin/01.rs:15 | splitting newline-free lines joined by newlines gives them back |
| CalibrationSum.SplitUnique | src/bin/01.rs:15 | only one list of newline-free lines joins to a given text |
| CalibrationSum.FirstDigit | src/bin/01.rs:22-31 | the first numeric character from a position, or None iff there is none |
| CalibrationSum.LastDigit | src/bin/01.rs:32-42 | the last numeric character before a bound, or None iff there is none |
| CalibrationSum.ScanLine | src/bin/01.rs:16-43 | the two `while` loops over the double-ended iterator compute the line value |
| CalibrationSum.LineValuePanics | src/bin/01.rs:22-31 | a line panics iff it has no numeric character; otherwise its value is at most 99 |
| CalibrationSum.LineValueIs | src/bin/01.rs:16-43 | the value is `10 * front + back` for the first and last numeric characters |
| CalibrationSum.LineSingleDigit | src/bin/01.rs:32-41 | the back scan stops where the front scan did, so a single digit `d` gives `11 * d` |
| CalibrationSum.HasMinus | src/bin/01.rs:8-12 | the scan finds a `'-'` iff the input holds one |
| CalibrationSum.SumRunsPanics | src/bin/01.rs:45-48 | the sum panics iff some line's value panics, and then with the message of the first such line |
| CalibrationSum.SumLines | src/bin/01.rs:14-48 | the fold adds the line values and stops at the first panicking line |
| CalibrationSum.PartOne | src/bin/01.rs:7-50 | the `'-'` check, then the sum of the line values |
| CalibrationSum.PartOnePanics | src/bin/01.rs:7-50 | part one panics iff the input holds `'-'` or some line has no numeric character |
| CalibrationSum.TrailingNewlinePanics | src/bin/01.rs:15-30 | an input ending in a newline panics on its empty last line |
| CalibrationSum.FragValues | src/bin/01.rs:64-66 | each line's value is `parse_frag` of that line |
| CalibrationSum.PartTwo | src/bin/01.rs:52-72 | part two panics with the `unwrap` message iff some line holds no token; otherwise the sum of the line values, at most 99 per line |
| CalibrationSum.ParseFragPanics | src/lib.rs:7-21 | with the `one … nine` table that `part_two` passes, `parse_frag` panics iff the line holds no token |
| CalibrationSumExample.PartOneExample | src/bin/01.rs:78-82 | the four example lines give 142 |

## Left out

- Regex parsing is not modelled: `parse_soil`, `parse_scratch`, `gertrude_gamine` and the regex matching inside `hans_fulmer`. Their behaviour is that of the regex crate. The model takes parsed seeds, rules, cards, game ids and (colour, count) draws as input.
- `src/day_3.rs`, `src/bin/03.rs`, `src/bin/02.rs` and `src/bin/06.rs` are not part of this model.
  - Day 3 depends on code that is not shown.
  - `src/bin/02.rs` only sums day-2 results.
  - Day 6 is floating-point arithmetic.
- File reading, the `solution!` macro, `println!` output and the unused `captures_iter` print inside `hans_fulmer` are left out.
- `u64`/`u32` widths are left out. All numbers are unbounded naturals, so these are not modelled:
  - additions that overflow in the source (`source_start + range`, `start + range`, `card.id + mtch_idx`, `card_count`, the running totals, the `eveline_2` product);
  - the `i128` casts of `map_chunk`.
- `u32::from_str_radix(..).unwrap_or(0)` in `hans_fulmer` turns a count too large for `u32` into 0. Counts here are already parsed naturals.
- The ordering of `HashMap` and `HashSet` iteration is left out:
  - `ScratchcardTotals.PartOne` takes the cards as a sequence in any order, and `ScratchcardTotals.ScoreSumPermutation` shows that the order does not matter;
  - `Seeds.SeedExpand` keeps the candidate fragments in a sequence in one possible order, and states its output up to order.
- `locs.sort()` and `loc_starts.sort()` are left out. Only element 0 of the sorted vector is read, so the model takes the minimum directly.
- Stages whose rule sources overlap are left out. The conservation and agreement lemmas require pairwise-disjoint sources (`RemapRules.Disjoint`). The repository never exercises overlapping rules.
- RemapRules.MapItem.MapChunk: the two `assert!`s of `map_chunk` are preconditions rather than panics. Its only caller, `range_mapper`, passes the intersection with the rule's own source range, which always meets them.
- RemapRules.MapItem.Map: requires `dest_start + source >= source_start`, which the `u64` subtraction needs to not underflow. `mapper` only calls it on covered values, which meet it.
- Scratchcards.CountToScore: requires at most 32 matches. `2_u32.pow(count - 1)` overflows beyond that, which the model does not represent.
- ScratchcardTotals.PartOne: requires every card to have at most 32 matches, as `CountToScore` does.
- Calibration.ParseFrag: the `digits` parameter of `parse_frag` (`src/lib.rs` line 7) is fixed to the `one … nine` table that both callers pass (`src/bin/01.rs` lines 53-62 and the test at `src/lib.rs` lines 59-68). So the model does not represent the panics of the table lookups at lines 12 and 18 when a word is missing from the table, nor results above 99 when a table value is above 9. `CalibrationSum.ParseFragPanics` and `CalibrationSum.PartTwo` carry the same restriction.
- SeedLocations.PartTwo: the least-location property is stated for well-formed almanacs only. With an empty seed range (length 0), or with a zero-range rule whose empty source lies inside a seed range, `part_two` (`src/bin/05.rs` lines 37-42) can return the start of an empty chunk, and that start need not be the location of any seed value. For example, seeds `5 0 100 1` and seven empty stages give 5, though the only seed value is 100. The model returns that same start; `SeedLocations.LeastStartIsLeastLocation` requires well-formedness for this reason.
- ScratchcardTotals.PartTwo: requires the card stored under key `i` to carry id `i`. The parser keys each card by its own id.
- Each day-4 example lemma takes the example's per-card match counts (4, 2, 2, 1, 0, 0) as a hypothesis. The puzzle input file that holds the cards is not part of this model.
- The tests of `src/bin/05.rs` (lines 49-77) read their almanac from an example file that is not part of this model. The day-5 example lemmas (`AlmanacExample.ExamplePartOne`, `AlmanacExample.Seed82`, `AlmanacExample.ExamplePartTwo`) take the almanac of `test_parse_soil` (`src/day_5.rs` lines 263-295) as that input.
- Part one of day 1 reads `is_numeric` as the ASCII digits `0`–`9`. Other Unicode numeric characters are not modelled.
- The test `test_part_one` of `src/bin/01.rs` (lines 78-82) reads its input from an example file that is not part of this model. `CalibrationSumExample.PartOneExample` takes that input as the four lines `1abc2`, `pqr3stu8vwx`, `a1b2c3d4e5f` and `treb7uchet`, without a trailing newline. With one, `CalibrationSum.TrailingNewlinePanics` shows that part one panics.
- The `part_two` test of `src/bin/01.rs` (lines 84-88) expects None, but the code always returns `Some(sum)` or panics. The model follows the code, and that test is not modelled.
- `eveline` and `eveline_2` index `parts[1]` of the line split at `':'`. A line without a colon would panic there. The model takes the handfuls after the colon as input, so that panic is not represented.
