# blux core in Dafny

A model of the self-contained logic of the `blux` Bilibili toolkit, with proofs of what
that logic promises. The model covers five pieces of the library:

- **document scorer** (`DocScorer`): the saturation curve, the weighted stat score, the
  consistency-based anomaly penalty, the log-time freshness factor, and the score and its
  detail record;
- **AV/BV identifier codec**: the guards, the in-place character swap, and both directions of
  the codec;
- **sentence builder**: `build_sentence`, `build_sentence_for_md5`, `calc_md5`, and the
  `TextDocItem` that stores them;
- **search-result handling**: `strip_html_tags`, `safe_int`, the result-type dispatch, the
  grouping in `SearchAllResult` and `SearchTypeResult`, and the request parameters of
  `search_by_type`;
- **WBI signing**: the magic-key permutation, key extraction from the navigation URLs, the
  key cache of `WbiSigner`, and the canonicalisation `sign` performs before hashing.

## Modules

Each `.dfy` file holds one module.

- `Wrappers`: `Option`, `Result` and `Outcome`.
- `PyValue`: the Python values the code inspects (`None`, bools, ints, floats, strings,
  lists, dicts) and Python truthiness.
- `PyStr`: the parts of `str` that the code relies on:
  - `isspace` and `strip`;
  - `s[:n]` with a negative `n`;
  - `str(int)` and `int(str)`;
  - `join` and `replace(c, "")`;
  - the code-point order used by `sorted`.
- `Dicts`: a Python dict as an insertion-ordered sequence of pairs. It covers `d[k] = v`,
  `get`, `update` and `dict(sorted(d.items()))`.
- `RealArith` and `Bits`: small arithmetic facts, and Python's `|`, `^`, `&` and
  `bit_length` on non-negative integers.
- `DocScore`, `Bvs` (with the source's test vectors in `BvsVectors`), `TextDoc`, `Search` and
  `Wbi`: the five pieces above.

### How the model is built

- **Transcendentals.** `math.log1p`, `math.expm1`, `math.log` and `math.sqrt` are the fields
  of a `DocScore.Math` value. The proofs use only the laws in `DocScore.Lawful`:
  - `log1p(0) = 0`, and `log1p` is strictly increasing;
  - `log1p` is concave: its rise over `[x, x + d]` never grows with `x ≥ 0` (`DocScore.Slope`);
  - `expm1` is positive on positive reals;
  - `log` is strictly increasing;
  - `sqrt` is monotone and maps `[0, 1]` into `[0, 1]`.

  `DocScore.Inverse` adds `log1p(expm1(a)) = a`, for the half-saturation point.
- **Library calls** are parameters: MD5's hex digest (RFC 1321), `json.dumps`, percent-quoting
  (section 2.1 of RFC 3986) and `repr`.
- **The outside world.** The clock, and the response of the navigation endpoint, are also
  parameters.
- **Loops** in the source are methods with loop invariants, each proved equal to a
  specification function:
  - `CalcStatScore`, `CalcAnomalyFactor`, `CalcTimeFactor` and `CalcFieldScores`;
  - `AvToBv` and `BvToAv`.
- **State the source mutates** is a class:
  - `TextDocItem` (`sentence`, `md5_hash`);
  - `SearchAllResult` and `SearchTypeResult` (the item lists);
  - `WbiSigner` (`img_key`, `sub_key`).

  `swap_bv_chars` works in place on an `array<char>`.
- **Exceptions** become `Result` or `Outcome` errors. Each records the condition that raised
  it.

## Model

| member | source | states |
|---|---|---|
| `DocScore.ConfigValid` | src/blux/doc_score.py:39-46 | every configured stat field has a positive weight and a positive alpha |
| `DocScore.TotalWeight` | src/blux/doc_score.py:49 | the total weight is the sum of the configured weights, 13.0 |
| `DocScore.Saturate` | src/blux/doc_score.py:91-101 | exactly 0 for x ≤ 0; strictly between 0 and 1 for x > 0; its diminishing returns are `DocScore.SaturateDiminishing` |
| `DocScore.SaturateIncreasing` | src/blux/doc_score.py:98-101 | strictly increasing in x on the non-negative reals |
| `DocScore.SaturateMonotone` | src/blux/doc_score.py:98-101 | non-decreasing in x over all reals, including the clamped part |
| `DocScore.SaturateHalf` | src/blux/doc_score.py:92-96 | at the half-saturation point x = e^α − 1 the value is exactly 1/2 |
| `DocScore.SaturateRatio` | src/blux/doc_score.py:98-101 | for x ≥ 0, 0 included, the value is ln(1+x) / (ln(1+x) + α) |
| `DocScore.SaturateDiminishing` | src/blux/doc_score.py:92-101 | for 0 ≤ x < y and d > 0, the gain from y to y + d is strictly less than the gain from x to x + d |
| `DocScore.SaturateDiminishingSteps` | src/blux/test_doc_score.py:172-177 | with α = 5, the gains over 0→100, 100→200 and 200→300 strictly decrease |
| `DocScore.FieldValue` | src/blux/doc_score.py:111 | `max(0, stats.get(field, 0) or 0)` is never negative |
| `DocScore.Term` | src/blux/doc_score.py:112 | one field's weighted saturation lies in [0, weight) |
| `DocScore.WeightedSum` | src/blux/doc_score.py:109-112 | the accumulated sum over the first n fields lies in [0, sum of their weights], strictly below once a field is added |
| `DocScore.StatScore` | src/blux/doc_score.py:103-113 | the stat score lies in [0, 1); its growth is `DocScore.StatScoreIncreasing` and `DocScore.StatScorePositive`, its weight order `DocScore.StatScoreWeightOrder` |
| `DocScore.WeightedSumFieldValues` | src/blux/doc_score.py:110-112 | the weighted sum depends only on the normalised values of the configured fields |
| `DocScore.StatScoreFieldValues` | src/blux/doc_score.py:109-113 | stats with the same normalised configured values give the same stat score |
| `DocScore.WeightedSumOfZero` | src/blux/doc_score.py:109-112 | all-zero normalised values give a weighted sum of 0 |
| `DocScore.StatScoreOfZero` | src/blux/doc_score.py:109-113 | all-zero normalised values give a stat score of 0 |
| `DocScore.TermMonotone` | src/blux/doc_score.py:111-112 | a field's weighted term does not decrease as its counter grows, and strictly increases when the counter strictly grows |
| `DocScore.WeightedSumMonotone` | src/blux/doc_score.py:109-112 | the running sum is no smaller for larger counters, and strictly larger once the strictly larger field is summed |
| `DocScore.StatScoreIncreasing` | src/blux/doc_score.py:103-113 | no smaller configured counters and one strictly larger give a strictly higher stat score |
| `DocScore.StatScorePositive` | src/blux/test_doc_score.py:195-200 | a single positive configured counter gives a positive stat score |
| `DocScore.WeightedSumOfSingle` | src/blux/doc_score.py:109-112 | with one counter alone, the running sum is that field's term once the loop has passed it, and 0 before |
| `DocScore.StatScoreOfSingle` | src/blux/doc_score.py:103-113 | one positive counter x alone gives weight · ln(1+x)/(ln(1+x)+α) / 13 |
| `DocScore.StatScoreWeightOrder` | src/blux/doc_score.py:37-46 | at any equal positive count: coin = favorite > reply > like = danmaku > view, the weight tiers the scorer documents (reply sits strictly above like and danmaku because its α is smaller) |
| `DocScore.StatScoreWeightOrderTests` | src/blux/test_doc_score.py:202-238 | at 1000 of one field alone: coin = favorite, coin > like, and like, reply and danmaku each > view |
| `DocScore.CalcStatScore` | src/blux/doc_score.py:103-113 | the accumulation loop returns the stat score, which lies in [0, 1) |
| `DocScore.LogScale` | src/blux/doc_score.py:130-133 | `log1p(value / expm1(alpha))` is never negative |
| `DocScore.LogScales` | src/blux/doc_score.py:128-133 | one log-scale per configured field, in configuration order |
| `DocScore.SeqMax` | src/blux/doc_score.py:135 | the maximum is an element of the list and bounds every element |
| `DocScore.SeqSumBounds` | src/blux/doc_score.py:139 | a sum of n values in [0, hi] lies in [0, n·hi] |
| `DocScore.Consistency` | src/blux/doc_score.py:139-140 | mean / max lies in [0, 1] |
| `DocScore.Ramp` | src/blux/doc_score.py:146-147 | the sqrt ramp lies in [ANOMALY_MIN_FACTOR, 1] |
| `DocScore.RampMonotone` | src/blux/doc_score.py:146-147 | the ramp is non-decreasing in the consistency |
| `DocScore.AnomalyOf` | src/blux/doc_score.py:135-147 | the factor lies in [0.3, 1]; it is below 1 only when max log-scale ≥ 0.5 and consistency lies in [0, 0.5) |
| `DocScore.AnomalyFactor` | src/blux/doc_score.py:115-147 | the same bounds and penalty condition, for the log-scales of a stats dict |
| `DocScore.AnomalyFactorOfZero` | src/blux/doc_score.py:135-137 | all-zero normalised values give exactly 1.0 (too little data to judge) |
| `DocScore.AnomalyFactorFieldValues` | src/blux/doc_score.py:129-133 | the anomaly factor depends only on the normalised configured values |
| `DocScore.CalcAnomalyFactor` | src/blux/doc_score.py:115-147 | the append loop plus the penalty returns `AnomalyFactor` |
| `DocScore.PenaltyOf` | src/blux/doc_score.py:135-147 | the early returns and the sqrt ramp compute `AnomalyOf` of the collected log-scales |
| `DocScore.Scan` | src/blux/doc_score.py:169-176 | a scan from anchor pair i of an age between the outer anchors yields a factor in [0.45, f_i) |
| `DocScore.TimeFactor` | src/blux/doc_score.py:149-178 | the freshness factor lies in [0.45, 1.30] |
| `DocScore.ScanFinds` | src/blux/doc_score.py:169-176 | the scan returns the interpolation on the anchor pair that brackets t |
| `DocScore.Bracket` | src/blux/doc_score.py:169-172 | every age strictly between the first and last anchor has a bracketing pair, so the return after the loop is unreachable |
| `DocScore.Interpolate` | src/blux/doc_score.py:170-176 | specification of the log-time interpolation; `DocScore.InterpolateBetween` and `DocScore.InterpolateMonotone` bound it and show it non-increasing |
| `DocScore.InterpolateBetween` | src/blux/doc_score.py:170-176 | between bracketing anchors t0 < t ≤ t1 the factor lies in [f1, f0), and equals f1 at t1 |
| `DocScore.InterpolateMonotone` | src/blux/doc_score.py:173-176 | the interpolation is non-increasing in t within a pair |
| `DocScore.TimeFactorClamps` | src/blux/doc_score.py:161-166 | ages ≤ 3600 s (negative ones included) give 1.30; ages ≥ 2592000 s give 0.45 |
| `DocScore.TimeFactorAtAnchors` | src/blux/doc_score.py:161-176 | at every anchor's age the factor is that anchor's factor |
| `DocScore.TimeFactorBetween` | src/blux/doc_score.py:168-176 | between bracketing anchors the factor lies in [f1, f0) |
| `DocScore.TimeFactorNonIncreasing` | src/blux/doc_score.py:149-178 | the freshness factor never grows with age |
| `DocScore.CalcTimeFactor` | src/blux/doc_score.py:149-178 | the clamp, the early returns and the anchor scan compute `TimeFactor` |
| `DocScore.ElapsedTime` | src/blux/doc_score.py:198-202 | `pub_to_insert` when present, else `(insert_at or 0) − (pubdate or 0)` |
| `DocScore.Combine` | src/blux/doc_score.py:205 | for components within their bounds the score is positive and below 1.01 × 1.30 |
| `DocScore.Score` | src/blux/doc_score.py:180-205 | every document, `{}` included, scores strictly between 0 and 1.01 × 1.30; freshness is `DocScore.ScoreFresherNotLower` |
| `DocScore.ScoreOfEmpty` | src/blux/doc_score.py:194-205 | the empty document scores exactly BASE_SCORE × 1.30 |
| `DocScore.ScoreFieldValues` | src/blux/doc_score.py:194-203 | documents with equal normalised configured counters and equal age score equally |
| `DocScore.CombineTimeMonotone` | src/blux/doc_score.py:205 | a smaller time factor never raises the combined score |
| `DocScore.ScoreFresherNotLower` | src/blux/doc_score.py:10 | with the same configured counters, a document that is younger or the same age scores at least as high |
| `DocScore.SameFieldValuesExamples` | src/blux/doc_score.py:110-111 | an unconfigured field such as `share`, and a None, missing, zero or negative counter, leave the normalised values unchanged |
| `DocScore.CalcScore` | src/blux/doc_score.py:180-205 | the method returns `Score` and its bounds |
| `DocScore.FieldScores` | src/blux/doc_score.py:216-219 | one `(field, saturate(value, alpha))` entry per configured field, in order |
| `DocScore.FieldScoresStep` | src/blux/doc_score.py:219 | assigning the next field's score appends it, since field names are distinct |
| `DocScore.CalcFieldScores` | src/blux/doc_score.py:216-219 | the loop builds `FieldScores`, each entry in [0, 1) |
| `DocScore.CalcScoreDetail` | src/blux/doc_score.py:207-240 | the detail's stat score, anomaly factor, age and time factor are the specified ones; its score equals `Score` and the combination formula; it has one field score per field, each in [0, 1) |
| `Bits.XorInvolution` | src/blux/bvs.py:79 | XOR with the same code twice is the identity, so the mask undoes the encoding's XOR |
| `Bits.XorBelow` | src/blux/bvs.py:60 | XOR of two numbers below 2^k stays below 2^k |
| `Bits.OrHighBit` | src/blux/bvs.py:60 | `2^k OR a` is `2^k + a` for a < 2^k |
| `Bits.XorHighBit` | src/blux/bvs.py:60 | XOR with a smaller number keeps the high bit 2^k |
| `Bits.AndLowMask` | src/blux/bvs.py:79 | `n & (2^k − 1)` is `n mod 2^k` |
| `Bits.BitLengthRange` | src/blux/bvs.py:45-46 | `bit_length(n) == k` iff 2^(k−1) ≤ n < 2^k |
| `Bits.XorZeroIff` | src/blux/bvs.py:79 | `a ^ b == 0` iff a == b |
| `Bvs.AlphabetDistinct` | src/blux/bvs.py:19 | the alphabet has 58 pairwise distinct characters |
| `Bvs.EnumerateKeys` | src/blux/bvs.py:20 | the enumeration dict has exactly the string's characters as keys, each mapped to a position holding it |
| `Bvs.EnumerateInverts` | src/blux/bvs.py:20 | for distinct characters the enumeration maps s[i] to i |
| `Bvs.Rev` | src/blux/bvs.py:20 | specification of `REV`: `Bvs.RevInverts` and `Bvs.RevLookup` state that it maps each alphabet character to its position and has no other key |
| `Bvs.RevInverts` | src/blux/bvs.py:20 | `REV[ALPHABET[i]] == i` for every i < 58 |
| `Bvs.RevLookup` | src/blux/bvs.py:20 | c is a key of `REV` iff it is in the alphabet, and then `ALPHABET[REV[c]] == c` |
| `Bvs.SwapIndex` | src/blux/bvs.py:51-53 | the position permutation stays within the first 10 positions and fixes every position but 3, 4, 7 and 9 |
| `Bvs.SwapIndexInvolution` | src/blux/bvs.py:51-53 | the position permutation is its own inverse |
| `Bvs.Swapped` | src/blux/bvs.py:50-53 | the swapped string has the same length and takes character k from position `SwapIndex(k)` (3 and 9, 4 and 7 exchanged); `Bvs.SwappedInvolution` shows swapping twice restores it |
| `Bvs.SwappedInvolution` | src/blux/bvs.py:50-53 | swapping twice restores the string |
| `Bvs.SwappedKeepsOthers` | src/blux/bvs.py:50-53 | the swap changes only positions 3, 4, 7 and 9 |
| `Bvs.SwapBvChars` | src/blux/bvs.py:50-53 | the in-place swap leaves the array holding the swapped string |
| `Bvs.QuotOfNineDigits` | src/blux/bvs.py:61-65 | for a 9-digit base-58 number the loop's quotient is non-zero exactly for the first 9 steps, so the loop writes 9 digits and stops above index 3 |
| `Bvs.Digits58` | src/blux/bvs.py:61-65 | the loop writes exactly k digits, each below 58; `Bvs.ValueOfDigits` and `Bvs.DigitsOfValue` show they are the base-58 representation of n mod 58^k |
| `Bvs.ValueOfDigits` | src/blux/bvs.py:61-65 | the k base-58 digits written by the loop read back as n mod 58^k |
| `Bvs.DigitsOfValue` | src/blux/bvs.py:75-77 | reading digits back and writing them again gives the same digits |
| `Bvs.LettersOfPositions` | src/blux/bvs.py:77 | mapping alphabet characters to positions and back restores the string |
| `Bvs.PositionsOfLetters` | src/blux/bvs.py:63 | mapping digits to characters and back restores the digits |
| `Bvs.CheckAidRange` | src/blux/bvs.py:23-25 | passes iff 1 ≤ aid < 2^51; otherwise fails naming the aid |
| `Bvs.CheckBvFormat` | src/blux/bvs.py:28-34 | passes iff the length is 12 and the upper-cased prefix is "BV1"; fails with the empty, length or prefix error in that order |
| `Bvs.CheckBvChars` | src/blux/bvs.py:37-40 | passes iff every character is in `REV`; otherwise reports the first bad character |
| `Bvs.CheckBvIntLen` | src/blux/bvs.py:43-47 | passes iff the number has exactly 52 bits; otherwise reports its bit length |
| `Bvs.Encode` | src/blux/bvs.py:56-67 | succeeds iff 1 ≤ aid < 2^51, else the range error |
| `Bvs.Decode` | src/blux/bvs.py:70-81 | every decoded aid lies in [1, 2^51) |
| `Bvs.ConstantsAgree` | src/blux/bvs.py:9-13 | MAX_AID = 2^51 = MASK_CODE + 1, and XOR_CODE < 2^51 |
| `Bvs.Tmp` | src/blux/bvs.py:60 | specification of `(MAX_AID OR aid) XOR XOR_CODE`; characterised by `Bvs.TmpRange`, `Bvs.UnmaskTmp` and `Bvs.TmpUnmask` |
| `Bvs.Unmask` | src/blux/bvs.py:79 | specification of `(bv_int & MASK_CODE) ^ XOR_CODE`; `Bvs.UnmaskTmp` and `Bvs.TmpUnmask` show it inverts `Bvs.Tmp` on valid aids and 52-bit numbers |
| `Bvs.BvNumber` | src/blux/bvs.py:73-77 | specification of the number read from characters 3 to 11 of the swapped string; `Bvs.NumberOfSwapped` gives its value, and `Bvs.DecodeRejectsWidth` and `Bvs.DecodeRejectsZero` use it |
| `Bvs.NumberOfSwapped` | src/blux/bvs.py:73-77 | reading back a swapped string gives the base-58 value of the positions of its characters 3 to 11 |
| `Bvs.TmpRange` | src/blux/bvs.py:60 | `(MAX_AID OR aid) XOR XOR_CODE` has exactly 52 bits and exactly 9 base-58 digits |
| `Bvs.UnmaskTmp` | src/blux/bvs.py:79 | masking and XOR-ing the encoder's number restores the aid |
| `Bvs.TmpUnmask` | src/blux/bvs.py:79 | every 52-bit number is the encoder's number of its unmasked aid |
| `Bvs.EncodedPassesGuards` | src/blux/bvs.py:58-67 | the encoded string has length 12, the prefix "BV1" and only alphabet characters |
| `Bvs.RoundTrip` | src/blux/bvs.py:56-81 | for 1 ≤ aid < 2^51, `bv_to_av(av_to_bv(aid)) == aid` |
| `Bvs.DecodeCanonical` | src/blux/bvs.py:70-81 | a decodable string re-encodes to itself with the prefix written "BV1" |
| `Bvs.DecodeRejectsFormat` | src/blux/bvs.py:28-34 | empty input, a length other than 12, and a prefix other than "BV1" (ignoring case) raise their errors |
| `Bvs.DecodeRejectsChar` | src/blux/bvs.py:37-40 | a well-formed string with a character outside the alphabet raises the bad-character error |
| `Bvs.DecodeRejectsWidth` | src/blux/bvs.py:43-47 | a decoded number without exactly 52 bits raises the bit-length error |
| `Bvs.DecodeRejectsZero` | src/blux/bvs.py:79-80 | a 52-bit number fails the final range check iff its unmasked aid is 0 |
| `Bvs.DecodeIgnoresPrefixCase` | src/blux/bvs.py:33 | strings that differ only in the case of the prefix decode alike |
| `Bvs.FirstBadCharUnique` | src/blux/bvs.py:38-40 | the reported bad character is the first one |
| `Bvs.AvToBv` | src/blux/bvs.py:56-67 | the digit-writing loop and the swap compute `Encode` |
| `Bvs.EncodeInRange` | src/blux/bvs.py:58-66 | a valid aid encodes as the swapped "BV1" followed by 9 alphabet digits of its 52-bit number |
| `Bvs.BvToAv` | src/blux/bvs.py:70-81 | the guards, the swap and the digit-reading loop compute `Decode` |
| `BvsVectors.Vector100` | src/blux/bvs.py:98 | 100 and "BV1xx411c7mW" encode and decode to each other |
| `BvsVectors.Vector10000` | src/blux/bvs.py:99 | 10000 and "BV1bx411c7ux" encode and decode to each other |
| `BvsVectors.Vector10000000` | src/blux/bvs.py:100 | 10000000 and "BV1Ex411U7PA" encode and decode to each other |
| `BvsVectors.Vector115519722102585` | src/blux/bvs.py:101 | 115519722102585 and "BV1MKk9BTE1E" encode and decode to each other |
| `BvsVectors.Vector115626945283535` | src/blux/bvs.py:102 | 115626945283535 and "BV1QMSjBREzr" encode and decode to each other |
| `BvsVectors.RejectsEmpty` | src/blux/bvs.py:29-30 | the empty string is rejected as empty |
| `BvsVectors.RejectsShort` | src/blux/bvs.py:31-32 | an 11-character string is rejected for its length |
| `BvsVectors.RejectsPrefix` | src/blux/bvs.py:33-34 | "AV1…" is rejected for its prefix |
| `BvsVectors.AcceptsLowerPrefix` | src/blux/bvs.py:33 | "bv1xx411c7mW" decodes to 100 |
| `PyStr.Strip` | src/blux/text_doc.py:87 | `strip()` is empty iff the string is all whitespace; otherwise it starts and ends with non-whitespace |
| `PyStr.StripNoOp` | src/blux/text_doc.py:87 | a string without surrounding whitespace strips to itself |
| `PyStr.SlicePrefix` | src/blux/text_doc.py:58 | `s[:n]` is a prefix of s of length min(n, len(s)), or len(s) + n (at least 0) for negative n |
| `PyStr.ParseInt` | src/blux/search.py:110 | specification of `int(str)`; `PyStr.ParseIntOfDecimalString` shows it reads back `str(i)` |
| `PyStr.DecimalString` | src/blux/wbi.py:109 | `str(i)` is non-empty and ends in a decimal digit; `PyStr.ParseIntOfDecimalString` shows it reads back as i |
| `PyStr.ParseIntOfDecimalString` | src/blux/search.py:110 | `int(str(i)) == i` for every integer |
| `PyStr.Less` | src/blux/wbi.py:105 | specification of Python's string `<`; `PyStr.LessIrreflexive`, `PyStr.LessTransitive` and `PyStr.LessTotal` make it a strict total order |
| `PyStr.LessIrreflexive` | src/blux/wbi.py:105 | no string is less than itself |
| `PyStr.LessTransitive` | src/blux/wbi.py:105 | the string order `sorted` uses is transitive |
| `PyStr.LessTotal` | src/blux/wbi.py:105 | distinct strings are ordered one way or the other |
| `TextDoc.Append` | src/blux/text_doc.py:93-95 | a part is appended after a single space, or alone when the sentence is empty |
| `TextDoc.BuildSentenceForMd5` | src/blux/text_doc.py:63-109 | specification of `build_sentence_for_md5`; characterised by `TextDoc.SentenceJoinsParts`, `TextDoc.SentenceEmpty`, `TextDoc.BlankFieldsGiveEmpty` and `TextDoc.DashDescOmitted` |
| `TextDoc.Sentence` | src/blux/text_doc.py:85-109 | the steps of `build_sentence_for_md5` on stripped fields; `TextDoc.SentenceJoinsParts` shows it is the space-join of the non-empty parts |
| `TextDoc.BuildSentenceOf` | src/blux/text_doc.py:6-60 | specification of `build_sentence`: the steps of `build_sentence_for_md5`, which its body repeats word for word, then the cut; `TextDoc.TruncatedSentence` and `TextDoc.NegativeMaxLen` state the cut |
| `TextDoc.Truncate` | src/blux/text_doc.py:57-58 | specification of the cut to `max_len`; characterised by `TextDoc.TruncatedSentence` and `TextDoc.NegativeMaxLen` |
| `TextDoc.SentenceJoinsParts` | src/blux/text_doc.py:85-109 | the sentence is the space-join of the non-empty parts 【owner】, title, (tags), desc, in that order |
| `TextDoc.SentenceEmpty` | src/blux/text_doc.py:85-109 | the sentence is empty iff owner, title and tags are empty and desc is empty or "-" |
| `TextDoc.BlankFieldsGiveEmpty` | src/blux/text_doc.py:85-109 | fields that are None, empty or whitespace give "" |
| `TextDoc.DashDescOmitted` | src/blux/text_doc.py:103-107 | a description that strips to "-" is treated as absent |
| `TextDoc.UntruncatedSentence` | src/blux/text_doc.py:57-60 | with `max_len` None or 0, `build_sentence` equals `build_sentence_for_md5`; this holds by definition, since the two source bodies build the sentence identically |
| `TextDoc.TruncatedSentence` | src/blux/text_doc.py:57-58 | with a positive `max_len` the result is a prefix of the sentence of length at most `max_len`, and the whole sentence when it fits |
| `TextDoc.NegativeMaxLen` | src/blux/text_doc.py:57-58 | a negative `max_len` drops that many trailing characters (slice semantics) |
| `TextDoc.CalcMd5` | src/blux/text_doc.py:112-135 | the hash tag is no longer than the digest |
| `TextDoc.Md5OfSentence` | src/blux/text_doc.py:132-135 | the tag depends only on the md5 sentence, and is the digest's first `chars_length` characters |
| `TextDoc.TextDocItem.constructor` | src/blux/text_doc.py:138-147 | the fields hold the given values; sentence and hash start empty |
| `TextDoc.TextDocItem.CalcMd5Hash` | src/blux/text_doc.py:159-166 | stores `calc_md5` of the fields in `md5_hash`, returns it and changes nothing else |
| `TextDoc.TextDocItem.BuildSentence` | src/blux/text_doc.py:168-176 | stores `build_sentence` of the fields in `sentence`, returns it and changes nothing else |
| `Search.IndexOf` | src/blux/search.py:102 | the index of the first occurrence of a character, or the length when absent |
| `Search.TagAt` | src/blux/search.py:102 | specification of a match of `<[^>]+>` at a position; `Search.NoTagAfterStrip` and `Search.StripTagFree` use it |
| `Search.TagEnd` | src/blux/search.py:102 | the end of a tag is its first `>`, at least two characters after the `<` |
| `Search.StripTags` | src/blux/search.py:102 | removing tags never lengthens the text |
| `Search.StripHtmlTags` | src/blux/search.py:98-102 | None and "" come back unchanged; any other text comes back no longer and with no tag left |
| `Search.NoTagAfterStrip` | src/blux/search.py:102 | no `<` followed by non-`>` characters and a `>` survives the substitution |
| `Search.StripTagFree` | src/blux/search.py:102 | text without tags is unchanged |
| `Search.StripIdempotent` | src/blux/search.py:102 | stripping twice is stripping once |
| `Search.StripSubsequence` | src/blux/search.py:102 | the result keeps the remaining characters in their order |
| `Search.StripKeepsOut` | src/blux/search.py:102 | stripping introduces no character that was absent |
| `Search.StripPlain` | src/blux/search.py:102 | a prefix without `<` is kept verbatim |
| `Search.StripTagPrefix` | src/blux/search.py:102 | a leading tag is deleted whole |
| `Search.StripHighlight` | src/blux/search.py:102 | text with one highlighted span keeps the plain text around and inside it |
| `Search.StripsKeywordTitle` | src/blux/test_search.py:70-73 | the keyword-highlighted title becomes 【红警08】测试 |
| `Search.StripsLeadingTag` | src/blux/test_search.py:74-77 | a leading highlight becomes 教父 The Godfather |
| `Search.KeepsPlainText` | src/blux/test_search.py:78 | text without tags is returned unchanged |
| `Search.KeepsFalsy` | src/blux/test_search.py:79-80 | "" and None are returned unchanged |
| `Search.TruncateTowardZero` | src/blux/search.py:110 | `int(float)` truncates toward zero |
| `Search.IntOf` | src/blux/search.py:110 | specification of `int(value)`; `Search.SafeInt`, `Search.SafeIntOfInt` and `Search.SafeIntOfFloat` state what it gives |
| `Search.SafeInt` | src/blux/search.py:105-112 | the default for None or an unconvertible value, the converted integer otherwise |
| `Search.SafeIntOfInt` | src/blux/search.py:105-112 | an int and its decimal string both convert to the int |
| `Search.SafeIntDefaults` | src/blux/search.py:107-112 | None, a non-numeric string and a list give the default |
| `Search.SafeIntOfFloat` | src/blux/search.py:110 | a float converts to its truncation toward zero |
| `Search.ItemParser` | src/blux/search.py:562-572 | only the nine listed string result types have a parser |
| `Search.Elements` | src/blux/search.py:580 | a list is iterated over its elements |
| `Search.Truthies` | src/blux/search.py:580 | the `if item` filter keeps only truthy elements and never lengthens the list |
| `Search.ParseAll` | src/blux/search.py:580 | specification of the comprehension; characterised by `Search.ParseAllSucceeds` and `Search.ParseAllItems` |
| `Search.ParseResultItems` | src/blux/search.py:575-580 | specification of `parse_result_items`; characterised by `Search.UnknownTypeKeepsData`, `Search.KnownTypeParsesList`, `Search.NonDictRejected` and `Search.NonTextFieldRejected` |
| `Search.TruthiesSubsequence` | src/blux/search.py:580 | the kept elements are in their original order, and all of them when all are truthy |
| `Search.TruthyKept` | src/blux/search.py:580 | every truthy element is kept |
| `Search.AllParseableCons` | src/blux/search.py:580 | `from_dict` accepts a list iff it accepts its head and every element of its tail |
| `Search.ParseAllSucceeds` | src/blux/search.py:580 | the comprehension succeeds iff every truthy element is a dict whose `strip_html_tags` fields (`StrippedKeys`) hold a string or a falsy value |
| `Search.ParseAllItems` | src/blux/search.py:580 | one item per truthy element, in order, built from that element |
| `Search.UnknownTypeKeepsData` | src/blux/search.py:577-579 | a type without a parser returns the data list unchanged |
| `Search.KnownTypeParsesList` | src/blux/search.py:575-580 | a known type parses a list whose truthy elements are parseable dicts into one item per truthy element |
| `Search.TruthiesParseable` | src/blux/search.py:580 | if every truthy element is parseable, so is every kept element |
| `Search.NonDictRejected` | src/blux/search.py:580 | a truthy non-dict element of a known type's list is an error |
| `Search.BadField` | src/blux/search.py:98-102 | the first stripped field whose value is a truthy non-string, and none iff every stripped field holds a string or a falsy value |
| `Search.NonTextFieldRejected` | src/blux/search.py:102 | a truthy dict element whose stripped field holds a truthy non-string is an error for a known type |
| `Search.NumericTitleRejected` | src/blux/search.py:151-156 | a video with the title 1 raises the `TypeError` of `re.sub` on its title |
| `Search.AttrOf` | src/blux/search.py:649-659 | a result type has an attribute iff it has a parser |
| `Search.WithList` | src/blux/search.py:668-670 | setting one attribute's list changes no other list and not `other_results` |
| `Search.ParseGroup` | src/blux/search.py:660-672 | one turn of the loop of `SearchAllResult._parse_results`; characterised by `Search.SkippedGroupsChangeNothing`, `Search.KnownGroupStored` and `Search.UnknownGroupKept` |
| `Search.ParseGroups` | src/blux/search.py:660-672 | the whole loop; `Search.ParseGroupsAppend` and `Search.LastGroupWins` characterise it and `Search.SearchAllResult.ParseResults` is proved against it |
| `Search.SearchAllResult.constructor` | src/blux/search.py:634-643 | all nine lists and `other_results` start empty |
| `Search.SearchAllResult.SetList` | src/blux/search.py:670 | `setattr` replaces exactly one list |
| `Search.SearchAllResult.ParseResults` | src/blux/search.py:647-672 | the loop leaves the fields and outcome that `ParseGroups` specifies |
| `Search.SkippedGroupsChangeNothing` | src/blux/search.py:660-666 | non-dict groups and groups with empty data change nothing |
| `Search.ParseGroupsAppend` | src/blux/search.py:660-672 | parsing two runs of groups is parsing the first, then the second from its result |
| `Search.KnownGroupStored` | src/blux/search.py:667-670 | a known group's items are stored in its mapped attribute |
| `Search.LastGroupWins` | src/blux/search.py:660-670 | a later group of a known type overwrites what an earlier one stored |
| `Search.UnknownGroupKept` | src/blux/search.py:671-672 | an unknown type's data goes to `other_results` under its type, the lists unchanged |
| `Search.SearchTypeResult.constructor` | src/blux/search.py:716-731 | the search type is kept and `items` starts empty |
| `Search.ParseTyped` | src/blux/search.py:733-750 | specification of `SearchTypeResult._parse_results`; characterised by `Search.LiveItemsJoined`, `Search.UnusableResultIgnored` and `Search.TypedListParsed`, and `Search.SearchTypeResult.ParseResults` is proved against it |
| `Search.SearchTypeResult.ParseResults` | src/blux/search.py:733-750 | the method leaves the fields and outcome that `ParseTyped` specifies |
| `Search.LiveItemsJoined` | src/blux/search.py:740-746 | for live search, items are the live rooms followed by the live users |
| `Search.UnusableResultIgnored` | src/blux/search.py:735-749 | a missing result, a non-dict live result or a non-list other result leaves everything unchanged |
| `Search.TypedListParsed` | src/blux/search.py:749-750 | a list result is parsed with the search type's parser into `items` |
| `Search.PutIf` | src/blux/search.py:897-912 | a conditional insertion sets the key when the condition holds and leaves it alone otherwise |
| `Search.PutIfGet` | src/blux/search.py:897-912 | a conditional insertion sets its key iff the condition holds and leaves every other key alone |
| `Search.BaseParams` | src/blux/search.py:890-894 | exactly `keyword`, `search_type` and `page` are present |
| `Search.SearchParams` | src/blux/search.py:890-912 | specification of the parameters built before `extra_params`; characterised key by key by `Search.SearchParamsGet` |
| `Search.SearchParamsGet` | src/blux/search.py:890-912 | `keyword`, `search_type` and `page` hold their arguments; `order`, `duration`, `tids`, `order_sort`, `user_type` and `category_id` are present, with their argument, iff that argument is truthy; no other key is present |
| `Search.UpdateOverrides` | src/blux/search.py:914 | `update` gives every extra key its extra value and keeps the others |
| `Search.TypeSearchParams` | src/blux/search.py:888-914 | every key of `extra_params` has its extra value (they are added after the built ones, whose names `**extra_params` cannot carry); every other key has the value the conditional builder gives |
| `Dicts.Get` | src/blux/wbi.py:75-78 | a key is found iff it is a key of the dict, with a value stored under it |
| `Dicts.Set` | src/blux/wbi.py:102 | `d[k] = v` adds k to the keys, maps k to v and leaves every other key alone |
| `Dicts.SetKeepsUnique` | src/blux/wbi.py:102 | assignment keeps keys unique |
| `Dicts.Update` | src/blux/search.py:914 | the keys of `update` are the union, and extra values win |
| `Dicts.SortByKey` | src/blux/wbi.py:105 | `sorted(items())` is a permutation of the entries |
| `Dicts.SortByKeySorted` | src/blux/wbi.py:105 | with unique keys, the sorted entries are in strictly increasing key order |
| `Dicts.SortByKeyOrderIndependent` | src/blux/wbi.py:105 | dicts with the same entries in any insertion order sort to the same sequence |
| `Dicts.SortByKeyGet` | src/blux/wbi.py:105 | sorting keeps the keys and every key's value |
| `Dicts.SortedSameMembers` | src/blux/wbi.py:105 | two key-sorted sequences with the same members are equal |
| `Wbi.MagicKeysPermutation` | src/blux/wbi.py:47-52 | `MAGIC_KEYS` has 64 pairwise distinct entries below 64 and contains every position below 64 |
| `Wbi.Pick` | src/blux/wbi.py:64 | the fold succeeds iff every key indexes the text; character k is `text[keys[k]]` |
| `Wbi.MagicKey` | src/blux/wbi.py:62-64 | defined iff the text has at least 64 characters; then 32 characters long, character i being `text[MAGIC_KEYS[i]]` |
| `Wbi.MagicKeyDistinctPositions` | src/blux/wbi.py:62-64 | the 32 characters come from pairwise distinct positions |
| `Wbi.BeforeFirst` | src/blux/wbi.py:80 | `split(".")[0]` is the longest prefix without a dot |
| `Wbi.AfterLast` | src/blux/wbi.py:80 | `rsplit("/", 1)[1]` exists iff the text has a slash, and is the suffix after the last one |
| `Wbi.KeyOfUrl` | src/blux/wbi.py:80-81 | a key exists iff the URL has a slash, and contains neither slash nor dot |
| `Wbi.AfterLastOfParts` | src/blux/wbi.py:80 | after `dir/segment` with a slash-free segment, the last segment is that segment |
| `Wbi.BeforeFirstOfParts` | src/blux/wbi.py:80 | a dot-free key followed by a dotted extension yields the key |
| `Wbi.KeyOfUrlOfParts` | src/blux/wbi.py:80-81 | `dir/key.ext` yields exactly the key |
| `Wbi.Lookup` | src/blux/wbi.py:75-78 | subscripting succeeds iff the value is a dict holding the key, else TypeError or KeyError |
| `Wbi.WbiUrls` | src/blux/wbi.py:75-78 | specification of the lookups of `data["data"]["wbi_img"]`, `img_url` and `sub_url`; `Wbi.Fetch` and `Wbi.FetchStoresKeys` state what a successful lookup leads to |
| `Wbi.KeyOf` | src/blux/wbi.py:80-81 | extraction succeeds iff the URL is a string with a slash, else AttributeError or IndexError |
| `Wbi.Fetch` | src/blux/wbi.py:66-82 | on success both keys are cached and returned; on failure `sub_key` is unchanged; cached keys never contain slash or dot |
| `Wbi.FetchStoresKeys` | src/blux/wbi.py:75-82 | well-formed URLs yield and cache their keys |
| `Wbi.StrOf` | src/blux/wbi.py:109 | `str(v)` is the string itself for a string, and reads back as the int for an int |
| `Wbi.Serialize` | src/blux/wbi.py:109 | a dict becomes its JSON with the spaces removed; anything else becomes `str(v)` |
| `Wbi.SerializeAll` | src/blux/wbi.py:108-111 | the comprehension keeps the keys in order and serialises each value |
| `Wbi.SerializeAllGet` | src/blux/wbi.py:108-111 | serialising keeps the keys, and each key's value is the serialised original |
| `Wbi.Canonical` | src/blux/wbi.py:101-105 | specification of copying, adding `wts` and sorting; characterised by `Wbi.CanonicalSorted` and `Wbi.CanonicalGet` |
| `Wbi.Query` | src/blux/wbi.py:113 | specification of `urlencode(signed, quote_via=quote)`, the string `w_rid` hashes (`Wbi.SignedContents`) |
| `Wbi.SignedParams` | src/blux/wbi.py:101-116 | specification of the signed dict; characterised by `Wbi.SignedContents`, `Wbi.SignedOrder` and `Wbi.SignOrderIndependent` |
| `Wbi.CanonicalSorted` | src/blux/wbi.py:101-105 | the copied, timestamped dict is sorted by key |
| `Wbi.CanonicalGet` | src/blux/wbi.py:101-105 | its keys are the original keys plus `wts`; `wts` holds the timestamp and every other key its original value |
| `Wbi.SerializedGet` | src/blux/wbi.py:101-111 | the same keys after serialisation, each holding the serialised value |
| `Wbi.SignedContents` | src/blux/wbi.py:101-116 | the signed dict holds every original key plus `wts` and `w_rid`; `w_rid` is the MD5 of query plus magic key; `wts` reads back as the timestamp; other keys hold their serialised values |
| `Wbi.SignedOrder` | src/blux/wbi.py:105-115 | without a `w_rid` parameter, the signed dict is the key-sorted serialised dict with `w_rid` appended last |
| `Wbi.SignOrderIndependent` | src/blux/wbi.py:101-115 | the same parameters in any insertion order sign identically |
| `Wbi.SignSpec` | src/blux/wbi.py:84-116 | specification of `sign`; characterised by `Wbi.SignUsesCache`, `Wbi.SignFetchesMissing` and `Wbi.SignReproducible`, and `Wbi.WbiSigner.Sign` is proved against it |
| `Wbi.SignUsesCache` | src/blux/wbi.py:96-99 | with both keys cached, nothing is fetched, the cache is unchanged and the navigation response is irrelevant |
| `Wbi.SignFetchesMissing` | src/blux/wbi.py:96-97 | with a key missing, the keys are fetched and cached first |
| `Wbi.SignReproducible` | src/blux/test_search.py:57-59 | signing the same parameters twice with the same `wts` gives the same `w_rid`, whatever the clock says |
| `Wbi.WbiSigner.constructor` | src/blux/wbi.py:57-60 | both keys start as None |
| `Wbi.WbiSigner.FetchWbiKeys` | src/blux/wbi.py:66-82 | the fields and result are those `Fetch` specifies |
| `Wbi.WbiSigner.Sign` | src/blux/wbi.py:84-116 | the fields and result are those `SignSpec` specifies |

## Left out

- Floating point: the scorer is modelled over `real`, so IEEE-754 rounding and the tests'
  tolerance checks are not captured.
- Comparisons that depend on concrete values of `ln` and `sqrt` are not captured either
  (two-field vs one-field anomalies, quality tiers, which decay is steeper).
- `log1p`, `expm1`, `log` and `sqrt` are known only through `DocScore.Lawful` and
  `DocScore.Inverse`.
- DocScore.Saturate: requires `alpha > 0`, which holds for every configured alpha (`ConfigValid`), the only alphas the scorer passes.
- Stat counters are real numbers: the type errors Python would raise for a string counter
  are not modelled.
- Network I/O is not modelled:
  - `BiliSearcher`'s session, cookies and `_ensure_cookies`;
  - `search_all`, the HTTP request in `search_by_type`, and the `search_*` wrappers;
  - the request and `raise_for_status` in `fetch_wbi_keys`.

  The navigation response is a `PyValue.Value` parameter of `Fetch` and `Sign`.
- `_build_signed_params` and `DmImgParams` are not modelled: the dm_img parameters depend on
  `random.random()`.
- The clock is the `now` parameter of `Sign`: `round(time.time())` is not modelled.
- The request headers and referer are not modelled.
- MD5, `json.dumps`, percent-quoting and `repr` are fields of `Wbi.Library`, known only
  through their types.
- `summary()`, the `ok` properties, `log_sentence` and every `tclogger` call are
  presentation or logging. None of them is modelled.
- The item classes' `from_dict` field copying is not modelled: an item records its kind and
  its source entries. What decides success is modelled (`Search.ParseAllSucceeds`): the
  element must be a dict, and each field `from_dict` passes to `strip_html_tags` (`title`;
  `title` and `org_title` for media; `uname` for live users; none for users) must hold a
  string or a falsy value, or `re.sub` raises `TypeError`. The stripped values themselves are
  not stored in the item.
- `PageInfo` is not modelled, and neither are the `SearchAllResult` and `SearchTypeResult`
  fields other than the result lists (`code`, `message`, `seid`, `page`, …).
- `TextDocItem.from_doc` (through `tclogger.dict_get`) is not modelled.
- Only ASCII case folding is modelled: `Bvs.Upper` upper-cases ASCII letters only.
- PyStr.ParseInt: accepts only the ASCII digits 0-9 (with surrounding whitespace, a sign and
  single underscores between digits, as `int(str)` does); the non-ASCII Unicode decimal digits
  `int` also accepts, such as fullwidth `１２`, are not modelled.
- PyStr.ParseInt: has no digit limit. CPython's `int(str)` raises `ValueError` for a string of
  more than 4300 digits under its default `sys.set_int_max_str_digits` setting, which can be
  changed at run time; the model is the unlimited setting (0).
- Search.IntOf: follows `PyStr.ParseInt`, so a numeric string of more than 4300 digits parses
  here where `int(value)` raises `ValueError` under the default limit.
- Search.SafeInt: for the same strings returns the parsed value where `safe_int` catches the
  `ValueError` and returns the default.
- Wbi.StrOf: has no digit limit either. `str(v)` of an int with more than 4300 digits raises
  `ValueError` under CPython's default limit, so for such a parameter `Wbi.Serialize`,
  `Wbi.SignedParams` and `Wbi.SignSpec` sign where `sign` raises.
- A float infinity makes `int()` raise OverflowError, which `safe_int` does not catch. Floats
  are finite reals here, so this case is not modelled.
- Dict keys in `other_results` are compared structurally: Python's `1 == 1.0 == True`
  key identity is not modelled.
- Enum arguments to `search_by_type` are given by their values.
- Search.TypeSearchParams: requires `extra_params` to have unique keys, which every Python `**kwargs` dict has.
- Wbi.SignedContents: requires unique keys in `params`, which every Python dict has. The same holds for `Wbi.CanonicalSorted`, `Wbi.CanonicalGet`, `Wbi.SerializedGet`, `Wbi.SignedOrder` and `Wbi.SignOrderIndependent`.
- `sign` copying rather than mutating the caller's `params` is not a separate property. It
  follows from value semantics: `Sign` takes `params` by value.
