# TKD bracket generator: seeding and bracket structure

This project models the core of a small tournament-draw tool that turns a list
of competitor names into a printable single-elimination bracket. The model
covers:

- the seeding helpers: the next power of two, padding the list with `"BYE"`
  entries at the end, and the number of rounds;
- the cleaning of the name list and the rejection of fewer than two
  competitors;
- the round-by-round construction of the bracket. Round 0 has one box per
  seed. Each later round pairs entries `2i` and `2i + 1` of the round before,
  and a lone trailing entry is paired with itself;
- the label, bold and colour rules of each box, and the rule that shortens a
  label that is too long for its box.

Each drawn box is modelled as a record: its round, its slot, the slots of the
previous round it is joined to, the label handed to the drawing routine and the
text actually printed, its palette index, bold, and alignment. Coordinates are
not modelled.

Files:

- `seeding.dfy` (module `Seeding`): `next_power_of_two`, `seed_with_byes`,
  `rounds_for`, and the facts about powers of two they rest on.
- `names.dfy` (module `Names`): Python's `str.strip()` and the cleaning
  comprehension at the top of `make_bracket_pdf`.
- `truncation.dfy` (module `Truncation`): the label-shortening rule of
  `BracketPDF.box`, including Python's negative-slice behaviour.
- `bracket.dfy` (module `Bracket`): the box record, a reference definition of
  every box (`ExpectedBox`), the method `MakeBracket` with its round loops
  (`SeedRound`, `NextRound`), and the lemmas about the shape of the result.

`MakeBracket` is proved to build exactly the boxes `ExpectedBox` describes
(`IsBracketFor`). The lemmas then derive what any such bracket satisfies:
round sizes `size / 2^r`, one box in the final round, `2 * size - 1` boxes in
all, parent slot `j / 2`, the labels and colours, and uniqueness.

Notes on the model:

- Python integers are unbounded, so `int`/`nat` model them exactly.
  `next_power_of_two` and `rounds_for` are modelled on all of `int`, negatives
  included. `bit_length` of a negative number is that of its absolute value.
  `rounds_for` returns 0 for a size of zero or less.
- `rounds_for` uses the floating-point `math.log2`. The model is the exact
  floor of log2. The two agree on powers of two, which are the only values
  the bracket code passes.
- The whitespace removed by `str.strip()` is the set of characters for which
  Python's `str.isspace()` holds, listed in `Names.SpaceChars`.
- The ellipsis appended by the truncation rule is one constant,
  `Truncation.Ellipsis`, held as the single character U+2026. The literal in
  app.py:63 reads as a mis-encoded form of that character. `TruncateSpec`
  states the length of a shortened label in terms of `|Ellipsis|`.
- The label limit `max_chars` is an integer parameter of `MakeBracket`. The
  source computes it from the box width in floating point. Every box in a
  bracket has the same width, so one limit serves all of them.
- The palette has five entries. Round 0 uses index `min(0, 3)` and round
  `r >= 1` uses `min(r, 4)`. So the final round gets the grey "Final" entry
  only when there are at least four rounds after round 0.

## Model

| member | source | states |
|---|---|---|
| `Seeding.BitLength` | app.py:12 | `int.bit_length()`: 0 exactly for 0; otherwise `2^(b-1) <= abs(x) < 2^b` |
| `Seeding.NextPowerOfTwo` | app.py:11-12 | returns 1 for n = 0; for n >= 1 the result p satisfies `n <= p < 2n` |
| `Seeding.NextPowerOfTwoIsLeast` | app.py:11-12 | for n >= 1 the result is a power of two, is at least n, and no smaller power of two is at least n |
| `Seeding.NextPowerOfTwoOfPower` | app.py:11-12 | a power of two is its own next power of two |
| `Seeding.SeedWithByes` | app.py:14-20 | the result has length `next_power_of_two(len(names))`, starts with the names in order, and every later entry is `"BYE"` |
| `Seeding.SeedWithByesOfPower` | app.py:18-19 | when the list length is already a power of two, the result is the list itself |
| `Seeding.SeedWithByesIsPower` | app.py:14-20 | the padded list always has a power-of-two length |
| `Seeding.RoundsFor` | app.py:22-24 | 0 for size <= 0; for size >= 1 the result r satisfies `2^r <= size < 2^(r+1)` |
| `Seeding.RoundsForPower` | app.py:22-24 | for a power of two, `2^rounds_for(size) == size` |
| `Seeding.RoundsForPow2` | app.py:22-24 | `rounds_for(2^k) == k` |
| `Names.IsSpace` | app.py:73 | the whitespace of Python's `str.isspace()`: blank, tab, newline and carriage return are whitespace, and no printable ASCII character is |
| `Names.LeadingSpaces` | app.py:73 | the count of leading whitespace of a string: all of those characters are whitespace and the next one is not |
| `Names.TrailingSpaces` | app.py:73 | the count of trailing whitespace of a string: all of those characters are whitespace and the one before them is not |
| `Names.StripEnd` | app.py:73 | the end of the stripped text never lies before its start nor past the string |
| `Names.Strip` | app.py:73 | Python's `str.strip()`: the text between the leading and the trailing whitespace, never longer than the input and with no whitespace at either end |
| `Names.StripSpec` | app.py:73 | everything cut off by `strip()` on either side is whitespace |
| `Names.StripIsStripped` | app.py:73 | the stripped text neither begins nor ends with whitespace |
| `Names.StripGivesCleanName` | app.py:73 | a non-empty stripped name is a clean name |
| `Names.StripEmpty` | app.py:73 | a string strips to empty exactly when it is all whitespace (both directions) |
| `Names.StripStripped` | app.py:73 | stripping leaves a string without whitespace ends unchanged |
| `Names.StripIdempotent` | app.py:73 | stripping twice equals stripping once |
| `Names.Clean` | app.py:73 | every cleaned name is stripped and non-empty; no name is added |
| `Names.CleanStep` | app.py:73 | the cleaned list is what the first name leaves (its strip, unless that is empty) followed by the cleaned rest |
| `Names.CleanAppend` | app.py:73 | cleaning goes name by name in order: it distributes over concatenation |
| `Names.CleanMembers` | app.py:73 | a name is in the cleaned list exactly when it is the non-empty strip of some input name |
| `Names.CleanOfCleanNames` | app.py:73 | a list of clean names is left unchanged |
| `Names.CleanIdempotent` | app.py:73 | cleaning twice equals cleaning once |
| `Truncation.PrefixSlice` | app.py:63 | Python's `t[:k]` is a prefix of t: of length k for `0 <= k <= len(t)`, t itself for `k > len(t)`, and of length `max(0, len(t) + k)` for negative k |
| `Truncation.Truncate` | app.py:61-63 | the shortening rule: a label of at most `max_chars` characters is unchanged; a longer one ends with the ellipsis |
| `Truncation.TruncateSpec` | app.py:60-63 | a label of at most `max_chars` characters is unchanged; a longer one, for `max_chars >= 1`, becomes its first `max_chars - 1` characters followed by the ellipsis |
| `Truncation.TruncateNonPositiveLimit` | app.py:62-63 | for `max_chars <= 0` the negative slice index counts from the end of the label |
| `Truncation.TruncateIsPrefix` | app.py:60-63 | the printed text is the label, or a prefix of it plus the ellipsis exactly when it was too long; for `max_chars >= 1` it is at most `max_chars - 1 + len(ellipsis)` long, which is `max_chars` with the one-character ellipsis |
| `Truncation.TruncateIdempotent` | app.py:60-63 | truncating a truncated label with the same positive limit changes nothing |
| `Bracket.RoundSize` | app.py:126-162 | the box count of round r when round 0 has n, each round halving the one before and rounding up as the pairing loop does: never more than n, and at least 1 when n is |
| `Bracket.ColourIndex` | app.py:116-157 | the palette index of round r (app.py:117 for round 0, app.py:155 after): inside the 5-entry palette and at most r, so 0 for round 0; rounds 1 to 4 get entry r and every later round the last entry |
| `Bracket.SeedBox` | app.py:116-117 | seed box i: round 0, slot i, the i-th seed as its label and the truncated seed as its printed text, palette index 0, not bold |
| `Bracket.LaterBox` | app.py:133-157 | box i of round r: joined to slot 2i and to a slot inside the previous round, bold exactly in the final round |
| `Bracket.ExpectedBox` | app.py:116-157 | the box the page shows at (round r, slot i): it carries that round and slot, with a palette index inside the palette |
| `Bracket.MakeBracket` | app.py:72-162 | fails with the ValueError "Need at least 2 competitors" exactly when fewer than 2 names survive cleaning; otherwise the seeds are the padded cleaned names, `2^rcount == size >= 2`, rcount is `rounds_for(size)`, and rounds 0..rcount hold exactly the expected boxes |
| `Bracket.SeedRound` | app.py:111-123 | round 0 has one box per seed, box i showing seed i, left-aligned, not bold, palette index 0 |
| `Bracket.NextRound` | app.py:126-162 | a later round has `ceil(len(prev) / 2)` boxes; box i is joined to slots 2i and 2i+1 of prev, or to 2i twice when 2i+1 is out of range, with the caption, bold and colour rules of its round |
| `Bracket.FirstRoundAsExpected` | app.py:111-123 | the seed round alone is a correct start of the bracket |
| `Bracket.ExtendRoundsAsExpected` | app.py:126-162 | appending the round built from the last round keeps every round as expected |
| `Bracket.RoundSizeOfPower` | app.py:126-162 | when round 0 has `2^k` boxes, round r has `2^(k-r)` |
| `Bracket.TotalOfPrefix` | app.py:126-162 | when round r has `2^(rcount-r)` boxes, the first m rounds hold `2^(rcount+1) - 2^(rcount+1-m)` boxes |
| `Bracket.BracketShape` | app.py:116-162 | with `2^rcount` seeds, round r has `size / 2^r` boxes, the final round exactly one, and there are `2 * size - 1` boxes in all |
| `Bracket.BracketChildren` | app.py:133-140 | box i of a later round is joined to slot 2i of the previous round and to 2i+1 when that exists, else to 2i again; both are in range |
| `Bracket.BracketParentIsHalf` | app.py:133-140 | slot j of round r-1 is a child of box j/2 of round r and of no other box there (both directions) |
| `Bracket.BracketNoLoneEntries` | app.py:135-140 | in a power-of-two draw every later box is joined to the two distinct slots 2i and 2i+1 |
| `Bracket.BracketLabels` | app.py:116-157 | round 0 shows the seeds in order; rounds 1..rcount-1 say "Winner"; round rcount says "Champion"; bold exactly in round rcount; the printed text is the truncated label |
| `Bracket.BracketColours` | app.py:97-155 | every colour index lies in the 5-entry palette; round 0 uses 0, round r >= 1 uses `min(r, 4)` |
| `Bracket.BracketUnique` | app.py:72-162 | two brackets built for the same seeds and limit are equal, so building is deterministic |
| `Bracket.FiveNames` | app.py:72-162 | for any limit, the bracket built from five clean names has seeds the names plus three byes and rounds of 8, 4, 2 and 1 boxes; seed 5 meets the first bye in a "Winner" box, and the last box joins slots 0 and 1 and is the bold "Champion" |
| `Bracket.FiveSeeds` | app.py:72-76 | five clean names are kept as they are, padded with three byes to eight seeds, in three rounds |
| `Bracket.EightSeedBoxes` | app.py:116-162 | a bracket of eight seeds in three rounds has 8, 4, 2 and 1 boxes, with the joins, labels and bold of its boxes |
| `Bracket.TwoNames` | app.py:72-162 | for any limit, the bracket built from two clean names has those two as seeds and one later round, whose single box joins slots 0 and 1 and is the bold "Champion" |
| `Bracket.TwoSeeds` | app.py:72-76 | two clean names are kept as they are and get no byes, in one round |
| `Bracket.TwoSeedBoxes` | app.py:116-162 | a bracket of two seeds in one round has 2 and 1 boxes; the last joins slots 0 and 1 and is the bold "Champion" |

## Left out

- The Streamlit page, the upload and download flow, and the per-sheet error reporting (app.py:178-216): user interface and I/O.
- Reading the workbook with pandas and taking the first column as names (app.py:186-193): calls into a foreign library. The model starts from the list of names as strings, so `str(n)` is the identity.
- The separate "at least two names" check in the page code (app.py:196-198): it is part of the user interface. The check inside `make_bracket_pdf` is modelled.
- All drawing through FPDF: fonts and font-file lookup, the header, footer and title, rectangles, lines and text cells, the PDF bytes and their latin-1 encoding (app.py:29-58, 64-70, 105, 164-173): foreign calls and I/O. The connector lines are represented only by which slots each box is joined to.
- The float geometry: column width, box height, vertical gap, x and y positions, midpoints, the join line, and the float computation of `max_chars` (app.py:60, 82-94, 113-122, 130-160). These are floating-point numerics. `max_chars` is a parameter instead.
- The fill colour itself: a box stores its palette index, and the RGB triples appear only in the `Palette` constant.
- Page fit: the source never checks that the bracket fits the page, so the model has no sizing error either.
- Seeding.RoundsFor: stated as the exact floor of log2, without the floating-point rounding of `math.log2`. That rounding can differ only for sizes that are not powers of two, and the bracket code never passes such sizes.
- Truncation.TruncateIsPrefix: the bound `max_chars` on a shortened label relies on the ellipsis being the one character U+2026. Read literally as text, the literal at app.py:63 is three characters, and a shortened label would then be `max_chars + 2` long. The lemma also states the bound `max_chars - 1 + len(ellipsis)`, which holds for either reading.
- Names.IsSpace: the character list is taken from Python's `str.isspace()`. Unicode normalisation is not modelled, and nothing else is needed for stripping.
