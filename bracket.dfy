/** The structure of a single-elimination bracket page: which boxes are drawn in
    which round, what joins them, and how each is labelled and coloured.

    Coordinates are not modelled: each drawn box becomes a record of its round,
    its slot, the slots of the previous round it is joined to, its text and its
    fill colour. */
module Bracket {
  import opened Seeding
  import opened Names
  import opened Truncation

  datatype Rgb = Rgb(red: int, green: int, blue: int)

  /** The fill colours, one per round, the last for the final. */
  const Palette: seq<Rgb> := [
    Rgb(160, 196, 255),
    Rgb(255, 198, 255),
    Rgb(190, 255, 190),
    Rgb(255, 236, 179),
    Rgb(220, 220, 220)
  ]

  datatype Align = AlignLeft | AlignCenter

  /** Round-0 boxes stand alone; each later box is joined to two slots of the
      previous round (the same slot twice for a lone trailing entry). */
  datatype Children = Seed | Join(left: nat, right: nat)

  /** One drawn box: `text` is the label handed to the drawing routine,
      `shown` what it prints after shortening, `colour` an index into Palette. */
  datatype Box = Box(round: nat, slot: nat, children: Children, text: string,
                     shown: string, colour: nat, bold: bool, align: Align)

  /** The ValueError raised for fewer than two competitors, with its message. */
  datatype BracketError = ValueError(message: string)

  const TooFewCompetitors: BracketError := ValueError("Need at least 2 competitors")

  datatype Result<T> = Success(value: T) | Failure(error: BracketError)

  /** A built bracket: the padded seed list, the number of rounds after the
      first, and one sequence of boxes per round (0 .. roundCount). */
  datatype Layout = Layout(seeds: seq<string>, roundCount: nat, rounds: seq<seq<Box>>)

  function Min(a: int, b: int): int {
    if a < b then a else b
  }

  /** The number of boxes in round r when round 0 has n: pairing halves the
      count, rounding up for a lone trailing entry. */
  function RoundSize(n: nat, r: nat): (s: nat)
    ensures s <= n
    ensures n >= 1 ==> s >= 1
  {
    if r == 0 then n else (RoundSize(n, r - 1) + 1) / 2
  }

  /** The colour index of a box in round r. */
  function ColourIndex(r: nat): (c: nat)
    ensures c < |Palette| && c <= r
    ensures 1 <= r <= |Palette| - 1 ==> c == r
    ensures r >= |Palette| - 1 ==> c == |Palette| - 1
  {
    if r == 0 then Min(0, |Palette| - 2) else Min(r, |Palette| - 1)
  }

  /** Seed box i: the i-th seed, left-aligned, not bold, colour of round 0. */
  function SeedBox(seeds: seq<string>, maxChars: int, i: nat): (b: Box)
    requires i < |seeds|
    ensures b.round == 0 && b.slot == i && b.children == Seed && b.text == seeds[i]
    ensures b.shown == Truncate(b.text, maxChars) && b.colour == 0 && !b.bold
  {
    Box(0, i, Seed, seeds[i], Truncate(seeds[i], maxChars), ColourIndex(0), false, AlignLeft)
  }

  /** Box i of round r >= 1 when round r - 1 has prevCount boxes: joined to
      slots 2i and 2i + 1, or to 2i twice when 2i + 1 is out of range. */
  function LaterBox(prevCount: nat, rcount: nat, maxChars: int, r: nat, i: nat): (b: Box)
    ensures b.children.Join? && b.children.left == 2 * i
    ensures 2 * i < prevCount ==> b.children.right < prevCount
    ensures b.bold <==> r == rcount
  {
    var right := if 2 * i + 1 < prevCount then 2 * i + 1 else 2 * i;
    var caption := if r < rcount then "Winner" else "Champion";
    Box(r, i, Join(2 * i, right), caption, Truncate(caption, maxChars), ColourIndex(r), r == rcount, AlignCenter)
  }

  /** Box i of round r, as the page must show it when round 0 holds `seeds`
      and the last round is rcount. */
  function ExpectedBox(seeds: seq<string>, rcount: nat, maxChars: int, r: nat, i: nat): (b: Box)
    requires r > 0 || i < |seeds|
    ensures b.round == r && b.slot == i && b.colour < |Palette|
  {
    if r == 0 then SeedBox(seeds, maxChars, i)
    else LaterBox(RoundSize(|seeds|, r - 1), rcount, maxChars, r, i)
  }

  /** Each round present in rounds has the size RoundSize gives and holds
      exactly the expected boxes. */
  predicate RoundsAsExpected(rounds: seq<seq<Box>>, seeds: seq<string>, rcount: nat, maxChars: int) {
    (forall r :: 0 <= r < |rounds| ==> |rounds[r]| == RoundSize(|seeds|, r))
    && (forall r, i :: 0 <= r < |rounds| && 0 <= i < |rounds[r]| ==>
          rounds[r][i] == ExpectedBox(seeds, rcount, maxChars, r, i))
  }

  /** rounds is the whole bracket for seeds: rounds 0 .. rcount, each as
      expected. */
  predicate IsBracketFor(rounds: seq<seq<Box>>, seeds: seq<string>, rcount: nat, maxChars: int) {
    |rounds| == rcount + 1 && RoundsAsExpected(rounds, seeds, rcount, maxChars)
  }

  /** The seed round alone is a correct start. */
  lemma FirstRoundAsExpected(first: seq<Box>, seeds: seq<string>, rcount: nat, maxChars: int)
    requires |first| == |seeds|
    requires forall i :: 0 <= i < |seeds| ==> first[i] == SeedBox(seeds, maxChars, i)
    ensures RoundsAsExpected([first], seeds, rcount, maxChars)
  {
  }

  /** Appending the round built from the last one keeps every round as
      expected. */
  lemma ExtendRoundsAsExpected(rounds: seq<seq<Box>>, column: seq<Box>, seeds: seq<string>, rcount: nat, maxChars: int)
    requires |rounds| >= 1 && RoundsAsExpected(rounds, seeds, rcount, maxChars)
    requires |column| == (|rounds[|rounds| - 1]| + 1) / 2
    requires forall i :: 0 <= i < |column| ==>
               column[i] == LaterBox(|rounds[|rounds| - 1]|, rcount, maxChars, |rounds|, i)
    ensures RoundsAsExpected(rounds + [column], seeds, rcount, maxChars)
  {
    var next := rounds + [column];
    var last := |rounds| - 1;
    assert |rounds[last]| == RoundSize(|seeds|, last);
    forall q | 0 <= q < |next|
      ensures |next[q]| == RoundSize(|seeds|, q)
      ensures forall i :: 0 <= i < |next[q]| ==> next[q][i] == ExpectedBox(seeds, rcount, maxChars, q, i)
    {
      if q < |rounds| {
        assert next[q] == rounds[q];
      } else {
        assert next[q] == column;
      }
    }
  }

  /** The structure of make_bracket_pdf: clean the names, reject fewer than
      two, pad with byes, then build round 0 from the seeds and every later
      round by pairing entries 2i and 2i + 1 of the round before it.
      maxChars is the label limit the drawing routine derives from the box
      width (the same for every box). */
  method MakeBracket(names: seq<string>, maxChars: int) returns (res: Result<Layout>)
    ensures res.Failure? <==> |Clean(names)| < 2
    ensures res.Failure? ==> res.error == TooFewCompetitors
    ensures res.Success? ==>
      var b := res.value;
      b.seeds == SeedWithByes(Clean(names))
      && |b.seeds| >= 2 && Pow2(b.roundCount) == |b.seeds|
      && b.roundCount == RoundsFor(|b.seeds|)
      && IsBracketFor(b.rounds, b.seeds, b.roundCount, maxChars)
  {
    var cleaned := Clean(names);
    if |cleaned| < 2 {
      return Failure(TooFewCompetitors);
    }
    var seeds := SeedWithByes(cleaned);
    var size := |seeds|;
    var rcount := RoundsFor(size);
    SeedWithByesIsPower(cleaned);
    RoundsForPower(size);

    var first := SeedRound(seeds, maxChars);
    var rounds: seq<seq<Box>> := [first];
    FirstRoundAsExpected(first, seeds, rcount, maxChars);

    // Later rounds, up to and including the final.
    var r := 1;
    while r <= rcount
      invariant 1 <= r <= rcount + 1 && |rounds| == r
      invariant RoundsAsExpected(rounds, seeds, rcount, maxChars)
    {
      var column := NextRound(rounds[|rounds| - 1], r, rcount, maxChars);
      ExtendRoundsAsExpected(rounds, column, seeds, rcount, maxChars);
      rounds := rounds + [column];
      r := r + 1;
    }
    return Success(Layout(seeds, rcount, rounds));
  }

  /** Round 0: one box per seed, in seed order. */
  method SeedRound(seeds: seq<string>, maxChars: int) returns (first: seq<Box>)
    ensures |first| == |seeds|
    ensures forall i :: 0 <= i < |seeds| ==> first[i] == SeedBox(seeds, maxChars, i)
  {
    first := [];
    var i := 0;
    while i < |seeds|
      invariant 0 <= i <= |seeds| && |first| == i
      invariant forall j :: 0 <= j < i ==> first[j] == SeedBox(seeds, maxChars, j)
    {
      var fill := Min(0, |Palette| - 2);
      first := first + [Box(0, i, Seed, seeds[i], Truncate(seeds[i], maxChars), fill, false, AlignLeft)];
      i := i + 1;
    }
  }

  /** Round r from the round before it: one box for each pair of entries
      2i, 2i + 1 of prev, a lone trailing entry paired with itself. */
  method NextRound(prev: seq<Box>, r: nat, rcount: nat, maxChars: int) returns (column: seq<Box>)
    ensures |column| == (|prev| + 1) / 2
    ensures forall i :: 0 <= i < |column| ==> column[i] == LaterBox(|prev|, rcount, maxChars, r, i)
  {
    column := [];
    var k := 0;
    while k < |prev|
      invariant 0 <= k <= |prev| + 1 && k == 2 * |column|
      invariant forall j :: 0 <= j < |column| ==> column[j] == LaterBox(|prev|, rcount, maxChars, r, j)
    {
      var right := if k + 1 < |prev| then k + 1 else k;
      var fill := Min(r, |Palette| - 1);
      var caption := if r < rcount then "Winner" else "Champion";
      column := column + [Box(r, |column|, Join(k, right), caption, Truncate(caption, maxChars), fill, r == rcount, AlignCenter)];
      k := k + 2;
    }
  }

  // ---------------------------------------------------------------------------
  // The shape of a bracket

  /** When round 0 has 2^k boxes, round r has 2^(k - r). */
  lemma {:induction false} RoundSizeOfPower(k: nat, r: nat)
    requires r <= k
    ensures RoundSize(Pow2(k), r) == Pow2(k - r)
  {
    if r > 0 {
      RoundSizeOfPower(k, r - 1);
      assert Pow2(k - r + 1) == 2 * Pow2(k - r);
    }
  }

  /** The number of boxes drawn over all rounds. */
  function TotalBoxes(rounds: seq<seq<Box>>): nat {
    if rounds == [] then 0 else TotalBoxes(rounds[..|rounds| - 1]) + |rounds[|rounds| - 1]|
  }

  lemma TotalBoxesStep(rounds: seq<seq<Box>>, m: nat)
    requires 1 <= m <= |rounds|
    ensures TotalBoxes(rounds[..m]) == TotalBoxes(rounds[..m - 1]) + |rounds[m - 1]|
  {
    assert rounds[..m][..m - 1] == rounds[..m - 1];
  }

  /** The first m rounds of a draw whose round r has 2^(rcount - r) boxes
      hold 2^(rcount + 1) - 2^(rcount + 1 - m) boxes. */
  lemma {:induction false} TotalOfPrefix(rounds: seq<seq<Box>>, rcount: nat, m: nat)
    requires |rounds| == rcount + 1
    requires forall r :: 0 <= r <= rcount ==> |rounds[r]| == Pow2(rcount - r)
    requires m <= rcount + 1
    ensures TotalBoxes(rounds[..m]) + Pow2(rcount + 1 - m) == Pow2(rcount + 1)
  {
    if m > 0 {
      TotalOfPrefix(rounds, rcount, m - 1);
      TotalBoxesStep(rounds, m);
      assert Pow2(rcount + 1 - (m - 1)) == 2 * Pow2(rcount + 1 - m);
    }
  }

  /** With 2^rcount seeds, round r has 2^(rcount - r) boxes, the final round
      exactly one, and there are 2 * size - 1 boxes in all. */
  lemma BracketShape(rounds: seq<seq<Box>>, seeds: seq<string>, rcount: nat, maxChars: int)
    requires IsBracketFor(rounds, seeds, rcount, maxChars) && |seeds| == Pow2(rcount)
    ensures forall r :: 0 <= r <= rcount ==> |rounds[r]| == Pow2(rcount - r)
    ensures |rounds[rcount]| == 1
    ensures TotalBoxes(rounds) == 2 * |seeds| - 1
  {
    forall r | 0 <= r <= rcount
      ensures |rounds[r]| == Pow2(rcount - r)
    {
      RoundSizeOfPower(rcount, r);
    }
    TotalOfPrefix(rounds, rcount, rcount + 1);
    assert rounds[..rcount + 1] == rounds;
  }

  /** Slot j is a child of box b. */
  predicate IsChildOf(j: nat, b: Box) {
    b.children.Join? && (b.children.left == j || b.children.right == j)
  }

  /** Every later box is joined to slot 2i of the previous round and to 2i + 1
      when that exists, else to 2i again; both lie in the previous round. */
  lemma BracketChildren(rounds: seq<seq<Box>>, seeds: seq<string>, rcount: nat, maxChars: int, r: nat, i: nat)
    requires IsBracketFor(rounds, seeds, rcount, maxChars)
    requires 1 <= r <= rcount && i < |rounds[r]|
    ensures rounds[r][i].children.Join?
    ensures rounds[r][i].children.left == 2 * i < |rounds[r - 1]|
    ensures rounds[r][i].children.right ==
              if 2 * i + 1 < |rounds[r - 1]| then 2 * i + 1 else 2 * i
  {
  }

  /** Pairing is positional: slot j of round p - 1 is a child of box j / 2 of
      round p and of no other box there. */
  lemma BracketParentIsHalf(rounds: seq<seq<Box>>, seeds: seq<string>, rcount: nat, maxChars: int, p: nat, j: nat)
    requires IsBracketFor(rounds, seeds, rcount, maxChars)
    requires 1 <= p <= rcount && j < |rounds[p - 1]|
    ensures j / 2 < |rounds[p]|
    ensures forall i :: 0 <= i < |rounds[p]| ==> (IsChildOf(j, rounds[p][i]) <==> i == j / 2)
  {
    forall i | 0 <= i < |rounds[p]|
      ensures IsChildOf(j, rounds[p][i]) <==> i == j / 2
    {
      assert rounds[p][i] == ExpectedBox(seeds, rcount, maxChars, p, i);
    }
  }

  /** With a power-of-two draw no entry is ever lone: every box is joined to
      two distinct slots 2i and 2i + 1. */
  lemma BracketNoLoneEntries(rounds: seq<seq<Box>>, seeds: seq<string>, rcount: nat, maxChars: int, r: nat, i: nat)
    requires IsBracketFor(rounds, seeds, rcount, maxChars) && |seeds| == Pow2(rcount)
    requires 1 <= r <= rcount && i < |rounds[r]|
    ensures rounds[r][i].children == Join(2 * i, 2 * i + 1)
  {
    RoundSizeOfPower(rcount, r);
    RoundSizeOfPower(rcount, r - 1);
    assert Pow2(rcount - (r - 1)) == 2 * Pow2(rcount - r);
  }

  /** Round 0 shows the seeds in order, rounds 1 .. rcount - 1 say "Winner",
      round rcount says "Champion"; only the final is bold; the text drawn is
      the label as the truncation rule shortens it. */
  lemma BracketLabels(rounds: seq<seq<Box>>, seeds: seq<string>, rcount: nat, maxChars: int, r: nat, i: nat)
    requires IsBracketFor(rounds, seeds, rcount, maxChars)
    requires r <= rcount && i < |rounds[r]|
    ensures rounds[r][i].round == r && rounds[r][i].slot == i
    ensures r == 0 ==> rounds[r][i].text == seeds[i] && rounds[r][i].children == Seed
    ensures 0 < r < rcount ==> rounds[r][i].text == "Winner"
    ensures 0 < r == rcount ==> rounds[r][i].text == "Champion"
    ensures rounds[r][i].bold <==> 0 < r == rcount
    ensures rounds[r][i].shown == Truncate(rounds[r][i].text, maxChars)
  {
    assert rounds[r][i] == ExpectedBox(seeds, rcount, maxChars, r, i);
  }

  /** Round 0 is filled with palette entry 0, round r >= 1 with entry
      min(r, 4); every index lies inside the palette. */
  lemma BracketColours(rounds: seq<seq<Box>>, seeds: seq<string>, rcount: nat, maxChars: int, r: nat, i: nat)
    requires IsBracketFor(rounds, seeds, rcount, maxChars)
    requires r <= rcount && i < |rounds[r]|
    ensures rounds[r][i].colour < |Palette| == 5
    ensures r == 0 ==> rounds[r][i].colour == 0
    ensures r >= 1 ==> rounds[r][i].colour == Min(r, 4)
  {
    assert rounds[r][i] == ExpectedBox(seeds, rcount, maxChars, r, i);
  }

  /** The bracket for given seeds is unique: building it twice from the same
      input gives the same boxes. */
  lemma BracketUnique(a: seq<seq<Box>>, b: seq<seq<Box>>, seeds: seq<string>, rcount: nat, maxChars: int)
    requires IsBracketFor(a, seeds, rcount, maxChars) && IsBracketFor(b, seeds, rcount, maxChars)
    ensures a == b
  {
    forall r | 0 <= r < |a| ensures a[r] == b[r] {
      assert |a[r]| == |b[r]|;
      forall i | 0 <= i < |a[r]| ensures a[r][i] == b[r][i] {
        assert a[r][i] == ExpectedBox(seeds, rcount, maxChars, r, i);
      }
    }
  }

  // ---------------------------------------------------------------------------
  // Worked scenarios

  /** Five names: three byes at the end, eight seeds, and three rounds after
      the first, of 4, 2 and 1 boxes; the fifth seed meets the first bye, and
      the single box of the last round is the bold "Champion". */
  lemma FiveNames(names: seq<string>, bracket: Layout, maxChars: int)
    requires |names| == 5 && forall i :: 0 <= i < 5 ==> IsCleanName(names[i])
    requires bracket.seeds == SeedWithByes(Clean(names))
    requires bracket.roundCount == RoundsFor(|bracket.seeds|)
    requires IsBracketFor(bracket.rounds, bracket.seeds, bracket.roundCount, maxChars)
    ensures |Clean(names)| >= 2
    ensures bracket.seeds == names + [Bye, Bye, Bye] && bracket.roundCount == 3
    ensures |bracket.rounds| == 4 && |bracket.rounds[0]| == 8 && |bracket.rounds[1]| == 4
    ensures |bracket.rounds[2]| == 2 && |bracket.rounds[3]| == 1
    ensures bracket.rounds[0][4].text == names[4] && bracket.rounds[0][5].text == Bye
    ensures bracket.rounds[1][2].children == Join(4, 5) && bracket.rounds[1][2].text == "Winner"
    ensures bracket.rounds[3][0].text == "Champion" && bracket.rounds[3][0].bold
    ensures bracket.rounds[3][0].children == Join(0, 1)
  {
    FiveSeeds(names);
    EightSeedBoxes(bracket.rounds, bracket.seeds, maxChars);
  }

  /** The boxes of a bracket of eight seeds in three rounds. */
  lemma EightSeedBoxes(rounds: seq<seq<Box>>, seeds: seq<string>, maxChars: int)
    requires |seeds| == 8 && IsBracketFor(rounds, seeds, 3, maxChars)
    ensures |rounds| == 4 && |rounds[0]| == 8 && |rounds[1]| == 4
    ensures |rounds[2]| == 2 && |rounds[3]| == 1
    ensures rounds[0][4].text == seeds[4] && rounds[0][5].text == seeds[5]
    ensures rounds[1][2].children == Join(4, 5) && rounds[1][2].text == "Winner"
    ensures rounds[3][0].text == "Champion" && rounds[3][0].bold
    ensures rounds[3][0].children == Join(0, 1)
  {
    assert RoundSize(8, 1) == 4 && RoundSize(8, 2) == 2 && RoundSize(8, 3) == 1;
    assert rounds[0][4] == ExpectedBox(seeds, 3, maxChars, 0, 4);
    assert rounds[0][5] == ExpectedBox(seeds, 3, maxChars, 0, 5);
    assert rounds[1][2] == ExpectedBox(seeds, 3, maxChars, 1, 2);
    assert rounds[3][0] == ExpectedBox(seeds, 3, maxChars, 3, 0);
  }

  /** The seeds of five clean names: the names and three byes, in three rounds. */
  lemma FiveSeeds(names: seq<string>)
    requires |names| == 5 && forall i :: 0 <= i < 5 ==> IsCleanName(names[i])
    ensures Clean(names) == names
    ensures SeedWithByes(names) == names + [Bye, Bye, Bye]
    ensures RoundsFor(8) == 3
  {
    CleanOfCleanNames(names);
    assert BitLength(4) == 3 by {
      assert BitLength(1) == 1;
      assert BitLength(2) == 2;
    }
    assert NextPowerOfTwo(5) == 8;
    assert SeedWithByes(names) == names + [Bye, Bye, Bye];
  }

  /** Two names: no byes and one round after the first, whose single box joins
      the two names and is the bold "Champion". */
  lemma TwoNames(names: seq<string>, bracket: Layout, maxChars: int)
    requires |names| == 2 && IsCleanName(names[0]) && IsCleanName(names[1])
    requires bracket.seeds == SeedWithByes(Clean(names))
    requires bracket.roundCount == RoundsFor(|bracket.seeds|)
    requires IsBracketFor(bracket.rounds, bracket.seeds, bracket.roundCount, maxChars)
    ensures |Clean(names)| >= 2
    ensures bracket.seeds == names && bracket.roundCount == 1
    ensures |bracket.rounds| == 2 && |bracket.rounds[0]| == 2 && |bracket.rounds[1]| == 1
    ensures bracket.rounds[0][0].text == names[0] && bracket.rounds[0][1].text == names[1]
    ensures bracket.rounds[1][0].children == Join(0, 1)
    ensures bracket.rounds[1][0].text == "Champion" && bracket.rounds[1][0].bold
  {
    TwoSeeds(names);
    TwoSeedBoxes(bracket.rounds, bracket.seeds, maxChars);
  }

  /** The seeds of two clean names: the names themselves, in one round. */
  lemma TwoSeeds(names: seq<string>)
    requires |names| == 2 && IsCleanName(names[0]) && IsCleanName(names[1])
    ensures Clean(names) == names
    ensures SeedWithByes(names) == names
    ensures RoundsFor(2) == 1
  {
    CleanOfCleanNames(names);
    assert BitLength(1) == 1;
    assert NextPowerOfTwo(2) == 2;
  }

  /** The boxes of a bracket of two seeds in one round. */
  lemma TwoSeedBoxes(rounds: seq<seq<Box>>, seeds: seq<string>, maxChars: int)
    requires |seeds| == 2 && IsBracketFor(rounds, seeds, 1, maxChars)
    ensures |rounds| == 2 && |rounds[0]| == 2 && |rounds[1]| == 1
    ensures rounds[0][0].text == seeds[0] && rounds[0][1].text == seeds[1]
    ensures rounds[1][0].children == Join(0, 1)
    ensures rounds[1][0].text == "Champion" && rounds[1][0].bold
  {
    assert rounds[0][0] == ExpectedBox(seeds, 1, maxChars, 0, 0);
    assert rounds[0][1] == ExpectedBox(seeds, 1, maxChars, 0, 1);
    assert rounds[1][0] == ExpectedBox(seeds, 1, maxChars, 1, 0);
  }
}
