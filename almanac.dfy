/** solutions/day5.go: point-wise remapping of a seed through seven stages of
    interval rules, the lowest location over all seeds, and the line-level
    parser of the almanac text. */
module SeedAlmanac {
  import opened Wrappers
  import Strconv
  import GoStrings
  import Utils

  /** `MappingInstruction`: the half-open source interval
      [sourceStart, sourceStart + rangeLength) moves by destStart - sourceStart. */
  datatype MappingInstruction = MappingInstruction(destStart: int, sourceStart: int, rangeLength: int)

  predicate Covers(m: MappingInstruction, item: int) {
    m.sourceStart <= item < m.sourceStart + m.rangeLength
  }

  function Offset(m: MappingInstruction): int {
    m.destStart - m.sourceStart
  }

  /** `MappingInstruction.findNext`. */
  function InstructionNext(m: MappingInstruction, item: int): (r: int)
    ensures Covers(m, item) ==> r == item + Offset(m)
    ensures !Covers(m, item) ==> r == item
  {
    var diff := if item >= m.sourceStart && item < m.sourceStart + m.rangeLength
      then m.destStart - m.sourceStart else 0;
    item + diff
  }

  /** The rule that maps the destination interval back onto the source one. */
  function Reverse(m: MappingInstruction): MappingInstruction {
    MappingInstruction(m.sourceStart, m.destStart, m.rangeLength)
  }

  /** A rule sends its source interval onto its destination interval, and the
      reverse rule undoes it there. */
  lemma InstructionImage(m: MappingInstruction, item: int)
    requires Covers(m, item)
    ensures m.destStart <= InstructionNext(m, item) < m.destStart + m.rangeLength
    ensures InstructionNext(Reverse(m), InstructionNext(m, item)) == item
  {
  }

  /** The interval is half-open: its start is moved, its end is not. */
  lemma InstructionBoundaries(m: MappingInstruction)
    requires m.rangeLength > 0
    ensures InstructionNext(m, m.sourceStart) == m.destStart
    ensures InstructionNext(m, m.sourceStart + m.rangeLength) == m.sourceStart + m.rangeLength
    ensures InstructionNext(m, m.sourceStart - 1) == m.sourceStart - 1
  {
  }

  /** `AlmanacMapper`: one stage, its rules in authored order. */
  datatype AlmanacMapper = AlmanacMapper(mappings: seq<MappingInstruction>)

  /** What a stage does to `item`: the output of the first rule that changes
      it, or `item` itself. */
  function StageNext(rules: seq<MappingInstruction>, item: int): int {
    if |rules| == 0 then item
    else
      var mapped := InstructionNext(rules[0], item);
      if mapped != item then mapped else StageNext(rules[1..], item)
  }

  /** `AlmanacMapper.findNext`: the loop with its early return. */
  method FindNext(m: AlmanacMapper, item: int) returns (r: int)
    ensures r == StageNext(m.mappings, item)
  {
    for i := 0 to |m.mappings|
      invariant StageNext(m.mappings, item) == StageNext(m.mappings[i..], item)
    {
      var mappedItem := InstructionNext(m.mappings[i], item);
      assert m.mappings[i..][1..] == m.mappings[i + 1..];
      if mappedItem != item {
        return mappedItem;
      }
    }
    return item;
  }

  /** The stage returns the output of the first rule, in authored order, that
      changes the item. */
  lemma {:induction false} StageFirstChange(rules: seq<MappingInstruction>, item: int, j: nat)
    requires j < |rules| && InstructionNext(rules[j], item) != item
    requires forall k :: 0 <= k < j ==> InstructionNext(rules[k], item) == item
    ensures StageNext(rules, item) == InstructionNext(rules[j], item)
  {
    if j > 0 {
      StageFirstChange(rules[1..], item, j - 1);
    }
  }

  /** When no rule changes the item, the stage leaves it alone; in particular
      a stage with no rules is the identity. */
  lemma {:induction false} StageNoChange(rules: seq<MappingInstruction>, item: int)
    requires forall k :: 0 <= k < |rules| ==> InstructionNext(rules[k], item) == item
    ensures StageNext(rules, item) == item
  {
    if |rules| > 0 {
      StageNoChange(rules[1..], item);
    }
  }

  /** A covering rule with offset zero does not stop the search: the rules
      after it still decide. */
  lemma ZeroOffsetSkipped(rules: seq<MappingInstruction>, item: int)
    requires |rules| > 0 && Covers(rules[0], item) && Offset(rules[0]) == 0
    ensures StageNext(rules, item) == StageNext(rules[1..], item)
  {
  }

  /** For instance 7 is covered by the zero-offset rule (5, 5, 10) and still
      moved by the rule (100, 0, 20) after it. */
  lemma ZeroOffsetExample()
    ensures StageNext([MappingInstruction(5, 5, 10), MappingInstruction(100, 0, 20)], 7) == 107
  {
    var rules := [MappingInstruction(5, 5, 10), MappingInstruction(100, 0, 20)];
    assert rules[1..] == [MappingInstruction(100, 0, 20)];
    assert rules[1..][1..] == [];
  }

  /** The source intervals of the rules do not overlap. */
  predicate Disjoint(rules: seq<MappingInstruction>) {
    forall i, j :: 0 <= i < j < |rules| && rules[i].rangeLength > 0 && rules[j].rangeLength > 0 ==>
      rules[i].sourceStart + rules[i].rangeLength <= rules[j].sourceStart ||
      rules[j].sourceStart + rules[j].rangeLength <= rules[i].sourceStart
  }

  /** With disjoint source intervals the first-change rule is the one
      covering rule: the stage adds that rule's offset. */
  lemma {:induction false} StageDisjoint(rules: seq<MappingInstruction>, item: int, j: nat)
    requires Disjoint(rules)
    requires j < |rules| && Covers(rules[j], item)
    ensures StageNext(rules, item) == item + Offset(rules[j])
  {
    if Offset(rules[j]) != 0 {
      forall k | 0 <= k < j ensures InstructionNext(rules[k], item) == item {
        assert !Covers(rules[k], item);
      }
      StageFirstChange(rules, item, j);
    } else {
      forall k | 0 <= k < |rules| ensures InstructionNext(rules[k], item) == item {
        if k != j {
          assert !Covers(rules[k], item);
        }
      }
      StageNoChange(rules, item);
    }
  }

  /** `Almanac`: the seeds and the seven stages. */
  datatype Almanac = Almanac(
    seeds: seq<int>,
    seedToSoil: AlmanacMapper,
    soilToFertilizer: AlmanacMapper,
    fertilizerToWater: AlmanacMapper,
    waterToLight: AlmanacMapper,
    lightToTemperature: AlmanacMapper,
    temperatureToHumidity: AlmanacMapper,
    humidityToLocation: AlmanacMapper)

  /** `Almanac.mappers`: the stages in the order a seed goes through them. */
  function Mappers(a: Almanac): seq<AlmanacMapper> {
    [a.seedToSoil, a.soilToFertilizer, a.fertilizerToWater, a.waterToLight,
     a.lightToTemperature, a.temperatureToHumidity, a.humidityToLocation]
  }

  /** The stages applied one after the other, first stage first. */
  function Through(ms: seq<AlmanacMapper>, item: int): int {
    if |ms| == 0 then item else Through(ms[1..], StageNext(ms[0].mappings, item))
  }

  /** seed -> soil -> fertilizer -> water -> light -> temperature -> humidity -> location. */
  function Location(a: Almanac, seed: int): int {
    var soil := StageNext(a.seedToSoil.mappings, seed);
    var fertilizer := StageNext(a.soilToFertilizer.mappings, soil);
    var water := StageNext(a.fertilizerToWater.mappings, fertilizer);
    var light := StageNext(a.waterToLight.mappings, water);
    var temperature := StageNext(a.lightToTemperature.mappings, light);
    var humidity := StageNext(a.temperatureToHumidity.mappings, temperature);
    StageNext(a.humidityToLocation.mappings, humidity)
  }

  /** `Almanac.FindLocationToPlant`: the loop over the mappers. */
  method FindLocationToPlant(a: Almanac, seed: int) returns (location: int)
    ensures location == Location(a, seed)
  {
    location := seed;
    var ms := Mappers(a);
    for i := 0 to |ms|
      invariant Through(ms[i..], location) == Through(ms, seed)
    {
      assert ms[i..][1..] == ms[i + 1..];
      location := FindNext(ms[i], location);
    }
    ThroughMappers(a, seed);
  }

  /** Going through the mappers in order is the seven-stage chain. */
  lemma ThroughMappers(a: Almanac, seed: int)
    ensures Through(Mappers(a), seed) == Location(a, seed)
  {
    var ms := Mappers(a);
    var soil := StageNext(a.seedToSoil.mappings, seed);
    var fertilizer := StageNext(a.soilToFertilizer.mappings, soil);
    var water := StageNext(a.fertilizerToWater.mappings, fertilizer);
    var light := StageNext(a.waterToLight.mappings, water);
    var temperature := StageNext(a.lightToTemperature.mappings, light);
    var humidity := StageNext(a.temperatureToHumidity.mappings, temperature);
    var location := StageNext(a.humidityToLocation.mappings, humidity);
    assert ms[6..] == [a.humidityToLocation] && ms[7..] == [];
    assert Through(ms[6..], humidity) == location;
    assert ms[5..][1..] == ms[6..] && ms[5..][0] == a.temperatureToHumidity;
    assert Through(ms[5..], temperature) == location;
    assert ms[4..][1..] == ms[5..] && ms[4..][0] == a.lightToTemperature;
    assert Through(ms[4..], light) == location;
    assert ms[3..][1..] == ms[4..] && ms[3..][0] == a.waterToLight;
    assert Through(ms[3..], water) == location;
    assert ms[2..][1..] == ms[3..] && ms[2..][0] == a.fertilizerToWater;
    assert Through(ms[2..], fertilizer) == location;
    assert ms[1..][1..] == ms[2..] && ms[1..][0] == a.soilToFertilizer;
    assert Through(ms[1..], soil) == location;
  }

  /** The initial minimum of `Day5`, 1024^4. */
  const Sentinel: int := 1024 * 1024 * 1024 * 1024

  /** The minimum loop of `Day5`: the lowest location over all seeds, when it
      is below the sentinel, and the sentinel otherwise. */
  method LowestLocation(a: Almanac) returns (min: int)
    ensures min <= Sentinel
    ensures forall k :: 0 <= k < |a.seeds| ==> min <= Location(a, a.seeds[k])
    ensures min == Sentinel || exists k :: 0 <= k < |a.seeds| && min == Location(a, a.seeds[k])
  {
    min := Sentinel;
    for i := 0 to |a.seeds|
      invariant min <= Sentinel
      invariant forall k :: 0 <= k < i ==> min <= Location(a, a.seeds[k])
      invariant min == Sentinel || exists k :: 0 <= k < i && min == Location(a, a.seeds[k])
    {
      var location := FindLocationToPlant(a, a.seeds[i]);
      if location < min {
        min := location;
      }
    }
  }

  // Parsing: the scanner's lines are given as a sequence.

  /** `getNextTokens`: the lines up to the next empty line (which is
      consumed), and the lines after it. */
  function NextTokens(lines: seq<string>): (r: (seq<string>, seq<string>))
    ensures |r.0| <= |lines|
    ensures forall k :: 0 <= k < |r.0| ==> |lines[k]| > 0 && r.0[k] == GoStrings.TrimSuffixChar(lines[k], '\n')
    ensures |r.0| < |lines| ==> |lines[|r.0|]| == 0 && r.1 == lines[|r.0| + 1..]
    ensures |r.0| == |lines| ==> r.1 == []
  {
    if |lines| == 0 || |lines[0]| == 0 then ([], if |lines| == 0 then [] else lines[1..])
    else
      var rest := NextTokens(lines[1..]);
      ([GoStrings.TrimSuffixChar(lines[0], '\n')] + rest.0, rest.1)
  }

  /** `getSeeds`: exactly one header line, the text after its first colon,
      split into integers. */
  function GetSeeds(block: seq<string>): Option<seq<int>> {
    if |block| != 1 then None
    else
      var parts := GoStrings.Split(block[0], ":");
      if |parts| < 2 then None
      else Utils.StringSliceToIntSlice(GoStrings.Fields(parts[1]))
  }

  /** One rule line of `getNextMapping`: the first three integers, in the
      order destination start, source start, range length. */
  function ParseInstruction(line: string): Option<MappingInstruction> {
    match Utils.StringSliceToIntSlice(GoStrings.Fields(line))
    case None => None
    case Some(ints) =>
      if |ints| < 3 then None else Some(MappingInstruction(ints[0], ints[1], ints[2]))
  }

  function ParseInstructions(lines: seq<string>): (r: Option<seq<MappingInstruction>>)
    ensures r.Some? ==> |r.value| == |lines|
    ensures r.Some? ==> forall k :: 0 <= k < |lines| ==> ParseInstruction(lines[k]) == Some(r.value[k])
  {
    if |lines| == 0 then Some([])
    else
      match ParseInstruction(lines[0])
      case None => None
      case Some(m) =>
        match ParseInstructions(lines[1..])
        case None => None
        case Some(ms) => Some([m] + ms)
  }

  /** `getNextMapping`: the header line is skipped and every other line is one
      rule; an empty block makes the `[1:]` slice panic. */
  function GetNextMapping(block: seq<string>): Option<AlmanacMapper> {
    if |block| == 0 then None
    else
      match ParseInstructions(block[1..])
      case None => None
      case Some(ms) => Some(AlmanacMapper(ms))
  }

  /** `getSeeds` as a scanner step: the seeds, and the lines left to scan. */
  function ScanSeeds(lines: seq<string>): Option<(seq<int>, seq<string>)> {
    var (block, rest) := NextTokens(lines);
    var seeds :- GetSeeds(block);
    Some((seeds, rest))
  }

  /** `getNextMapping` as a scanner step: the map, and the lines left to scan. */
  function ScanMapping(lines: seq<string>): Option<(AlmanacMapper, seq<string>)> {
    var (block, rest) := NextTokens(lines);
    var m :- GetNextMapping(block);
    Some((m, rest))
  }

  /** `createAlamanac`: the seed block and then seven rule blocks, each read
      where the previous one stopped. */
  function CreateAlmanac(lines: seq<string>): Option<Almanac> {
    var (seeds, r0) :- ScanSeeds(lines);
    var (m1, r1) :- ScanMapping(r0);
    var (m2, r2) :- ScanMapping(r1);
    var (m3, r3) :- ScanMapping(r2);
    var (m4, r4) :- ScanMapping(r3);
    var (m5, r5) :- ScanMapping(r4);
    var (m6, r6) :- ScanMapping(r5);
    var (m7, _) :- ScanMapping(r6);
    Some(Almanac(seeds, m1, m2, m3, m4, m5, m6, m7))
  }

  // The text an almanac is written as, and the parser's round trip over it.

  /** One rule line: destination start, source start, range length. */
  function FormatInstruction(m: MappingInstruction): string {
    GoStrings.JoinSpaced(Utils.FormatInts([m.destStart, m.sourceStart, m.rangeLength]))
  }

  function FormatInstructions(ms: seq<MappingInstruction>): (lines: seq<string>)
    ensures |lines| == |ms| && forall k :: 0 <= k < |ms| ==> lines[k] == FormatInstruction(ms[k])
  {
    if |ms| == 0 then [] else [FormatInstruction(ms[0])] + FormatInstructions(ms[1..])
  }

  /** A block of the almanac: its header line and then one line per rule. */
  function FormatMapper(header: string, m: AlmanacMapper): seq<string> {
    [header] + FormatInstructions(m.mappings)
  }

  function FormatSeeds(seeds: seq<int>): string {
    "seeds: " + GoStrings.JoinSpaced(Utils.FormatInts(seeds))
  }

  /** Blocks separated by one empty line each. */
  function JoinBlocks(blocks: seq<seq<string>>): seq<string> {
    if |blocks| == 0 then []
    else if |blocks| == 1 then blocks[0]
    else blocks[0] + [""] + JoinBlocks(blocks[1..])
  }

  function FormatAlmanac(a: Almanac): seq<string> {
    JoinBlocks(AlmanacBlocks(a))
  }

  /** A line the scanner hands over: not empty and not ending in a newline. */
  predicate PlainLine(line: string) {
    |line| > 0 && line[|line| - 1] != '\n'
  }

  /** `getNextTokens` reads a block of plain lines up to its empty line. */
  lemma {:induction false} NextTokensBlock(block: seq<string>, rest: seq<string>)
    requires forall k :: 0 <= k < |block| ==> PlainLine(block[k])
    ensures NextTokens(block + [""] + rest) == (block, rest)
  {
    var lines := block + [""] + rest;
    if |block| > 0 {
      assert lines[1..] == block[1..] + [""] + rest;
      NextTokensBlock(block[1..], rest);
      GoStrings.HeadTail(block);
    } else {
      assert lines[1..] == rest;
    }
  }

  /** The last block runs to the end of the input. */
  lemma {:induction false} NextTokensLast(block: seq<string>)
    requires forall k :: 0 <= k < |block| ==> PlainLine(block[k])
    ensures NextTokens(block) == (block, [])
  {
    if |block| > 0 {
      NextTokensLast(block[1..]);
      GoStrings.HeadTail(block);
    }
  }


  predicate Lacks(s: string, c: char) {
    forall k :: 0 <= k < |s| ==> s[k] != c
  }

  /** A rendered integer is one field made of digits and possibly a minus sign. */
  lemma FormatIntShape(n: int)
    ensures GoStrings.IsField(Strconv.FormatInt(n))
    ensures Lacks(Strconv.FormatInt(n), ':')
    ensures Strconv.FormatInt(n)[|Strconv.FormatInt(n)| - 1] != '\n'
  {
    var s := Strconv.FormatInt(n);
    var d := if n < 0 then Strconv.Digits(-n) else Strconv.Digits(n);
    Strconv.AllDigitsEach(d);
    assert forall k :: 0 <= k < |s| ==> s[k] == '-' || Strconv.IsDecimalDigit(s[k]) by {
      if n < 0 {
        assert forall k :: 1 <= k < |s| ==> s[k] == d[k - 1];
      }
    }
  }

  lemma {:induction false} JoinSpacedLacks(ws: seq<string>, c: char)
    requires c != ' '
    requires forall k :: 0 <= k < |ws| ==> Lacks(ws[k], c)
    ensures Lacks(GoStrings.JoinSpaced(ws), c)
  {
    if |ws| > 1 {
      JoinSpacedLacks(ws[1..], c);
    }
  }

  lemma {:induction false} JoinSpacedLast(ws: seq<string>)
    requires |ws| > 0 && forall k :: 0 <= k < |ws| ==> PlainLine(ws[k])
    ensures PlainLine(GoStrings.JoinSpaced(ws))
  {
    if |ws| > 1 {
      JoinSpacedLast(ws[1..]);
    }
  }

  lemma RenderedFields(ns: seq<int>)
    ensures forall k :: 0 <= k < |Utils.FormatInts(ns)| ==> GoStrings.IsField(Utils.FormatInts(ns)[k])
    ensures forall k :: 0 <= k < |Utils.FormatInts(ns)| ==> Lacks(Utils.FormatInts(ns)[k], ':')
    ensures |ns| > 0 ==> PlainLine(GoStrings.JoinSpaced(Utils.FormatInts(ns)))
  {
    var ss := Utils.FormatInts(ns);
    forall k | 0 <= k < |ss|
      ensures GoStrings.IsField(ss[k]) && Lacks(ss[k], ':') && PlainLine(ss[k])
    {
      FormatIntShape(ns[k]);
    }
    if |ns| > 0 {
      JoinSpacedLast(ss);
    }
  }

  /** Fields of an integer line give back the integers. */
  lemma FieldsOfRendered(ns: seq<int>)
    ensures Utils.StringSliceToIntSlice(GoStrings.Fields(GoStrings.JoinSpaced(Utils.FormatInts(ns)))) == Some(ns)
  {
    RenderedFields(ns);
    GoStrings.FieldsJoinSpaced(Utils.FormatInts(ns));
    Utils.StringSliceToIntSliceFormat(ns);
  }

  /** A rule line is read back as the same rule, fields in the order
      destination start, source start, range length. */
  lemma ParseInstructionFormat(m: MappingInstruction)
    ensures ParseInstruction(FormatInstruction(m)) == Some(m)
  {
    FieldsOfRendered([m.destStart, m.sourceStart, m.rangeLength]);
  }

  lemma {:induction false} ParseInstructionsFormat(ms: seq<MappingInstruction>)
    ensures ParseInstructions(FormatInstructions(ms)) == Some(ms)
  {
    if |ms| > 0 {
      ParseInstructionFormat(ms[0]);
      assert FormatInstructions(ms)[1..] == FormatInstructions(ms[1..]);
      ParseInstructionsFormat(ms[1..]);
      GoStrings.HeadTail(ms);
    }
  }

  /** `getNextMapping` skips the header and reads every rule line. */
  lemma GetNextMappingFormat(header: string, m: AlmanacMapper)
    ensures GetNextMapping(FormatMapper(header, m)) == Some(m)
  {
    assert FormatMapper(header, m)[1..] == FormatInstructions(m.mappings);
    ParseInstructionsFormat(m.mappings);
  }

  /** The seed line splits at its one colon into the name and the rest. */
  lemma SplitSeedLine(j: string)
    requires Lacks(j, ':')
    ensures GoStrings.Split("seeds: " + j, ":") == ["seeds", " " + j]
  {
    assert "seeds: " + j == "seeds" + ":" + (" " + j);
    GoStrings.SplitAfterClean("seeds", ":", " " + j);
    GoStrings.SplitClean(" " + j, ":");
  }

  /** `getSeeds` reads the integers after the colon of the seed line. */
  lemma GetSeedsFormat(seeds: seq<int>)
    ensures GetSeeds([FormatSeeds(seeds)]) == Some(seeds)
  {
    var j := GoStrings.JoinSpaced(Utils.FormatInts(seeds));
    RenderedFields(seeds);
    JoinSpacedLacks(Utils.FormatInts(seeds), ':');
    SplitSeedLine(j);
    GoStrings.FieldsLeadingSpace(j);
    FieldsOfRendered(seeds);
  }
  lemma MapperLinesPlain(header: string, m: AlmanacMapper)
    requires PlainLine(header)
    ensures forall k :: 0 <= k < |FormatMapper(header, m)| ==> PlainLine(FormatMapper(header, m)[k])
  {
    var lines := FormatMapper(header, m);
    forall k | 1 <= k < |lines| ensures PlainLine(lines[k]) {
      var r := m.mappings[k - 1];
      RenderedFields([r.destStart, r.sourceStart, r.rangeLength]);
    }
  }

  lemma SeedLinePlain(seeds: seq<int>)
    ensures PlainLine(FormatSeeds(seeds))
  {
    if |seeds| > 0 {
      RenderedFields(seeds);
    }
  }

  /** The header line of the map of one stage. */
  function Header(stage: string): string {
    stage + " map:"
  }

  lemma HeaderPlain(stage: string)
    ensures PlainLine(Header(stage))
  {
  }

  /** The name of stage `i`, in the order of `Mappers`. */
  function StageName(i: nat): string {
    if i == 0 then "seed-to-soil"
    else if i == 1 then "soil-to-fertilizer"
    else if i == 2 then "fertilizer-to-water"
    else if i == 3 then "water-to-light"
    else if i == 4 then "light-to-temperature"
    else if i == 5 then "temperature-to-humidity"
    else "humidity-to-location"
  }

  /** The blocks an almanac is written as: the seed line, then each map
      under its header. */
  function AlmanacBlocks(a: Almanac): (bs: seq<seq<string>>)
    ensures |bs| == 8 && bs[0] == [FormatSeeds(a.seeds)]
    ensures forall i :: 1 <= i < 8 ==> bs[i] == FormatMapper(Header(StageName(i - 1)), Mappers(a)[i - 1])
  {
    [[FormatSeeds(a.seeds)]] + seq(7, i requires 0 <= i < 7 => FormatMapper(Header(StageName(i)), Mappers(a)[i]))
  }

  /** A written map block, followed by an empty line or by nothing, is
      scanned back as the same map. */
  lemma ScanMappingFormat(header: string, m: AlmanacMapper, rest: seq<string>)
    requires PlainLine(header)
    ensures ScanMapping(FormatMapper(header, m) + [""] + rest) == Some((m, rest))
    ensures ScanMapping(FormatMapper(header, m)) == Some((m, []))
  {
    MapperLinesPlain(header, m);
    NextTokensBlock(FormatMapper(header, m), rest);
    NextTokensLast(FormatMapper(header, m));
    GetNextMappingFormat(header, m);
  }

  lemma JoinBlocksFrom(bs: seq<seq<string>>, i: nat)
    requires i + 2 <= |bs|
    ensures JoinBlocks(bs[i..]) == bs[i] + [""] + JoinBlocks(bs[i + 1..])
  {
    assert bs[i..][1..] == bs[i + 1..];
  }

  /** Block `i` of an almanac, the map of a stage followed by more blocks,
      is scanned back as that map, leaving the blocks after it. */
  lemma ScanBlock(a: Almanac, i: nat)
    requires 1 <= i < 7
    ensures ScanMapping(JoinBlocks(AlmanacBlocks(a)[i..])) == Some((Mappers(a)[i - 1], JoinBlocks(AlmanacBlocks(a)[i + 1..])))
  {
    var bs := AlmanacBlocks(a);
    HeaderPlain(StageName(i - 1));
    JoinBlocksFrom(bs, i);
    ScanMappingFormat(Header(StageName(i - 1)), Mappers(a)[i - 1], JoinBlocks(bs[i + 1..]));
  }

  /** The last block, the map of the last stage, is scanned back as that map
      with nothing left. */
  lemma ScanLastBlock(a: Almanac)
    ensures ScanMapping(JoinBlocks(AlmanacBlocks(a)[7..])) == Some((a.humidityToLocation, []))
  {
    var bs := AlmanacBlocks(a);
    assert bs[7..] == [bs[7]];
    HeaderPlain(StageName(6));
    ScanMappingFormat(Header(StageName(6)), a.humidityToLocation, []);
  }

  /** `createAlmanac` succeeds with `a` when each of its scans finds the part
      of `a` it reads, on the lines the scan before it left. */
  lemma CreateAlmanacSteps(lines: seq<string>, a: Almanac, r0: seq<string>, r1: seq<string>,
                           r2: seq<string>, r3: seq<string>, r4: seq<string>, r5: seq<string>, r6: seq<string>)
    requires ScanSeeds(lines) == Some((a.seeds, r0))
    requires ScanMapping(r0) == Some((Mappers(a)[0], r1))
    requires ScanMapping(r1) == Some((Mappers(a)[1], r2))
    requires ScanMapping(r2) == Some((Mappers(a)[2], r3))
    requires ScanMapping(r3) == Some((Mappers(a)[3], r4))
    requires ScanMapping(r4) == Some((Mappers(a)[4], r5))
    requires ScanMapping(r5) == Some((Mappers(a)[5], r6))
    requires ScanMapping(r6).Some? && ScanMapping(r6).value.0 == a.humidityToLocation
    ensures CreateAlmanac(lines) == Some(a)
  {
  }

  /** Writing an almanac out and reading it back with `createAlmanac` gives
      the same seeds and the same seven maps, each under its own stage. */
  lemma CreateAlmanacFormat(a: Almanac)
    ensures CreateAlmanac(FormatAlmanac(a)) == Some(a)
  {
    var bs := AlmanacBlocks(a);
    assert FormatAlmanac(a) == JoinBlocks(bs[0..]);
    SeedLinePlain(a.seeds);
    JoinBlocksFrom(bs, 0);
    NextTokensBlock(bs[0], JoinBlocks(bs[1..]));
    GetSeedsFormat(a.seeds);
    assert ScanSeeds(FormatAlmanac(a)) == Some((a.seeds, JoinBlocks(bs[1..])));
    ScanBlock(a, 1);
    ScanBlock(a, 2);
    ScanBlock(a, 3);
    ScanBlock(a, 4);
    ScanBlock(a, 5);
    ScanBlock(a, 6);
    ScanLastBlock(a);
    CreateAlmanacSteps(FormatAlmanac(a), a, JoinBlocks(bs[1..]), JoinBlocks(bs[2..]), JoinBlocks(bs[3..]),
                       JoinBlocks(bs[4..]), JoinBlocks(bs[5..]), JoinBlocks(bs[6..]), JoinBlocks(bs[7..]));
  }
}
