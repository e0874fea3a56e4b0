/** Session files as lines: the recorder that writes them, and the validator that indexes them. */
module Session {
  import opened Wrappers
  import opened Telemetry

  const MAX_PAYLOAD: nat := 4095
  const US_PER_SECOND: nat := 1_000_000
  const NS_PER_US: int := 1000

  // ---------------------------------------------------------------- hexadecimal and addresses

  const DIGITS: string := "0123456789ABCDEF"

  function Hex(bytes: seq<Byte>): string {
    if bytes == [] then "" else [DIGITS[bytes[0] / 16], DIGITS[bytes[0] % 16]] + Hex(bytes[1..])
  }

  predicate IsUpperHexDigit(c: char) {
    '0' <= c <= '9' || 'A' <= c <= 'F'
  }

  predicate ValidUpperHex(s: string) {
    && |s| % 2 == 0 && |s| <= 2 * MAX_PAYLOAD
    && forall i | 0 <= i < |s| :: IsUpperHexDigit(s[i])
  }

  function DigitValue(c: char): (v: int)
    requires IsUpperHexDigit(c)
    ensures 0 <= v < 16
  {
    if c <= '9' then c as int - '0' as int else c as int - 'A' as int + 10
  }

  function DecodeHex(s: string): seq<Byte>
    requires |s| % 2 == 0 && forall i | 0 <= i < |s| :: IsUpperHexDigit(s[i])
  {
    if s == "" then [] else [DigitValue(s[0]) * 16 + DigitValue(s[1])] + DecodeHex(s[2..])
  }

  lemma DigitRoundTrip(n: int, c: char)
    requires 0 <= n < 16 && IsUpperHexDigit(c)
    ensures IsUpperHexDigit(DIGITS[n]) && DigitValue(DIGITS[n]) == n
    ensures DIGITS[DigitValue(c)] == c
  {
  }

  lemma {:induction false} HexShape(bytes: seq<Byte>)
    ensures |Hex(bytes)| == 2 * |bytes| && forall i | 0 <= i < |Hex(bytes)| :: IsUpperHexDigit(Hex(bytes)[i])
  {
    if bytes != [] {
      HexShape(bytes[1..]);
      DigitRoundTrip(bytes[0] / 16, '0');
      DigitRoundTrip(bytes[0] % 16, '0');
    }
  }

  /** Decoding undoes encoding, and encoding is valid exactly for payloads that fit a message. */
  lemma {:induction false} DecodeHexInvertsHex(bytes: seq<Byte>)
    ensures |Hex(bytes)| % 2 == 0 && forall i | 0 <= i < |Hex(bytes)| :: IsUpperHexDigit(Hex(bytes)[i])
    ensures DecodeHex(Hex(bytes)) == bytes
    ensures ValidUpperHex(Hex(bytes)) <==> |bytes| <= MAX_PAYLOAD
  {
    HexShape(bytes);
    if bytes != [] {
      DecodeHexInvertsHex(bytes[1..]);
      DigitRoundTrip(bytes[0] / 16, '0');
      DigitRoundTrip(bytes[0] % 16, '0');
      assert Hex(bytes)[2..] == Hex(bytes[1..]);
    }
  }

  /** An address as it stands in a line; null is None. */
  datatype AddressJson = AddressJson(format: string, value: nat)

  function FormatName(f: AddressFormat): string {
    match f
    case Can11Bit => "can_11_bit"
    case Can29Bit => "can_29_bit"
    case Other => "other"
  }

  function WriteAddress(a: Option<EcuAddress>): Option<AddressJson> {
    if a.None? then None else Some(AddressJson(FormatName(a.value.format), a.value.value))
  }

  predicate ValidAddress(a: Option<AddressJson>) {
    a.Some? ==> a.value.format == "can_11_bit" || a.value.format == "can_29_bit" || a.value.format == "other"
  }

  function ParseAddress(a: Option<AddressJson>): Option<EcuAddress> {
    if a.None? then None
    else
      var format := if a.value.format == "can_11_bit" then Can11Bit
                    else if a.value.format == "can_29_bit" then Can29Bit else Other;
      Some(EcuAddress(a.value.value % 0x1_0000_0000, format))
  }

  lemma AddressRoundTrip(a: Option<EcuAddress>)
    requires a.Some? ==> a.value.value < 0x1_0000_0000
    ensures ValidAddress(WriteAddress(a)) && ParseAddress(WriteAddress(a)) == a
  {
    assert FormatName(Can11Bit)[4] != FormatName(Can29Bit)[4];
    assert |FormatName(Other)| == 5;
  }

  // ---------------------------------------------------------------- records

  datatype Statistics = Statistics(
    obdMessages: nat, telemetrySamples: nat, otherRecords: nat, dataLossMarkers: nat, droppedRecords: nat, totalRecords: nat)

  const NO_STATISTICS: Statistics := Statistics(0, 0, 0, 0, 0, 0)

  /** What the remaining record types carry is not part of this model. */
  datatype OtherKind = Dtc | DiagnosticFinding | Mode04Audit | EcuMetadata

  datatype Record =
    | Header(elapsed: nat, uuid: string)
    | ObdMessage(elapsed: nat, sequence: nat, ecu: Option<AddressJson>, payloadHex: string)
    | TelemetryRecord(elapsed: nat, metric: Option<nat>, quality: Option<Quality>, value: Option<real>)
    | OtherRecord(elapsed: nat, kind: OtherKind)
    | DataLoss(elapsed: nat, dropped: nat)
    | Footer(elapsed: nat, statistics: Statistics)

  /** A line that does not parse, or a record. It is complete if the fields that a record of its type
      must have, those not modelled included, are there with the right types. A telemetry metric or
      quality is None when it is missing or not a known name, a value when it is missing or no number. */
  datatype Line = Unparsable | Parsed(record: Record, complete: bool)

  predicate ValidStructure(line: Line) {
    match line
    case Unparsable => false
    case Parsed(_, false) => false
    case Parsed(Header(_, uuid), _) => uuid != ""
    case Parsed(ObdMessage(_, _, ecu, payload), _) => ValidAddress(ecu) && payload != "" && ValidUpperHex(payload)
    case Parsed(TelemetryRecord(_, _, _, value), _) => value.Some?
    case Parsed(DataLoss(_, dropped), _) => dropped > 0
    case _ => true
  }

  // ---------------------------------------------------------------- validation and indexing

  datatype Checkpoint = Checkpoint(elapsed: nat, offset: nat)

  datatype Error = InvalidFormat | StorageUnavailable

  function Elapsed(line: Line): nat {
    match line
    case Unparsable => 0
    case Parsed(record, _) => record.elapsed
  }

  predicate IsHeader(line: Line) {
    line.Parsed? && line.record.Header?
  }

  predicate IsFooter(line: Line) {
    line.Parsed? && line.record.Footer?
  }

  predicate Shaped(lines: seq<Line>) {
    forall i | 0 <= i < |lines| :: ValidStructure(lines[i])
  }

  predicate InTimeOrder(lines: seq<Line>) {
    forall i, j | 0 <= i <= j < |lines| :: Elapsed(lines[i]) <= Elapsed(lines[j])
  }

  /** A header at time zero first, a footer last, neither anywhere else, time never going back. */
  predicate ValidSession(lines: seq<Line>) {
    && |lines| >= 2 && Shaped(lines) && InTimeOrder(lines)
    && IsHeader(lines[0]) && Elapsed(lines[0]) == 0
    && IsFooter(lines[|lines| - 1])
    && forall i | 0 < i < |lines| - 1 :: !IsHeader(lines[i]) && !IsFooter(lines[i])
  }

  /** The time from which the next line gets a checkpoint: a whole second after the last one's. */
  function NextCheckpoint(checkpoints: seq<Checkpoint>): nat {
    if checkpoints == [] then 0 else SecondAfter(checkpoints[|checkpoints| - 1].elapsed)
  }

  /** The first whole second after a time. */
  function SecondAfter(elapsed: nat): (t: nat)
    ensures elapsed < t <= elapsed + 1_000_000 && t % 1_000_000 == 0
  {
    (elapsed / US_PER_SECOND + 1) * US_PER_SECOND
  }

  function Checkpoints(lines: seq<Line>): seq<Checkpoint> {
    if lines == [] then []
    else
      var n := |lines| - 1;
      var before := Checkpoints(lines[..n]);
      if Elapsed(lines[n]) >= NextCheckpoint(before) then before + [Checkpoint(Elapsed(lines[n]), n)] else before
  }

  datatype Index = Index(checkpoints: seq<Checkpoint>, duration: nat)

  /** One pass that refuses exactly the files that are not valid sessions and indexes the others. */
  method ValidateAndIndex(lines: seq<Line>) returns (r: Result<Index, Error>)
    ensures r.Ok? <==> ValidSession(lines)
    ensures r.Ok? ==> r == Ok(Index(Checkpoints(lines), Elapsed(lines[|lines| - 1])))
  {
    var previous: int, nextCheckpoint: nat := -1, 0;
    var sawHeader, sawFooter := false, false;
    var rebuilt: seq<Checkpoint> := [];
    var n := 0;
    while n < |lines|
      invariant 0 <= n <= |lines|
      invariant rebuilt == Checkpoints(lines[..n]) && nextCheckpoint == NextCheckpoint(rebuilt)
      invariant forall i | 0 <= i < n :: ValidStructure(lines[i])
      invariant previous == if n == 0 then -1 else Elapsed(lines[n - 1])
      invariant forall i, j | 0 <= i <= j < n :: Elapsed(lines[i]) <= Elapsed(lines[j])
      invariant sawHeader <==> n > 0
      invariant n > 0 ==> IsHeader(lines[0]) && Elapsed(lines[0]) == 0
      invariant sawFooter <==> n > 0 && IsFooter(lines[n - 1])
      invariant forall i | 0 < i < n :: !IsHeader(lines[i])
      invariant forall i | 0 <= i < n - 1 :: !IsFooter(lines[i])
    {
      if !ValidStructure(lines[n]) {
        return Err(InvalidFormat);
      }
      var elapsed := Elapsed(lines[n]);
      if elapsed < previous {
        return Err(InvalidFormat);
      }
      previous := elapsed;
      if n == 0 && !IsHeader(lines[n]) {
        return Err(InvalidFormat);
      }
      if IsHeader(lines[n]) {
        if sawHeader || n != 0 || elapsed != 0 {
          return Err(InvalidFormat);
        }
        sawHeader := true;
      } else if IsFooter(lines[n]) {
        if sawFooter {
          return Err(InvalidFormat);
        }
        sawFooter := true;
      } else if sawFooter {
        return Err(InvalidFormat);
      }
      if elapsed >= nextCheckpoint {
        rebuilt := rebuilt + [Checkpoint(elapsed, n)];
        nextCheckpoint := SecondAfter(elapsed);
      }
      assert lines[..n + 1][..n] == lines[..n];
      n := n + 1;
    }
    assert lines[..n] == lines;
    if !sawHeader || !sawFooter {
      return Err(InvalidFormat);
    }
    return Ok(Index(rebuilt, Elapsed(lines[|lines| - 1])));
  }

  /** A checkpoint points at a line of its own time and every line before it is strictly earlier. */
  predicate Separates(lines: seq<Line>, c: Checkpoint) {
    && c.offset < |lines|
    && Elapsed(lines[c.offset]) == c.elapsed
    && forall i | 0 <= i < c.offset :: Elapsed(lines[i]) < c.elapsed
  }

  lemma {:induction false} CheckpointsAscend(lines: seq<Line>)
    ensures var cs := Checkpoints(lines);
            && (forall c, d | 0 <= c < d < |cs| :: cs[c].elapsed < cs[d].elapsed)
            && (forall i | 0 <= i < |lines| :: Elapsed(lines[i]) < NextCheckpoint(cs))
            && (lines != [] ==> cs != [] && cs[0] == Checkpoint(Elapsed(lines[0]), 0))
  {
    if lines != [] {
      CheckpointsAscend(lines[..|lines| - 1]);
    }
  }

  lemma {:induction false} CheckpointsSeparate(lines: seq<Line>, c: nat)
    requires c < |Checkpoints(lines)|
    ensures Separates(lines, Checkpoints(lines)[c])
  {
    var n := |lines| - 1;
    CheckpointsAscend(lines[..n]);
    assert forall i | 0 <= i < n :: lines[..n][i] == lines[i];
    if c < |Checkpoints(lines[..n])| {
      CheckpointsSeparate(lines[..n], c);
    }
  }

  /** Checkpoints are sparse: after each, the next one is the first line at or after the next whole
      second. */
  lemma {:induction false} CheckpointsAreSparse(lines: seq<Line>, c: nat)
    requires c + 1 < |Checkpoints(lines)|
    ensures var cs := Checkpoints(lines);
            && cs[c + 1].offset < |lines| && cs[c + 1].elapsed >= SecondAfter(cs[c].elapsed)
            && forall i | 0 <= i < cs[c + 1].offset :: Elapsed(lines[i]) < SecondAfter(cs[c].elapsed)
  {
    var n := |lines| - 1;
    if c + 1 < |Checkpoints(lines[..n])| {
      CheckpointsAreSparse(lines[..n], c);
    } else {
      CheckpointsAscend(lines[..n]);
      assert forall i | 0 <= i < n :: lines[..n][i] == lines[i];
    }
  }
}
