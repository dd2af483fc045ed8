/** The text of the simulation's CSV export (exportCSV in
    src/components/Simulation.js): nine metadata lines, a header of eleven
    column names, then one comma-joined line per reading, all joined with
    newlines. The download itself is not modelled. */
module CsvExport {
  import opened Text
  import opened Protocols
  import opened Readings

  /** What the metadata block reports. `date` is the output of
      toLocaleString and `duration` that of toFixed(1) on the lifetime. */
  datatype Metadata = Metadata(date: string, protocol: Protocol, nodes: int, packetSize: int, duration: NumText)

  const ColumnNames: seq<string> := [
    "Timestamp(s)", "AvgEnergy(J)", "MaxEnergy(J)", "NodeCount", "Protocol",
    "PacketSize(bytes)", "SimSpeed", "PacketsSent", "PacketsReceived",
    "DeliveryRatio(%)", "RemainingBattery(%)"]

  function Header(): string {
    Join(ColumnNames, ',')
  }

  function MetadataLines(m: Metadata): seq<string> {
    [ "# UWSN Simulation Results",
      "# Date: " + m.date,
      "# Protocol: " + Name(m.protocol),
      "# Node Count: " + IntText(m.nodes),
      "# Packet Size: " + IntText(m.packetSize) + " bytes",
      "# Simulation Duration: " + m.duration + " seconds",
      "# Battery Capacity: 50 J",
      "#",
      "" ]
  }

  /** The eleven fields of a reading, in header order. */
  function Fields(r: Reading): seq<string> {
    [ r.timestamp, r.avgEnergy, r.maxEnergy, IntText(r.nodeCount), Name(r.protocol),
      IntText(r.packetSize), IntText(r.speed), HundredthsText(r.sentHundredths),
      NatText(r.packetsReceived), IntText(r.deliveryRatio), IntText(r.remainingBattery) ]
  }

  function RowLine(r: Reading): string {
    Join(Fields(r), ',')
  }

  function RowLines(rs: seq<Reading>): (lines: seq<string>)
    ensures |lines| == |rs|
    ensures forall k :: 0 <= k < |rs| ==> lines[k] == RowLine(rs[k])
  {
    if rs == [] then [] else [RowLine(rs[0])] + RowLines(rs[1..])
  }

  function Lines(m: Metadata, rs: seq<Reading>): seq<string> {
    MetadataLines(m) + [Header()] + RowLines(rs)
  }

  /** The export is skipped when the log is empty. */
  function Export(m: Metadata, rs: seq<Reading>): (r: Option<string>)
    ensures r.None? <==> rs == []
  {
    if |rs| == 0 then None else Some(Join(Lines(m, rs), '\n'))
  }

  // ---------------------------------------------------------------------
  // Reading the export back
  // ---------------------------------------------------------------------

  function ParseRow(line: string): Option<Reading> {
    var f := Split(line, ',');
    if |f| != 11 then None
    else
      var nodes := ParseInt(f[3]);
      var protocol := FromName(f[4]);
      var packetSize := ParseInt(f[5]);
      var speed := ParseInt(f[6]);
      var sent := ParseHundredths(f[7]);
      var received := ParseNat(f[8]);
      var ratio := ParseInt(f[9]);
      var battery := ParseInt(f[10]);
      if IsNumText(f[0]) && IsNumText(f[1]) && IsNumText(f[2]) && nodes.Some? && protocol.Some?
         && packetSize.Some? && speed.Some? && sent.Some? && received.Some? && ratio.Some? && battery.Some?
      then
        Some(Reading(f[0], f[1], f[2], nodes.value, protocol.value, packetSize.value, speed.value,
                     sent.value, received.value, ratio.value, battery.value))
      else None
  }

  function ParseRows(lines: seq<string>): Option<seq<Reading>> {
    if lines == [] then Some([])
    else
      var first := ParseRow(lines[0]);
      var rest := ParseRows(lines[1..]);
      if first.Some? && rest.Some? then Some([first.value] + rest.value) else None
  }

  /** Skip the metadata block and the header, then read one reading per line. */
  function ParseExport(content: string): Option<seq<Reading>> {
    var lines := Split(content, '\n');
    if |lines| < 10 || lines[9] != Header() then None else ParseRows(lines[10..])
  }

  // ---------------------------------------------------------------------
  // Properties
  // ---------------------------------------------------------------------

  predicate NoSeparators(s: string) {
    ',' !in s && '\n' !in s
  }

  lemma NumTextHasNoSeparators(s: string)
    requires IsNumText(s)
    ensures NoSeparators(s)
  {
  }

  /** No field of a row contains a comma or a newline: protocol names are
      upper-case letters and every other field is numeric text. */
  lemma FieldsHaveNoSeparators(r: Reading)
    ensures |Fields(r)| == |ColumnNames| == 11
    ensures forall k :: 0 <= k < 11 ==> NoSeparators(Fields(r)[k])
  {
    var f := Fields(r);
    forall k | 0 <= k < 11 ensures NoSeparators(f[k]) {
      if k == 4 {
        NameHasNoSeparator(r.protocol, ',');
        NameHasNoSeparator(r.protocol, '\n');
      } else {
        assert IsNumText(f[k]);
        NumTextHasNoSeparators(f[k]);
      }
    }
  }

  /** Splitting a row on commas gives back its eleven fields. */
  lemma RowSplitsIntoFields(r: Reading)
    ensures Split(RowLine(r), ',') == Fields(r)
    ensures '\n' !in RowLine(r)
  {
    FieldsHaveNoSeparators(r);
    SplitJoin(Fields(r), ',');
    JoinAvoids(Fields(r), ',', '\n');
  }

  /** Every reading survives the trip through its CSV line. */
  lemma RowRoundTrip(r: Reading)
    ensures ParseRow(RowLine(r)) == Some(r)
  {
    RowSplitsIntoFields(r);
    IntTextRoundTrip(r.nodeCount);
    NameRoundTrip(r.protocol);
    IntTextRoundTrip(r.packetSize);
    IntTextRoundTrip(r.speed);
    HundredthsRoundTrip(r.sentHundredths);
    NatTextRoundTrip(r.packetsReceived);
    IntTextRoundTrip(r.deliveryRatio);
    IntTextRoundTrip(r.remainingBattery);
  }

  lemma {:induction false} RowsRoundTrip(rs: seq<Reading>)
    ensures ParseRows(RowLines(rs)) == Some(rs)
  {
    if rs != [] {
      RowRoundTrip(rs[0]);
      RowsRoundTrip(rs[1..]);
      assert RowLines(rs)[1..] == RowLines(rs[1..]);
      assert [rs[0]] + rs[1..] == rs;
    }
  }

  lemma HeaderShape()
    ensures Split(Header(), ',') == ColumnNames
    ensures '\n' !in Header()
  {
    forall k | 0 <= k < |ColumnNames| ensures NoSeparators(ColumnNames[k]) {
      ColumnNameHasNoSeparators(k);
    }
    SplitJoin(ColumnNames, ',');
    JoinAvoids(ColumnNames, ',', '\n');
  }

  lemma ColumnNameHasNoSeparators(k: nat)
    requires k < |ColumnNames|
    ensures NoSeparators(ColumnNames[k])
  {
    if k < 6 {
      LeadingColumnsPlain(k);
    } else {
      TrailingColumnsPlain(k);
    }
  }

  lemma LeadingColumnsPlain(k: nat)
    requires k < 6
    ensures NoSeparators(ColumnNames[k])
  {
    var n := ColumnNames[k];
    forall i | 0 <= i < |n| ensures n[i] != ',' && n[i] != '\n' {
    }
  }

  lemma TrailingColumnsPlain(k: nat)
    requires 6 <= k < |ColumnNames|
    ensures NoSeparators(ColumnNames[k])
  {
    var n := ColumnNames[k];
    forall i | 0 <= i < |n| ensures n[i] != ',' && n[i] != '\n' {
    }
  }

  /** The layout of a non-empty export: nine metadata lines (the last one
      empty), the header, and one line per reading in log order. */
  lemma LinesLayout(m: Metadata, rs: seq<Reading>)
    ensures var lines := Lines(m, rs);
      |lines| == 10 + |rs| &&
      lines[..9] == MetadataLines(m) && lines[8] == "" &&
      lines[9] == Header() &&
      (forall k :: 0 <= k < |rs| ==> lines[10 + k] == RowLine(rs[k]))
  {
    MetadataShape(m);
    Spliced(MetadataLines(m), Header(), RowLines(rs));
  }

  lemma MetadataShape(m: Metadata)
    ensures |MetadataLines(m)| == 9
    ensures MetadataLines(m)[8] == ""
  {
  }

  /** Where the three parts of a + [b] + c sit. */
  lemma Spliced<T>(a: seq<T>, b: T, c: seq<T>)
    ensures |a + [b] + c| == |a| + 1 + |c|
    ensures (a + [b] + c)[..|a|] == a && (a + [b] + c)[|a|] == b
    ensures forall k :: 0 <= k < |c| ==> (a + [b] + c)[|a| + 1 + k] == c[k]
  {
  }

  /** An export is produced exactly when the log is non-empty, and splitting
      it on newlines recovers its lines. */
  lemma ExportSplitsIntoLines(m: Metadata, rs: seq<Reading>)
    requires '\n' !in m.date
    ensures Export(m, rs).None? <==> rs == []
    ensures rs != [] ==> Split(Export(m, rs).value, '\n') == Lines(m, rs)
  {
    if rs != [] {
      LinesHaveNoNewline(m, rs);
      SplitJoin(Lines(m, rs), '\n');
    }
  }

  lemma LinesHaveNoNewline(m: Metadata, rs: seq<Reading>)
    requires '\n' !in m.date
    ensures NoneContains(Lines(m, rs), '\n')
  {
    var lines := Lines(m, rs);
    forall k | 0 <= k < |lines| ensures '\n' !in lines[k] {
      if k < 9 {
        MetadataHasNoNewline(m, k);
      } else if k == 9 {
        HeaderShape();
      } else {
        assert lines[k] == RowLines(rs)[k - 10];
        RowSplitsIntoFields(rs[k - 10]);
      }
    }
  }

  lemma MetadataHasNoNewline(m: Metadata, k: nat)
    requires '\n' !in m.date && k < 9
    ensures '\n' !in MetadataLines(m)[k]
  {
    if k < 4 {
      NameHasNoSeparator(m.protocol, '\n');
      NumTextHasNoSeparators(IntText(m.nodes));
      LeadingMetadataPlain(m, k);
    } else if k < 6 {
      NumTextHasNoSeparators(IntText(m.packetSize));
      NumTextHasNoSeparators(m.duration);
      SizeAndDurationPlain(m, k);
    } else {
      FixedMetadataPlain(m, k);
    }
  }

  lemma LeadingMetadataPlain(m: Metadata, k: nat)
    requires '\n' !in m.date && '\n' !in Name(m.protocol) && '\n' !in IntText(m.nodes) && k < 4
    ensures '\n' !in MetadataLines(m)[k]
  {
  }

  lemma SizeAndDurationPlain(m: Metadata, k: nat)
    requires '\n' !in IntText(m.packetSize) && '\n' !in m.duration && 4 <= k < 6
    ensures '\n' !in MetadataLines(m)[k]
  {
  }

  lemma FixedMetadataPlain(m: Metadata, k: nat)
    requires 6 <= k < 9
    ensures '\n' !in MetadataLines(m)[k]
  {
  }

  /** Reading a non-empty export back reproduces the log field for field. */
  lemma ExportRoundTrip(m: Metadata, rs: seq<Reading>)
    requires '\n' !in m.date && rs != []
    ensures ParseExport(Export(m, rs).value) == Some(rs)
  {
    ExportSplitsIntoLines(m, rs);
    var lines := Lines(m, rs);
    assert lines[10..] == RowLines(rs);
    RowsRoundTrip(rs);
  }
}
