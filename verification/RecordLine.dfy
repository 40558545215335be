/** The bulk create line of the record file (lib/Recorder.cpp) and the reader that takes it apart (lib/tests.cpp). */
module RecordLine {
  import opened Common
  import opened Text
  import opened AttributeText
  import opened Sequences

  datatype RecordedObject = RecordedObject(id: string, attributes: seq<Attribute>)

  datatype Record = Record(objectType: string, objects: seq<RecordedObject>)

  const BARS: string := "||"

  function Segment(o: RecordedObject): string { o.id + "|" + Joined(o.attributes) }

  function Segments(objects: seq<RecordedObject>): (segments: seq<string>)
    ensures |segments| == |objects|
  {
    seq(|objects|, i requires 0 <= i < |objects| => Segment(objects[i]))
  }

  /** Every segment behind a double bar. */
  function Barred(segments: seq<string>): string {
    if segments == [] then "" else BARS + segments[0] + Barred(segments[1..])
  }

  function Header(timestamp: string, objectType: string): string { timestamp + "|C|" + objectType }

  function Line(timestamp: string, record: Record): string {
    Header(timestamp, record.objectType) + Barred(Segments(record.objects))
  }

  // ---------------------------------------------------------------- the reader

  function ParseSegment(segment: string): RecordedObject {
    var split := Split(segment, '|');
    RecordedObject(split[0], ParseItems(split[1..]))
  }

  function ParseSegments(segments: seq<string>): (objects: seq<RecordedObject>)
    ensures |objects| == |segments|
  {
    seq(|segments|, i requires 0 <= i < |segments| => ParseSegment(segments[i]))
  }

  /** `at(2)` throws when the part before the first double bar has fewer than two bars. */
  function ParseLine(line: string): Result<Record> {
    var fields := SplitText(line, BARS);
    var first := Split(fields[0], '|');
    if |first| < 3 then Thrown else Returned(Record(first[2], ParseSegments(fields[1..])))
  }

  // ---------------------------------------------------------------- splitting at double bars

  /** Every bar is followed by something else: no double bar, and no bar at the end. */
  predicate Solid(s: string) {
    forall k :: 0 <= k < |s| && s[k] == '|' ==> k + 1 < |s| && s[k + 1] != '|'
  }

  predicate AllSolid(segments: seq<string>) {
    forall i :: 0 <= i < |segments| ==> Solid(segments[i])
  }

  lemma TwoBars(s: string, k: nat)
    ensures OccursAt(s, BARS, k) <==> k + 1 < |s| && s[k] == '|' && s[k + 1] == '|'
  {
    if k + 1 < |s| {
      assert s[k..k + 2] == [s[k], s[k + 1]];
    }
  }

  lemma BarsEndSolid(a: string, rest: string)
    requires Solid(a)
    ensures FindText(a + BARS + rest, BARS, 0) == Some(|a|)
  {
    var s := a + BARS + rest;
    FindTextIsFirst(s, BARS, 0);
    TwoBars(s, |a|);
    forall k | 0 <= k < |a| ensures !OccursAt(s, BARS, k) {
      TwoBars(s, k);
      assert s[k] == a[k];
    }
  }

  lemma NoBarsInSolid(a: string)
    requires Solid(a)
    ensures FindText(a, BARS, 0) == None
  {
    FindTextIsFirst(a, BARS, 0);
    forall k: nat ensures !OccursAt(a, BARS, k) {
      TwoBars(a, k);
    }
  }

  lemma OneSplit(a: string, rest: string)
    requires Solid(a)
    ensures SplitText(a + BARS + rest, BARS) == [a] + SplitText(rest, BARS)
  {
    BarsEndSolid(a, rest);
    var s := a + BARS + rest;
    assert s[..|a|] == a && s[|a| + 2..] == rest;
  }

  lemma BarredFirst(a: string, segments: seq<string>)
    requires segments != []
    ensures a + Barred(segments) == a + BARS + (segments[0] + Barred(segments[1..]))
  {}

  lemma {:induction false} SplitBarred(a: string, segments: seq<string>)
    requires Solid(a) && AllSolid(segments)
    ensures SplitText(a + Barred(segments), BARS) == [a] + segments
    decreases |segments|
  {
    if segments == [] {
      NoBarsInSolid(a);
      assert a + "" == a;
    } else {
      var rest := segments[0] + Barred(segments[1..]);
      BarredFirst(a, segments);
      OneSplit(a, rest);
      SplitBarred(segments[0], segments[1..]);
      FirstAndRest(segments);
    }
  }

  lemma {:induction false} JoinIsSolid(parts: seq<string>)
    requires |parts| > 0 && AllFree(parts, '|') && forall i :: 1 <= i < |parts| ==> parts[i] != ""
    ensures (|parts| > 1 || parts[0] != "") ==> Solid(Join(parts, '|'))
    decreases |parts|
  {
    if |parts| > 1 {
      var rest := Join(parts[1..], '|');
      JoinIsSolid(parts[1..]);
      var s := parts[0] + ['|'] + rest;
      assert rest[0] == parts[1][0];
      assert forall k :: 0 <= k < |parts[0]| ==> s[k] == parts[0][k];
      forall k | 0 <= k < |s| && s[k] == '|' ensures k + 1 < |s| && s[k + 1] != '|' {
        if k > |parts[0]| {
          assert rest[k - |parts[0]| - 1] == '|';
        }
      }
    }
  }

  // ---------------------------------------------------------------- clean records come back

  predicate CleanObject(o: RecordedObject) {
    '|' !in o.id && o.attributes != [] && Clean(o.attributes)
  }

  /** No bar in the type or an id, no separator in an attribute, no object without attribute text. */
  predicate CleanRecord(record: Record) {
    && '|' !in record.objectType
    && (record.objects != [] ==> record.objectType != "")
    && forall i :: 0 <= i < |record.objects| ==> CleanObject(record.objects[i])
  }

  lemma SegmentIsJoin(o: RecordedObject)
    requires o.attributes != []
    ensures Segment(o) == Join([o.id] + Items(o.attributes), '|')
  {
    assert ([o.id] + Items(o.attributes))[1..] == Items(o.attributes);
  }

  lemma CleanSegment(o: RecordedObject)
    requires CleanObject(o)
    ensures Solid(Segment(o)) && ParseSegment(Segment(o)) == o
  {
    var parts := [o.id] + Items(o.attributes);
    forall i | 0 <= i < |parts| ensures '|' !in parts[i] && (i > 0 ==> parts[i] != "") {
      if i > 0 {
        assert CleanAttribute(o.attributes[i - 1]);
        assert parts[i] == Item(o.attributes[i - 1]);
      }
    }
    SegmentIsJoin(o);
    JoinIsSolid(parts);
    SplitJoin(parts, '|');
    assert parts[1..] == Items(o.attributes);
    forall i | 0 <= i < |o.attributes| ensures ParseItems(Items(o.attributes))[i] == o.attributes[i] {
      assert CleanAttribute(o.attributes[i]);
      ItemRoundTrip(o.attributes[i]);
    }
  }

  lemma HeaderSplits(timestamp: string, objectType: string)
    requires '|' !in timestamp && '|' !in objectType
    ensures Split(Header(timestamp, objectType), '|') == [timestamp, "C", objectType]
    ensures objectType != "" ==> Solid(Header(timestamp, objectType))
  {
    var parts := [timestamp, "C", objectType];
    assert parts[1..] == ["C", objectType] && parts[1..][1..] == [objectType];
    assert Join(["C", objectType], '|') == "C" + "|" + objectType;
    assert timestamp + "|" + ("C" + "|" + objectType) == Header(timestamp, objectType);
    SplitJoin(parts, '|');
    if objectType != "" {
      JoinIsSolid(parts);
    }
  }

  /** A line without a type and without objects ends in a bar but holds no double bar. */
  lemma NoTypeNoBars(timestamp: string)
    requires '|' !in timestamp
    ensures SplitText(Header(timestamp, ""), BARS) == [Header(timestamp, "")]
  {
    var s := Header(timestamp, "");
    assert s == timestamp + "|C|";
    FindTextIsFirst(s, BARS, 0);
    forall k: nat ensures !OccursAt(s, BARS, k) {
      TwoBars(s, k);
      assert k < |timestamp| ==> s[k] == timestamp[k];
    }
  }

  lemma CleanRecordReturns(timestamp: string, record: Record)
    requires '|' !in timestamp && CleanRecord(record)
    ensures ParseLine(Line(timestamp, record)) == Returned(record)
  {
    var header, segments := Header(timestamp, record.objectType), Segments(record.objects);
    HeaderSplits(timestamp, record.objectType);
    forall i | 0 <= i < |segments| ensures Solid(segments[i]) && ParseSegment(segments[i]) == record.objects[i] {
      CleanSegment(record.objects[i]);
    }
    if record.objectType != "" {
      SplitBarred(header, segments);
    } else {
      NoTypeNoBars(timestamp);
      assert header + "" == header;
    }
    assert ([header] + segments)[1..] == segments;
    assert ParseSegments(segments) == record.objects;
  }

  // ---------------------------------------------------------------- what comes back is clean

  lemma {:induction false} JoinSplit(s: string, c: char)
    ensures Join(Split(s, c), c) == s
    decreases |s|
  {
    match Find(s, c, 0)
    case None =>
    case Some(i) =>
      var pieces := Split(s[i + 1..], c);
      JoinSplit(s[i + 1..], c);
      assert ([s[..i]] + pieces)[1..] == pieces;
      assert s == s[..i] + [c] + s[i + 1..];
  }

  /** Printing what was parsed from some pieces gives at least as much text as the pieces had. */
  lemma {:induction false} ParsedIsNoShorter(pieces: seq<string>)
    ensures |Join(Items(ParseItems(pieces)), '|')| >= |Join(pieces, '|')|
    decreases |pieces|
  {
    if pieces != [] {
      var items := Items(ParseItems(pieces));
      assert |items[0]| >= |pieces[0]|;
      ParsedIsNoShorter(pieces[1..]);
      assert items[1..] == Items(ParseItems(pieces[1..]));
    }
  }

  /** A segment is never longer than its object printed again, and shorter if it holds no attribute. */
  lemma ParsedSegment(segment: string)
    ensures var o := ParseSegment(segment);
            && '|' !in o.id && Clean(o.attributes)
            && |Segment(o)| >= |segment| && (o.attributes == [] ==> |Segment(o)| > |segment|)
  {
    var split := Split(segment, '|');
    var o := ParseSegment(segment);
    SplitPartsFree(segment, '|');
    JoinSplit(segment, '|');
    ParsedIsNoShorter(split[1..]);
    forall i | 0 <= i < |o.attributes| ensures CleanAttribute(o.attributes[i]) {
      assert '|' !in split[1..][i];
      FindIsFirst(split[1..][i], '=', 0);
    }
  }

  function TextLength(segments: seq<string>): nat {
    if segments == [] then 0 else 2 + |segments[0]| + TextLength(segments[1..])
  }

  lemma {:induction false} BarredLength(segments: seq<string>)
    ensures |Barred(segments)| == TextLength(segments)
    decreases |segments|
  {
    if segments != [] {
      BarredLength(segments[1..]);
    }
  }

  lemma {:induction false} SplitTextLength(s: string)
    ensures var fields := SplitText(s, BARS);
            |fields| > 0 && |s| == |fields[0]| + TextLength(fields[1..])
    decreases |s|
  {
    match FindText(s, BARS, 0)
    case None =>
    case Some(i) =>
      var more := SplitText(s[i + 2..], BARS);
      SplitTextLength(s[i + 2..]);
      assert ([s[..i]] + more)[1..] == more;
  }

  lemma {:induction false} PrintedIsNoShorter(segments: seq<string>)
    ensures var printed := Segments(ParseSegments(segments));
            && TextLength(printed) >= TextLength(segments)
            && (TextLength(printed) == TextLength(segments) ==>
                  forall i :: 0 <= i < |segments| ==> ParseSegment(segments[i]).attributes != [])
    decreases |segments|
  {
    if segments != [] {
      ParsedSegment(segments[0]);
      PrintedIsNoShorter(segments[1..]);
      assert Segments(ParseSegments(segments))[1..] == Segments(ParseSegments(segments[1..]));
      assert forall i :: 0 < i < |segments| ==> segments[i] == segments[1..][i - 1];
    }
  }

  /** The first field ends no later than the first double bar that the printer wrote. */
  lemma FirstFieldEnds(header: string, segments: seq<string>)
    requires segments != []
    ensures |SplitText(header + Barred(segments), BARS)[0]| <= |header|
  {
    var s := header + Barred(segments);
    FindTextIsFirst(s, BARS, 0);
    TwoBars(s, |header|);
  }

  /** A type that is missing before objects shifts the double bar, and the type is not found. */
  lemma MissingTypeThrows(timestamp: string, objects: seq<RecordedObject>)
    requires '|' !in timestamp && objects != []
    ensures ParseLine(Line(timestamp, Record("", objects))) == Thrown
  {
    var segments := Segments(objects);
    var start := timestamp + "|C";
    var rest := "|" + segments[0] + Barred(segments[1..]);
    assert Line(timestamp, Record("", objects)) == start + BARS + rest;
    assert forall k :: 0 <= k < |timestamp| ==> start[k] == timestamp[k] != '|';
    assert Solid(start);
    OneSplit(start, rest);
    var parts := [timestamp, "C"];
    assert parts[1..] == ["C"];
    assert Join(parts, '|') == start;
    SplitJoin(parts, '|');
  }

  lemma ReturnedRecordIsClean(timestamp: string, record: Record)
    requires '|' !in timestamp && ParseLine(Line(timestamp, record)) == Returned(record)
    ensures CleanRecord(record)
  {
    var line := Line(timestamp, record);
    var header, segments := Header(timestamp, record.objectType), Segments(record.objects);
    var fields := SplitText(line, BARS);
    SplitPartsFree(fields[0], '|');
    assert '|' !in record.objectType;
    if record.objects != [] {
      if record.objectType == "" {
        MissingTypeThrows(timestamp, record.objects);
        assert false;
      }
      SplitTextLength(line);
      BarredLength(segments);
      FirstFieldEnds(header, segments);
      PrintedIsNoShorter(fields[1..]);
      forall i | 0 <= i < |record.objects| ensures CleanObject(record.objects[i]) {
        ParsedSegment(fields[1..][i]);
        assert record.objects[i] == ParseSegment(fields[1..][i]);
      }
    }
  }

  /**
   * A recorded bulk create comes back, type, ids and attributes in order, exactly when the record
   * is clean. In particular every object must have attribute text.
   */
  lemma RecordRoundTripExactly(timestamp: string, record: Record)
    requires '|' !in timestamp
    ensures ParseLine(Line(timestamp, record)) == Returned(record) <==> CleanRecord(record)
  {
    if CleanRecord(record) {
      CleanRecordReturns(timestamp, record);
    } else if ParseLine(Line(timestamp, record)) == Returned(record) {
      ReturnedRecordIsClean(timestamp, record);
      assert false;
    }
  }

  /** What the client records for a bulk create: every list padded so that its text is not empty. */
  function RecordedObjects(ids: seq<string>, lists: seq<seq<Attribute>>): (objects: seq<RecordedObject>)
    requires |ids| == |lists|
    ensures |objects| == |ids|
  {
    seq(|ids|, i requires 0 <= i < |ids| => RecordedObject(ids[i], Padded(lists[i])))
  }

  /** Recorded and read again, a bulk create has its ids and, once loaded, its lists, empty ones included. */
  lemma BulkCreateReplays(timestamp: string, objectType: string, ids: seq<string>, lists: seq<seq<Attribute>>,
                          readable: Attribute -> bool)
    requires '|' !in timestamp && '|' !in objectType && objectType != ""
    requires |ids| == |lists| && forall i :: 0 <= i < |ids| ==> '|' !in ids[i] && Deliverable(lists[i])
    requires forall i, k :: 0 <= i < |lists| && 0 <= k < |lists[i]| ==> readable(lists[i][k])
    ensures var replayed := ParseLine(Line(timestamp, Record(objectType, RecordedObjects(ids, lists))));
            && replayed.Returned? && replayed.value.objectType == objectType && |replayed.value.objects| == |ids|
            && forall i :: 0 <= i < |ids| ==>
                 && replayed.value.objects[i].id == ids[i]
                 && Loaded(replayed.value.objects[i].attributes, readable) == Returned(lists[i])
  {
    var objects := RecordedObjects(ids, lists);
    forall i | 0 <= i < |ids|
      ensures CleanObject(objects[i]) && Loaded(objects[i].attributes, readable) == Returned(lists[i])
    {
      assert Clean(Padded(lists[i]));
      PaddingIsDropped(lists[i], readable);
    }
    RecordRoundTripExactly(timestamp, Record(objectType, objects));
  }

  // ---------------------------------------------------------------- printer and reader as loops

  type Entries = seq<(string, string)>

  function EntriesOf(objects: seq<RecordedObject>): (entries: Entries)
    ensures |entries| == |objects|
  {
    seq(|objects|, i requires 0 <= i < |objects| => (objects[i].id, Joined(objects[i].attributes)))
  }

  function EntrySegments(entries: Entries): (segments: seq<string>)
    ensures |segments| == |entries|
  {
    seq(|entries|, i requires 0 <= i < |entries| => entries[i].0 + "|" + entries[i].1)
  }

  /** The line that is written for any entries. */
  function EntriesLine(timestamp: string, objectType: string, entries: Entries): string {
    Header(timestamp, objectType) + Barred(EntrySegments(entries))
  }

  /** For the ids and joined attributes of objects it is the line of their record. */
  lemma EntriesLineIsLine(timestamp: string, record: Record)
    ensures EntriesLine(timestamp, record.objectType, EntriesOf(record.objects)) == Line(timestamp, record)
  {
    assert EntrySegments(EntriesOf(record.objects)) == Segments(record.objects);
  }

  lemma {:induction false} BarredOneMore(segments: seq<string>, segment: string)
    ensures Barred(segments + [segment]) == Barred(segments) + BARS + segment
    decreases |segments|
  {
    if segments == [] {
      assert [segment][1..] == [];
      assert [] + [segment] == [segment];
    } else {
      assert (segments + [segment])[1..] == segments[1..] + [segment];
      BarredOneMore(segments[1..], segment);
    }
  }

  class Recorder {
    var enabled: bool
    var open: bool
    /** The lines of the file, as long as it is open. */
    var lines: seq<string>

    constructor (enabled: bool, open: bool)
      ensures this.enabled == enabled && this.open == open && lines == []
    {
      this.enabled, this.open, lines := enabled, open, [];
    }

    method RecordLine(timestamp: string, line: string)
      modifies `lines
      ensures lines == if enabled && open then old(lines) + [timestamp + "|" + line] else old(lines)
    {
      if !enabled {
        return;
      }
      if open {
        lines := lines + [timestamp + "|" + line];
      }
    }

    method RecordBulkGenericCreate(timestamp: string, objectType: string, entriesWithStatus: Entries)
      modifies `lines
      ensures lines == if enabled && open then old(lines) + [EntriesLine(timestamp, objectType, entriesWithStatus)]
                       else old(lines)
    {
      ghost var segments := EntrySegments(entriesWithStatus);
      var joined := "";
      for i := 0 to |entriesWithStatus|
        invariant joined == Barred(segments[..i])
        invariant lines == old(lines)
      {
        var e := entriesWithStatus[i];
        BarredOneMore(segments[..i], segments[i]);
        assert segments[..i + 1] == segments[..i] + [segments[i]];
        joined := joined + "||" + e.0 + "|" + e.1;
      }
      assert segments[..|segments|] == segments;
      var line := "C|" + objectType + joined;
      assert timestamp + "|" + line == EntriesLine(timestamp, objectType, entriesWithStatus);
      RecordLine(timestamp, line);
    }
  }

  lemma NextToken(tokens: seq<string>, input: string, delim: string)
    requires delim != "" && FindText(input, delim, 0).Some?
    ensures var pos := FindText(input, delim, 0).value;
            tokens + SplitText(input, delim)
            == tokens + [input[..pos]] + SplitText(input[pos + |delim|..], delim)
  {
    var pos := FindText(input, delim, 0).value;
    var rest := SplitText(input[pos + |delim|..], delim);
    assert tokens + ([input[..pos]] + rest) == tokens + [input[..pos]] + rest;
  }

  /** `tokenize` of the replay test. With an empty separator its loop would find it forever. */
  method Tokenize(text: string, delim: string) returns (tokens: seq<string>)
    requires delim != ""
    ensures tokens == SplitText(text, delim)
  {
    var input := text;
    tokens := [];
    var pos := FindText(input, delim, 0);
    while pos.Some?
      invariant pos == FindText(input, delim, 0)
      invariant SplitText(text, delim) == tokens + SplitText(input, delim)
      decreases |input|
    {
      var token := input[..pos.value];
      NextToken(tokens, input, delim);
      input := input[pos.value + |delim|..];
      tokens := tokens + [token];
      pos := FindText(input, delim, 0);
    }
    tokens := tokens + [input];
  }

  method ReadBulkLine(line: string) returns (r: Result<Record>)
    ensures r == ParseLine(line)
  {
    var fields := Tokenize(line, "||");
    var first := Split(fields[0], '|');
    if |first| <= 2 {
      return Thrown;
    }
    var objects: seq<RecordedObject> := [];
    for idx := 1 to |fields|
      invariant objects == ParseSegments(fields[1..])[..idx - 1]
    {
      var joined := fields[idx];
      var split := Split(joined, '|');
      var entries: seq<Attribute> := [];
      for i := 1 to |split|
        invariant entries == ParseItems(split[1..])[..i - 1]
      {
        var item := split[i];
        var start := Find(item, '=', 0);
        var field := if start.None? then item else item[..start.value];
        var value := if start.None? then item else item[start.value + 1..];
        entries := entries + [Attribute(field, value)];
      }
      assert entries == ParseItems(split[1..]);
      assert fields[1..][idx - 1] == joined;
      objects := objects + [RecordedObject(split[0], entries)];
    }
    assert objects == ParseSegments(fields[1..]);
    return Returned(Record(first[2], objects));
  }
}
