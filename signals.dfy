/** `create_signal_trackdb`: a composite track of bigWig signal files with
    a timepoint subgroup and a mark-source subgroup. */
module Signals {
  import opened Text
  import opened Order
  import opened FileNames
  import opened Tags
  import opened Display
  import opened Blocks
  import opened FirstPass

  const Header := "# --- Histone Mark / Signal Tracks (with Subgroups) ---"

  function UnparsedWarning(filename: string): string {
    "# Warning: Could not parse signal filename: " + filename + ". Skipping."
  }

  function MissingListError(path: string): string {
    "# Error: Signal track input file not found at " + path
  }

  function NoDataNotice(path: string): string {
    "# No valid signal track data found in " + path
  }

  /** What the first pass keeps of one signal file. */
  datatype SignalRecord = SignalRecord(filename: string, mark: string, timepoint: string,
                                       source: string, sourceId: string, markSourceKey: string)

  /** Marks are written with `.` where file names may use `-` (`H2A-Z`). */
  function NormaliseMark(raw: string): (r: string)
    ensures |r| == |raw| && '-' !in r
    ensures forall i :: 0 <= i < |raw| && raw[i] == '-' ==> r[i] == '.'
    ensures forall i :: 0 <= i < |raw| && raw[i] != '-' ==> r[i] == raw[i]
  {
    ReplaceChar(raw, '-', '.')
  }

  /** Normalising a mark twice is normalising it once. */
  lemma NormaliseMarkIdempotent(raw: string)
    ensures NormaliseMark(NormaliseMark(raw)) == NormaliseMark(raw)
  {
    var once := NormaliseMark(raw);
    var twice := NormaliseMark(once);
    forall i | 0 <= i < |once| ensures twice[i] == once[i] {
      assert once[i] != '-';
    }
  }

  /** The record of a file name split into its groups. */
  function RecordOf(filename: string, g: SignalName): SignalRecord {
    var mark := NormaliseMark(g.mark);
    SignalRecord(filename, mark, g.timepoint, g.source, g.sourceId, mark + "_" + g.source)
  }

  function ClassifySignal(line: string): Line<SignalRecord> {
    var path := Strip(line);
    if path == [] then Blank
    else
      var filename := Basename(path);
      match ParseSignal(filename)
      case None => Skipped(UnparsedWarning(filename))
      case Some(g) => Parsed(RecordOf(filename, g))
  }

  /** A line is blank exactly when it strips to nothing; it is skipped
      exactly when its file name does not match the signal pattern, and
      otherwise it holds the groups of the match with the shortest mark. */
  lemma ClassifySignalSpec(line: string)
    ensures var r, f := ClassifySignal(line), Basename(Strip(line));
            && (r.Blank? <==> Strip(line) == [])
            && (r.Skipped? ==> r.warning == UnparsedWarning(f) && forall h :: !IsSignalSplit(f, h))
            && (r.Parsed? ==> ParseSignal(f).Some? && r.record == RecordOf(f, ParseSignal(f).value))
  {
    var r, f := ClassifySignal(line), Basename(Strip(line));
    if Strip(line) == [] {
      assert r == Blank;
    } else {
      match ParseSignal(f) {
        case None =>
          assert r == Skipped(UnparsedWarning(f));
        case Some(g) =>
          assert r == Parsed(RecordOf(f, g));
      }
    }
  }

  function ClassifyAll(lines: seq<string>): (ks: seq<Line<SignalRecord>>)
    ensures |ks| == |lines|
    ensures forall i :: 0 <= i < |lines| ==> ks[i] == ClassifySignal(lines[i])
  {
    seq(|lines|, i requires 0 <= i < |lines| => ClassifySignal(lines[i]))
  }

  // ---------------------------------------------------------------------
  // First pass

  function TimepointOf(r: SignalRecord): string {
    r.timepoint
  }

  function MarkSourceKeyOf(r: SignalRecord): string {
    r.markSourceKey
  }

  /** The first pass over classified lines: the sets it fills are the
      timepoints and the mark-source keys. */
  function SignalScan(ks: seq<Line<SignalRecord>>): Scan<SignalRecord, string> {
    ScanLines(ks, TimepointOf, MarkSourceKeyOf)
  }

  // ---------------------------------------------------------------------
  // Parent stanza and subtracks

  /** The parent stanza: the subgroup values sorted and tagged. */
  function SignalParentBlock(parent: string, s: Scan<SignalRecord, string>): Block {
    SignalParent(parent, TimepointItems(SortedTimepoints(s.timepoints)),
                 MarkSourceItems(SortedMarkSources(s.keys)))
  }

  /** The subtrack stanza of one record. */
  function SignalEntry(rec: SignalRecord, baseUrl: string, parent: string, priority: nat): Block {
    SignalChild(SignalTrackId(parent, rec.mark, rec.timepoint, rec.source), parent,
                TimepointTag(rec.timepoint), MarkSourceTag(rec.markSourceKey),
                rec.mark + " " + rec.timepoint + " (" + rec.source + ")",
                rec.mark + " signal at " + rec.timepoint + " from " + rec.source + " (" + rec.sourceId + ")",
                SignalStyle(rec.mark), baseUrl + "/" + rec.filename, priority)
  }

  function SignalEntries(recs: seq<SignalRecord>, baseUrl: string, parent: string, priority: nat): seq<Block>
    decreases |recs|
  {
    if recs == [] then []
    else [SignalEntry(recs[0], baseUrl, parent, priority)] + SignalEntries(recs[1..], baseUrl, parent, priority + 1)
  }

  /** Everything `create_signal_trackdb` prints. */
  function SignalTrackDb(path: string, list: ListFile, baseUrl: string, parent: string): seq<Block> {
    [Comment(Header)]
    + match list
      case Missing => [Comment(MissingListError(path))]
      case Present(lines) =>
        var s := SignalScan(ClassifyAll(lines));
        Comments(s.warnings) + SignalTail(path, baseUrl, parent, s)
  }

  /** What follows the warnings: the notice when nothing parsed, else the
      parent stanza and the subtracks. */
  function SignalTail(path: string, baseUrl: string, parent: string, s: Scan<SignalRecord, string>): seq<Block> {
    if s.records == [] then [Comment(NoDataNotice(path))]
    else [SignalParentBlock(parent, s)] + SignalEntries(s.records, baseUrl, parent, 21)
  }

  /** The first pass over the list: the warnings it prints and the
      records, timepoints and mark-source keys it gathers. */
  method ScanSignalLines(lines: seq<string>)
    returns (records: seq<SignalRecord>, warnings: seq<string>, timepoints: seq<string>, markSources: seq<string>)
    ensures Scan(records, warnings, timepoints, markSources) == SignalScan(ClassifyAll(lines))
  {
    ghost var ks := ClassifyAll(lines);
    records, warnings, timepoints, markSources := [], [], [], [];
    var i := 0;
    while i < |lines|
      invariant 0 <= i <= |lines|
      invariant Scan(records, warnings, timepoints, markSources) == SignalScan(ks[..i])
    {
      var k := ClassifySignal(lines[i]);
      ScanLinesSnoc(ks, i, TimepointOf, MarkSourceKeyOf);
      assert k == ks[i];
      match k {
        case Blank =>
        case Skipped(w) =>
          warnings := warnings + [w];
        case Parsed(rec) =>
          records := records + [rec];
          timepoints := AddNew(timepoints, rec.timepoint);
          markSources := AddNew(markSources, rec.markSourceKey);
      }
      i := i + 1;
    }
    assert ks[..i] == ks;
  }

  /** The second pass: one subtrack per record, numbered from 21, its tags
      looked up in the tables built from the parent's subgroups. */
  method SignalSubtracks(records: seq<SignalRecord>, timepointTags: map<string, string>,
                         markSourceTags: map<string, string>, baseUrl: string, parent: string)
    returns (bs: seq<Block>)
    requires forall r :: r in records ==> r.timepoint in timepointTags && r.markSourceKey in markSourceTags
    requires forall t :: t in timepointTags ==> timepointTags[t] == TimepointTag(t)
    requires forall m :: m in markSourceTags ==> markSourceTags[m] == MarkSourceTag(m)
    ensures bs == SignalEntries(records, baseUrl, parent, 21)
  {
    bs := [];
    var priority: nat := 21;
    var k := 0;
    assert records[k..] == records;
    while k < |records|
      invariant 0 <= k <= |records| && priority == 21 + k
      invariant bs + SignalEntries(records[k..], baseUrl, parent, priority) == SignalEntries(records, baseUrl, parent, 21)
    {
      var rec := records[k];
      assert rec in records;
      var tpTag := timepointTags[rec.timepoint];
      var msTag := markSourceTags[rec.markSourceKey];
      var trackId := SignalTrackId(parent, rec.mark, rec.timepoint, rec.source);
      var shortLabel := rec.mark + " " + rec.timepoint + " (" + rec.source + ")";
      var longLabel := rec.mark + " signal at " + rec.timepoint + " from " + rec.source + " (" + rec.sourceId + ")";
      var b := SignalChild(trackId, parent, tpTag, msTag, shortLabel, longLabel,
                           SignalStyle(rec.mark), baseUrl + "/" + rec.filename, priority);
      assert records[k..][0] == rec && records[k..][1..] == records[k + 1..];
      ghost var rest := SignalEntries(records[k + 1..], baseUrl, parent, priority + 1);
      assert SignalEntries(records[k..], baseUrl, parent, priority) == [b] + rest;
      AppendAssoc(bs, [b], rest);
      bs := bs + [b];
      priority := priority + 1;
      k := k + 1;
    }
    assert records[k..] == [];
  }

  method CreateSignalTrackDb(path: string, list: ListFile, baseUrl: string, parent: string)
    returns (out: seq<Block>)
    ensures out == SignalTrackDb(path, list, baseUrl, parent)
  {
    out := [Comment(Header)];
    match list {
      case Missing =>
        out := out + [Comment(MissingListError(path))];
      case Present(lines) =>
        var records, warnings, timepoints, markSources := ScanSignalLines(lines);
        ghost var s := Scan(records, warnings, timepoints, markSources);
        out := out + Comments(warnings);
        var tail: seq<Block>;
        if records == [] {
          tail := [Comment(NoDataNotice(path))];
        } else {
          ScanLinesInvariant(ClassifyAll(lines), TimepointOf, MarkSourceKeyOf);
          assert ScanInvariant(s, TimepointOf, MarkSourceKeyOf);
          SortedTimepointsSpec(timepoints);
          SortedMarkSourcesSpec(markSources);
          var sortedTimepoints := SortedTimepoints(timepoints);
          var sortedMarkSources := SortedMarkSources(markSources);
          var timepointTags := map tp | tp in sortedTimepoints :: TimepointTag(tp);
          var markSourceTags := map ms | ms in sortedMarkSources :: MarkSourceTag(ms);
          var head := SignalParent(parent, TimepointItems(sortedTimepoints), MarkSourceItems(sortedMarkSources));
          assert head == SignalParentBlock(parent, s);
          var bs := SignalSubtracks(records, timepointTags, markSourceTags, baseUrl, parent);
          tail := [head] + bs;
        }
        assert SignalTrackDb(path, list, baseUrl, parent) == [Comment(Header)] + (Comments(warnings) + tail);
        AppendAssoc([Comment(Header)], Comments(warnings), tail);
        out := out + tail;
    }
  }

  // ---------------------------------------------------------------------
  // Properties

  /** Subtracks are numbered from `priority` in the order of their records. */
  lemma SignalPriorities(recs: seq<SignalRecord>, baseUrl: string, parent: string, priority: nat)
    ensures Priorities(SignalEntries(recs, baseUrl, parent, priority)) == Consecutive(priority, |recs|)
  {
    SignalEntriesAreStanzas(recs, baseUrl, parent, priority);
    StanzaPriorities(recs, SignalEntry, baseUrl, parent, priority);
  }

  /** The subtracks are the records' stanzas, numbered in order. */
  lemma {:induction false} SignalEntriesAreStanzas(recs: seq<SignalRecord>, baseUrl: string, parent: string, priority: nat)
    ensures SignalEntries(recs, baseUrl, parent, priority) == Stanzas(recs, SignalEntry, baseUrl, parent, priority)
    decreases |recs|
  {
    if recs != [] {
      SignalEntriesAreStanzas(recs[1..], baseUrl, parent, priority + 1);
    }
  }

  /** One subtrack per record, in the order of the records, carrying that
      record's tags, URL and number. */
  lemma SignalEntriesOfRecords(recs: seq<SignalRecord>, baseUrl: string, parent: string, priority: nat)
    ensures var bs := SignalEntries(recs, baseUrl, parent, priority);
            && |bs| == |recs|
            && forall i :: 0 <= i < |recs| ==>
                 && bs[i].SignalChild?
                 && bs[i].tpTag == TimepointTag(recs[i].timepoint)
                 && bs[i].msTag == MarkSourceTag(recs[i].markSourceKey)
                 && bs[i].url == baseUrl + "/" + recs[i].filename
                 && bs[i].priority == priority + i
  {
    SignalEntriesAreStanzas(recs, baseUrl, parent, priority);
    if recs != [] {
      StanzaAt(recs, SignalEntry, baseUrl, parent, priority, 0);
    }
    forall i | 0 <= i < |recs|
      ensures SignalEntries(recs, baseUrl, parent, priority)[i] == SignalEntry(recs[i], baseUrl, parent, priority + i)
    {
      StanzaAt(recs, SignalEntry, baseUrl, parent, priority, i);
    }
  }

  /** Every subtrack's `subGroups` values are declared by the parent stanza:
      its timepoint tag among the timepoint items and its mark-source tag
      among the mark-source items. */
  lemma SignalSubgroupsDeclared(lines: seq<string>, baseUrl: string, parent: string)
    ensures var s := SignalScan(ClassifyAll(lines));
            var p := SignalParentBlock(parent, s);
            forall b :: b in SignalEntries(s.records, baseUrl, parent, 21) ==>
              b.SignalChild? && b.tpTag in ItemTags(p.timepoints) && b.msTag in ItemTags(p.markSources)
  {
    var s := SignalScan(ClassifyAll(lines));
    ScanLinesInvariant(ClassifyAll(lines), TimepointOf, MarkSourceKeyOf);
    SignalEntriesOfRecords(s.records, baseUrl, parent, 21);
    var bs := SignalEntries(s.records, baseUrl, parent, 21);
    forall b | b in bs
      ensures && b.SignalChild?
              && b.tpTag in ItemTags(TimepointItems(SortedTimepoints(s.timepoints)))
              && b.msTag in ItemTags(MarkSourceItems(SortedMarkSources(s.keys)))
    {
      var i :| 0 <= i < |bs| && bs[i] == b;
      var r := s.records[i];
      assert r in s.records;
      TimepointDeclared(s.timepoints, r.timepoint);
      MarkSourceDeclared(s.keys, r.markSourceKey);
    }
  }

  /** When no line names a signal file, nothing but the header, the
      warnings and one notice is printed: no parent stanza. */
  lemma SignalNoData(path: string, lines: seq<string>, baseUrl: string, parent: string)
    requires forall i :: 0 <= i < |lines| ==> !ClassifySignal(lines[i]).Parsed?
    ensures var s := SignalScan(ClassifyAll(lines));
            SignalTrackDb(path, Present(lines), baseUrl, parent)
              == [Comment(Header)] + Comments(s.warnings) + [Comment(NoDataNotice(path))]
  {
    var ks := ClassifyAll(lines);
    ScanLinesRecords(ks, TimepointOf, MarkSourceKeyOf);
    assert forall k :: k in ks ==> !k.Parsed?;
  }

  /** The whole output for a list that exists: the header, then one block
      per non-blank line and one more (the parent stanza, or the notice that
      nothing parsed), subtracks numbered from 21 with no gaps. */
  lemma SignalTrackDbSpec(path: string, lines: seq<string>, baseUrl: string, parent: string)
    ensures var out := SignalTrackDb(path, Present(lines), baseUrl, parent);
            var ks := ClassifyAll(lines);
            && |out| == 2 + CountNonBlank(ks)
            && out[0] == Comment(Header)
            && Priorities(out) == Consecutive(21, CountParsed(ks))
  {
    var ks := ClassifyAll(lines);
    var s := SignalScan(ks);
    ScanLinesCounts(ks, TimepointOf, MarkSourceKeyOf);
    SignalTailSpec(path, baseUrl, parent, s);
    CommentsBefore(Header, s.warnings, SignalTail(path, baseUrl, parent, s));
  }

  /** The warnings follow the header in line order; when some line parsed,
      the subtracks follow the parent stanza, one per recognised file in
      line order, numbered from 21. */
  lemma SignalTrackDbInOrder(path: string, lines: seq<string>, baseUrl: string, parent: string)
    ensures var out := SignalTrackDb(path, Present(lines), baseUrl, parent);
            var ks := ClassifyAll(lines);
            var n := |SkippedWarnings(ks)|;
            && |out| > n
            && out[1..1 + n] == Comments(SkippedWarnings(ks))
            && (CountParsed(ks) > 0 ==> |out| >= 2 + n && out[2 + n..] == SignalEntries(ParsedRecords(ks), baseUrl, parent, 21))
  {
    var ks := ClassifyAll(lines);
    var s := SignalScan(ks);
    assert SignalTrackDb(path, Present(lines), baseUrl, parent) == [Comment(Header)] + (Comments(s.warnings) + SignalTail(path, baseUrl, parent, s));
    SignalOutputInOrder(path, ks, baseUrl, parent);
  }

  lemma SignalOutputInOrder(path: string, ks: seq<Line<SignalRecord>>, baseUrl: string, parent: string)
    ensures var s := SignalScan(ks);
            var out := [Comment(Header)] + (Comments(s.warnings) + SignalTail(path, baseUrl, parent, s));
            var n := |SkippedWarnings(ks)|;
            && |out| > n
            && out[1..1 + n] == Comments(SkippedWarnings(ks))
            && (CountParsed(ks) > 0 ==> |out| >= 2 + n && out[2 + n..] == SignalEntries(ParsedRecords(ks), baseUrl, parent, 21))
  {
    var s := SignalScan(ks);
    var tail := SignalTail(path, baseUrl, parent, s);
    assert |tail| >= 1;
    ScanLinesInOrder(ks, TimepointOf, MarkSourceKeyOf);
    CommentsThen(Header, s.warnings, tail);
    if CountParsed(ks) > 0 {
      assert |s.records| > 0;
      assert tail[1..] == SignalEntries(s.records, baseUrl, parent, 21);
    }
  }

  /** The tail holds one block more than there are records, and numbers
      the subtracks from 21. */
  lemma SignalTailSpec(path: string, baseUrl: string, parent: string, s: Scan<SignalRecord, string>)
    ensures |SignalTail(path, baseUrl, parent, s)| == 1 + |s.records|
    ensures Priorities(SignalTail(path, baseUrl, parent, s)) == Consecutive(21, |s.records|)
  {
    if s.records == [] {
      assert Priorities([Comment(NoDataNotice(path))]) == [];
    } else {
      var entries := SignalEntries(s.records, baseUrl, parent, 21);
      SignalEntriesOfRecords(s.records, baseUrl, parent, 21);
      SignalPriorities(s.records, baseUrl, parent, 21);
      PrioritiesAppend([SignalParentBlock(parent, s)], entries);
    }
  }
}
