/** `create_tf_trackdb`: a composite track of TF ChIP-seq signal (bigWig)
    and peak (bigBed) files with a view subgroup, a timepoint subgroup and
    a factor-source subgroup. */
module Tfs {
  import opened Text
  import opened Order
  import opened FileNames
  import opened Tags
  import opened Display
  import opened Blocks
  import opened FirstPass

  const Header := "# --- Transcription Factor (TF) Tracks (with combined Factor_Source subgroup) ---"

  function UnknownTypeWarning(filename: string): string {
    "# Warning: Unknown file type for TF track: " + filename + ". Skipping."
  }

  function UnparsedWarning(filename: string): string {
    "# Warning: Could not parse TF filename: " + filename + " with pattern. Skipping."
  }

  function MissingListError(path: string): string {
    "# Error: TF track input file not found at " + path
  }

  function NoDataNotice(path: string): string {
    "# No valid TF track data found in " + path
  }

  /** What the first pass keeps of one TF file. */
  datatype TfRecord = TfRecord(filename: string, factor: string, timepoint: string, source: string,
                               sourceId: string, view: View, factorSource: (string, string))

  function RecordOf(filename: string, view: View, g: TfName): TfRecord {
    TfRecord(filename, g.factor, g.timepoint, g.source, g.sourceId, view, (g.factor, g.source))
  }

  function ClassifyTf(line: string): Line<TfRecord> {
    var path := Strip(line);
    if path == [] then Blank
    else
      var filename := Basename(path);
      match ViewOf(filename)
      case None => Skipped(UnknownTypeWarning(filename))
      case Some(view) =>
        match ParseTf(filename, Extension(view))
        case None => Skipped(UnparsedWarning(filename))
        case Some(g) => Parsed(RecordOf(filename, view, g))
  }

  /** A line is blank exactly when it strips to nothing. A file name with
      neither suffix is skipped as of unknown type; one whose suffix picks a
      view but which matches neither pattern is skipped as unparsed; any
      other holds the view of its suffix and the groups of the match with
      the shortest factor. */
  lemma ClassifyTfSpec(line: string)
    ensures var r, f := ClassifyTf(line), Basename(Strip(line));
            && (r.Blank? <==> Strip(line) == [])
            && (r.Skipped? && ViewOf(f).None? ==> r.warning == UnknownTypeWarning(f))
            && (r.Skipped? && ViewOf(f).Some? ==>
                  r.warning == UnparsedWarning(f) && forall h :: !IsTfSplit(f, Extension(ViewOf(f).value), h))
            && (r.Parsed? ==> && ViewOf(f) == Some(r.record.view)
                              && ParseTf(f, Extension(r.record.view)).Some?
                              && r.record == RecordOf(f, r.record.view, ParseTf(f, Extension(r.record.view)).value))
  {
    var r, f := ClassifyTf(line), Basename(Strip(line));
    if Strip(line) == [] {
      assert r == Blank;
    } else {
      match ViewOf(f) {
        case None =>
          assert r == Skipped(UnknownTypeWarning(f));
        case Some(view) =>
          match ParseTf(f, Extension(view)) {
            case None =>
              assert r == Skipped(UnparsedWarning(f));
            case Some(g) =>
              assert r == Parsed(RecordOf(f, view, g));
          }
      }
    }
  }

  function ClassifyAll(lines: seq<string>): (ks: seq<Line<TfRecord>>)
    ensures |ks| == |lines|
    ensures forall i :: 0 <= i < |lines| ==> ks[i] == ClassifyTf(lines[i])
  {
    seq(|lines|, i requires 0 <= i < |lines| => ClassifyTf(lines[i]))
  }

  // ---------------------------------------------------------------------
  // First pass

  function TimepointOf(r: TfRecord): string {
    r.timepoint
  }

  function FactorSourceOf(r: TfRecord): (string, string) {
    r.factorSource
  }

  /** The first pass over classified lines: the sets it fills are the
      timepoints and the factor-source pairs. */
  function TfScan(ks: seq<Line<TfRecord>>): Scan<TfRecord, (string, string)> {
    ScanLines(ks, TimepointOf, FactorSourceOf)
  }

  // ---------------------------------------------------------------------
  // Parent stanza and subtracks

  /** The parent stanza: the subgroup values sorted and tagged. */
  function TfParentBlock(parent: string, s: Scan<TfRecord, (string, string)>): Block {
    TfParent(parent, TimepointItems(SortedTimepoints(s.timepoints)),
             FactorSourceItems(SortedFactorSources(s.keys)))
  }

  /** `"Sig" if view_type == "Signal" else "Pks"` */
  function LabelSuffix(view: View): string {
    if view == Signal then "Sig" else "Pks"
  }

  /** The subtrack stanza of one record. */
  function TfEntry(rec: TfRecord, baseUrl: string, parent: string, priority: nat): Block {
    TfChild(TfTrackId(parent, rec.factor, rec.source, rec.timepoint, ViewTag(rec.view)), parent, rec.view,
            FactorSourceTag(rec.factor, rec.source), TimepointTag(rec.timepoint),
            rec.factor + " (" + rec.source + ") " + rec.timepoint + " " + LabelSuffix(rec.view),
            "TF " + rec.factor + " (" + rec.source + ") at " + rec.timepoint + " from " + rec.sourceId
              + " - " + ViewName(rec.view),
            baseUrl + "/" + rec.filename, priority)
  }

  function TfEntries(recs: seq<TfRecord>, baseUrl: string, parent: string, priority: nat): seq<Block>
    decreases |recs|
  {
    if recs == [] then []
    else [TfEntry(recs[0], baseUrl, parent, priority)] + TfEntries(recs[1..], baseUrl, parent, priority + 1)
  }

  /** Everything `create_tf_trackdb` prints. */
  function TfTrackDb(path: string, list: ListFile, baseUrl: string, parent: string): seq<Block> {
    [Comment(Header)]
    + match list
      case Missing => [Comment(MissingListError(path))]
      case Present(lines) =>
        var s := TfScan(ClassifyAll(lines));
        Comments(s.warnings) + TfTail(path, baseUrl, parent, s)
  }

  /** What follows the warnings: the notice when nothing parsed, else the
      parent stanza and the subtracks. */
  function TfTail(path: string, baseUrl: string, parent: string, s: Scan<TfRecord, (string, string)>): seq<Block> {
    if s.records == [] then [Comment(NoDataNotice(path))]
    else [TfParentBlock(parent, s)] + TfEntries(s.records, baseUrl, parent, 1)
  }

  /** The first pass over the list: the warnings it prints and the
      records, timepoints and factor-source pairs it gathers. */
  method ScanTfLines(lines: seq<string>)
    returns (records: seq<TfRecord>, warnings: seq<string>, timepoints: seq<string>,
             factorSources: seq<(string, string)>)
    ensures Scan(records, warnings, timepoints, factorSources) == TfScan(ClassifyAll(lines))
  {
    ghost var ks := ClassifyAll(lines);
    records, warnings, timepoints, factorSources := [], [], [], [];
    var i := 0;
    while i < |lines|
      invariant 0 <= i <= |lines|
      invariant Scan(records, warnings, timepoints, factorSources) == TfScan(ks[..i])
    {
      var k := ClassifyTf(lines[i]);
      ScanLinesSnoc(ks, i, TimepointOf, FactorSourceOf);
      assert k == ks[i];
      match k {
        case Blank =>
        case Skipped(w) =>
          warnings := warnings + [w];
        case Parsed(rec) =>
          factorSources := AddNew(factorSources, rec.factorSource);
          timepoints := AddNew(timepoints, rec.timepoint);
          records := records + [rec];
      }
      i := i + 1;
    }
    assert ks[..i] == ks;
  }

  /** The second pass: one subtrack per record, numbered from 1, its tags
      looked up in the tables built from the parent's subgroups. */
  method TfSubtracks(records: seq<TfRecord>, factorSourceTags: map<(string, string), string>,
                     timepointTags: map<string, string>, baseUrl: string, parent: string)
    returns (bs: seq<Block>)
    requires forall r :: r in records ==> r.timepoint in timepointTags && r.factorSource in factorSourceTags
    requires forall t :: t in timepointTags ==> timepointTags[t] == TimepointTag(t)
    requires forall fs :: fs in factorSourceTags ==> factorSourceTags[fs] == FactorSourceTag(fs.0, fs.1)
    requires forall r :: r in records ==> r.factorSource == (r.factor, r.source)
    ensures bs == TfEntries(records, baseUrl, parent, 1)
  {
    bs := [];
    var priority: nat := 1;
    var k := 0;
    assert records[k..] == records;
    while k < |records|
      invariant 0 <= k <= |records| && priority == 1 + k
      invariant bs + TfEntries(records[k..], baseUrl, parent, priority) == TfEntries(records, baseUrl, parent, 1)
    {
      var rec := records[k];
      assert rec in records;
      var viewTag := ViewTag(rec.view);
      var fsTag := factorSourceTags[rec.factorSource];
      var tpTag := timepointTags[rec.timepoint];
      var trackId := TfTrackId(parent, rec.factor, rec.source, rec.timepoint, viewTag);
      var shortLabel := rec.factor + " (" + rec.source + ") " + rec.timepoint + " " + LabelSuffix(rec.view);
      var longLabel := "TF " + rec.factor + " (" + rec.source + ") at " + rec.timepoint + " from " + rec.sourceId
                       + " - " + ViewName(rec.view);
      var b := TfChild(trackId, parent, rec.view, fsTag, tpTag, shortLabel, longLabel,
                       baseUrl + "/" + rec.filename, priority);
      assert records[k..][0] == rec && records[k..][1..] == records[k + 1..];
      ghost var rest := TfEntries(records[k + 1..], baseUrl, parent, priority + 1);
      assert TfEntries(records[k..], baseUrl, parent, priority) == [b] + rest;
      AppendAssoc(bs, [b], rest);
      bs := bs + [b];
      priority := priority + 1;
      k := k + 1;
    }
    assert records[k..] == [];
  }

  method CreateTfTrackDb(path: string, list: ListFile, baseUrl: string, parent: string)
    returns (out: seq<Block>)
    ensures out == TfTrackDb(path, list, baseUrl, parent)
  {
    out := [Comment(Header)];
    match list {
      case Missing =>
        out := out + [Comment(MissingListError(path))];
      case Present(lines) =>
        var records, warnings, timepoints, factorSources := ScanTfLines(lines);
        ghost var s := Scan(records, warnings, timepoints, factorSources);
        out := out + Comments(warnings);
        var tail: seq<Block>;
        if records == [] {
          tail := [Comment(NoDataNotice(path))];
        } else {
          ScanLinesInvariant(ClassifyAll(lines), TimepointOf, FactorSourceOf);
          assert ScanInvariant(s, TimepointOf, FactorSourceOf);
          RecordsKeyed(lines);
          SortedFactorSourcesSpec(factorSources);
          SortedTimepointsSpec(timepoints);
          var sortedFactorSources := SortedFactorSources(factorSources);
          var sortedTimepoints := SortedTimepoints(timepoints);
          var factorSourceTags := map fs | fs in sortedFactorSources :: FactorSourceTag(fs.0, fs.1);
          var timepointTags := map tp | tp in sortedTimepoints :: TimepointTag(tp);
          var head := TfParent(parent, TimepointItems(sortedTimepoints), FactorSourceItems(sortedFactorSources));
          assert head == TfParentBlock(parent, s);
          var bs := TfSubtracks(records, factorSourceTags, timepointTags, baseUrl, parent);
          tail := [head] + bs;
        }
        assert TfTrackDb(path, list, baseUrl, parent) == [Comment(Header)] + (Comments(warnings) + tail);
        AppendAssoc([Comment(Header)], Comments(warnings), tail);
        out := out + tail;
    }
  }

  // ---------------------------------------------------------------------
  // Properties

  /** Every record is keyed by its own factor and source. */
  lemma RecordsKeyed(lines: seq<string>)
    ensures forall r :: r in TfScan(ClassifyAll(lines)).records ==> r.factorSource == (r.factor, r.source)
  {
    var ks := ClassifyAll(lines);
    ScanRecordsParsed(ks, TimepointOf, FactorSourceOf);
    forall r | r in TfScan(ks).records ensures r.factorSource == (r.factor, r.source) {
      var i :| 0 <= i < |ks| && ks[i] == Parsed(r);
      ClassifyTfSpec(lines[i]);
    }
  }

  /** Subtracks are numbered from `priority` in the order of their records. */
  lemma TfPriorities(recs: seq<TfRecord>, baseUrl: string, parent: string, priority: nat)
    ensures Priorities(TfEntries(recs, baseUrl, parent, priority)) == Consecutive(priority, |recs|)
  {
    TfEntriesAreStanzas(recs, baseUrl, parent, priority);
    StanzaPriorities(recs, TfEntry, baseUrl, parent, priority);
  }

  /** The subtracks are the records' stanzas, numbered in order. */
  lemma {:induction false} TfEntriesAreStanzas(recs: seq<TfRecord>, baseUrl: string, parent: string, priority: nat)
    ensures TfEntries(recs, baseUrl, parent, priority) == Stanzas(recs, TfEntry, baseUrl, parent, priority)
    decreases |recs|
  {
    if recs != [] {
      TfEntriesAreStanzas(recs[1..], baseUrl, parent, priority + 1);
    }
  }

  /** One subtrack per record, in the order of the records, carrying that
      record's tags, URL and number. */
  lemma TfEntriesOfRecords(recs: seq<TfRecord>, baseUrl: string, parent: string, priority: nat)
    ensures var bs := TfEntries(recs, baseUrl, parent, priority);
            && |bs| == |recs|
            && forall i :: 0 <= i < |recs| ==>
                 && bs[i].TfChild?
                 && bs[i].view == recs[i].view
                 && bs[i].fsTag == FactorSourceTag(recs[i].factor, recs[i].source)
                 && bs[i].tpTag == TimepointTag(recs[i].timepoint)
                 && bs[i].url == baseUrl + "/" + recs[i].filename
                 && bs[i].priority == priority + i
  {
    TfEntriesAreStanzas(recs, baseUrl, parent, priority);
    if recs != [] {
      StanzaAt(recs, TfEntry, baseUrl, parent, priority, 0);
    }
    forall i | 0 <= i < |recs|
      ensures TfEntries(recs, baseUrl, parent, priority)[i] == TfEntry(recs[i], baseUrl, parent, priority + i)
    {
      StanzaAt(recs, TfEntry, baseUrl, parent, priority, i);
    }
  }

  /** Every subtrack's `subGroups` values are declared by the parent stanza:
      its factor-source tag among the factor-source items and its timepoint
      tag among the timepoint items. */
  lemma TfSubgroupsDeclared(lines: seq<string>, baseUrl: string, parent: string)
    ensures var s := TfScan(ClassifyAll(lines));
            var p := TfParentBlock(parent, s);
            forall b :: b in TfEntries(s.records, baseUrl, parent, 1) ==>
              b.TfChild? && b.fsTag in ItemTags(p.factorSources) && b.tpTag in ItemTags(p.timepoints)
  {
    var s := TfScan(ClassifyAll(lines));
    ScanLinesInvariant(ClassifyAll(lines), TimepointOf, FactorSourceOf);
    RecordsKeyed(lines);
    TfEntriesOfRecords(s.records, baseUrl, parent, 1);
    var bs := TfEntries(s.records, baseUrl, parent, 1);
    forall b | b in bs
      ensures && b.TfChild?
              && b.fsTag in ItemTags(FactorSourceItems(SortedFactorSources(s.keys)))
              && b.tpTag in ItemTags(TimepointItems(SortedTimepoints(s.timepoints)))
    {
      var i :| 0 <= i < |bs| && bs[i] == b;
      var r := s.records[i];
      assert r in s.records;
      FactorSourceDeclared(s.keys, r.factorSource);
      TimepointDeclared(s.timepoints, r.timepoint);
    }
  }

  /** A subtrack's view is the one its file's suffix selects: peaks for
      `.narrowPeak.bb`, signal for `.bw`. */
  lemma TfViewFromSuffix(lines: seq<string>)
    ensures forall r :: r in TfScan(ClassifyAll(lines)).records ==> ViewOf(r.filename) == Some(r.view)
  {
    var ks := ClassifyAll(lines);
    ScanRecordsParsed(ks, TimepointOf, FactorSourceOf);
    forall r | r in TfScan(ks).records ensures ViewOf(r.filename) == Some(r.view) {
      var i :| 0 <= i < |ks| && ks[i] == Parsed(r);
      ClassifyTfSpec(lines[i]);
    }
  }

  /** When no line names a TF file, nothing but the header, the warnings
      and one notice is printed: no parent stanza. */
  lemma TfNoData(path: string, lines: seq<string>, baseUrl: string, parent: string)
    requires forall i :: 0 <= i < |lines| ==> !ClassifyTf(lines[i]).Parsed?
    ensures var s := TfScan(ClassifyAll(lines));
            TfTrackDb(path, Present(lines), baseUrl, parent)
              == [Comment(Header)] + Comments(s.warnings) + [Comment(NoDataNotice(path))]
  {
    var ks := ClassifyAll(lines);
    ScanLinesRecords(ks, TimepointOf, FactorSourceOf);
    assert forall k :: k in ks ==> !k.Parsed?;
  }

  /** The whole output for a list that exists: the header, then one block
      per non-blank line and one more (the parent stanza, or the notice that
      nothing parsed), subtracks numbered from 1 with no gaps. */
  lemma TfTrackDbSpec(path: string, lines: seq<string>, baseUrl: string, parent: string)
    ensures var out := TfTrackDb(path, Present(lines), baseUrl, parent);
            var ks := ClassifyAll(lines);
            && |out| == 2 + CountNonBlank(ks)
            && out[0] == Comment(Header)
            && Priorities(out) == Consecutive(1, CountParsed(ks))
  {
    var ks := ClassifyAll(lines);
    var s := TfScan(ks);
    ScanLinesCounts(ks, TimepointOf, FactorSourceOf);
    TfTailSpec(path, baseUrl, parent, s);
    CommentsBefore(Header, s.warnings, TfTail(path, baseUrl, parent, s));
  }

  /** The warnings follow the header in line order; when some line parsed,
      the subtracks follow the parent stanza, one per recognised file in
      line order, numbered from 1. */
  lemma TfTrackDbInOrder(path: string, lines: seq<string>, baseUrl: string, parent: string)
    ensures var out := TfTrackDb(path, Present(lines), baseUrl, parent);
            var ks := ClassifyAll(lines);
            var n := |SkippedWarnings(ks)|;
            && |out| > n
            && out[1..1 + n] == Comments(SkippedWarnings(ks))
            && (CountParsed(ks) > 0 ==> |out| >= 2 + n && out[2 + n..] == TfEntries(ParsedRecords(ks), baseUrl, parent, 1))
  {
    var ks := ClassifyAll(lines);
    var s := TfScan(ks);
    assert TfTrackDb(path, Present(lines), baseUrl, parent) == [Comment(Header)] + (Comments(s.warnings) + TfTail(path, baseUrl, parent, s));
    TfOutputInOrder(path, ks, baseUrl, parent);
  }

  lemma TfOutputInOrder(path: string, ks: seq<Line<TfRecord>>, baseUrl: string, parent: string)
    ensures var s := TfScan(ks);
            var out := [Comment(Header)] + (Comments(s.warnings) + TfTail(path, baseUrl, parent, s));
            var n := |SkippedWarnings(ks)|;
            && |out| > n
            && out[1..1 + n] == Comments(SkippedWarnings(ks))
            && (CountParsed(ks) > 0 ==> |out| >= 2 + n && out[2 + n..] == TfEntries(ParsedRecords(ks), baseUrl, parent, 1))
  {
    var s := TfScan(ks);
    var tail := TfTail(path, baseUrl, parent, s);
    assert |tail| >= 1;
    ScanLinesInOrder(ks, TimepointOf, FactorSourceOf);
    CommentsThen(Header, s.warnings, tail);
    if CountParsed(ks) > 0 {
      assert |s.records| > 0;
      assert tail[1..] == TfEntries(s.records, baseUrl, parent, 1);
    }
  }

  /** The tail holds one block more than there are records, and numbers
      the subtracks from 1. */
  lemma TfTailSpec(path: string, baseUrl: string, parent: string, s: Scan<TfRecord, (string, string)>)
    ensures |TfTail(path, baseUrl, parent, s)| == 1 + |s.records|
    ensures Priorities(TfTail(path, baseUrl, parent, s)) == Consecutive(1, |s.records|)
  {
    if s.records == [] {
      assert Priorities([Comment(NoDataNotice(path))]) == [];
    } else {
      var entries := TfEntries(s.records, baseUrl, parent, 1);
      TfEntriesOfRecords(s.records, baseUrl, parent, 1);
      TfPriorities(s.records, baseUrl, parent, 1);
      PrioritiesAppend([TfParentBlock(parent, s)], entries);
    }
  }
}
