/** `create_chrom_state_trackdb`: one composite track and one subtrack per
    chromatin-state file whose name starts with a timepoint. */
module ChromStates {
  import opened Text
  import opened FileNames
  import opened Blocks

  const Header := "# --- Chromatin State Tracks ---"

  function MissingListError(path: string): string {
    "# Error: Input file not found at " + path
  }

  function NoIdWarning(filename: string): string {
    "# Warning: Could not extract identifier from filename: " + filename + ". Skipping."
  }

  /** A chromatin-state file: its name and the timepoint it starts with. */
  datatype ChromRecord = ChromRecord(filename: string, id: string)

  /** What one line of the list becomes: nothing when it is blank, a
      warning when its file name does not start with a timepoint. */
  function ClassifyChrom(line: string): Line<ChromRecord> {
    var path := Strip(line);
    if path == [] then Blank
    else
      var filename := Basename(path);
      match ChromStateId(filename)
      case None => Skipped(NoIdWarning(filename))
      case Some(id) => Parsed(ChromRecord(filename, id))
  }

  /** A line is blank exactly when it strips to nothing; it is skipped
      exactly when its file name does not start with a timepoint. */
  lemma ClassifyChromSpec(line: string)
    ensures var r := ClassifyChrom(line);
            && (r.Blank? <==> Strip(line) == [])
            && (r.Skipped? ==> r.warning == NoIdWarning(Basename(Strip(line))))
            && (r.Skipped? ==> forall m :: !TimepointToken(Basename(Strip(line)), 0, m))
            && (r.Parsed? ==> && r.record.filename == Basename(Strip(line))
                              && IsTimepoint(r.record.id)
                              && StartsWith(r.record.filename, r.record.id))
  {
  }

  /** Every line of the list, classified. */
  function ClassifyAll(lines: seq<string>): (ks: seq<Line<ChromRecord>>)
    ensures |ks| == |lines|
    ensures forall i :: 0 <= i < |lines| ==> ks[i] == ClassifyChrom(lines[i])
  {
    seq(|lines|, i requires 0 <= i < |lines| => ClassifyChrom(lines[i]))
  }

  /** The subtrack stanza of one file. */
  function ChromEntry(rec: ChromRecord, baseUrl: string, parent: string, priority: nat): Block {
    ChromChild(parent + "_" + rec.id, parent, rec.id, baseUrl + "/" + rec.filename, priority)
  }

  /** What the classified lines print, the next subtrack taking `priority`. */
  function ChromEntries(ks: seq<Line<ChromRecord>>, baseUrl: string, parent: string, priority: nat): seq<Block>
    decreases |ks|
  {
    if ks == [] then []
    else
      match ks[0]
      case Blank => ChromEntries(ks[1..], baseUrl, parent, priority)
      case Skipped(w) => [Comment(w)] + ChromEntries(ks[1..], baseUrl, parent, priority)
      case Parsed(rec) =>
        [ChromEntry(rec, baseUrl, parent, priority)] + ChromEntries(ks[1..], baseUrl, parent, priority + 1)
  }

  /** Everything `create_chrom_state_trackdb` prints. The parent stanza is
      printed before the list is opened, so it precedes the error too. */
  function ChromStateTrackDb(path: string, list: ListFile, baseUrl: string, parent: string): seq<Block> {
    [Comment(Header), ChromParent(parent)]
    + match list
      case Missing => [Comment(MissingListError(path))]
      case Present(lines) => ChromEntries(ClassifyAll(lines), baseUrl, parent, 1)
  }

  method CreateChromStateTrackDb(path: string, list: ListFile, baseUrl: string, parent: string)
    returns (out: seq<Block>)
    ensures out == ChromStateTrackDb(path, list, baseUrl, parent)
  {
    out := [Comment(Header), ChromParent(parent)];
    match list
    case Missing =>
      out := out + [Comment(MissingListError(path))];
    case Present(lines) =>
      ghost var ks := ClassifyAll(lines);
      ghost var all := out + ChromEntries(ks, baseUrl, parent, 1);
      var priority: nat := 1;
      var i := 0;
      assert ks[i..] == ks;
      while i < |lines|
        invariant 0 <= i <= |lines|
        invariant out + ChromEntries(ks[i..], baseUrl, parent, priority) == all
      {
        var k := ClassifyChrom(lines[i]);
        assert ks[i..][0] == ks[i] == k && ks[i..][1..] == ks[i + 1..];
        ghost var before := out;
        match k {
          case Blank =>
            assert ChromEntries(ks[i..], baseUrl, parent, priority) == ChromEntries(ks[i + 1..], baseUrl, parent, priority);
          case Skipped(w) =>
            ghost var rest := ChromEntries(ks[i + 1..], baseUrl, parent, priority);
            assert ChromEntries(ks[i..], baseUrl, parent, priority) == [Comment(w)] + rest;
            out := out + [Comment(w)];
            AppendAssoc(before, [Comment(w)], rest);
          case Parsed(rec) =>
            ghost var rest := ChromEntries(ks[i + 1..], baseUrl, parent, priority + 1);
            var b := ChromChild(parent + "_" + rec.id, parent, rec.id, baseUrl + "/" + rec.filename, priority);
            assert ChromEntries(ks[i..], baseUrl, parent, priority) == [b] + rest;
            out := out + [b];
            AppendAssoc(before, [b], rest);
            priority := priority + 1;
        }
        i := i + 1;
      }
      assert ks[i..] == [];
  }

  // ---------------------------------------------------------------------
  // Properties

  /** Subtracks are numbered `priority`, `priority + 1`, ... in the order of
      their lines, one number per recognised file. */
  lemma {:induction false} ChromPriorities(ks: seq<Line<ChromRecord>>, baseUrl: string, parent: string, priority: nat)
    ensures Priorities(ChromEntries(ks, baseUrl, parent, priority)) == Consecutive(priority, CountParsed(ks))
    decreases |ks|
  {
    if ks != [] {
      var rest := ks[1..];
      assert CountParsed(ks) == (if ks[0].Parsed? then 1 else 0) + CountParsed(rest);
      match ks[0] {
        case Blank =>
          ChromPriorities(rest, baseUrl, parent, priority);
        case Skipped(w) =>
          var more := ChromEntries(rest, baseUrl, parent, priority);
          assert ChromEntries(ks, baseUrl, parent, priority) == [Comment(w)] + more;
          assert Priorities([Comment(w)]) == [];
          ChromPriorities(rest, baseUrl, parent, priority);
          PrioritiesAppend([Comment(w)], more);
        case Parsed(rec) =>
          var b := ChromEntry(rec, baseUrl, parent, priority);
          var more := ChromEntries(rest, baseUrl, parent, priority + 1);
          assert ChromEntries(ks, baseUrl, parent, priority) == [b] + more;
          assert Priorities([b]) == [priority];
          ChromPriorities(rest, baseUrl, parent, priority + 1);
          PrioritiesAppend([b], more);
          ConsecutiveCons(priority, CountParsed(rest));
      }
    }
  }

  /** The subtracks printed are the stanzas of the recognised files in
      line order, numbered from `priority`; the warnings printed are those
      of the skipped lines, in line order. */
  lemma {:induction false} ChromEntriesInOrder(ks: seq<Line<ChromRecord>>, baseUrl: string, parent: string, priority: nat)
    ensures Subtracks(ChromEntries(ks, baseUrl, parent, priority)) == Stanzas(ParsedRecords(ks), ChromEntry, baseUrl, parent, priority)
    ensures CommentTexts(ChromEntries(ks, baseUrl, parent, priority)) == SkippedWarnings(ks)
    decreases |ks|
  {
    if ks != [] {
      var rest := ks[1..];
      match ks[0] {
        case Blank =>
          ChromEntriesInOrder(rest, baseUrl, parent, priority);
          assert ChromEntries(ks, baseUrl, parent, priority) == ChromEntries(rest, baseUrl, parent, priority);
          assert ParsedRecords(ks) == ParsedRecords(rest);
          assert SkippedWarnings(ks) == SkippedWarnings(rest);
        case Skipped(w) =>
          var more := ChromEntries(rest, baseUrl, parent, priority);
          ChromEntriesInOrder(rest, baseUrl, parent, priority);
          FiltersCons(Comment(w), more);
          assert ChromEntries(ks, baseUrl, parent, priority) == [Comment(w)] + more;
          assert ParsedRecords(ks) == ParsedRecords(rest);
          assert SkippedWarnings(ks) == [w] + SkippedWarnings(rest);
        case Parsed(rec) =>
          var b := ChromEntry(rec, baseUrl, parent, priority);
          var more := ChromEntries(rest, baseUrl, parent, priority + 1);
          ChromEntriesInOrder(rest, baseUrl, parent, priority + 1);
          FiltersCons(b, more);
          assert ChromEntries(ks, baseUrl, parent, priority) == [b] + more;
          assert SkippedWarnings(ks) == SkippedWarnings(rest);
          var recs := ParsedRecords(ks);
          assert recs == [rec] + ParsedRecords(rest);
          assert recs[0] == rec && recs[1..] == ParsedRecords(rest);
      }
    }
  }

  /** The k-th subtrack printed is the stanza of the k-th recognised file,
      numbered `priority + k`. */
  lemma ChromSubtrackAt(ks: seq<Line<ChromRecord>>, baseUrl: string, parent: string, priority: nat, k: nat)
    requires k < CountParsed(ks)
    ensures |Subtracks(ChromEntries(ks, baseUrl, parent, priority))| == CountParsed(ks)
    ensures Subtracks(ChromEntries(ks, baseUrl, parent, priority))[k] == ChromEntry(ParsedRecords(ks)[k], baseUrl, parent, priority + k)
  {
    ChromEntriesInOrder(ks, baseUrl, parent, priority);
    StanzaAt(ParsedRecords(ks), ChromEntry, baseUrl, parent, priority, k);
  }

  /** Every non-blank line prints exactly one block, a warning or a
      subtrack; blank lines print nothing. */
  lemma {:induction false} ChromOneBlockPerLine(ks: seq<Line<ChromRecord>>, baseUrl: string, parent: string, priority: nat)
    ensures |ChromEntries(ks, baseUrl, parent, priority)| == CountNonBlank(ks)
    decreases |ks|
  {
    if ks != [] {
      ChromOneBlockPerLine(ks[1..], baseUrl, parent, priority);
      ChromOneBlockPerLine(ks[1..], baseUrl, parent, priority + 1);
    }
  }

  /** A subtrack stanza for a chromatin state: its id is the parent id and
      the timepoint, it links to the parent, and its URL names the file. */
  predicate WellFormedChild(b: Block, baseUrl: string, parent: string) {
    && b.ChromChild?
    && IsTimepoint(b.subtrackId)
    && b.trackId == parent + "_" + b.subtrackId
    && b.parent == parent
    && StartsWith(b.url, baseUrl + "/" + b.subtrackId)
  }

  /** A record that classification can produce. */
  predicate ValidRecord(rec: ChromRecord) {
    IsTimepoint(rec.id) && StartsWith(rec.filename, rec.id)
  }

  lemma ClassifyAllValid(lines: seq<string>)
    ensures forall k :: k in ClassifyAll(lines) && k.Parsed? ==> ValidRecord(k.record)
  {
    var ks := ClassifyAll(lines);
    forall k | k in ks && k.Parsed? ensures ValidRecord(k.record) {
      var i :| 0 <= i < |ks| && ks[i] == k;
      ClassifyChromSpec(lines[i]);
    }
  }

  /** Each printed block is a warning comment or a well-formed subtrack. */
  lemma {:induction false} ChromEntriesWellFormed(ks: seq<Line<ChromRecord>>, baseUrl: string, parent: string, priority: nat)
    requires forall k :: k in ks && k.Parsed? ==> ValidRecord(k.record)
    ensures forall b :: b in ChromEntries(ks, baseUrl, parent, priority) ==> b.Comment? || WellFormedChild(b, baseUrl, parent)
    decreases |ks|
  {
    if ks != [] {
      var rest := ks[1..];
      var bs := ChromEntries(ks, baseUrl, parent, priority);
      match ks[0] {
        case Blank =>
          ChromEntriesWellFormed(rest, baseUrl, parent, priority);
          assert bs == ChromEntries(rest, baseUrl, parent, priority);
        case Skipped(w) =>
          var more := ChromEntries(rest, baseUrl, parent, priority);
          ChromEntriesWellFormed(rest, baseUrl, parent, priority);
          assert forall b :: b in bs ==> b == Comment(w) || b in more;
        case Parsed(rec) =>
          var more := ChromEntries(rest, baseUrl, parent, priority + 1);
          ChromEntriesWellFormed(rest, baseUrl, parent, priority + 1);
          var b := ChromEntry(rec, baseUrl, parent, priority);
          assert ks[0] in ks;
          var prefix := baseUrl + "/" + rec.id;
          var url := baseUrl + "/" + rec.filename;
          assert url[..|prefix|] == prefix by {
            assert rec.filename[..|rec.id|] == rec.id;
          }
          assert forall c :: c in bs ==> c == b || c in more;
      }
    }
  }

  /** The whole output for a list that exists: the header, the parent
      stanza, then one block per non-blank line, subtracks numbered from 1
      and each one well formed. */
  lemma ChromStateTrackDbSpec(path: string, lines: seq<string>, baseUrl: string, parent: string)
    ensures var out := ChromStateTrackDb(path, Present(lines), baseUrl, parent);
            var ks := ClassifyAll(lines);
            && |out| == 2 + CountNonBlank(ks)
            && out[..2] == [Comment(Header), ChromParent(parent)]
            && Priorities(out) == Consecutive(1, CountParsed(ks))
            && (forall b :: b in out[2..] ==> b.Comment? || WellFormedChild(b, baseUrl, parent))
            && Subtracks(out[2..]) == Stanzas(ParsedRecords(ks), ChromEntry, baseUrl, parent, 1)
            && CommentTexts(out[2..]) == SkippedWarnings(ks)
  {
    var ks := ClassifyAll(lines);
    var head, bs := [Comment(Header), ChromParent(parent)], ChromEntries(ks, baseUrl, parent, 1);
    ChromOneBlockPerLine(ks, baseUrl, parent, 1);
    ChromPriorities(ks, baseUrl, parent, 1);
    PrioritiesAppend(head, bs);
    assert Priorities(head) == [];
    ClassifyAllValid(lines);
    ChromEntriesWellFormed(ks, baseUrl, parent, 1);
    ChromEntriesInOrder(ks, baseUrl, parent, 1);
    assert (head + bs)[2..] == bs;
  }
}
