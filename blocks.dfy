/** What the three generators print: comment lines and trackDb stanzas,
    and the text each one becomes. */
module Blocks {
  import opened Text
  import opened Order
  import opened FileNames
  import opened Tags
  import opened Display

  /** A file list as `open` finds it: missing, or its lines (each may still
      carry its line terminator). */
  datatype ListFile = Missing | Present(lines: seq<string>)

  /** What one line of a file list becomes during a first pass. */
  datatype Line<R> = Blank | Skipped(warning: string) | Parsed(record: R)

  /** The number of lines that name a file the pass accepts. */
  function CountParsed<R>(ks: seq<Line<R>>): nat {
    if ks == [] then 0 else (if ks[0].Parsed? then 1 else 0) + CountParsed(ks[1..])
  }

  /** The number of lines that are not blank. */
  function CountNonBlank<R>(ks: seq<Line<R>>): nat {
    if ks == [] then 0 else (if ks[0].Blank? then 0 else 1) + CountNonBlank(ks[1..])
  }

  lemma {:induction false} CountParsedAppend<R>(a: seq<Line<R>>, b: seq<Line<R>>)
    ensures CountParsed(a + b) == CountParsed(a) + CountParsed(b)
    decreases |a|
  {
    if a == [] {
      assert a + b == b;
    } else {
      CountParsedAppend(a[1..], b);
      assert (a + b)[0] == a[0];
      assert (a + b)[1..] == a[1..] + b;
    }
  }

  lemma {:induction false} CountNonBlankAppend<R>(a: seq<Line<R>>, b: seq<Line<R>>)
    ensures CountNonBlank(a + b) == CountNonBlank(a) + CountNonBlank(b)
    decreases |a|
  {
    if a == [] {
      assert a + b == b;
    } else {
      CountNonBlankAppend(a[1..], b);
      assert (a + b)[0] == a[0];
      assert (a + b)[1..] == a[1..] + b;
    }
  }

  /** The records of the lines that parsed, in line order. */
  function ParsedRecords<R>(ks: seq<Line<R>>): (r: seq<R>)
    ensures |r| == CountParsed(ks)
  {
    if ks == [] then []
    else (if ks[0].Parsed? then [ks[0].record] else []) + ParsedRecords(ks[1..])
  }

  /** The warnings of the lines that were skipped, in line order. */
  function SkippedWarnings<R>(ks: seq<Line<R>>): (r: seq<string>)
    ensures |r| <= |ks|
  {
    if ks == [] then []
    else (if ks[0].Skipped? then [ks[0].warning] else []) + SkippedWarnings(ks[1..])
  }

  lemma {:induction false} ParsedRecordsAppend<R>(a: seq<Line<R>>, b: seq<Line<R>>)
    ensures ParsedRecords(a + b) == ParsedRecords(a) + ParsedRecords(b)
    decreases |a|
  {
    if a == [] {
      assert a + b == b;
    } else {
      ParsedRecordsAppend(a[1..], b);
      assert (a + b)[0] == a[0];
      assert (a + b)[1..] == a[1..] + b;
    }
  }

  lemma {:induction false} SkippedWarningsAppend<R>(a: seq<Line<R>>, b: seq<Line<R>>)
    ensures SkippedWarnings(a + b) == SkippedWarnings(a) + SkippedWarnings(b)
    decreases |a|
  {
    if a == [] {
      assert a + b == b;
    } else {
      SkippedWarningsAppend(a[1..], b);
      assert (a + b)[0] == a[0];
      assert (a + b)[1..] == a[1..] + b;
    }
  }

  /** One printed unit: a comment line, or a stanza closed by a blank line. */
  datatype Block =
    | Comment(text: string)
    | ChromParent(id: string)
    | ChromChild(trackId: string, parent: string, subtrackId: string, url: string, priority: nat)
    | SignalParent(id: string, timepoints: seq<SubgroupItem>, markSources: seq<SubgroupItem>)
    | SignalChild(trackId: string, parent: string, tpTag: string, msTag: string,
                  shortLabel: string, longLabel: string, style: Style, url: string, priority: nat)
    | TfParent(id: string, timepoints: seq<SubgroupItem>, factorSources: seq<SubgroupItem>)
    | TfChild(trackId: string, parent: string, view: View, fsTag: string, tpTag: string,
              shortLabel: string, longLabel: string, url: string, priority: nat)

  predicate IsChild(b: Block) {
    b.ChromChild? || b.SignalChild? || b.TfChild?
  }

  function Comments(texts: seq<string>): (r: seq<Block>)
    ensures |r| == |texts|
    ensures forall i :: 0 <= i < |r| ==> r[i] == Comment(texts[i])
  {
    seq(|texts|, i requires 0 <= i < |texts| => Comment(texts[i]))
  }

  // ---------------------------------------------------------------------
  // Priorities

  /** The `priority` values of the subtrack stanzas, in printing order. */
  function Priorities(bs: seq<Block>): seq<nat> {
    if bs == [] then []
    else (if IsChild(bs[0]) then [bs[0].priority] else []) + Priorities(bs[1..])
  }

  /** Comment lines carry no priority. */
  lemma {:induction false} PrioritiesOfComments(texts: seq<string>)
    ensures Priorities(Comments(texts)) == []
    decreases |texts|
  {
    if texts != [] {
      PrioritiesOfComments(texts[1..]);
      assert Comments(texts)[1..] == Comments(texts[1..]);
    }
  }

  /** A header comment and some warnings printed before `tail` add their
      own lines and no priority. */
  lemma CommentsBefore(header: string, warnings: seq<string>, tail: seq<Block>)
    ensures var out := [Comment(header)] + (Comments(warnings) + tail);
            |out| == 1 + |warnings| + |tail| && out[0] == Comment(header) && Priorities(out) == Priorities(tail)
  {
    PrioritiesOfComments(warnings);
    PrioritiesAppend(Comments(warnings), tail);
    PrioritiesAppend([Comment(header)], Comments(warnings) + tail);
    assert Priorities([Comment(header)]) == [];
  }

  /** Where the warnings and the tail sit after a header comment. */
  lemma CommentsThen(header: string, warnings: seq<string>, tail: seq<Block>)
    ensures var out := [Comment(header)] + (Comments(warnings) + tail);
            && out[1..1 + |warnings|] == Comments(warnings)
            && out[1 + |warnings|..] == tail
  {
    var out := [Comment(header)] + (Comments(warnings) + tail);
    assert out[1..] == Comments(warnings) + tail;
  }

  lemma {:induction false} PrioritiesAppend(a: seq<Block>, b: seq<Block>)
    ensures Priorities(a + b) == Priorities(a) + Priorities(b)
    decreases |a|
  {
    if a == [] {
      assert a + b == b;
    } else {
      PrioritiesAppend(a[1..], b);
      assert (a + b)[0] == a[0];
      assert (a + b)[1..] == a[1..] + b;
      var h := if IsChild(a[0]) then [a[0].priority] else [];
      assert Priorities(a + b) == h + Priorities(a[1..] + b);
      assert Priorities(a) == h + Priorities(a[1..]);
    }
  }

  /** `from, from + 1, ..., from + n - 1` */
  function Consecutive(from: nat, n: nat): seq<nat> {
    seq(n, i requires 0 <= i < n => from + i)
  }

  lemma ConsecutiveCons(from: nat, n: nat)
    ensures Consecutive(from, n + 1) == [from] + Consecutive(from + 1, n)
  {
  }

  // ---------------------------------------------------------------------
  // Subgroup sets

  /** `s.add(x)` on a set kept as its values in the order first added. */
  function AddNew<T(==,!new)>(s: seq<T>, x: T): (r: seq<T>)
    ensures NoDup(s) ==> NoDup(r)
    ensures forall v :: v in r <==> v in s || v == x
    ensures x in s ==> r == s
  {
    if x in s then s else s + [x]
  }

  // ---------------------------------------------------------------------
  // Rendering

  /** `" ".join(f"{tag}={value}" ...)` over the items, in order. */
  function JoinItems(items: seq<SubgroupItem>): (r: string)
    ensures r == [] <==> items == []
    ensures |items| == 1 ==> r == items[0].tag + "=" + items[0].value
    decreases |items|
  {
    if items == [] then ""
    else if |items| == 1 then items[0].tag + "=" + items[0].value
    else items[0].tag + "=" + items[0].value + " " + JoinItems(items[1..])
  }

  /** Joining two non-empty runs of items puts exactly one space between
      their texts. */
  lemma {:induction false} JoinItemsAppend(a: seq<SubgroupItem>, b: seq<SubgroupItem>)
    requires a != [] && b != []
    ensures JoinItems(a + b) == JoinItems(a) + " " + JoinItems(b)
    decreases |a|
  {
    var t := a[0].tag + "=" + a[0].value;
    assert (a + b)[0] == a[0];
    if |a| == 1 {
      assert (a + b)[1..] == b;
    } else {
      assert (a + b)[1..] == a[1..] + b;
      JoinItemsAppend(a[1..], b);
      assert JoinItems(a + b) == t + " " + (JoinItems(a[1..]) + " " + JoinItems(b));
    }
  }

  function ViewTag(v: View): string {
    match v
    case Signal => "sig"
    case Peaks => "pk"
  }

  function ViewName(v: View): string {
    match v
    case Signal => "Signal"
    case Peaks => "Peaks"
  }

  /** A trackDb stanza: lines none of which is empty, then one blank line. */
  predicate IsStanza(r: seq<string>) {
    |r| >= 2 && r[|r| - 1] == "" && forall i :: 0 <= i < |r| - 1 ==> r[i] != []
  }

  /** The lines one block prints. */
  function Render(b: Block): seq<string> {
    match b
    case Comment(text) => [text]
    case ChromParent(id) => ChromParentLines(id)
    case ChromChild(trackId, parent, subtrackId, url, priority) =>
      ChromChildLines(trackId, parent, subtrackId, url, priority)
    case SignalParent(id, timepoints, markSources) => SignalParentLines(id, timepoints, markSources)
    case SignalChild(trackId, parent, tpTag, msTag, shortLabel, longLabel, style, url, priority) =>
      SignalChildLines(trackId, parent, tpTag, msTag, shortLabel, longLabel, style, url, priority)
    case TfParent(id, timepoints, factorSources) => TfParentLines(id, timepoints, factorSources)
    case TfChild(trackId, parent, view, fsTag, tpTag, shortLabel, longLabel, url, priority) =>
      TfChildLines(trackId, parent, view, fsTag, tpTag, shortLabel, longLabel, url, priority)
  }

  /** A comment prints as one line; every other block prints as a stanza
      closed by a blank line, as trackDb files separate their entries. */
  lemma RenderIsStanza(b: Block)
    ensures b.Comment? ==> Render(b) == [b.text]
    ensures !b.Comment? ==> IsStanza(Render(b))
  {
  }

  function ChromParentLines(id: string): (r: seq<string>)
    ensures IsStanza(r)
  {
    [ "track " + id,
      "compositeTrack on",
      "shortLabel IDC Chromatin States",
      "longLabel P. falciparum chromatin states during the IDC",
      "type bigBed",
      "visibility dense",
      "" ]
  }

  function ChromChildLines(trackId: string, parent: string, subtrackId: string, url: string, priority: nat): (r: seq<string>)
    ensures IsStanza(r)
  {
    [ "track " + trackId,
      "parent " + parent + " on",
      "type bigBed 9 +",
      "shortLabel " + subtrackId + " States",
      "longLabel Chromatin States for " + subtrackId,
      "visibility dense",
      "itemRgb on",
      "bigDataUrl " + url,
      "priority " + NatToString(priority),
      "" ]
  }

  function SignalParentLines(id: string, timepoints: seq<SubgroupItem>, markSources: seq<SubgroupItem>): (r: seq<string>)
    ensures IsStanza(r)
  {
    [ "track " + id,
      "compositeTrack on",
      "shortLabel Histone Marks",
      "longLabel P. falciparum Histone Marks and Accessibility",
      "type bigWig",
      "visibility full",
      "autoScale off",
      "groupAutoScale on",
      "group regulation",
      "priority 20",
      "dragAndDrop subTracks",
      "noInherit on",
      "subGroup1 timepoint Timepoint " + JoinItems(timepoints),
      "subGroup2 markSource Mark_Source " + JoinItems(markSources),
      "dimensions dimX=timepoint dimY=markSource",
      "sortOrder timepoint=+ markSource=+",
      "" ]
  }

  function SignalChildLines(trackId: string, parent: string, tpTag: string, msTag: string,
                            shortLabel: string, longLabel: string, style: Style, url: string, priority: nat): (r: seq<string>)
    ensures IsStanza(r)
  {
    [ "    track " + trackId,
      "    parent " + parent + " on",
      "    subGroups timepoint=" + tpTag + " markSource=" + msTag,
      "    type bigWig",
      "    shortLabel " + shortLabel,
      "    longLabel " + longLabel,
      "    visibility " + style.visibility,
      "    color " + style.color,
      "    autoScale off",
      "    bigDataUrl " + url,
      "    priority " + NatToString(priority),
      "" ]
  }

  function TfParentLines(id: string, timepoints: seq<SubgroupItem>, factorSources: seq<SubgroupItem>): (r: seq<string>)
    ensures IsStanza(r)
  {
    [ "track " + id,
      "compositeTrack on",
      "shortLabel TFs",
      "longLabel P. falciparum Transcription Factor ChIP-seq",
      "visibility dense",
      "group regulation",
      "priority 30",
      "dragAndDrop subTracks",
      "noInherit on",
      "subGroup1 view Views Signal=sig Peaks=pk",
      "subGroup2 timepoint Timepoint " + JoinItems(timepoints),
      "subGroup3 factorSource Factor_Source " + JoinItems(factorSources),
      "dimensions dimX=factorSource dimY=timepoint dimA=view",
      "sortOrder view=+ factorSource=+ timepoint=+",
      "visibilityViewDefaults sig=full pk=hide",
      "" ]
  }

  /** The lines that depend on the view of a TF subtrack. */
  function TfViewLines(view: View, shortLabel: string, longLabel: string): (r: seq<string>)
    ensures forall i :: 0 <= i < |r| ==> r[i] != []
  {
    match view
    case Signal =>
      [ "    type bigWig",
        "    shortLabel " + shortLabel,
        "    longLabel " + longLabel,
        "    color 0,0,170",
        "    autoScale off",
        "    groupAutoScale on" ]
    case Peaks =>
      [ "    type bigBed 6 +",
        "    shortLabel " + shortLabel,
        "    longLabel " + longLabel,
        "    color 0,0,0" ]
  }

  function TfChildLines(trackId: string, parent: string, view: View, fsTag: string, tpTag: string,
                        shortLabel: string, longLabel: string, url: string, priority: nat): (r: seq<string>)
    ensures IsStanza(r)
  {
    var head := [ "    track " + trackId,
                  "    parent " + parent + " on",
                  "    subGroups view=" + ViewTag(view) + " factorSource=" + fsTag + " timepoint=" + tpTag ];
    var mid := TfViewLines(view, shortLabel, longLabel);
    var tail := [ "    bigDataUrl " + url, "    priority " + NatToString(priority), "" ];
    var r := head + mid + tail;
    assert forall i :: 0 <= i < |r| - 1 ==> r[i] != [] by {
      forall i | 0 <= i < |r| - 1 ensures r[i] != [] {
        if i < |head| { assert r[i] == head[i]; }
        else if i < |head| + |mid| { assert r[i] == mid[i - |head|]; }
        else { assert r[i] == tail[i - |head| - |mid|]; }
      }
    }
    r
  }

  /** One stanza per record, made by `entry` from the record, the base
      URL, the parent and a number, numbered from `priority` in the order
      of the records. */
  function Stanzas<R>(recs: seq<R>, entry: (R, string, string, nat) -> Block,
                      baseUrl: string, parent: string, priority: nat): seq<Block>
    decreases |recs|
  {
    if recs == [] then []
    else [entry(recs[0], baseUrl, parent, priority)] + Stanzas(recs[1..], entry, baseUrl, parent, priority + 1)
  }

  /** The i-th stanza is made from the i-th record and numbered
      `priority + i`. */
  lemma {:induction false} StanzaAt<R>(recs: seq<R>, entry: (R, string, string, nat) -> Block,
                                       baseUrl: string, parent: string, priority: nat, i: nat)
    requires i < |recs|
    ensures |Stanzas(recs, entry, baseUrl, parent, priority)| == |recs|
    ensures Stanzas(recs, entry, baseUrl, parent, priority)[i] == entry(recs[i], baseUrl, parent, priority + i)
    decreases |recs|
  {
    if i > 0 {
      StanzaAt(recs[1..], entry, baseUrl, parent, priority + 1, i - 1);
      assert recs[1..][i - 1] == recs[i];
    } else if |recs| > 1 {
      StanzaAt(recs[1..], entry, baseUrl, parent, priority + 1, 0);
    }
  }

  /** When `entry` makes a subtrack carrying the number it is given, the
      stanzas carry consecutive priorities from `priority`, one per
      record. */
  lemma {:induction false} StanzaPriorities<R>(recs: seq<R>, entry: (R, string, string, nat) -> Block,
                                               baseUrl: string, parent: string, priority: nat)
    requires forall r, n :: IsChild(entry(r, baseUrl, parent, n)) && entry(r, baseUrl, parent, n).priority == n
    ensures Priorities(Stanzas(recs, entry, baseUrl, parent, priority)) == Consecutive(priority, |recs|)
    decreases |recs|
  {
    if recs != [] {
      var b := entry(recs[0], baseUrl, parent, priority);
      var rest := Stanzas(recs[1..], entry, baseUrl, parent, priority + 1);
      assert Stanzas(recs, entry, baseUrl, parent, priority) == [b] + rest;
      assert Priorities([b]) == [priority];
      StanzaPriorities(recs[1..], entry, baseUrl, parent, priority + 1);
      PrioritiesAppend([b], rest);
      ConsecutiveCons(priority, |recs| - 1);
    }
  }

  /** The subtrack stanzas among `bs`, in printing order. */
  function Subtracks(bs: seq<Block>): (r: seq<Block>)
    ensures forall b :: b in r ==> IsChild(b)
  {
    if bs == [] then []
    else (if IsChild(bs[0]) then [bs[0]] else []) + Subtracks(bs[1..])
  }

  /** The texts of the comment lines among `bs`, in printing order. */
  function CommentTexts(bs: seq<Block>): seq<string> {
    if bs == [] then []
    else (if bs[0].Comment? then [bs[0].text] else []) + CommentTexts(bs[1..])
  }

  /** Both filters look at the first block and go on with the rest. */
  lemma FiltersCons(b: Block, bs: seq<Block>)
    ensures Subtracks([b] + bs) == (if IsChild(b) then [b] else []) + Subtracks(bs)
    ensures CommentTexts([b] + bs) == (if b.Comment? then [b.text] else []) + CommentTexts(bs)
  {
    assert ([b] + bs)[0] == b;
    assert ([b] + bs)[1..] == bs;
  }

  /** The lines of a sequence of items, each printed by `f`. */
  function Lines<T>(xs: seq<T>, f: T -> seq<string>): seq<string> {
    if xs == [] then [] else f(xs[0]) + Lines(xs[1..], f)
  }

  lemma {:induction false} LinesAppend<T>(a: seq<T>, b: seq<T>, f: T -> seq<string>)
    ensures Lines(a + b, f) == Lines(a, f) + Lines(b, f)
    decreases |a|
  {
    if a == [] {
      assert a + b == b;
    } else {
      LinesAppend(a[1..], b, f);
      assert (a + b)[0] == a[0];
      assert (a + b)[1..] == a[1..] + b;
      AppendAssoc(f(a[0]), Lines(a[1..], f), Lines(b, f));
    }
  }

  /** The whole printed text, line by line. */
  function RenderAll(bs: seq<Block>): seq<string> {
    Lines(bs, Render)
  }

  /** The text of consecutive blocks is the text of the first ones followed
      by that of the rest: printing is a stream. */
  lemma RenderAllAppend(a: seq<Block>, b: seq<Block>)
    ensures RenderAll(a + b) == RenderAll(a) + RenderAll(b)
  {
    LinesAppend(a, b, Render);
  }
}
