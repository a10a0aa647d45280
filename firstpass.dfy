/** The first pass shared by the signal and TF generators: it walks the
    classified lines once, keeping the records, the warnings it printed,
    and two Python sets, of timepoints and of subgroup keys (mark-source
    keys or factor-source pairs). */
module FirstPass {
  import opened Order
  import opened Blocks

  /** What the first pass has gathered: the records, the warnings printed,
      and the distinct timepoints and keys in the order first seen. */
  datatype Scan<R, K> = Scan(records: seq<R>, warnings: seq<string>,
                             timepoints: seq<string>, keys: seq<K>)

  /** What one classified line adds: a warning, or a record whose
      timepoint and key join their sets. */
  function ScanStep<R, K(==,!new)>(s: Scan<R, K>, k: Line<R>, timepoint: R -> string, key: R -> K): Scan<R, K> {
    match k
    case Blank => s
    case Skipped(w) => s.(warnings := s.warnings + [w])
    case Parsed(rec) =>
      Scan(s.records + [rec], s.warnings, AddNew(s.timepoints, timepoint(rec)), AddNew(s.keys, key(rec)))
  }

  function ScanLines<R, K(==,!new)>(ks: seq<Line<R>>, timepoint: R -> string, key: R -> K): Scan<R, K>
    decreases |ks|
  {
    if ks == [] then Scan([], [], [], [])
    else ScanStep(ScanLines(ks[..|ks| - 1], timepoint, key), ks[|ks| - 1], timepoint, key)
  }

  lemma ScanLinesSnoc<R, K(!new)>(ks: seq<Line<R>>, i: nat, timepoint: R -> string, key: R -> K)
    requires i < |ks|
    ensures ScanLines(ks[..i + 1], timepoint, key) == ScanStep(ScanLines(ks[..i], timepoint, key), ks[i], timepoint, key)
  {
    assert ks[..i + 1][..i] == ks[..i];
  }

  /** Every value in `values` is `f` of some record. */
  predicate ValuesOfRecords<R(==), V(==)>(records: seq<R>, values: seq<V>, f: R -> V) {
    forall v :: v in values ==> exists r :: r in records && f(r) == v
  }

  /** The subgroup values gathered are exactly those of the records, each
      once. */
  predicate ScanInvariant<R(==), K(==)>(s: Scan<R, K>, timepoint: R -> string, key: R -> K) {
    && NoDup(s.timepoints)
    && NoDup(s.keys)
    && (forall r :: r in s.records ==> timepoint(r) in s.timepoints && key(r) in s.keys)
    && ValuesOfRecords(s.records, s.timepoints, timepoint)
    && ValuesOfRecords(s.records, s.keys, key)
  }

  lemma ValuesOfRecordsAdd<R, V(!new)>(records: seq<R>, values: seq<V>, f: R -> V, rec: R)
    requires ValuesOfRecords(records, values, f)
    ensures ValuesOfRecords(records + [rec], AddNew(values, f(rec)), f)
  {
    forall v | v in AddNew(values, f(rec)) ensures exists r :: r in records + [rec] && f(r) == v {
      if v == f(rec) {
        assert rec in records + [rec];
      } else {
        var r :| r in records && f(r) == v;
        assert r in records + [rec];
      }
    }
  }

  lemma ScanStepInvariant<R, K(!new)>(s: Scan<R, K>, k: Line<R>, timepoint: R -> string, key: R -> K)
    requires ScanInvariant(s, timepoint, key)
    ensures ScanInvariant(ScanStep(s, k, timepoint, key), timepoint, key)
  {
    if k.Parsed? {
      var rec := k.record;
      ValuesOfRecordsAdd(s.records, s.timepoints, timepoint, rec);
      ValuesOfRecordsAdd(s.records, s.keys, key, rec);
      assert forall r :: r in s.records + [rec] <==> r in s.records || r == rec;
    }
  }

  lemma {:induction false} ScanLinesInvariant<R, K(!new)>(ks: seq<Line<R>>, timepoint: R -> string, key: R -> K)
    ensures ScanInvariant(ScanLines(ks, timepoint, key), timepoint, key)
    decreases |ks|
  {
    if ks != [] {
      ScanLinesInvariant(ks[..|ks| - 1], timepoint, key);
      ScanStepInvariant(ScanLines(ks[..|ks| - 1], timepoint, key), ks[|ks| - 1], timepoint, key);
    }
  }

  /** The first pass keeps a record exactly when some line parsed. */
  lemma {:induction false} ScanLinesRecords<R, K(!new)>(ks: seq<Line<R>>, timepoint: R -> string, key: R -> K)
    ensures ScanLines(ks, timepoint, key).records == [] <==> forall k :: k in ks ==> !k.Parsed?
    decreases |ks|
  {
    if ks != [] {
      var init, last := ks[..|ks| - 1], ks[|ks| - 1];
      ScanLinesRecords(init, timepoint, key);
      assert ks == init + [last];
      assert forall k :: k in ks <==> k in init || k == last;
    }
  }

  /** One record per line that parsed, one warning per line skipped. */
  lemma {:induction false} ScanLinesCounts<R, K(!new)>(ks: seq<Line<R>>, timepoint: R -> string, key: R -> K)
    ensures |ScanLines(ks, timepoint, key).records| == CountParsed(ks)
    ensures |ScanLines(ks, timepoint, key).warnings| + |ScanLines(ks, timepoint, key).records| == CountNonBlank(ks)
    decreases |ks|
  {
    if ks != [] {
      var init, last := ks[..|ks| - 1], ks[|ks| - 1];
      ScanLinesCounts(init, timepoint, key);
      assert ks == init + [last];
      CountParsedAppend(init, [last]);
      CountNonBlankAppend(init, [last]);
      assert [last][1..] == [];
    }
  }

  /** The first pass keeps the records of the lines that parsed and the
      warnings of the lines it skipped, each in line order. */
  lemma {:induction false} ScanLinesInOrder<R, K(!new)>(ks: seq<Line<R>>, timepoint: R -> string, key: R -> K)
    ensures ScanLines(ks, timepoint, key).records == ParsedRecords(ks)
    ensures ScanLines(ks, timepoint, key).warnings == SkippedWarnings(ks)
    decreases |ks|
  {
    if ks != [] {
      var init, last := ks[..|ks| - 1], ks[|ks| - 1];
      ScanLinesInOrder(init, timepoint, key);
      assert ks == init + [last];
      ParsedRecordsAppend(init, [last]);
      SkippedWarningsAppend(init, [last]);
      assert [last][1..] == [];
    }
  }

  /** Every record kept comes from a line that parsed to it. */
  lemma {:induction false} ScanRecordsParsed<R, K(!new)>(ks: seq<Line<R>>, timepoint: R -> string, key: R -> K)
    ensures forall r :: r in ScanLines(ks, timepoint, key).records ==> Parsed(r) in ks
    decreases |ks|
  {
    if ks != [] {
      var init, last := ks[..|ks| - 1], ks[|ks| - 1];
      ScanRecordsParsed(init, timepoint, key);
      assert ks == init + [last];
      assert forall k :: k in init ==> k in ks;
    }
  }
}
