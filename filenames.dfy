/** The three file-name parsers of makeTrackHubs.py. Each regular expression
    is modelled as an explicit decomposition of the name (a "split") plus
    a search that reproduces the choice Python's backtracking makes among
    the splits: the shortest first group. A `.` of the pattern matches any
    character but a newline, so a name holding a newline never matches. */
module FileNames {
  import opened Text

  datatype Option<T> = None | Some(value: T)

  /** Length of the run of characters of class `cls` that starts at `i`:
      what a greedy `[...]+` or `\d+` consumes. */
  function Run(s: string, i: nat, cls: char -> bool): (k: nat)
    requires i <= |s|
    ensures i + k <= |s|
    ensures forall j :: i <= j < i + k ==> cls(s[j])
    ensures i + k == |s| || !cls(s[i + k])
    decreases |s| - i
  {
    if i < |s| && cls(s[i]) then 1 + Run(s, i + 1, cls) else 0
  }

  /** A run ends at the first character outside the class. */
  lemma {:induction false} RunUpTo(s: string, i: nat, k: nat, cls: char -> bool)
    requires i + k <= |s|
    requires forall j :: i <= j < i + k ==> cls(s[j])
    requires i + k == |s| || !cls(s[i + k])
    ensures Run(s, i, cls) == k
    decreases k
  {
    if k > 0 {
      RunUpTo(s, i + 1, k - 1, cls);
    }
  }

  /** The first position at or after `i` holding `c`, or `|s|`. */
  function IndexFrom(s: string, c: char, i: nat): (q: nat)
    requires i <= |s|
    ensures i <= q <= |s|
    ensures q < |s| ==> s[q] == c
    ensures forall j :: i <= j < q ==> s[j] != c
    decreases |s| - i
  {
    if i == |s| || s[i] == c then i else IndexFrom(s, c, i + 1)
  }

  /** The search stops at the first `c`. */
  lemma {:induction false} IndexFromFinds(s: string, c: char, i: nat, q: nat)
    requires i <= q < |s| && s[q] == c
    requires forall j :: i <= j < q ==> s[j] != c
    ensures IndexFrom(s, c, i) == q
    decreases q - i
  {
    if i < q {
      IndexFromFinds(s, c, i + 1, q);
    }
  }

  // ---------------------------------------------------------------------
  // Timepoints: `\d+hpi` under re.IGNORECASE

  predicate IsTimepoint(t: string) {
    && |t| >= 4
    && (forall j {:trigger IsDigit(t[j])} :: 0 <= j < |t| - 3 ==> IsDigit(t[j]))
    && EqualsIgnoreCase(t[|t| - 3..], "hpi")
  }

  lemma HpiIsNotDigit(t: string)
    requires |t| >= 3 && EqualsIgnoreCase(t[|t| - 3..], "hpi")
    ensures !IsDigit(t[|t| - 3])
  {
    assert Lower(t[|t| - 3..][0]) == Lower("hpi"[0]);
  }

  /** The `m` characters of `s` at `i` form a `\d+hpi` token. */
  predicate TimepointToken(s: string, i: int, m: int) {
    0 <= i && 0 < m && i + m <= |s| && IsTimepoint(s[i..i + m])
  }

  /** Length of the `\d+hpi` token that the pattern matches at `i` of `s`,
      or 0 when it matches none. */
  function TimepointAt(s: string, i: nat): (n: nat)
    requires i <= |s|
    ensures i + n <= |s|
    ensures n > 0 ==> TimepointToken(s, i, n)
  {
    var k := Run(s, i, IsDigit);
    if k > 0 && i + k + 3 <= |s| && EqualsIgnoreCase(s[i + k..i + k + 3], "hpi") then
      assert s[i..i + k + 3][k..] == s[i + k..i + k + 3];
      k + 3
    else 0
  }

  /** At most one length of token matches at a position: the digits run
      up to the `h`, so greedy `\d+` never has to give any back. */
  lemma TimepointAtUnique(s: string, i: nat, m: nat)
    requires i <= |s| && TimepointToken(s, i, m)
    ensures TimepointAt(s, i) == m
  {
    var k := Run(s, i, IsDigit);
    var t := s[i..i + m];
    HpiIsNotDigit(t);
    assert t[m - 3] == s[i + m - 3];
    assert k == m - 3;
    assert t[m - 3..] == s[i + k..i + k + 3];
  }

  /** Cutting a string at three underscores and joining the parts again. */
  lemma JoinAtUnderscores(s: string, i: nat, j: nat, k: nat)
    requires i < j < k < |s| && s[i] == '_' && s[j] == '_' && s[k] == '_'
    ensures s == s[..i] + "_" + s[i + 1..j] + "_" + s[j + 1..k] + "_" + s[k + 1..]
  {
    assert s == s[..i] + [s[i]] + s[i + 1..j] + [s[j]] + s[j + 1..k] + [s[k]] + s[k + 1..];
  }

  /** The same, for the prefix of length `l` of `s`. */
  lemma JoinPrefixAtUnderscores(s: string, l: nat, i: nat, j: nat, k: nat)
    requires i < j < k < l <= |s| && s[i] == '_' && s[j] == '_' && s[k] == '_'
    ensures s[..l] == s[..i] + "_" + s[i + 1..j] + "_" + s[j + 1..k] + "_" + s[k + 1..l]
  {
    var t := s[..l];
    JoinAtUnderscores(t, i, j, k);
    assert t[..i] == s[..i] && t[i + 1..j] == s[i + 1..j];
    assert t[j + 1..k] == s[j + 1..k] && t[k + 1..] == s[k + 1..l];
  }

  /** A stretch of alphanumeric characters, as a slice. */
  lemma AlnumSlice(s: string, i: nat, j: nat)
    requires i <= j <= |s|
    ensures AllAlnum(s[i..j]) <==> forall k :: i <= k < j ==> IsAlnum(s[k])
  {
    var t := s[i..j];
    assert forall k :: i <= k < j ==> s[k] == t[k - i];
  }

  /** The positions of the parts of `a_b_c_d`. */
  lemma PartsOfJoin(s: string, a: string, b: string, c: string, d: string)
    requires s == a + "_" + b + "_" + c + "_" + d
    ensures s[|a|] == '_' && s[|a| + 1 + |b|] == '_' && s[|a| + 2 + |b| + |c|] == '_'
    ensures s[..|a|] == a && s[|a| + 1..|a| + 1 + |b|] == b
    ensures s[|a| + 2 + |b|..|a| + 2 + |b| + |c|] == c && s[|a| + 3 + |b| + |c|..] == d
    ensures |s| == |a| + |b| + |c| + |d| + 3
  {
  }

  /** The positions of the parts when `a_b_c_d` is a prefix of `s`. */
  lemma PartsOfPrefix(s: string, l: nat, a: string, b: string, c: string, d: string)
    requires l <= |s| && s[..l] == a + "_" + b + "_" + c + "_" + d
    ensures l == |a| + |b| + |c| + |d| + 3
    ensures s[|a|] == '_' && s[|a| + 1 + |b|] == '_' && s[|a| + 2 + |b| + |c|] == '_'
    ensures s[..|a|] == a && s[|a| + 1..|a| + 1 + |b|] == b
    ensures s[|a| + 2 + |b|..|a| + 2 + |b| + |c|] == c && s[|a| + 3 + |b| + |c|..l] == d
  {
    var t := s[..l];
    PartsOfJoin(t, a, b, c, d);
    assert s[..|a|] == t[..|a|];
    assert s[|a| + 1..|a| + 1 + |b|] == t[|a| + 1..|a| + 1 + |b|];
    assert s[|a| + 2 + |b|..|a| + 2 + |b| + |c|] == t[|a| + 2 + |b|..|a| + 2 + |b| + |c|];
    assert s[|a| + 3 + |b| + |c|..l] == t[|a| + 3 + |b| + |c|..];
  }

  // ---------------------------------------------------------------------
  // Chromatin states: re.match(r"^(\d+hpi)", filename, re.IGNORECASE)

  /** The identifier of a chromatin-state file: its leading `\d+hpi` token. */
  function ChromStateId(name: string): (r: Option<string>)
    ensures r.Some? ==> IsTimepoint(r.value) && StartsWith(name, r.value)
    ensures r.None? <==> forall m :: !TimepointToken(name, 0, m)
  {
    var n := TimepointAt(name, 0);
    if n > 0 then Some(name[..n])
    else
      assert forall m :: !TimepointToken(name, 0, m) by {
        forall m | TimepointToken(name, 0, m) ensures false { TimepointAtUnique(name, 0, m); }
      }
      None
  }

  // ---------------------------------------------------------------------
  // Signal files: re.match(r"^(.*?)_(\d+hpi)_(.*?)_(.*?)\.bw$", filename, re.I)

  /** The four groups of a signal file name, the mark not yet normalised. */
  datatype SignalName = SignalName(mark: string, timepoint: string, source: string, sourceId: string)

  /** `body` is `mark_timepoint_source_sourceId` with the constraints of
      the pattern; the source is the lazy group, so it holds no `_`. */
  predicate IsSignalBody(body: string, g: SignalName) {
    && body == g.mark + "_" + g.timepoint + "_" + g.source + "_" + g.sourceId
    && IsTimepoint(g.timepoint)
    && '_' !in g.source
  }

  /** `name` is a signal body followed by `.bw` in any letter case. */
  predicate IsSignalSplit(name: string, g: SignalName) {
    && '\n' !in name
    && |name| >= 3 && EqualsIgnoreCase(name[|name| - 3..], ".bw")
    && IsSignalBody(name[..|name| - 3], g)
  }

  /** The four groups between the underscores at `p`, `p + 1 + n` and `q`. */
  function SignalGroups(body: string, p: nat, n: nat, q: nat): SignalName
    requires p + 1 + n < q < |body|
  {
    SignalName(body[..p], body[p + 1..p + 1 + n], body[p + 2 + n..q], body[q + 1..])
  }

  /** Where the pattern puts its underscores in a body: the mark has
      length `p`, the timepoint length `n`, the third underscore is at `q`
      and the source between holds none. */
  predicate SignalPartsAt(body: string, p: nat, n: nat, q: nat) {
    && p + 1 + n < q < |body| && body[p] == '_' && body[p + 1 + n] == '_' && body[q] == '_'
    && TimepointToken(body, p + 1, n)
    && (forall j :: p + 2 + n <= j < q ==> body[j] != '_')
  }

  /** The groups the pattern finds in the body when the mark has length `p`. */
  function SignalBodyAt(body: string, p: nat): Option<SignalName> {
    if !(p < |body| && body[p] == '_') then None
    else
      var n := TimepointAt(body, p + 1);
      if !(n > 0 && p + 1 + n < |body| && body[p + 1 + n] == '_') then None
      else
        var q := IndexFrom(body, '_', p + 2 + n);
        if q == |body| then None
        else Some(SignalGroups(body, p, n, q))
  }

  /** The groups at positions that fit form a split of the body. */
  lemma SignalSplitOfParts(body: string, p: nat, n: nat, q: nat)
    requires SignalPartsAt(body, p, n, q)
    ensures IsSignalBody(body, SignalGroups(body, p, n, q))
  {
    JoinAtUnderscores(body, p, p + 1 + n, q);
    var src := body[p + 2 + n..q];
    forall j | 0 <= j < |src| ensures src[j] != '_' {
      assert src[j] == body[p + 2 + n + j];
    }
  }

  /** What `SignalBodyAt` finds is a split of the body with a mark of
      length `p`. */
  lemma SignalBodyAtSound(body: string, p: nat)
    ensures SignalBodyAt(body, p).Some? ==> IsSignalBody(body, SignalBodyAt(body, p).value)
    ensures SignalBodyAt(body, p).Some? ==> |SignalBodyAt(body, p).value.mark| == p
  {
    if SignalBodyAt(body, p).Some? {
      var n := TimepointAt(body, p + 1);
      var q := IndexFrom(body, '_', p + 2 + n);
      assert SignalBodyAt(body, p) == Some(SignalGroups(body, p, n, q));
      SignalSplitOfParts(body, p, n, q);
    }
  }

  /** The match the pattern finds when its first group has length `p`. */
  function SignalAt(name: string, p: nat): (r: Option<SignalName>)
    ensures r.Some? ==> IsSignalSplit(name, r.value) && |r.value.mark| == p
  {
    if '\n' in name || |name| < 3 || !EqualsIgnoreCase(name[|name| - 3..], ".bw") then None
    else
      SignalBodyAtSound(name[..|name| - 3], p);
      SignalBodyAt(name[..|name| - 3], p)
  }

  /** The positions are determined: whatever parts fit, the search finds. */
  lemma SignalBodyAtOfPositions(body: string, p: nat, n: nat, q: nat)
    requires SignalPartsAt(body, p, n, q)
    ensures SignalBodyAt(body, p) == Some(SignalGroups(body, p, n, q))
  {
    TimepointAtUnique(body, p + 1, n);
    IndexFromFinds(body, '_', p + 2 + n, q);
  }

  /** Where the parts of a split of a body lie, and that they are the
      groups there. */
  lemma SignalPartsOfSplit(body: string, g: SignalName)
    requires IsSignalBody(body, g)
    ensures var p, n := |g.mark|, |g.timepoint|;
            var q := p + 2 + n + |g.source|;
            SignalPartsAt(body, p, n, q) && SignalGroups(body, p, n, q) == g
  {
    PartsOfJoin(body, g.mark, g.timepoint, g.source, g.sourceId);
    SignalPartsOfGroups(body, g);
  }

  /** The same, from where the groups of the split lie in the body. */
  lemma SignalPartsOfGroups(body: string, g: SignalName)
    requires IsTimepoint(g.timepoint) && '_' !in g.source
    requires var p, n, s := |g.mark|, |g.timepoint|, |g.source|;
             && |body| == p + n + s + |g.sourceId| + 3
             && body[p] == '_' && body[p + 1 + n] == '_' && body[p + 2 + n + s] == '_'
             && body[..p] == g.mark && body[p + 1..p + 1 + n] == g.timepoint
             && body[p + 2 + n..p + 2 + n + s] == g.source && body[p + 3 + n + s..] == g.sourceId
    ensures var p, n := |g.mark|, |g.timepoint|;
            var q := p + 2 + n + |g.source|;
            SignalPartsAt(body, p, n, q) && SignalGroups(body, p, n, q) == g
  {
    var p, n := |g.mark|, |g.timepoint|;
    var q := p + 2 + n + |g.source|;
    forall j | p + 2 + n <= j < q ensures body[j] != '_' {
      assert body[j] == g.source[j - (p + 2 + n)];
    }
  }

  /** A split of a body is the one `SignalBodyAt` finds for its mark length. */
  lemma SignalBodyAtFinds(body: string, g: SignalName)
    requires IsSignalBody(body, g)
    ensures SignalBodyAt(body, |g.mark|) == Some(g)
  {
    SignalPartsOfSplit(body, g);
    SignalBodyAtOfPositions(body, |g.mark|, |g.timepoint|, |g.mark| + 2 + |g.timepoint| + |g.source|);
  }

  lemma SignalAtComplete(name: string, p: nat)
    ensures forall g :: IsSignalSplit(name, g) && |g.mark| == p ==> SignalAt(name, p) == Some(g)
  {
    forall g | IsSignalSplit(name, g) && |g.mark| == p
      ensures SignalAt(name, p) == Some(g)
    {
      SignalBodyAtFinds(name[..|name| - 3], g);
    }
  }

  /** Tries first-group lengths `p`, `p + 1`, ... as the lazy `(.*?)` does. */
  function SignalFrom(name: string, p: nat): (r: Option<SignalName>)
    ensures r.Some? ==> IsSignalSplit(name, r.value) && p <= |r.value.mark|
    ensures forall h :: IsSignalSplit(name, h) && p <= |h.mark| ==> r.Some? && |r.value.mark| <= |h.mark|
    decreases |name| + 1 - p
  {
    if p > |name| then
      assert forall h :: IsSignalSplit(name, h) ==> |h.mark| < |name| by {
        forall h | IsSignalSplit(name, h) ensures |h.mark| < |name| {
          PartsOfJoin(name[..|name| - 3], h.mark, h.timepoint, h.source, h.sourceId);
        }
      }
      None
    else
      SignalAtComplete(name, p);
      match SignalAt(name, p)
      case Some(g) => Some(g)
      case None => SignalFrom(name, p + 1)
  }

  /** The groups of a signal file name: the split with the shortest mark,
      or None when the name has no split at all. */
  function ParseSignal(name: string): (r: Option<SignalName>)
    ensures r.Some? ==> IsSignalSplit(name, r.value)
    ensures r.Some? ==> forall h :: IsSignalSplit(name, h) ==> |r.value.mark| <= |h.mark|
    ensures r.None? ==> forall h :: !IsSignalSplit(name, h)
  {
    SignalFrom(name, 0)
  }

  /** Two splits of one name with marks of equal length are equal: the
      shortest mark determines the whole match. */
  lemma SignalSplitUnique(name: string, g: SignalName, h: SignalName)
    requires IsSignalSplit(name, g) && IsSignalSplit(name, h) && |g.mark| == |h.mark|
    ensures g == h
  {
    SignalAtComplete(name, |g.mark|);
  }

  // ---------------------------------------------------------------------
  // TF files: view by suffix, then
  // r"^(.*?)_(\d+hpi)_([a-zA-Z0-9]+)_(.*?)" + ext + "$" under re.I,
  // retried with `(.*)` for the fourth group.

  datatype View = Signal | Peaks

  function Extension(v: View): string {
    match v
    case Peaks => ".narrowPeak.bb"
    case Signal => ".bw"
  }

  /** The view a TF file's suffix selects (case-sensitive, Peaks first). */
  function ViewOf(name: string): (r: Option<View>)
    ensures r.Some? ==> EndsWith(name, Extension(r.value))
    ensures r.None? <==> !EndsWith(name, ".narrowPeak.bb") && !EndsWith(name, ".bw")
    ensures r == Some(Peaks) <==> EndsWith(name, ".narrowPeak.bb")
  {
    if EndsWith(name, ".narrowPeak.bb") then Some(Peaks)
    else if EndsWith(name, ".bw") then Some(Signal)
    else None
  }

  datatype TfName = TfName(factor: string, timepoint: string, source: string, sourceId: string)

  /** `name` is `factor_timepoint_source_sourceId` + `ext` with the
      constraints of the pattern. */
  predicate IsTfSplit(name: string, ext: string, g: TfName) {
    && '\n' !in name
    && |name| >= |ext| && EqualsIgnoreCase(name[|name| - |ext|..], ext)
    && name[..|name| - |ext|] == g.factor + "_" + g.timepoint + "_" + g.source + "_" + g.sourceId
    && IsTimepoint(g.timepoint)
    && g.source != [] && AllAlnum(g.source)
  }

  /** Where `(.*?)` followed by `ext$` ends, trying lengths `j`, `j + 1`, ... */
  function LazyTail(rest: string, ext: string, j: nat): (r: Option<nat>)
    requires j <= |rest|
    ensures r == if j + |ext| <= |rest| && EqualsIgnoreCase(rest[|rest| - |ext|..], ext)
                 then Some(|rest| - |ext|) else None
    decreases |rest| - j
  {
    if j + |ext| == |rest| && EqualsIgnoreCase(rest[j..], ext) then Some(j)
    else if j == |rest| then None
    else LazyTail(rest, ext, j + 1)
  }

  /** Where `(.*)` followed by `ext$` ends, trying lengths `j`, `j - 1`, ... */
  function GreedyTail(rest: string, ext: string, j: nat): (r: Option<nat>)
    requires j <= |rest|
    ensures r == if |rest| - |ext| <= j && |ext| <= |rest| && EqualsIgnoreCase(rest[|rest| - |ext|..], ext)
                 then Some(|rest| - |ext|) else None
    decreases j
  {
    if j + |ext| == |rest| && EqualsIgnoreCase(rest[j..], ext) then Some(j)
    else if j == 0 then None
    else GreedyTail(rest, ext, j - 1)
  }

  /** Where the fourth group ends: lazily for the strict pattern, greedily
      for the relaxed one. Both stop at the same place. */
  function TfTail(rest: string, ext: string, lazy: bool): (r: Option<nat>)
    ensures r == if |ext| <= |rest| && EqualsIgnoreCase(rest[|rest| - |ext|..], ext)
                 then Some(|rest| - |ext|) else None
  {
    if lazy then LazyTail(rest, ext, 0) else GreedyTail(rest, ext, |rest|)
  }

  /** Where a TF pattern puts its underscores when the factor has length
      `p`, the timepoint length `n` and the third underscore at `u`. */
  predicate TfPartsAt(name: string, ext: string, p: nat, n: nat, u: nat) {
    && '\n' !in name
    && p + 2 + n < u && u + 1 + |ext| <= |name|
    && name[p] == '_' && name[p + 1 + n] == '_' && name[u] == '_'
    && TimepointToken(name, p + 1, n)
    && (forall j :: p + 2 + n <= j < u ==> IsAlnum(name[j]))
    && EqualsIgnoreCase(name[|name| - |ext|..], ext)
  }

  /** The extension ends the name exactly when it ends what follows `i`. */
  lemma SuffixOfRest(name: string, ext: string, i: nat)
    requires i + |ext| <= |name|
    ensures var rest := name[i..];
            EqualsIgnoreCase(rest[|rest| - |ext|..], ext) <==> EqualsIgnoreCase(name[|name| - |ext|..], ext)
  {
    var rest := name[i..];
    assert rest[|rest| - |ext|..] == name[|name| - |ext|..];
  }

  /** The positions a TF pattern matches at when its first group has length
      `p`; `lazy` selects the strict pattern's `(.*?)` fourth group,
      otherwise the relaxed pattern's `(.*)`. */
  function TfPositions(name: string, ext: string, p: nat, lazy: bool): (r: Option<(nat, nat)>)
    ensures r.Some? ==> TfPartsAt(name, ext, p, r.value.0, r.value.1)
  {
    if '\n' in name || !(p < |name| && name[p] == '_') then None
    else
      var n := TimepointAt(name, p + 1);
      if !(n > 0 && p + 1 + n < |name| && name[p + 1 + n] == '_') then None
      else
        var k := Run(name, p + 2 + n, IsAlnum);
        var u := p + 2 + n + k;
        if !(k > 0 && u < |name| && name[u] == '_') then None
        else
          var rest := name[u + 1..];
          match TfTail(rest, ext, lazy)
          case None => None
          case Some(_) =>
            SuffixOfRest(name, ext, u + 1);
            Some((n, u))
  }

  /** The positions are determined: whatever parts fit, the search finds. */
  lemma TfPositionsFinds(name: string, ext: string, p: nat, n: nat, u: nat, lazy: bool)
    requires TfPartsAt(name, ext, p, n, u)
    ensures TfPositions(name, ext, p, lazy) == Some((n, u))
  {
    TimepointAtUnique(name, p + 1, n);
    RunUpTo(name, p + 2 + n, u - (p + 2 + n), IsAlnum);
    SuffixOfRest(name, ext, u + 1);
    TfPositionsStep(name, ext, p, lazy, n, u);
  }

  /** The search's steps, when each of them succeeds. */
  lemma TfPositionsStep(name: string, ext: string, p: nat, lazy: bool, n: nat, u: nat)
    requires '\n' !in name && p < |name| && name[p] == '_'
    requires TimepointAt(name, p + 1) == n > 0 && p + 1 + n < |name| && name[p + 1 + n] == '_'
    requires p + 2 + n < u < |name| && Run(name, p + 2 + n, IsAlnum) == u - (p + 2 + n) && name[u] == '_'
    requires TfTail(name[u + 1..], ext, lazy).Some?
    ensures TfPositions(name, ext, p, lazy) == Some((n, u))
  {
  }

  /** The strict and the relaxed pattern match at the same positions. */
  lemma TfPositionsAgree(name: string, ext: string, p: nat)
    ensures TfPositions(name, ext, p, false) == TfPositions(name, ext, p, true)
  {
    var r := TfPositions(name, ext, p, false);
    if r.Some? {
      TfPositionsFinds(name, ext, p, r.value.0, r.value.1, true);
    }
    var s := TfPositions(name, ext, p, true);
    if s.Some? {
      TfPositionsFinds(name, ext, p, s.value.0, s.value.1, false);
    }
  }

  /** The four groups between the underscores at `p`, `p + 1 + n` and `u`
      and the extension. */
  function TfGroups(name: string, ext: string, p: nat, n: nat, u: nat): TfName
    requires p + 2 + n <= u && u + 1 + |ext| <= |name|
  {
    TfName(name[..p], name[p + 1..p + 1 + n], name[p + 2 + n..u], name[u + 1..|name| - |ext|])
  }

  /** The parts the TF patterns capture form a split of the name. */
  lemma TfSplitOfParts(name: string, ext: string, p: nat, n: nat, u: nat)
    requires TfPartsAt(name, ext, p, n, u)
    ensures IsTfSplit(name, ext, TfGroups(name, ext, p, n, u))
  {
    JoinPrefixAtUnderscores(name, |name| - |ext|, p, p + 1 + n, u);
    AlnumSlice(name, p + 2 + n, u);
  }

  /** Where the parts of a split lie, and that they are the groups there. */
  lemma TfPartsOfSplit(name: string, ext: string, g: TfName)
    requires IsTfSplit(name, ext, g)
    ensures var p, n := |g.factor|, |g.timepoint|;
            var u := p + 2 + n + |g.source|;
            TfPartsAt(name, ext, p, n, u) && TfGroups(name, ext, p, n, u) == g
  {
    PartsOfPrefix(name, |name| - |ext|, g.factor, g.timepoint, g.source, g.sourceId);
    TfPartsOfGroups(name, ext, g);
  }

  /** The same, from where the groups of the split lie in the name. */
  lemma TfPartsOfGroups(name: string, ext: string, g: TfName)
    requires '\n' !in name && |name| >= |ext| && EqualsIgnoreCase(name[|name| - |ext|..], ext)
    requires IsTimepoint(g.timepoint) && g.source != [] && AllAlnum(g.source)
    requires var p, n, s := |g.factor|, |g.timepoint|, |g.source|;
             && |name| - |ext| == p + n + s + |g.sourceId| + 3
             && name[p] == '_' && name[p + 1 + n] == '_' && name[p + 2 + n + s] == '_'
             && name[..p] == g.factor && name[p + 1..p + 1 + n] == g.timepoint
             && name[p + 2 + n..p + 2 + n + s] == g.source && name[p + 3 + n + s..|name| - |ext|] == g.sourceId
    ensures var p, n := |g.factor|, |g.timepoint|;
            var u := p + 2 + n + |g.source|;
            TfPartsAt(name, ext, p, n, u) && TfGroups(name, ext, p, n, u) == g
  {
    AlnumSlice(name, |g.factor| + 2 + |g.timepoint|, |g.factor| + 2 + |g.timepoint| + |g.source|);
  }

  /** The match a TF pattern finds when its first group has length `p`. */
  function TfAt(name: string, ext: string, p: nat, lazy: bool): Option<TfName> {
    match TfPositions(name, ext, p, lazy)
    case None => None
    case Some((n, u)) => Some(TfGroups(name, ext, p, n, u))
  }

  /** The groups `TfAt` captures at the positions `TfPositions` finds. */
  lemma TfAtOfPositions(name: string, ext: string, p: nat, lazy: bool, n: nat, u: nat)
    requires TfPositions(name, ext, p, lazy) == Some((n, u))
    ensures TfAt(name, ext, p, lazy) == Some(TfGroups(name, ext, p, n, u))
  {
  }

  /** What the pattern finds for a factor length is a split of the name
      with a factor of that length. */
  lemma TfAtSound(name: string, ext: string, p: nat, lazy: bool)
    ensures TfAt(name, ext, p, lazy).Some? ==> IsTfSplit(name, ext, TfAt(name, ext, p, lazy).value)
    ensures TfAt(name, ext, p, lazy).Some? ==> |TfAt(name, ext, p, lazy).value.factor| == p
  {
    var r := TfPositions(name, ext, p, lazy);
    if r.Some? {
      TfAtOfPositions(name, ext, p, lazy, r.value.0, r.value.1);
      TfSplitOfParts(name, ext, p, r.value.0, r.value.1);
    }
  }

  /** A split of the name is the one both TF patterns find for its factor length. */
  lemma TfAtFinds(name: string, ext: string, g: TfName, lazy: bool)
    requires IsTfSplit(name, ext, g)
    ensures TfAt(name, ext, |g.factor|, lazy) == Some(g)
  {
    var p, n := |g.factor|, |g.timepoint|;
    var u := p + 2 + n + |g.source|;
    TfPartsOfSplit(name, ext, g);
    TfPositionsFinds(name, ext, p, n, u, lazy);
    TfAtOfPositions(name, ext, p, lazy, n, u);
  }

  lemma TfAtComplete(name: string, ext: string, p: nat, lazy: bool)
    ensures forall g :: IsTfSplit(name, ext, g) && |g.factor| == p ==> TfAt(name, ext, p, lazy) == Some(g)
  {
    forall g | IsTfSplit(name, ext, g) && |g.factor| == p
      ensures TfAt(name, ext, p, lazy) == Some(g)
    {
      TfAtFinds(name, ext, g, lazy);
    }
  }

  /** Tries first-group lengths `p`, `p + 1`, ... as the lazy `(.*?)` does. */
  function TfFrom(name: string, ext: string, p: nat, lazy: bool): Option<TfName>
    decreases |name| + 1 - p
  {
    if p > |name| then None
    else
      match TfAt(name, ext, p, lazy)
      case Some(g) => Some(g)
      case None => TfFrom(name, ext, p + 1, lazy)
  }

  /** The search from `p` finds a split whose factor is at least `p` long
      and no longer than that of any split with such a factor. */
  lemma {:induction false} TfFromSpec(name: string, ext: string, p: nat, lazy: bool)
    ensures var r := TfFrom(name, ext, p, lazy);
            && (r.Some? ==> IsTfSplit(name, ext, r.value) && p <= |r.value.factor|)
            && (forall h :: IsTfSplit(name, ext, h) && p <= |h.factor| ==> r.Some? && |r.value.factor| <= |h.factor|)
    decreases |name| + 1 - p
  {
    if p > |name| {
      forall h | IsTfSplit(name, ext, h) ensures |h.factor| < |name| {
        PartsOfJoin(name[..|name| - |ext|], h.factor, h.timepoint, h.source, h.sourceId);
      }
    } else {
      TfAtComplete(name, ext, p, lazy);
      TfAtSound(name, ext, p, lazy);
      if TfAt(name, ext, p, lazy).None? {
        TfFromSpec(name, ext, p + 1, lazy);
      }
    }
  }

  /** The relaxed retry never finds a match the strict pattern missed, and
      both patterns agree on the groups. */
  lemma {:induction false} RelaxedPatternAgrees(name: string, ext: string, p: nat)
    ensures TfFrom(name, ext, p, false) == TfFrom(name, ext, p, true)
    decreases |name| + 1 - p
  {
    if p <= |name| {
      var a := TfAt(name, ext, p, true);
      assert TfAt(name, ext, p, false) == a by {
        TfPositionsAgree(name, ext, p);
      }
      if a.None? {
        RelaxedPatternAgrees(name, ext, p + 1);
        assert TfFrom(name, ext, p, false) == TfFrom(name, ext, p + 1, false);
        assert TfFrom(name, ext, p, true) == TfFrom(name, ext, p + 1, true);
      }
    }
  }

  /** The groups of a TF file name for the extension of its view: the
      strict pattern, and the relaxed one when the strict one fails. */
  function ParseTf(name: string, ext: string): (r: Option<TfName>)
    ensures r.Some? ==> IsTfSplit(name, ext, r.value)
    ensures r.Some? ==> forall h :: IsTfSplit(name, ext, h) ==> |r.value.factor| <= |h.factor|
    ensures r.None? ==> forall h :: !IsTfSplit(name, ext, h)
  {
    TfFromSpec(name, ext, 0, true);
    TfFromSpec(name, ext, 0, false);
    match TfFrom(name, ext, 0, true)
    case Some(g) => Some(g)
    case None => TfFrom(name, ext, 0, false)
  }

  lemma TfSplitUnique(name: string, ext: string, g: TfName, h: TfName)
    requires IsTfSplit(name, ext, g) && IsTfSplit(name, ext, h) && |g.factor| == |h.factor|
    ensures g == h
  {
    TfAtComplete(name, ext, |g.factor|, true);
  }
}
