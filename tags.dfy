/** Subgroup tags and the sorted subgroup declarations of the signal and TF
    composite tracks. */
module Tags {
  import opened Text
  import opened Order
  import opened FileNames

  // ---------------------------------------------------------------------
  // Timepoint tags: f"t{tp.replace('hpi', '')}"

  function TimepointTag(tp: string): (r: string)
    ensures |r| >= 1 && r[0] == 't'
    ensures |r| <= |tp| + 1
    ensures !Contains(tp, "hpi") ==> r == "t" + tp
  {
    "t" + RemoveAll(tp, "hpi")
  }

  lemma {:induction false} RemoveAllShort(s: string, p: string)
    requires p != [] && |s| < |p|
    ensures RemoveAll(s, p) == s
    decreases |s|
  {
    if s != [] {
      RemoveAllShort(s[1..], p);
      assert s == [s[0]] + s[1..];
    }
  }

  /** Removing `hpi` leaves a leading run of digits alone. */
  lemma {:induction false} RemoveAllAfterDigits(s: string, k: nat)
    requires k <= |s| && forall j :: 0 <= j < k ==> IsDigit(s[j])
    ensures RemoveAll(s, "hpi") == s[..k] + RemoveAll(s[k..], "hpi")
    decreases k
  {
    if k > 0 {
      assert !StartsWith(s, "hpi") by { assert s[0] != 'h'; }
      assert RemoveAll(s, "hpi") == [s[0]] + RemoveAll(s[1..], "hpi");
      RemoveAllAfterDigits(s[1..], k - 1);
      assert s[1..][k - 1..] == s[k..];
      assert s[..k] == [s[0]] + s[1..][..k - 1];
      AppendAssoc([s[0]], s[1..][..k - 1], RemoveAll(s[k..], "hpi"));
    }
  }

  /** The tag of a timepoint is `t`, its digits, and its `hpi` unless
      that was written in lower case. */
  lemma TimepointTagShape(tp: string)
    requires IsTimepoint(tp)
    ensures var d, h := tp[..|tp| - 3], tp[|tp| - 3..];
            TimepointTag(tp) == "t" + d + (if h == "hpi" then "" else h)
    ensures tp[|tp| - 3..] != "hpi" ==> TimepointTag(tp) == "t" + tp
  {
    var d, h := tp[..|tp| - 3], tp[|tp| - 3..];
    assert tp == d + h;
    RemoveAllAfterDigits(tp, |tp| - 3);
    if h != "hpi" {
      assert !StartsWith(h, "hpi");
      RemoveAllShort(h[1..], "hpi");
      assert h == [h[0]] + h[1..];
    } else {
      assert RemoveAll(h, "hpi") == RemoveAll(h[3..], "hpi");
    }
  }

  /** A tag ends in a digit exactly when the `hpi` it came from was
      written in lower case. */
  lemma TimepointTagEndsInDigit(tp: string)
    requires IsTimepoint(tp)
    ensures var t, h := TimepointTag(tp), tp[|tp| - 3..];
            |t| >= 2 && (IsDigit(t[|t| - 1]) <==> h == "hpi")
  {
    TimepointTagShape(tp);
    var t, h := TimepointTag(tp), tp[|tp| - 3..];
    if h == "hpi" {
      assert t[|t| - 1] == tp[|tp| - 4];
    } else {
      assert t[|t| - 1] == h[2];
      assert Lower(h[2]) == 'i';
    }
  }

  /** Distinct timepoints get distinct tags: `10hpi` and `10HPI` give
      `t10` and `t10HPI`. */
  lemma TimepointTagInjective(a: string, b: string)
    requires IsTimepoint(a) && IsTimepoint(b) && TimepointTag(a) == TimepointTag(b)
    ensures a == b
  {
    TimepointTagShape(a);
    TimepointTagShape(b);
    TimepointTagEndsInDigit(a);
    TimepointTagEndsInDigit(b);
    var da, ha := a[..|a| - 3], a[|a| - 3..];
    var db, hb := b[..|b| - 3], b[|b| - 3..];
    var ta, tb := TimepointTag(a), TimepointTag(b);
    assert ha == "hpi" <==> hb == "hpi";
    if ha == "hpi" {
      assert da == ta[1..] == tb[1..] == db;
      assert a == da + ha;
      assert b == db + hb;
    } else {
      assert a == ("t" + a)[1..];
      assert b == ("t" + b)[1..];
    }
  }

  lemma TimepointTagAlnum(tp: string)
    requires IsTimepoint(tp)
    ensures AllAlnum(TimepointTag(tp))
  {
    TimepointTagShape(tp);
    var h := tp[|tp| - 3..];
    forall j | 0 <= j < 3 ensures IsAlnum(h[j]) {
      assert Lower(h[j]) == "hpi"[j];
    }
  }

  // ---------------------------------------------------------------------
  // Mark-source and factor-source tags

  /** f"ms{re.sub(r'[^a-zA-Z0-9]', '', key)}" */
  function MarkSourceTag(key: string): (r: string)
    ensures AllAlnum(r) && 2 <= |r| <= |key| + 2
    ensures r[..2] == "ms" && r[2..] == AlnumOnly(key)
    ensures AllAlnum(key) ==> r == "ms" + key
  {
    "ms" + AlnumOnly(key)
  }

  /** The tag of a key `mark_source` whose mark and source are
      alphanumeric is `ms`, the mark and the source: only the `_` goes. */
  lemma MarkSourceTagOfKey(mark: string, source: string)
    requires AllAlnum(mark) && AllAlnum(source)
    ensures MarkSourceTag(mark + "_" + source) == "ms" + mark + source
  {
    FilterAppend(mark, "_", IsAlnum);
    FilterAppend(mark + "_", source, IsAlnum);
    FilterOne('_', IsAlnum);
    assert "_" == ['_'];
  }

  /** The factor-source tag: `fs`, at most 10 alphanumerics of the factor
      and at most 5 of the source. */
  function FactorSourceTag(factor: string, source: string): (r: string)
    ensures AllAlnum(r) && 2 <= |r| <= 17
    ensures r[..2] == "fs"
    ensures r == "fs" + Take(AlnumOnly(factor), 10) + Take(AlnumOnly(source), 5)
  {
    var f, s := Take(AlnumOnly(factor), 10), Take(AlnumOnly(source), 5);
    assert AllAlnum(f) && AllAlnum(s);
    "fs" + f + s
  }

  /** For a factor and a source that are alphanumeric and short enough,
      the tag is `fs`, the factor and the source in full. */
  lemma FactorSourceTagOfParts(factor: string, source: string)
    requires AllAlnum(factor) && |factor| <= 10
    requires AllAlnum(source) && |source| <= 5
    ensures FactorSourceTag(factor, source) == "fs" + factor + source
  {
  }

  /** The mark-source tag is not injective: a key and the same key with a
      `.` inserted anywhere (`H2A.Z_Lab`, `H2AZ_Lab`) share a tag. */
  lemma MarkSourceTagCollides(x: string, y: string)
    ensures x + "." + y != x + y
    ensures MarkSourceTag(x + "." + y) == MarkSourceTag(x + y)
  {
    assert |x + "." + y| != |x + y|;
    FilterAppend(x, ".", IsAlnum);
    FilterAppend(x + ".", y, IsAlnum);
    FilterAppend(x, y, IsAlnum);
    assert Filter(".", IsAlnum) == [];
  }

  /** The factor-source tag is not injective: once a factor has ten
      alphanumerics, whatever follows them is dropped. */
  lemma FactorSourceTagCollides(factor: string, extra: string, source: string)
    requires |AlnumOnly(factor)| >= 10
    ensures FactorSourceTag(factor + extra, source) == FactorSourceTag(factor, source)
  {
    FilterAppend(factor, extra, IsAlnum);
    var f, e := AlnumOnly(factor), AlnumOnly(extra);
    assert Take(f + e, 10) == Take(f, 10) by {
      assert (f + e)[..10] == f[..10];
    }
  }

  // ---------------------------------------------------------------------
  // Sort keys

  /** `int(re.search(r'\d+', tp).group())` on a timepoint, whose digits
      come first. */
  function TimepointNumber(tp: string): (r: nat)
    ensures IsTimepoint(tp) ==> r == DigitsValue(tp[..|tp| - 3])
  {
    var k := Run(tp, 0, IsDigit);
    assert IsTimepoint(tp) ==> k == |tp| - 3 by {
      if IsTimepoint(tp) {
        HpiIsNotDigit(tp);
        RunUpTo(tp, 0, |tp| - 3, IsDigit);
      }
    }
    DigitsValue(tp[..k])
  }

  /** The sort key reads back the number a timepoint was written with:
      `int()` of the digits of `str(n)` followed by any spelling of `hpi`
      is `n`. */
  lemma TimepointNumberOfNat(n: nat, h: string)
    requires |h| == 3 && EqualsIgnoreCase(h, "hpi")
    ensures IsTimepoint(NatToString(n) + h)
    ensures TimepointNumber(NatToString(n) + h) == n
  {
    var d := NatToString(n);
    var tp := d + h;
    assert tp[..|tp| - 3] == d;
    assert tp[|tp| - 3..] == h;
  }

  predicate TimepointLe(a: string, b: string) {
    TimepointNumber(a) <= TimepointNumber(b)
  }

  /** The key `(f.lower(), s.lower())` of a factor-source pair, compared as
      Python compares tuples. */
  predicate FactorSourceLe(a: (string, string), b: (string, string)) {
    var a0, a1, b0, b1 := LowerStr(a.0), LowerStr(a.1), LowerStr(b.0), LowerStr(b.1);
    (a0 != b0 && StrLe(a0, b0)) || (a0 == b0 && StrLe(a1, b1))
  }

  lemma TimepointLeIsTotalPreorder()
    ensures IsTotalPreorder(TimepointLe)
  {
  }

  lemma FactorSourceLeIsTotalPreorder()
    ensures IsTotalPreorder(FactorSourceLe)
  {
    forall a, b ensures FactorSourceLe(a, b) || FactorSourceLe(b, a) {
      StrLeTotal(LowerStr(a.0), LowerStr(b.0));
      StrLeTotal(LowerStr(a.1), LowerStr(b.1));
    }
    forall a, b, c | FactorSourceLe(a, b) && FactorSourceLe(b, c)
      ensures FactorSourceLe(a, c)
    {
      var a0, a1, b0, b1, c0, c1 := LowerStr(a.0), LowerStr(a.1), LowerStr(b.0), LowerStr(b.1), LowerStr(c.0), LowerStr(c.1);
      StrLeTotal(a0, a0);
      StrLeTotal(b0, b0);
      if a0 == b0 && b0 == c0 {
        StrLeTransitive(a1, b1, c1);
      } else {
        StrLeTransitive(a0, b0, c0);
        if a0 == c0 {
          StrLeAntisymmetric(a0, b0);
        }
      }
    }
  }

  // ---------------------------------------------------------------------
  // Subgroup declarations

  /** One `tag=value` entry of a `subGroupN` line. */
  datatype SubgroupItem = SubgroupItem(tag: string, value: string)

  /** `sorted(timepoints, key=...)` */
  function SortedTimepoints(tps: seq<string>): seq<string> {
    SortBy(tps, TimepointLe)
  }

  /** `sorted(mark_sources)` */
  function SortedMarkSources(keys: seq<string>): seq<string> {
    SortBy(keys, StrLe)
  }

  /** `sorted(factor_sources, key=lambda x: (x[0].lower(), x[1].lower()))` */
  function SortedFactorSources(keys: seq<(string, string)>): seq<(string, string)> {
    SortBy(keys, FactorSourceLe)
  }

  /** The declared timepoints: each distinct one once, in ascending order
      of its number (ties between spellings of one number in any order). */
  lemma SortedTimepointsSpec(tps: seq<string>)
    requires NoDup(tps)
    ensures var r := SortedTimepoints(tps);
            && NoDup(r)
            && (forall v :: v in r <==> v in tps)
            && (forall i, j :: 0 <= i < j < |r| ==> TimepointNumber(r[i]) <= TimepointNumber(r[j]))
  {
    TimepointLeIsTotalPreorder();
    SortBySorted(tps, TimepointLe);
    SortByNoDup(tps, TimepointLe);
  }

  /** The declared mark-source keys: each distinct one once, in strictly
      ascending string order. */
  lemma SortedMarkSourcesSpec(keys: seq<string>)
    requires NoDup(keys)
    ensures var r := SortedMarkSources(keys);
            && NoDup(r)
            && (forall v :: v in r <==> v in keys)
            && (forall i, j :: 0 <= i < j < |r| ==> StrLe(r[i], r[j]) && r[i] != r[j])
  {
    StrLeIsTotalPreorder();
    assert SortedMarkSources(keys) == SortBy(keys, StrLe);
    SortBySorted(keys, StrLe);
    SortByNoDup(keys, StrLe);
  }

  /** The declared factor-source pairs: each distinct one once, ordered by
      lower-cased factor, then lower-cased source. */
  lemma SortedFactorSourcesSpec(keys: seq<(string, string)>)
    requires NoDup(keys)
    ensures var r := SortedFactorSources(keys);
            && NoDup(r)
            && (forall v :: v in r <==> v in keys)
            && (forall i, j :: 0 <= i < j < |r| ==> FactorSourceLe(r[i], r[j]))
  {
    FactorSourceLeIsTotalPreorder();
    SortBySorted(keys, FactorSourceLe);
    SortByNoDup(keys, FactorSourceLe);
    var r := SortedFactorSources(keys);
    forall v ensures v in r <==> v in keys {
      assert multiset(r) == multiset(keys);
      assert v in r <==> v in multiset(r);
    }
  }

  /** The `tag=value` items of the timepoint subgroup. */
  function TimepointItems(sorted: seq<string>): (r: seq<SubgroupItem>)
    ensures |r| == |sorted|
    ensures forall i :: 0 <= i < |r| ==> r[i].value == sorted[i]
    ensures forall i :: 0 <= i < |r| ==> r[i].tag == TimepointTag(sorted[i])
  {
    seq(|sorted|, i requires 0 <= i < |sorted| => SubgroupItem(TimepointTag(sorted[i]), sorted[i]))
  }

  /** The `tag=value` items of the mark-source subgroup. */
  function MarkSourceItems(sorted: seq<string>): (r: seq<SubgroupItem>)
    ensures |r| == |sorted|
    ensures forall i :: 0 <= i < |r| ==> r[i].value == sorted[i]
    ensures forall i :: 0 <= i < |r| ==> r[i].tag == MarkSourceTag(sorted[i])
  {
    seq(|sorted|, i requires 0 <= i < |sorted| => SubgroupItem(MarkSourceTag(sorted[i]), sorted[i]))
  }

  /** The `tag=value` items of the factor-source subgroup; the value shown
      is `factor_source`. */
  function FactorSourceItems(sorted: seq<(string, string)>): (r: seq<SubgroupItem>)
    ensures |r| == |sorted|
    ensures forall i :: 0 <= i < |r| ==> r[i].value == sorted[i].0 + "_" + sorted[i].1
    ensures forall i :: 0 <= i < |r| ==> r[i].tag == FactorSourceTag(sorted[i].0, sorted[i].1)
  {
    seq(|sorted|, i requires 0 <= i < |sorted| =>
      SubgroupItem(FactorSourceTag(sorted[i].0, sorted[i].1), sorted[i].0 + "_" + sorted[i].1))
  }

  /** The tags of some subgroup items. */
  function ItemTags(items: seq<SubgroupItem>): (r: seq<string>)
    ensures |r| == |items|
    ensures forall i :: 0 <= i < |r| ==> r[i] == items[i].tag
  {
    seq(|items|, i requires 0 <= i < |items| => items[i].tag)
  }

  /** Every timepoint seen has its tag declared in the timepoint subgroup. */
  lemma TimepointDeclared(tps: seq<string>, tp: string)
    requires NoDup(tps) && tp in tps
    ensures TimepointTag(tp) in ItemTags(TimepointItems(SortedTimepoints(tps)))
  {
    var r := SortedTimepoints(tps);
    SortedTimepointsSpec(tps);
    var i :| 0 <= i < |r| && r[i] == tp;
    assert ItemTags(TimepointItems(r))[i] == TimepointTag(tp);
  }

  /** Every mark-source key seen has its tag declared in the mark-source
      subgroup. */
  lemma MarkSourceDeclared(keys: seq<string>, key: string)
    requires NoDup(keys) && key in keys
    ensures MarkSourceTag(key) in ItemTags(MarkSourceItems(SortedMarkSources(keys)))
  {
    var r := SortedMarkSources(keys);
    SortedMarkSourcesSpec(keys);
    var i :| 0 <= i < |r| && r[i] == key;
    assert ItemTags(MarkSourceItems(r))[i] == MarkSourceTag(key);
  }

  /** Every factor-source pair seen has its tag declared in the
      factor-source subgroup. */
  lemma FactorSourceDeclared(keys: seq<(string, string)>, key: (string, string))
    requires NoDup(keys) && key in keys
    ensures FactorSourceTag(key.0, key.1) in ItemTags(FactorSourceItems(SortedFactorSources(keys)))
  {
    var r := SortedFactorSources(keys);
    SortedFactorSourcesSpec(keys);
    var i :| 0 <= i < |r| && r[i] == key;
    assert ItemTags(FactorSourceItems(r))[i] == FactorSourceTag(key.0, key.1);
  }
}
