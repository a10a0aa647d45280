/** How a signal subtrack is shown, and the track ids of signal and TF
    subtracks. */
module Display {
  import opened Text

  /** The `visibility` and `color` lines of a signal subtrack. */
  datatype Style = Style(visibility: string, color: string)

  /** The `if`/`elif` chain of the signal subtracks: the first test that
      holds picks the colour, and only ATAC tracks start visible. */
  function SignalStyle(mark: string): (s: Style)
    ensures s.visibility == "full" <==> UpperStr(mark) != "INPUT" && Contains(UpperStr(mark), "ATAC")
    ensures s.visibility == "full" || s.visibility == "hide"
  {
    if UpperStr(mark) == "INPUT" then Style("hide", "150,150,150")
    else if Contains(UpperStr(mark), "ATAC") then Style("full", "153,50,204")
    else if Contains(mark, "H3K4me3") || Contains(mark, "H3K9ac") || Contains(mark, "H3K27ac") || Contains(mark, "H3K18ac")
    then Style("hide", "0,128,0")
    else if Contains(mark, "H3K9me3") || Contains(mark, "H3K27me3") then Style("hide", "255,0,0")
    else if Contains(mark, "H2A.Z") then Style("hide", "0,0,255")
    else Style("hide", "128,128,128")
  }

  // ---------------------------------------------------------------------
  // The same rules as a table read top to bottom

  /** A test on the mark: equal to a word once upper-cased, containing a
      word once upper-cased, or containing one of some words as written. */
  datatype Test = UpperIs(word: string) | UpperHas(word: string) | HasAny(words: seq<string>)

  datatype Rule = Rule(test: Test, style: Style)

  predicate Holds(t: Test, mark: string) {
    match t
    case UpperIs(w) => UpperStr(mark) == w
    case UpperHas(w) => Contains(UpperStr(mark), w)
    case HasAny(ws) => ContainsAny(mark, ws)
  }

  predicate ContainsAny(mark: string, words: seq<string>) {
    words != [] && (Contains(mark, words[0]) || ContainsAny(mark, words[1..]))
  }

  const StyleRules: seq<Rule> := [
    Rule(UpperIs("INPUT"), Style("hide", "150,150,150")),
    Rule(UpperHas("ATAC"), Style("full", "153,50,204")),
    Rule(HasAny(["H3K4me3", "H3K9ac", "H3K27ac", "H3K18ac"]), Style("hide", "0,128,0")),
    Rule(HasAny(["H3K9me3", "H3K27me3"]), Style("hide", "255,0,0")),
    Rule(HasAny(["H2A.Z"]), Style("hide", "0,0,255"))
  ]

  const DefaultStyle := Style("hide", "128,128,128")

  /** The style of the first rule whose test holds, else the default. */
  function FirstMatch(rules: seq<Rule>, mark: string): Style {
    if rules == [] then DefaultStyle
    else if Holds(rules[0].test, mark) then rules[0].style
    else FirstMatch(rules[1..], mark)
  }

  /** The `if`/`elif` chain and the rule table agree on every mark. */
  lemma SignalStyleMatchesTable(mark: string)
    ensures SignalStyle(mark) == FirstMatch(StyleRules, mark)
  {
    var green := ["H3K4me3", "H3K9ac", "H3K27ac", "H3K18ac"];
    assert green[1..] == ["H3K9ac", "H3K27ac", "H3K18ac"];
    assert green[2..] == green[1..][1..] == ["H3K27ac", "H3K18ac"];
    assert green[3..] == green[2..][1..] == ["H3K18ac"];
    assert green[3..][1..] == [];
    assert ContainsAny(mark, green[3..]) == Contains(mark, "H3K18ac");
    assert ContainsAny(mark, green[2..]) == (Contains(mark, "H3K27ac") || ContainsAny(mark, green[3..]));
    assert ContainsAny(mark, green[1..]) == (Contains(mark, "H3K9ac") || ContainsAny(mark, green[2..]));
    assert ContainsAny(mark, green) == (Contains(mark, "H3K4me3") || ContainsAny(mark, green[1..]));
    var red := ["H3K9me3", "H3K27me3"];
    assert red[1..] == ["H3K27me3"] && red[1..][1..] == [];
    assert ContainsAny(mark, red[1..]) == Contains(mark, "H3K27me3");
    assert ContainsAny(mark, red) == (Contains(mark, "H3K9me3") || ContainsAny(mark, red[1..]));
    var blue := ["H2A.Z"];
    assert blue[1..] == [];
    assert ContainsAny(mark, blue) == Contains(mark, "H2A.Z");
    var r1 := StyleRules[1..];
    var r2 := r1[1..];
    var r3 := r2[1..];
    var r4 := r3[1..];
    assert r4 == [Rule(HasAny(blue), Style("hide", "0,0,255"))] && r4[1..] == [];
    assert FirstMatch(r4, mark) == if Contains(mark, "H2A.Z") then Style("hide", "0,0,255") else DefaultStyle;
    assert r3[0] == Rule(HasAny(red), Style("hide", "255,0,0"));
    assert r2[0] == Rule(HasAny(green), Style("hide", "0,128,0"));
    assert r1[0] == Rule(UpperHas("ATAC"), Style("full", "153,50,204"));
    assert StyleRules[0] == Rule(UpperIs("INPUT"), Style("hide", "150,150,150"));
    assert FirstMatch(r3, mark) == if ContainsAny(mark, red) then Style("hide", "255,0,0") else FirstMatch(r4, mark);
    assert FirstMatch(r2, mark) == if ContainsAny(mark, green) then Style("hide", "0,128,0") else FirstMatch(r3, mark);
    assert FirstMatch(r1, mark) == if Contains(UpperStr(mark), "ATAC") then Style("full", "153,50,204") else FirstMatch(r2, mark);
    assert FirstMatch(StyleRules, mark) == if UpperStr(mark) == "INPUT" then Style("hide", "150,150,150") else FirstMatch(r1, mark);
  }

  /** A mark is an input control whatever its letter case; a mark named
      both ATAC and INPUT, such as `ATAC_INPUT`, is shown as ATAC. */
  lemma InputBeatsAtacOnlyWhenExact(mark: string)
    ensures UpperStr(mark) == "INPUT" ==> SignalStyle(mark) == Style("hide", "150,150,150")
    ensures UpperStr(mark) == "ATAC_INPUT" ==> SignalStyle(mark) == Style("full", "153,50,204")
  {
    if UpperStr(mark) == "ATAC_INPUT" {
      assert StartsWith(UpperStr(mark), "ATAC");
    }
  }

  // ---------------------------------------------------------------------
  // Track ids

  /** `re.sub(r'[^\w-]', '_', c)` on one character. */
  function SafeChar(c: char): (r: char)
    ensures IsIdCharOrHyphen(r)
    ensures IsIdCharOrHyphen(c) ==> r == c
  {
    if IsIdCharOrHyphen(c) then c else '_'
  }

  /** The id of a signal subtrack: parent, mark with `.` spelled `z`,
      timepoint and source joined by `_`, every character outside
      `[\w-]` turned into `_`, cut to 50 characters. */
  function SignalTrackId(parent: string, mark: string, timepoint: string, source: string): (r: string)
    ensures var full := parent + "_" + ReplaceChar(mark, '.', 'z') + "_" + timepoint + "_" + source;
            && |r| == (if |full| <= 50 then |full| else 50)
            && (forall i :: 0 <= i < |r| ==> IsIdCharOrHyphen(r[i]))
            && (forall i :: 0 <= i < |r| && IsIdCharOrHyphen(full[i]) ==> r[i] == full[i])
            && (forall i :: 0 <= i < |r| && !IsIdCharOrHyphen(full[i]) ==> r[i] == '_')
  {
    var full := parent + "_" + ReplaceChar(mark, '.', 'z') + "_" + timepoint + "_" + source;
    Take(seq(|full|, i requires 0 <= i < |full| => SafeChar(full[i])), 50)
  }

  /** A parent id made of `[\w-]` and shorter than 50 characters survives
      at the head of every signal subtrack id, followed by `_`. */
  lemma SignalTrackIdKeepsParent(parent: string, mark: string, timepoint: string, source: string)
    requires |parent| < 50 && forall i :: 0 <= i < |parent| ==> IsIdCharOrHyphen(parent[i])
    ensures var r := SignalTrackId(parent, mark, timepoint, source);
            |r| > |parent| && r[..|parent| + 1] == parent + "_"
  {
    var full := parent + "_" + ReplaceChar(mark, '.', 'z') + "_" + timepoint + "_" + source;
    var r := SignalTrackId(parent, mark, timepoint, source);
    forall i | 0 <= i <= |parent| ensures r[i] == (parent + "_")[i] {
      assert full[i] == (parent + "_")[i];
    }
  }

  /** The id of a TF subtrack: parent, factor and source kept to `[\w]`,
      timepoint and view tag joined by `_` and cut to 60 characters. The
      parent, timepoint and view tag are not cleaned. */
  function TfTrackId(parent: string, factor: string, source: string, timepoint: string, viewTag: string): (r: string)
    ensures var full := parent + "_" + Filter(factor, IsIdChar) + "_" + Filter(source, IsIdChar) + "_" + timepoint + "_" + viewTag;
            |r| == (if |full| <= 60 then |full| else 60) && StartsWith(full, r)
  {
    Take(parent + "_" + Filter(factor, IsIdChar) + "_" + Filter(source, IsIdChar) + "_" + timepoint + "_" + viewTag, 60)
  }

  predicate AllIdChars(s: string) {
    forall i :: 0 <= i < |s| ==> IsIdChar(s[i])
  }

  /** When the parts the TF branch does not clean are already `\w`
      strings, so is the TF subtrack id. */
  lemma TfTrackIdChars(parent: string, factor: string, source: string, timepoint: string, viewTag: string)
    requires AllIdChars(parent) && AllIdChars(timepoint) && AllIdChars(viewTag)
    ensures AllIdChars(TfTrackId(parent, factor, source, timepoint, viewTag))
  {
    var f, s := Filter(factor, IsIdChar), Filter(source, IsIdChar);
    var full := parent + "_" + f + "_" + s + "_" + timepoint + "_" + viewTag;
    assert AllIdChars(full) by {
      forall i | 0 <= i < |full| ensures IsIdChar(full[i]) {
        if i < |parent| { assert full[i] == parent[i]; }
        else if i < |parent| + 1 + |f| + 1 + |s| + 1 + |timepoint| + 1 {
        } else {
          assert full[i] == viewTag[i - (|parent| + 1 + |f| + 1 + |s| + 1 + |timepoint| + 1)];
        }
      }
    }
  }
}
