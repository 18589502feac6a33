/** The helpers of the analytics dashboard
    (src/components/AnalyticsDashboard.tsx): the skill insight text, the
    difficulty badge and its label, the accuracy colour, a student's
    initials and the signed improvement badge. All of them are total
    functions of their inputs. */
module Analytics {
  import opened Text
  import opened Badge

  // ---------------------------------------------------------------------
  // getSkillInsight
  // ---------------------------------------------------------------------

  const PendingInsight: string := "Performance analysis pending"

  /** The `insights` object: one text per skill, chosen by two strict
      thresholds on the average. */
  function InsightTable(average: real): (table: map<string, string>)
    ensures table.Keys == InsightTiers.Keys
    ensures forall skill :: skill in table ==>
      |InsightTiers[skill]| == 3 && table[skill] == InsightTiers[skill][Tier(average)]
  {
    map[
      "listening" := if average > 80.0 then "Strong comprehension skills"
                     else if average > 70.0 then "Good listening abilities"
                     else "Needs focused attention practice",
      "grasping" := if average > 80.0 then "Excellent concept understanding"
                    else if average > 70.0 then "Good grasp of fundamentals"
                    else "Requires concept reinforcement",
      "retention" := if average > 80.0 then "Strong memory retention"
                     else if average > 70.0 then "Good information retention"
                     else "Benefits from repetitive practice",
      "application" := if average > 80.0 then "Excellent problem-solving skills"
                       else if average > 70.0 then "Good practical application"
                       else "Needs more applied practice"
    ]
  }

  /** The same texts by tier: index 0 for an average of at most 70, 1 for
      above 70 up to 80, 2 for above 80. */
  const InsightTiers: map<string, seq<string>> := map[
    "listening" := ["Needs focused attention practice", "Good listening abilities",
                    "Strong comprehension skills"],
    "grasping" := ["Requires concept reinforcement", "Good grasp of fundamentals",
                   "Excellent concept understanding"],
    "retention" := ["Benefits from repetitive practice", "Good information retention",
                    "Strong memory retention"],
    "application" := ["Needs more applied practice", "Good practical application",
                      "Excellent problem-solving skills"]
  ]

  function Tier(average: real): (t: nat)
    ensures t < 3
    ensures t == 2 <==> average > 80.0
    ensures t == 0 <==> average <= 70.0
  {
    if average > 80.0 then 2 else if average > 70.0 then 1 else 0
  }

  lemma TierMonotone(a: real, b: real)
    requires a <= b
    ensures Tier(a) <= Tier(b)
  {
  }

  /** getSkillInsight: the table entry, or the pending text for a skill the
      table does not know (or whose text is empty). */
  function SkillInsight(skill: string, average: real): (r: string)
    ensures skill !in InsightTiers ==> r == PendingInsight
    ensures skill in InsightTiers ==>
      |InsightTiers[skill]| == 3 && r == InsightTiers[skill][Tier(average)] && r != PendingInsight
  {
    var table := InsightTable(average);
    if skill in table && table[skill] != "" then table[skill] else PendingInsight
  }

  // ---------------------------------------------------------------------
  // getDifficultyBadgeVariant
  // ---------------------------------------------------------------------

  /** getDifficultyBadgeVariant: one variant per difficulty key, secondary
      for anything else. */
  function DifficultyBadgeVariant(level: string): (r: Variant)
    ensures r == Default <==> level == "easy"
    ensures r == Outline <==> level == "moderate"
    ensures r == Destructive <==> level == "difficult"
    ensures r == Secondary <==> level !in ["easy", "moderate", "difficult"]
  {
    if level == "veryEasy" then Secondary
    else if level == "easy" then Default
    else if level == "moderate" then Outline
    else if level == "difficult" then Destructive
    else Secondary
  }

  // ---------------------------------------------------------------------
  // formatDifficultyLabel
  // ---------------------------------------------------------------------

  function CountUpper(s: string): nat
  {
    if s == [] then 0 else (if IsUpper(s[0]) then 1 else 0) + CountUpper(s[1..])
  }

  /** replace(/([A-Z])/g, ' $1'): a space in front of every capital. */
  function SpaceBeforeCapitals(s: string): (r: string)
    ensures |r| == |s| + CountUpper(s)
    ensures r != [] ==> !IsUpper(r[0])
    ensures s != [] && IsUpper(s[0]) ==> r[0] == ' ' && r[1] == s[0]
    ensures s != [] && !IsUpper(s[0]) ==> r[0] == s[0]
  {
    if s == [] then []
    else (if IsUpper(s[0]) then [' ', s[0]] else [s[0]]) + SpaceBeforeCapitals(s[1..])
  }

  /** The inverse of SpaceBeforeCapitals: drops each space that stands just
      before a capital. */
  function DropSpaceBeforeCapitals(r: string): string
    decreases |r|
  {
    if r == [] then []
    else if |r| >= 2 && r[0] == ' ' && IsUpper(r[1]) then [r[1]] + DropSpaceBeforeCapitals(r[2..])
    else [r[0]] + DropSpaceBeforeCapitals(r[1..])
  }

  /** The spacing only inserts: dropping the inserted spaces gives the
      input back. */
  lemma {:induction false} SpacingRoundTrip(s: string)
    ensures DropSpaceBeforeCapitals(SpaceBeforeCapitals(s)) == s
    decreases |s|
  {
    if s != [] {
      SpacingRoundTrip(s[1..]);
      var r, rest := SpaceBeforeCapitals(s), SpaceBeforeCapitals(s[1..]);
      if IsUpper(s[0]) {
        assert r == [' ', s[0]] + rest;
        assert r[2..] == rest;
      } else {
        assert r == [s[0]] + rest;
        assert r[1..] == rest;
      }
    }
  }

  /** replace(/^./, str => str.toUpperCase()): the first character in upper
      case. (`.` does not match a line terminator, which toUpperCase leaves
      alone anyway.) */
  function UpperFirst(s: string): (r: string)
    ensures |r| == |s|
    ensures s != [] ==> r[0] == UpperChar(s[0]) && r[1..] == s[1..]
  {
    if s == [] then [] else [UpperChar(s[0])] + s[1..]
  }

  /** formatDifficultyLabel: camelCase to spaced words with a capital first
      letter. */
  function FormatDifficultyLabel(level: string): (r: string)
    ensures |r| == |level| + CountUpper(level)
    ensures level != [] && IsUpper(level[0]) ==> r[0] == ' ' && r[1] == level[0]
    ensures level != [] && !IsUpper(level[0]) ==> r[0] == UpperChar(level[0])
  {
    UpperFirst(SpaceBeforeCapitals(level))
  }

  /** Apart from the case of the first letter, the label is the key with a
      space in front of every capital: dropping those spaces gives the key
      with its first letter upper-cased. */
  lemma FormatDifficultyLabelSpacing(level: string)
    ensures DropSpaceBeforeCapitals(FormatDifficultyLabel(level)) == UpperFirst(level)
  {
    SpacingRoundTrip(level);
    if level != [] {
      var x, f := SpaceBeforeCapitals(level), FormatDifficultyLabel(level);
      var rest := SpaceBeforeCapitals(level[1..]);
      SpacingRoundTrip(level[1..]);
      if IsUpper(level[0]) {
        assert f == [x[0]] + x[1..] == x;
        assert UpperFirst(level) == [level[0]] + level[1..] == level;
      } else {
        assert x == [level[0]] + rest;
        assert f == [UpperChar(level[0])] + rest;
        assert f[1..] == rest;
        assert DropSpaceBeforeCapitals(f) == [f[0]] + DropSpaceBeforeCapitals(rest);
      }
    }
  }

  /** Without capitals there is nothing to space out. */
  lemma {:induction false} NoCapitalsUnspaced(s: string)
    requires NoCapitals(s)
    ensures SpaceBeforeCapitals(s) == s
    decreases |s|
  {
    if s != [] {
      NoCapitalsUnspaced(s[1..]);
      assert s == [s[0]] + s[1..];
    }
  }

  lemma {:induction false} SpaceBeforeCapitalsAppend(a: string, b: string)
    ensures SpaceBeforeCapitals(a + b) == SpaceBeforeCapitals(a) + SpaceBeforeCapitals(b)
    decreases |a|
  {
    if a != [] {
      SpaceBeforeCapitalsAppend(a[1..], b);
      var piece := if IsUpper(a[0]) then [' ', a[0]] else [a[0]];
      assert (a + b)[0] == a[0] && (a + b)[1..] == a[1..] + b;
      assert SpaceBeforeCapitals(a + b) == piece + SpaceBeforeCapitals(a[1..] + b);
      assert SpaceBeforeCapitals(a) == piece + SpaceBeforeCapitals(a[1..]);
    } else {
      assert a + b == b;
    }
  }

  /** A key without capitals only gets its first letter upper-cased: "easy",
      "moderate" and "difficult" become "Easy", "Moderate" and "Difficult". */
  lemma LowerKeyLabel(key: string)
    requires key != [] && NoCapitals(key)
    ensures FormatDifficultyLabel(key) == [UpperChar(key[0])] + key[1..]
  {
    NoCapitalsUnspaced(key);
  }

  /** One capital between two runs without capitals gets one space. */
  lemma CapitalBetween(a: string, c: char, b: string)
    requires NoCapitals(a)
    requires NoCapitals(b)
    requires IsUpper(c)
    ensures SpaceBeforeCapitals(a + ([c] + b)) == a + ([' ', c] + b)
  {
    NoCapitalsUnspaced(a);
    NoCapitalsUnspaced(b);
    assert ([c] + b)[1..] == b;
    SpaceBeforeCapitalsAppend(a, [c] + b);
  }

  /** The one camelCase key of the difficulty breakdown. */
  lemma VeryEasyLabel()
    ensures FormatDifficultyLabel("veryEasy") == "Very Easy"
  {
    assert SpaceBeforeCapitals("veryEasy") == "very Easy" by {
      assert "veryEasy" == "very" + (['E'] + "asy");
      CapitalBetween("very", 'E', "asy");
      assert "very" + ([' ', 'E'] + "asy") == "very Easy";
    }
    assert UpperFirst("very Easy") == "Very Easy" by {
      assert UpperChar('v') == 'V';
      assert "very Easy"[1..] == "ery Easy";
    }
  }

  // ---------------------------------------------------------------------
  // getAccuracyColor
  // ---------------------------------------------------------------------

  datatype TextColor = TextSuccess | TextWarning | TextError
  {
    function ClassName(): string
    {
      match this
      case TextSuccess => "text-success"
      case TextWarning => "text-warning"
      case TextError => "text-error"
    }

    /** Better colours rank higher. */
    function Rank(): nat
    {
      match this
      case TextError => 0
      case TextWarning => 1
      case TextSuccess => 2
    }
  }

  /** getAccuracyColor */
  function AccuracyColor(accuracy: real): (r: TextColor)
    ensures r == TextSuccess <==> accuracy >= 90.0
    ensures r == TextWarning <==> 75.0 <= accuracy < 90.0
    ensures r == TextError <==> accuracy < 75.0
  {
    if accuracy >= 90.0 then TextSuccess
    else if accuracy >= 75.0 then TextWarning
    else TextError
  }

  /** Each colour has its own class name. */
  lemma ClassNameInjective(c: TextColor, d: TextColor)
    ensures c.ClassName() == d.ClassName() <==> c == d
  {
  }

  lemma AccuracyColorMonotone(a: real, b: real)
    requires a <= b
    ensures AccuracyColor(a).Rank() <= AccuracyColor(b).Rank()
  {
  }

  // ---------------------------------------------------------------------
  // Initials: name.split(' ').map(n => n[0]).join('')
  // ---------------------------------------------------------------------

  /** split(' '): the pieces between single spaces, empty ones included. */
  function Split(s: string): (pieces: seq<string>)
    ensures |pieces| >= 1
    ensures forall p :: p in pieces ==> ' ' !in p
    decreases |s|
  {
    if s == [] then [[]]
    else
      var rest := Split(s[1..]);
      if s[0] == ' ' then [[]] + rest
      else [[s[0]] + rest[0]] + rest[1..]
  }

  /** join(' '), the inverse of Split. */
  function Join(pieces: seq<string>): string
  {
    if pieces == [] then []
    else if |pieces| == 1 then pieces[0]
    else pieces[0] + [' '] + Join(pieces[1..])
  }

  lemma {:induction false} SplitJoin(s: string)
    ensures Join(Split(s)) == s
    decreases |s|
  {
    if s != [] {
      SplitJoin(s[1..]);
      var rest := Split(s[1..]);
      if s[0] == ' ' {
        assert Split(s)[1..] == rest;
      } else {
        assert Split(s)[1..] == rest[1..];
        if |rest| > 1 {
          assert rest[1..][1..] == rest[2..];
        }
      }
    }
  }

  /** The first character of each piece; an empty piece gives `undefined`,
      which join renders as nothing. */
  function Heads(pieces: seq<string>): (r: string)
    ensures |r| <= |pieces|
    ensures (forall i :: 0 <= i < |pieces| ==> pieces[i] != []) ==>
      |r| == |pieces| && forall i :: 0 <= i < |r| ==> r[i] == pieces[i][0]
  {
    if pieces == [] then []
    else (if pieces[0] == [] then [] else [pieces[0][0]]) + Heads(pieces[1..])
  }

  /** name.split(' ').map(n => n[0]).join('') */
  function Initials(name: string): (r: string)
    ensures |r| <= |name|
    ensures ' ' !in r
  {
    HeadsOfSplit(name);
    Heads(Split(name))
  }

  /** A reference definition: the characters that start a word, that is,
      that are not a space and come first or after a space. */
  function WordStarts(s: string, afterSpace: bool): (r: string)
    ensures |r| <= |s|
    ensures ' ' !in r
    decreases |s|
  {
    if s == [] then []
    else (if afterSpace && s[0] != ' ' then [s[0]] else []) + WordStarts(s[1..], s[0] == ' ')
  }

  lemma {:induction false} HeadsOfSplit(s: string)
    ensures Heads(Split(s)) == WordStarts(s, true)
    ensures Heads(Split(s)[1..]) == WordStarts(s, false)
    decreases |s|
  {
    if s != [] {
      HeadsOfSplit(s[1..]);
      var rest := Split(s[1..]);
      if s[0] == ' ' {
        assert Split(s)[1..] == rest;
      } else {
        assert Split(s)[1..] == rest[1..];
      }
    }
  }

  /** The initials are exactly the first letters of the words of the name,
      in order; runs of spaces contribute nothing. */
  lemma InitialsAreWordStarts(name: string)
    ensures Initials(name) == WordStarts(name, true)
  {
    HeadsOfSplit(name);
  }

  /** Inside a word no character starts a word. */
  lemma {:induction false} SkipWord(w: string, rest: string)
    requires ' ' !in w
    ensures WordStarts(w + rest, false) == WordStarts(rest, false)
    decreases |w|
  {
    if w != [] {
      assert w[0] in w;
      assert forall c :: c in w[1..] ==> c in w;
      SkipWord(w[1..], rest);
      assert (w + rest)[0] == w[0] && (w + rest)[1..] == w[1..] + rest;
    } else {
      assert w + rest == rest;
    }
  }

  /** A first and a last name give their two first letters. */
  lemma TwoWordInitials(first: string, last: string)
    requires first != [] && last != [] && ' ' !in first && ' ' !in last
    ensures Initials(first + " " + last) == [first[0], last[0]]
  {
    var name := first + " " + last;
    InitialsAreWordStarts(name);
    assert name[1..] == first[1..] + (" " + last);
    SkipWord(first[1..], " " + last);
    assert (" " + last)[1..] == last;
    assert last[1..] + [] == last[1..];
    SkipWord(last[1..], []);
  }

  lemma SarahChenInitials()
    ensures Initials("Sarah Chen") == "SC"
  {
    assert "Sarah Chen" == "Sarah" + " " + "Chen";
    TwoWordInitials("Sarah", "Chen");
  }

  // ---------------------------------------------------------------------
  // The improvement badge
  // ---------------------------------------------------------------------

  /** The badge variant for a change in score: success when it went up,
      destructive when it went down, secondary when it stayed. */
  function ImprovementVariant(improvement: int): (r: Variant)
    ensures r == Success <==> improvement > 0
    ensures r == Destructive <==> improvement < 0
    ensures r == Secondary <==> improvement == 0
  {
    if improvement > 0 then Success else if improvement < 0 then Destructive else Secondary
  }

  /** The badge text: a '+' before a gain, the number's own '-' before a
      loss, then '%'. */
  function ImprovementText(improvement: int): (r: string)
    ensures |r| >= 2 && r[|r| - 1] == '%'
    ensures r[0] == '+' <==> improvement > 0
    ensures r[0] == '-' <==> improvement < 0
    ensures improvement == 0 ==> r == "0%"
    ensures improvement != 0 ==> |r| >= 3 && IsDigit(r[1]) && r[1] != '0'
  {
    (if improvement > 0 then "+" else "") + IntToString(improvement) + "%"
  }

  /** The text reads back as the improvement. */
  lemma ImprovementTextRoundTrip(improvement: int)
    ensures var r := ImprovementText(improvement);
      var num := r[..|r| - 1];
      1 <= |num| &&
      ((num[0] == '-' || num[0] == '+') ==> AllDigits(num[1..])) &&
      (!(num[0] == '-' || num[0] == '+') ==> AllDigits(num)) &&
      SignedValue(num) == improvement
  {
    var r := ImprovementText(improvement);
    var num := r[..|r| - 1];
    var t := IntToString(improvement);
    IntToStringRoundTrip(improvement);
    if improvement > 0 {
      assert num == "+" + t;
      assert num[1..] == t;
      DecimalRoundTrip(improvement);
    } else {
      assert num == t;
    }
  }
}
