/** The question card and the analytics dashboard pick a difficulty badge in
    two different ways: the card lower-cases a spaced label ("Very easy")
    and compares it with spaced names, the dashboard compares a camelCase
    key ("veryEasy") and shows it through formatDifficultyLabel. This module
    proves that the two agree: for every key, the card's choice on the
    dashboard's label is the dashboard's choice on the key. */
module Agreement {
  import opened Text
  import opened Badge
  import Assessment
  import opened Analytics

  lemma LowerUpperFirst(x: string)
    ensures LowerStr(UpperFirst(x)) == LowerStr(x)
  {
    if x != [] {
      LowerOfUpper(x[0]);
      assert LowerStr(UpperFirst(x))[0] == LowerStr(x)[0];
    }
  }

  /** A spaced label without any space came from a key without capitals. */
  lemma {:induction false} UnspacedHasNoCapitals(k: string)
    requires forall i :: 0 <= i < |SpaceBeforeCapitals(k)| ==> SpaceBeforeCapitals(k)[i] != ' '
    ensures NoCapitals(k)
    decreases |k|
  {
    if k != [] {
      var x, rest := SpaceBeforeCapitals(k), SpaceBeforeCapitals(k[1..]);
      assert !IsUpper(k[0]);
      assert x == [k[0]] + rest;
      assert forall i :: 0 <= i < |rest| ==> rest[i] == x[i + 1];
      UnspacedHasNoCapitals(k[1..]);
      assert forall i :: 1 <= i < |k| ==> k[i] == k[1..][i - 1];
    }
  }

  /** A label whose lower-case form is a word without spaces or capitals
      can only come from that very word. */
  lemma LabelDeterminesKey(k: string, w: string)
    requires forall i :: 0 <= i < |w| ==> w[i] != ' ' && !IsUpper(w[i])
    requires LowerStr(FormatDifficultyLabel(k)) == w
    ensures k == w
  {
    var x := SpaceBeforeCapitals(k);
    LowerUpperFirst(x);
    assert LowerStr(x) == w;
    assert forall i :: 0 <= i < |x| ==> x[i] != ' ' by {
      forall i | 0 <= i < |x|
        ensures x[i] != ' '
      {
        assert LowerChar(x[i]) == w[i];
      }
    }
    UnspacedHasNoCapitals(k);
    NoCapitalsUnspaced(k);
    LowerStrFixed(k);
  }

  /** A key without capitals lower-cases back from its label. */
  lemma LowerLabelOfPlainKey(k: string)
    requires NoCapitals(k)
    ensures LowerStr(FormatDifficultyLabel(k)) == k
  {
    NoCapitalsUnspaced(k);
    LowerUpperFirst(k);
    LowerStrFixed(k);
  }

  const PlainKeys: seq<string> := ["easy", "moderate", "difficult"]

  /** On a key without capitals (among them "easy", "moderate" and
      "difficult") the card sees the key itself, and both mappings send the
      same words to the same variants. */
  lemma PlainKeysAgree(key: string)
    requires NoCapitals(key)
    ensures Assessment.DifficultyColor(FormatDifficultyLabel(key)) == DifficultyBadgeVariant(key)
  {
    LowerLabelOfPlainKey(key);
    LowerStrFixed(key);
  }

  /** On a key that is none of "easy", "moderate" and "difficult" the card's
      lower-cased label is none of them either, so both sides fall back to
      secondary ("veryEasy" on purpose, the rest by default). */
  lemma OtherKeysAgree(key: string)
    requires key !in PlainKeys
    ensures Assessment.DifficultyColor(FormatDifficultyLabel(key)) == DifficultyBadgeVariant(key)
  {
    var lowered := LowerStr(FormatDifficultyLabel(key));
    forall w | w in PlainKeys
      ensures lowered != w
    {
      if lowered == w {
        LabelDeterminesKey(key, w);
      }
    }
  }

  /** The two badge choices agree on every key. */
  lemma DifficultyBadgesAgree(key: string)
    ensures Assessment.DifficultyColor(FormatDifficultyLabel(key)) == DifficultyBadgeVariant(key)
  {
    if NoCapitals(key) {
      PlainKeysAgree(key);
    } else {
      assert forall w :: w in PlainKeys ==> NoCapitals(w);
      OtherKeysAgree(key);
    }
  }
}
