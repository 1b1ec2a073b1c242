/**
 * `get_difficulty_value` of the question importer: a Chinese difficulty label becomes
 * 1, 2 or 3 by trying the keys of a fixed table in order and taking the first key
 * that the stripped, lower-cased label contains or is contained in; 1 when none does.
 */
module Difficulty {
  import opened Text

  datatype Level = Level(key: string, value: int)

  /** The table, in its literal (and so iteration) order. */
  const Levels: seq<Level> := [
    Level("易", 1), Level("简单", 1), Level("容易", 1),
    Level("中", 2), Level("中等", 2), Level("一般", 2),
    Level("难", 3), Level("困难", 3), Level("较难", 3)
  ]

  const Fallback := 1

  /** The label after `strip().lower()`. */
  function Normalize(raw: string): string
  {
    Lower(Strip(raw))
  }

  /** The loop's test: `key.lower() in normalized or normalized in key.lower()`. */
  predicate Matches(key: string, normalized: string)
  {
    Contains(normalized, Lower(key)) || Contains(Lower(key), normalized)
  }

  /** The loop from position `i` on. */
  function FirstMatch(normalized: string, i: nat): (v: int)
    requires i <= |Levels|
    ensures v == 1 || v == 2 || v == 3
    decreases |Levels| - i
  {
    if i == |Levels| then Fallback
    else if Matches(Levels[i].key, normalized) then Levels[i].value
    else FirstMatch(normalized, i + 1)
  }

  /** `get_difficulty_value` on a string label. */
  function DifficultyValue(raw: string): (v: int)
    ensures v == 1 || v == 2 || v == 3
  {
    FirstMatch(Normalize(raw), 0)
  }

  /** The declarative reading: the value of the earliest matching key, or 1 when no key matches. */
  lemma {:induction false} FirstMatchSpec(normalized: string, i: nat)
    requires i <= |Levels|
    ensures var v := FirstMatch(normalized, i);
      && ((forall k | i <= k < |Levels| :: !Matches(Levels[k].key, normalized)) ==> v == Fallback)
      && (forall k | i <= k < |Levels| && Matches(Levels[k].key, normalized)
            && (forall j | i <= j < k :: !Matches(Levels[j].key, normalized)) :: v == Levels[k].value)
    decreases |Levels| - i
  {
    if i < |Levels| {
      FirstMatchSpec(normalized, i + 1);
    }
  }

  lemma ContainsItself(s: string)
    ensures Contains(s, s)
  {
    assert OccursAt(s, s, 0);
  }

  lemma ContainsEmpty(s: string)
    ensures Contains(s, "")
  {
    assert OccursAt(s, "", 0);
  }

  /** Any label containing 易 is 1, because 易 is the first key. */
  lemma EasyCharacterWins(raw: string)
    requires Contains(Normalize(raw), "易")
    ensures DifficultyValue(raw) == 1
  {
    assert Lower("易") == "易";
  }

  /** An empty or all-whitespace label is 1: it strips to '', which every key contains. */
  lemma BlankIsEasy(raw: string)
    requires AllSpace(raw)
    ensures DifficultyValue(raw) == 1
  {
    StripIgnoresPadding(raw, "");
    assert raw + "" + raw == raw + raw;
    StripOfSpace(raw + raw);
    assert Normalize(raw) == "";
    ContainsEmpty(Lower("易"));
  }

  lemma StripOfSpace(s: string)
    requires AllSpace(s)
    ensures Strip(s) == ""
  {
  }

  lemma LowerKeeps(s: string)
    requires forall i | 0 <= i < |s| :: !IsUpper(s[i])
    ensures Lower(s) == s
  {
  }

  /** A key and a label with no character in common never match. */
  lemma DisjointNoMatch(key: string, normalized: string)
    requires Lower(key) == key && |key| > 0 && |normalized| > 0
    requires forall i, j | 0 <= i < |key| && 0 <= j < |normalized| :: key[i] != normalized[j]
    ensures !Matches(key, normalized)
  {
    forall i | 0 <= i <= |normalized| - |key|
      ensures !OccursAt(normalized, key, i)
    {
      OccurrenceStart(normalized, key, i);
    }
    forall i | 0 <= i <= |key| - |normalized|
      ensures !OccursAt(key, normalized, i)
    {
      OccurrenceStart(key, normalized, i);
    }
  }

  /** An occurrence of a non-empty needle starts with the needle's first character. */
  lemma OccurrenceStart(haystack: string, needle: string, i: int)
    ensures OccursAt(haystack, needle, i) && |needle| > 0 ==> 0 <= i < |haystack| && haystack[i] == needle[0]
  {
    if OccursAt(haystack, needle, i) && |needle| > 0 {
      assert haystack[i..i + |needle|][0] == haystack[i];
    }
  }

  /** The earliest matching key decides. */
  lemma ValueAt(normalized: string, k: nat)
    requires k < |Levels| && Matches(Levels[k].key, normalized)
    requires forall j | 0 <= j < k :: !Matches(Levels[j].key, normalized)
    ensures FirstMatch(normalized, 0) == Levels[k].value
  {
    FirstMatchSpec(normalized, 0);
  }

  /** Text without surrounding whitespace or capitals is its own normal form. */
  lemma NormalizeKeeps(s: string)
    requires |s| > 0 && !IsSpace(s[0]) && !IsSpace(s[|s| - 1])
    requires forall i | 0 <= i < |s| :: !IsUpper(s[i])
    ensures Normalize(s) == s
  {
    LowerKeeps(s);
  }

  /** A label of ASCII characters only matches no key, so it falls back to 1. */
  lemma AsciiFallsBack(raw: string)
    requires |Normalize(raw)| > 0
    requires forall i | 0 <= i < |Normalize(raw)| :: Normalize(raw)[i] < '\U{80}'
    ensures DifficultyValue(raw) == Fallback
  {
    var n := Normalize(raw);
    forall k | 0 <= k < |Levels|
      ensures !Matches(Levels[k].key, n)
    {
      var key := Levels[k].key;
      assert forall i | 0 <= i < |key| :: key[i] >= '\U{4E00}';
      LowerKeeps(key);
      DisjointNoMatch(key, n);
    }
    FirstMatchSpec(n, 0);
  }

  /** A key with no character in common with the label does not match it. */
  lemma Unshared(key: string, normalized: string)
    requires |key| > 0 && |normalized| > 0
    requires forall i | 0 <= i < |key| :: !IsUpper(key[i])
    requires forall i, j | 0 <= i < |key| && 0 <= j < |normalized| :: key[i] != normalized[j]
    ensures !Matches(key, normalized)
  {
    LowerKeeps(key);
    DisjointNoMatch(key, normalized);
  }

  /** A label sharing no character with any of the first `k` keys matches none of them. */
  lemma NoSharedCharacters(normalized: string, k: nat)
    requires k <= |Levels| && |normalized| > 0
    requires forall j, i, c | 0 <= j < k && 0 <= i < |Levels[j].key| && 0 <= c < |normalized| ::
      Levels[j].key[i] != normalized[c]
    ensures forall j | 0 <= j < k :: !Matches(Levels[j].key, normalized)
  {
    forall j | 0 <= j < k
      ensures !Matches(Levels[j].key, normalized)
    {
      Unshared(Levels[j].key, normalized);
    }
  }

  /** A key found inside the label matches it. */
  lemma Inside(key: string, normalized: string, at: nat)
    requires forall i | 0 <= i < |key| :: !IsUpper(key[i])
    requires at + |key| <= |normalized| && normalized[at..at + |key|] == key
    ensures Matches(key, normalized)
  {
    LowerKeeps(key);
    assert OccursAt(normalized, key, at);
  }

  /** A label already in normal form gets the value of the earliest key it matches. */
  lemma Decided(raw: string, k: nat)
    requires |raw| > 0 && !IsSpace(raw[0]) && !IsSpace(raw[|raw| - 1])
    requires forall i | 0 <= i < |raw| :: !IsUpper(raw[i])
    requires k < |Levels| && Matches(Levels[k].key, raw)
    requires forall j | 0 <= j < k :: !Matches(Levels[j].key, raw)
    ensures DifficultyValue(raw) == Levels[k].value
  {
    ValueAt(raw, k);
    NormalizeKeeps(raw);
  }

  /** 中等 is 2: the three easy keys share no character with it and 中 is inside it. */
  lemma MediumExample()
    ensures DifficultyValue("中等") == 2
  {
    var raw := "中等";
    NoSharedCharacters(raw, 3);
    Inside("中", raw, 0);
    Decided(raw, 3);
  }

  /** 较难 is 3: no easy or medium key shares a character with it and 难 ends it. */
  lemma HardExample()
    ensures DifficultyValue("较难") == 3
  {
    var raw := "较难";
    NoSharedCharacters(raw, 6);
    Inside("难", raw, 1);
    Decided(raw, 6);
  }

  /** A fragment of a key matches that key: 容 is part of 容易. */
  lemma FragmentExample()
    ensures DifficultyValue("容") == 1
  {
    var raw := "容";
    NoSharedCharacters(raw, 2);
    assert Matches(Levels[2].key, raw) by {
      LowerKeeps("容易");
      assert OccursAt("容易", raw, 0);
    }
    Decided(raw, 2);
  }

  /** Whitespace around a label, the same on both sides, never changes its value. */
  lemma PaddingIgnored(pad: string, raw: string)
    requires AllSpace(pad)
    ensures DifficultyValue(pad + raw + pad) == DifficultyValue(raw)
  {
    StripIgnoresPadding(pad, raw);
  }
}
