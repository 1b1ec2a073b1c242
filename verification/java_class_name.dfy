/**
 * The Java class-name gate: `re.search(r'public\s+class\s+(\w+)', code).group(1)`,
 * or `None` when the pattern occurs nowhere.
 *
 * `re.search` tries start positions from left to right; at one position the two
 * `\s+` runs can only end where `class` and the name begin, and the trailing
 * greedy `\w+` keeps every word character it can reach. There is no word
 * boundary before `public`, so `nonpublic class A` also matches.
 */
module JavaClassName {
  import opened Wrappers
  import opened Text

  predicate AllWord(s: string)
  {
    forall i | 0 <= i < |s| :: IsWord(s[i])
  }

  /** Length of the whitespace run starting at `i`. */
  function SpaceRun(s: string, i: nat): (n: nat)
    requires i <= |s|
    ensures i + n <= |s|
    decreases |s| - i
  {
    if i < |s| && IsSpace(s[i]) then 1 + SpaceRun(s, i + 1) else 0
  }

  /** Length of the word-character run starting at `i`. */
  function WordRun(s: string, i: nat): (n: nat)
    requires i <= |s|
    ensures i + n <= |s|
    decreases |s| - i
  {
    if i < |s| && IsWord(s[i]) then 1 + WordRun(s, i + 1) else 0
  }

  /** The run is all whitespace and is maximal. */
  lemma {:induction false} SpaceRunSpec(s: string, i: nat)
    requires i <= |s|
    ensures var n := SpaceRun(s, i);
      AllSpace(s[i..i + n]) && (i + n == |s| || !IsSpace(s[i + n]))
    decreases |s| - i
  {
    if i < |s| && IsSpace(s[i]) {
      SpaceRunSpec(s, i + 1);
      var n := SpaceRun(s, i);
      assert s[i..i + n] == [s[i]] + s[i + 1..i + n];
    }
  }

  /** The run is all word characters and is maximal. */
  lemma {:induction false} WordRunSpec(s: string, i: nat)
    requires i <= |s|
    ensures var n := WordRun(s, i);
      AllWord(s[i..i + n]) && (i + n == |s| || !IsWord(s[i + n]))
    decreases |s| - i
  {
    if i < |s| && IsWord(s[i]) {
      WordRunSpec(s, i + 1);
      var n := WordRun(s, i);
      assert s[i..i + n] == [s[i]] + s[i + 1..i + n];
    }
  }

  /** The captured name when the pattern matches at offset `i`. */
  function MatchAt(code: string, i: nat): Option<string>
    requires i <= |code|
  {
    if OccursAt(code, "public", i) then AfterPublic(code, i + 6) else None
  }

  /** The rest of the pattern, `\s+class\s+(\w+)`, from offset `j`. */
  function AfterPublic(code: string, j: nat): Option<string>
    requires j <= |code|
  {
    var a := SpaceRun(code, j);
    if a > 0 && OccursAt(code, "class", j + a) then AfterClass(code, j + a + 5) else None
  }

  /** The rest of the pattern, `\s+(\w+)`, from offset `k`. */
  function AfterClass(code: string, k: nat): Option<string>
    requires k <= |code|
  {
    var b := SpaceRun(code, k);
    var n := WordRun(code, k + b);
    if b > 0 && n > 0 then Some(code[k + b..k + b + n]) else None
  }

  /**
   * The regex's meaning at offset `i`: `public`, `a` whitespace characters,
   * `class`, `b` whitespace characters and then `name`, a non-empty run of word
   * characters that no further word character follows.
   */
  ghost predicate Shape(code: string, i: nat, a: nat, b: nat, name: string)
  {
    var k := i + 11 + a + b;
    && a >= 1 && b >= 1 && |name| >= 1
    && k + |name| <= |code|
    && OccursAt(code, "public", i)
    && AllSpace(code[i + 6..i + 6 + a])
    && OccursAt(code, "class", i + 6 + a)
    && AllSpace(code[i + 11 + a..k])
    && code[k..k + |name|] == name
    && AllWord(name)
    && (k + |name| == |code| || !IsWord(code[k + |name|]))
  }

  lemma MatchAtSound(code: string, i: nat)
    requires i <= |code| && MatchAt(code, i).Some?
    ensures exists a: nat, b: nat :: Shape(code, i, a, b, MatchAt(code, i).value)
  {
    var j := i + 6;
    assert OccursAt(code, "public", i);
    var a := SpaceRun(code, j);
    assert a > 0 && OccursAt(code, "class", j + a);
    var k := j + a + 5;
    var b := SpaceRun(code, k);
    var n := WordRun(code, k + b);
    assert b > 0 && n > 0 && MatchAt(code, i).value == code[k + b..k + b + n];
    SpaceRunSpec(code, j);
    SpaceRunSpec(code, k);
    WordRunSpec(code, k + b);
    ShapeFrom(code, i, a, b, n);
    assert Shape(code, i, a, b, MatchAt(code, i).value);
  }

  /** The pieces of the pattern, laid end to end from offset `i`, make up its shape. */
  lemma ShapeFrom(code: string, i: nat, a: nat, b: nat, n: nat)
    requires a >= 1 && b >= 1 && n >= 1 && i + 11 + a + b + n <= |code|
    requires OccursAt(code, "public", i) && OccursAt(code, "class", i + 6 + a)
    requires AllSpace(code[i + 6..i + 6 + a]) && AllSpace(code[i + 6 + a + 5..i + 6 + a + 5 + b])
    requires AllWord(code[i + 6 + a + 5 + b..i + 6 + a + 5 + b + n])
    requires i + 6 + a + 5 + b + n == |code| || !IsWord(code[i + 6 + a + 5 + b + n])
    ensures Shape(code, i, a, b, code[i + 6 + a + 5 + b..i + 6 + a + 5 + b + n])
  {
  }

  lemma SpaceRunExact(s: string, i: nat, a: nat)
    requires i + a < |s| && AllSpace(s[i..i + a]) && !IsSpace(s[i + a])
    ensures SpaceRun(s, i) == a
    decreases a
  {
    if a > 0 {
      assert s[i + 1..i + a] == s[i..i + a][1..];
      SpaceRunExact(s, i + 1, a - 1);
    }
  }

  lemma WordRunExact(s: string, i: nat, n: nat)
    requires i + n <= |s| && AllWord(s[i..i + n]) && (i + n == |s| || !IsWord(s[i + n]))
    ensures WordRun(s, i) == n
    decreases n
  {
    if n > 0 {
      assert s[i + 1..i + n] == s[i..i + n][1..];
      WordRunExact(s, i + 1, n - 1);
    }
  }

  lemma MatchAtComplete(code: string, i: nat, a: nat, b: nat, name: string)
    requires Shape(code, i, a, b, name)
    ensures MatchAt(code, i) == Some(name)
  {
    var j := i + 6 + a;
    var k := j + 5 + b;
    assert OccursAt(code, "public", i);
    assert code[j] == 'c' by {
      assert code[j..j + 5] == "class";
      assert code[j] == code[j..j + 5][0];
    }
    SpaceRunExact(code, i + 6, a);
    assert OccursAt(code, "class", j);
    assert !IsSpace(code[k]) by {
      assert code[k] == code[k..k + |name|][0] == name[0];
      assert IsWord(name[0]);
    }
    SpaceRunExact(code, j + 5, b);
    WordRunExact(code, k, |name|);
    MatchAtOf(code, i, a, b, |name|);
  }

  lemma MatchAtOf(code: string, i: nat, a: nat, b: nat, n: nat)
    requires i <= |code|
    requires OccursAt(code, "public", i)
    requires SpaceRun(code, i + 6) == a && a > 0
    requires OccursAt(code, "class", i + 6 + a)
    requires SpaceRun(code, i + 11 + a) == b && b > 0
    requires WordRun(code, i + 11 + a + b) == n && n > 0
    ensures MatchAt(code, i) == Some(code[i + 11 + a + b..i + 11 + a + b + n])
  {
    var j := i + 6;
    var k := j + a + 5;
    assert MatchAt(code, i) == AfterPublic(code, j);
    AfterPublicOf(code, j, a);
    AfterClassOf(code, k, b, n);
  }

  lemma AfterPublicOf(code: string, j: nat, a: nat)
    requires j <= |code|
    requires SpaceRun(code, j) == a && a > 0
    requires OccursAt(code, "class", j + a)
    ensures AfterPublic(code, j) == AfterClass(code, j + a + 5)
  {
    var a' := SpaceRun(code, j);
    assert a' == a;
  }

  lemma AfterClassOf(code: string, k: nat, b: nat, n: nat)
    requires k <= |code|
    requires SpaceRun(code, k) == b && b > 0
    requires WordRun(code, k + b) == n && n > 0
    ensures AfterClass(code, k) == Some(code[k + b..k + b + n])
  {
  }

  /** The first match at or after offset `i`. */
  function SearchFrom(code: string, i: nat): Option<string>
    requires i <= |code|
    decreases |code| - i
  {
    if MatchAt(code, i).Some? then MatchAt(code, i)
    else if i == |code| then None
    else SearchFrom(code, i + 1)
  }

  /** `_extract_java_class_name`. */
  function ExtractClassName(code: string): Option<string>
  {
    SearchFrom(code, 0)
  }

  /** The search reports the leftmost matching offset, or that there is none. */
  lemma {:induction false} SearchFromLeftmost(code: string, i: nat)
    requires i <= |code|
    ensures SearchFrom(code, i).None? ==> forall p | i <= p <= |code| :: MatchAt(code, p).None?
    ensures SearchFrom(code, i).Some? ==>
      exists p | i <= p <= |code| ::
        && MatchAt(code, p) == SearchFrom(code, i)
        && forall q | i <= q < p :: MatchAt(code, q).None?
    decreases |code| - i
  {
    if MatchAt(code, i).None? && i < |code| {
      SearchFromLeftmost(code, i + 1);
      if SearchFrom(code, i + 1).Some? {
        var p :| i + 1 <= p <= |code| && MatchAt(code, p) == SearchFrom(code, i + 1)
          && forall q | i + 1 <= q < p :: MatchAt(code, q).None?;
        assert forall q | i <= q < p :: MatchAt(code, q).None?;
      }
    }
  }

  /**
   * The extracted name is what the pattern captures at its leftmost occurrence:
   * `None` exactly when no offset has the shape, and otherwise the name at the
   * first offset that has it.
   */
  lemma ExtractClassNameSpec(code: string)
    ensures ExtractClassName(code).None? <==>
      forall p: nat, a: nat, b: nat, name: string | p <= |code| :: !Shape(code, p, a, b, name)
    ensures ExtractClassName(code).Some? ==>
      exists p: nat, a: nat, b: nat ::
        && p <= |code|
        && Shape(code, p, a, b, ExtractClassName(code).value)
        && forall q: nat, a': nat, b': nat, name': string | q < p :: !Shape(code, q, a', b', name')
  {
    SearchFromLeftmost(code, 0);
    if ExtractClassName(code).None? {
      forall p: nat, a: nat, b: nat, name: string | p <= |code|
        ensures !Shape(code, p, a, b, name)
      {
        if Shape(code, p, a, b, name) {
          MatchAtComplete(code, p, a, b, name);
        }
      }
    } else {
      var p :| 0 <= p <= |code| && MatchAt(code, p) == ExtractClassName(code)
        && forall q | 0 <= q < p :: MatchAt(code, q).None?;
      MatchAtSound(code, p);
      forall q: nat, a': nat, b': nat, name': string | q < p
        ensures !Shape(code, q, a', b', name')
      {
        if Shape(code, q, a', b', name') {
          MatchAtComplete(code, q, a', b', name');
        }
      }
      var a: nat, b: nat :| Shape(code, p, a, b, ExtractClassName(code).value);
    }
  }

  /** A typical class header yields its name. */
  lemma ExtractClassNameFindsHeader()
    ensures ExtractClassName("public class Main {") == Some("Main")
  {
    var code := "public class Main {";
    assert code[0..6] == "public";
    assert code[7..12] == "class";
    assert code[13..17] == "Main";
    assert AllSpace(code[6..7]) && AllSpace(code[12..13]);
    assert Shape(code, 0, 1, 1, "Main");
    MatchAtComplete(code, 0, 1, 1, "Main");
  }

  /** Source in which `public` occurs nowhere never yields a class name. */
  lemma ExtractClassNameNeedsPublic(code: string)
    requires forall i | 0 <= i <= |code| :: !OccursAt(code, "public", i)
    ensures ExtractClassName(code) == None
  {
    SearchFromLeftmost(code, 0);
  }
}
