/**
 * The shared helpers of `ScoringStrategy`: `preprocess`, which filters, collapses
 * whitespace and lower-cases an answer, and `normalize_score`, which clamps a score
 * to 0..100 and rounds 95 and above up to 100.
 */
module Scoring {
  import opened Text

  /** Kept by `re.sub(r'[^一-龥\w\s]', '', text)`. */
  predicate Kept(c: char)
  {
    IsCjk(c) || IsWord(c) || IsSpace(c)
  }

  predicate AllKept(s: string)
  {
    forall i | 0 <= i < |s| :: Kept(s[i])
  }

  /** The regex substitution: every character outside the class is deleted, the rest stay in order. */
  function Filter(s: string): (r: string)
    ensures |r| <= |s|
    ensures AllKept(r)
  {
    if |s| == 0 then ""
    else if Kept(s[0]) then [s[0]] + Filter(s[1..])
    else Filter(s[1..])
  }

  /** Text made only of kept characters is left alone, and only such text is. */
  lemma {:induction false} FilterFixpoint(s: string)
    ensures Filter(s) == s <==> AllKept(s)
    decreases |s|
  {
    if |s| > 0 {
      FilterFixpoint(s[1..]);
      if AllKept(s) {
        assert AllKept(s[1..]) by {
          forall i | 0 <= i < |s| - 1 ensures Kept(s[1..][i]) {
            assert s[1..][i] == s[i + 1];
          }
        }
        assert [s[0]] + s[1..] == s;
      }
    }
  }

  /** The substitution works character by character, so it distributes over concatenation. */
  lemma {:induction false} FilterAppend(a: string, b: string)
    ensures Filter(a + b) == Filter(a) + Filter(b)
    decreases |a|
  {
    if |a| == 0 {
      assert a + b == b;
    } else {
      assert (a + b)[1..] == a[1..] + b;
      FilterAppend(a[1..], b);
    }
  }

  /** `preprocess`: filter, `' '.join(text.split())`, then `lower()`. */
  function Preprocess(text: string): (r: string)
    ensures Collapsed(r)
    ensures forall i | 0 <= i < |r| :: !IsUpper(r[i]) && (IsWord(r[i]) || r[i] == ' ')
  {
    PreprocessShape(text);
    Lower(Join(Split(Filter(text))))
  }

  predicate WordToken(w: string)
  {
    |w| > 0 && forall i | 0 <= i < |w| :: IsWord(w[i])
  }

  /** A word of kept text is made of word characters only. */
  lemma {:induction false} SplitWords(s: string)
    requires AllKept(s)
    ensures forall k | 0 <= k < |Split(s)| :: WordToken(Split(s)[k])
    decreases |s|
  {
    if |s| > 0 {
      assert AllKept(s[1..]) by {
        forall i | 0 <= i < |s| - 1 ensures Kept(s[1..][i]) {
          assert s[1..][i] == s[i + 1];
        }
      }
      if IsSpace(s[0]) {
        SplitWords(s[1..]);
      } else {
        var w := TakeWord(s);
        var rest := s[|w|..];
        assert AllKept(rest) by {
          forall i | 0 <= i < |rest| ensures Kept(rest[i]) {
            assert rest[i] == s[|w| + i];
          }
        }
        SplitWords(rest);
        assert Split(s) == [w] + Split(rest);
        forall i | 0 <= i < |w|
          ensures IsWord(w[i])
        {
          assert w[i] == s[i] && !IsSpace(w[i]);
        }
      }
    }
  }

  /** Word tokens joined by single spaces: only word characters and spaces. */
  lemma {:induction false} JoinWords(ws: seq<string>)
    requires forall k | 0 <= k < |ws| :: WordToken(ws[k])
    ensures forall i | 0 <= i < |Join(ws)| :: IsWord(Join(ws)[i]) || Join(ws)[i] == ' '
    decreases |ws|
  {
    if |ws| > 1 {
      JoinWords(ws[1..]);
      var j := ws[0] + " " + Join(ws[1..]);
      assert Join(ws) == j;
      forall i | 0 <= i < |j|
        ensures IsWord(j[i]) || j[i] == ' '
      {
        if i < |ws[0]| {
          assert j[i] == ws[0][i];
        } else if i > |ws[0]| {
          assert j[i] == Join(ws[1..])[i - |ws[0]| - 1];
        }
      }
    }
  }

  lemma PreprocessShape(text: string)
    ensures var r := Lower(Join(Split(Filter(text))));
      && Collapsed(r)
      && forall i | 0 <= i < |r| :: !IsUpper(r[i]) && (IsWord(r[i]) || r[i] == ' ')
  {
    var ws := Split(Filter(text));
    SplitWords(Filter(text));
    JoinWords(ws);
    LowerJoin(ws);
    var lw := LowerAll(ws);
    forall k | 0 <= k < |lw|
      ensures IsToken(lw[k])
    {
      assert IsToken(ws[k]);
    }
    JoinCollapsed(lw);
    var j := Join(ws);
    var r := Lower(j);
    forall i | 0 <= i < |r|
      ensures IsWord(r[i]) || r[i] == ' '
    {
      assert r[i] == LowerChar(j[i]);
    }
  }

  /** Preprocessed text preprocesses to itself. */
  lemma PreprocessIdempotent(text: string)
    ensures Preprocess(Preprocess(text)) == Preprocess(text)
  {
    var r := Preprocess(text);
    assert AllKept(r);
    FilterFixpoint(r);
    CollapsedFixpoint(r);
    assert Lower(r) == r;
  }

  /**
   * The words of the result are the words of the filtered text, each lower-cased and
   * none lost, merged or reordered.
   */
  lemma PreprocessWords(text: string)
    ensures Split(Preprocess(text)) == LowerAll(Split(Filter(text)))
  {
    var ws := Split(Filter(text));
    LowerJoin(ws);
    var lw := LowerAll(ws);
    forall k | 0 <= k < |lw|
      ensures IsToken(lw[k])
    {
      assert IsToken(ws[k]);
    }
    SplitJoin(lw);
  }

  /**
   * `normalize_score` on a whole-number score: clamp to 0..100, then 95 and above
   * become 100. `round(·, 1)` leaves whole numbers unchanged.
   */
  function NormalizeScore(score: int): (r: int)
    ensures 0 <= r <= 100
    ensures r <= 94 || r == 100
    ensures score >= 95 ==> r == 100
    ensures score < 0 ==> r == 0
    ensures 0 <= score <= 94 ==> r == score
  {
    var clamped := if score < 0 then 0 else if score > 100 then 100 else score;
    if clamped >= 95 then 100 else clamped
  }

  /** A higher raw score never normalizes lower. */
  lemma NormalizeMonotone(a: int, b: int)
    requires a <= b
    ensures NormalizeScore(a) <= NormalizeScore(b)
  {
  }

  /** A normalized score normalizes to itself. */
  lemma NormalizeIdempotent(score: int)
    ensures NormalizeScore(NormalizeScore(score)) == NormalizeScore(score)
  {
  }
}
