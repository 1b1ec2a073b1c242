/**
 * Character classes and the handful of Python `str` operations the core relies on:
 * `str.isspace`, the `\w` and `\d` regex classes, `strip`, `split()`, `' '.join`,
 * `lower` and the `in` substring test.
 *
 * `\w` is modelled as the ASCII letters, digits and underscore plus the CJK Unified
 * Ideographs block; `lower` as ASCII case folding.
 */
module Text {

  /** Python's `str.isspace`, which is also what the `\s` class and `split()` use. */
  predicate IsSpace(c: char)
  {
    || c == ' '
    || ('\t' <= c <= '\r')
    || ('\U{1C}' <= c <= '\U{1F}')
    || c == '\U{85}'
    || c == '\U{A0}'
    || c == '\U{1680}'
    || ('\U{2000}' <= c <= '\U{200A}')
    || c == '\U{2028}'
    || c == '\U{2029}'
    || c == '\U{202F}'
    || c == '\U{205F}'
    || c == '\U{3000}'
  }

  predicate IsDigit(c: char)
  {
    '0' <= c <= '9'
  }

  predicate IsUpper(c: char)
  {
    'A' <= c <= 'Z'
  }

  /** The explicit range `一-龥` of the preprocessing regex. */
  predicate IsCjk(c: char)
  {
    '\U{4E00}' <= c <= '\U{9FA5}'
  }

  /** The regex class `\w`. */
  predicate IsWord(c: char)
  {
    || IsDigit(c)
    || IsUpper(c)
    || ('a' <= c <= 'z')
    || c == '_'
    || ('\U{4E00}' <= c <= '\U{9FFF}')
  }

  function LowerChar(c: char): (r: char)
    ensures !IsUpper(r)
    ensures IsWord(r) <==> IsWord(c)
    ensures IsSpace(r) <==> IsSpace(c)
    ensures !IsUpper(c) ==> r == c
  {
    if IsUpper(c) then (c as int + 32) as char else c
  }

  /** `s.lower()`. */
  function Lower(s: string): (r: string)
    ensures |r| == |s|
    ensures forall i | 0 <= i < |s| :: r[i] == LowerChar(s[i])
  {
    if |s| == 0 then "" else [LowerChar(s[0])] + Lower(s[1..])
  }

  predicate NoSpace(s: string)
  {
    forall i | 0 <= i < |s| :: !IsSpace(s[i])
  }

  predicate AllSpace(s: string)
  {
    forall i | 0 <= i < |s| :: IsSpace(s[i])
  }

  /** `needle in haystack` for two Python strings. */
  predicate Contains(haystack: string, needle: string)
  {
    exists i | 0 <= i <= |haystack| - |needle| :: OccursAt(haystack, needle, i)
  }

  /** `needle` starts at offset `i` of `haystack`. */
  predicate OccursAt(haystack: string, needle: string, i: int)
  {
    0 <= i <= |haystack| - |needle| && haystack[i..i + |needle|] == needle
  }

  /** Leading whitespace removed. */
  function TrimStart(s: string): (r: string)
    ensures |r| <= |s| && r == s[|s| - |r|..]
    ensures AllSpace(s[..|s| - |r|])
    ensures |r| == 0 || !IsSpace(r[0])
  {
    if |s| > 0 && IsSpace(s[0]) then TrimStart(s[1..]) else s
  }

  /** Trailing whitespace removed. */
  function TrimEnd(s: string): (r: string)
    ensures |r| <= |s| && r == s[..|r|]
    ensures AllSpace(s[|r|..])
    ensures |r| == 0 || !IsSpace(r[|r| - 1])
  {
    if |s| > 0 && IsSpace(s[|s| - 1]) then
      var r := TrimEnd(s[..|s| - 1]);
      assert s[..|s| - 1][..|r|] == s[..|r|];
      assert s[|r|..] == s[..|s| - 1][|r|..] + [s[|s| - 1]];
      r
    else s
  }

  /** `s.strip()`: the slice of `s` between its leading and trailing whitespace. */
  function Strip(s: string): (r: string)
  {
    TrimEnd(TrimStart(s))
  }

  /** `r` is the slice of `s` at `i` with only whitespace around it. */
  predicate PaddedSlice(s: string, r: string, i: int)
  {
    0 <= i <= |s| - |r| && s[i..i + |r|] == r && AllSpace(s[..i]) && AllSpace(s[i + |r|..])
  }

  /** `strip` removes only whitespace, from both ends. */
  lemma StripIsTrimmedSlice(s: string)
    ensures exists i :: PaddedSlice(s, Strip(s), i)
  {
    var t := TrimStart(s);
    TrimmedTwice(s, t, TrimEnd(t));
    assert PaddedSlice(s, Strip(s), |s| - |t|);
  }

  /** A whitespace-free prefix cut from a whitespace-free suffix is a padded slice. */
  lemma TrimmedTwice(s: string, t: string, r: string)
    requires |t| <= |s| && t == s[|s| - |t|..] && AllSpace(s[..|s| - |t|])
    requires |r| <= |t| && r == t[..|r|] && AllSpace(t[|r|..])
    ensures PaddedSlice(s, r, |s| - |t|)
  {
    var i := |s| - |t|;
    assert s[i..i + |r|] == r;
    assert s[i + |r|..] == t[|r|..];
  }

  /** What `strip` leaves neither starts nor ends with whitespace. */
  lemma StripEnds(s: string)
    ensures var r := Strip(s);
      |r| == 0 || (!IsSpace(r[0]) && !IsSpace(r[|r| - 1]))
  {
    var t := TrimStart(s);
    var r := TrimEnd(t);
    assert |r| > 0 ==> r[0] == t[0];
  }

  /** The longest prefix of `s` without whitespace. */
  function TakeWord(s: string): (w: string)
    ensures |w| <= |s| && w == s[..|w|]
    ensures NoSpace(w)
    ensures |w| == |s| || IsSpace(s[|w|])
  {
    if |s| == 0 || IsSpace(s[0]) then "" else [s[0]] + TakeWord(s[1..])
  }

  /** A word of `split()`: non-empty and free of whitespace. */
  predicate IsToken(w: string)
  {
    |w| > 0 && NoSpace(w)
  }

  /** `s.split()` with no separator: the maximal whitespace-free runs of `s`, in order. */
  function Split(s: string): (ws: seq<string>)
    ensures forall i | 0 <= i < |ws| :: IsToken(ws[i])
    decreases |s|
  {
    if |s| == 0 then []
    else if IsSpace(s[0]) then Split(s[1..])
    else
      var w := TakeWord(s);
      [w] + Split(s[|w|..])
  }

  /** `' '.join(ws)`. */
  function Join(ws: seq<string>): string
  {
    if |ws| == 0 then ""
    else if |ws| == 1 then ws[0]
    else ws[0] + " " + Join(ws[1..])
  }

  /** A string as `' '.join(s.split())` leaves it: single spaces between tokens, none at the ends. */
  predicate Collapsed(s: string)
  {
    && (|s| > 0 ==> s[0] != ' ' && s[|s| - 1] != ' ')
    && (forall i | 0 <= i < |s| :: IsSpace(s[i]) ==> s[i] == ' ')
    && (forall i | 0 <= i < |s| - 1 :: !(s[i] == ' ' && s[i + 1] == ' '))
  }

  lemma {:induction false} TakeWordOfToken(w: string, rest: string)
    requires NoSpace(w)
    requires |rest| == 0 || IsSpace(rest[0])
    ensures TakeWord(w + rest) == w
    decreases |w|
  {
    if |w| > 0 {
      assert (w + rest)[1..] == w[1..] + rest;
      TakeWordOfToken(w[1..], rest);
    } else {
      assert w + rest == rest;
    }
  }

  /** `split` recovers the tokens `join` glued together. */
  lemma {:induction false} SplitJoin(ws: seq<string>)
    requires forall i | 0 <= i < |ws| :: IsToken(ws[i])
    ensures Split(Join(ws)) == ws
    decreases |ws|
  {
    if |ws| == 1 {
      TakeWordOfToken(ws[0], "");
      assert ws[0] + "" == ws[0];
      assert Join(ws)[|ws[0]|..] == "";
    } else if |ws| > 1 {
      var s := Join(ws);
      var tail := Join(ws[1..]);
      assert s == ws[0] + (" " + tail);
      TakeWordOfToken(ws[0], " " + tail);
      assert s[|ws[0]|..] == " " + tail;
      assert (" " + tail)[1..] == tail;
      SplitJoin(ws[1..]);
    }
  }

  /** Joining tokens with single spaces yields a collapsed string. */
  lemma {:induction false} JoinCollapsed(ws: seq<string>)
    requires forall i | 0 <= i < |ws| :: IsToken(ws[i])
    ensures Collapsed(Join(ws))
    ensures |Join(ws)| > 0 ==> !IsSpace(Join(ws)[0]) && !IsSpace(Join(ws)[|Join(ws)| - 1])
    decreases |ws|
  {
    if |ws| > 1 {
      JoinCollapsed(ws[1..]);
      var w := ws[0];
      var t := Join(ws[1..]);
      var s := Join(ws);
      assert s == w + " " + t;
      assert |t| > 0;
      assert forall i | 0 <= i < |w| :: s[i] == w[i];
      forall i | 0 <= i < |s| && IsSpace(s[i])
        ensures s[i] == ' '
      {
        if i > |w| { assert s[i] == t[i - |w| - 1]; }
      }
      forall i | 0 <= i < |s| - 1
        ensures !(s[i] == ' ' && s[i + 1] == ' ')
      {
        if i < |w| - 1 { assert s[i] == w[i]; }
        else if i == |w| - 1 { assert s[i] == w[i]; }
        else if i == |w| { assert s[i + 1] == t[0]; }
        else { assert s[i] == t[i - |w| - 1] && s[i + 1] == t[i - |w|]; }
      }
      assert s[|s| - 1] == t[|t| - 1];
    }
  }

  /** A collapsed string is its own `' '.join(split())`. */
  lemma {:induction false} CollapsedFixpoint(s: string)
    requires Collapsed(s)
    ensures Join(Split(s)) == s
    decreases |s|
  {
    if |s| > 0 {
      var w := TakeWord(s);
      if |w| == |s| {
        assert w == s;
        assert s[|w|..] == "";
      } else {
        var rest := CollapsedTail(s);
        CollapsedFixpoint(rest);
        var tail := Split(rest);
        TakeWordNonEmpty(rest);
        assert Join([w] + tail) == w + " " + Join(tail) by {
          assert ([w] + tail)[1..] == tail;
        }
      }
    }
  }

  /** Past its first token a collapsed string continues with one space and a collapsed rest. */
  lemma CollapsedTail(s: string) returns (rest: string)
    requires Collapsed(s) && |s| > 0 && |TakeWord(s)| < |s|
    ensures s == TakeWord(s) + " " + rest
    ensures Collapsed(rest) && |rest| > 0 && !IsSpace(rest[0])
    ensures Split(s) == [TakeWord(s)] + Split(rest)
  {
    var w := TakeWord(s);
    assert !IsSpace(s[0]);
    rest := s[|w| + 1..];
    assert s[|w|] == ' ';
    assert s[|w| + 1] != ' ';
    assert s[|s| - 1] != ' ';
    forall i | 0 <= i < |rest| - 1
      ensures !(rest[i] == ' ' && rest[i + 1] == ' ')
    {
      assert rest[i] == s[|w| + 1 + i] && rest[i + 1] == s[|w| + 2 + i];
    }
    assert s[|w|..][1..] == rest;
    assert s == w + " " + rest;
  }

  lemma TakeWordNonEmpty(s: string)
    requires |s| > 0 && !IsSpace(s[0])
    ensures |Split(s)| > 0
  {
  }

  /** Case folding leaves whitespace where it was, so it commutes with `join`. */
  lemma {:induction false} LowerJoin(ws: seq<string>)
    ensures Lower(Join(ws)) == Join(LowerAll(ws))
    decreases |ws|
  {
    if |ws| > 1 {
      LowerJoin(ws[1..]);
      assert LowerAll(ws)[1..] == LowerAll(ws[1..]);
      LowerAppend(ws[0] + " ", Join(ws[1..]));
      LowerAppend(ws[0], " ");
    }
  }

  lemma LowerAppend(a: string, b: string)
    ensures Lower(a + b) == Lower(a) + Lower(b)
  {
    assert forall i | 0 <= i < |a + b| :: Lower(a + b)[i] == (Lower(a) + Lower(b))[i];
  }

  /** `[w.lower() for w in ws]`. */
  function LowerAll(ws: seq<string>): (r: seq<string>)
    ensures |r| == |ws|
    ensures forall i | 0 <= i < |ws| :: r[i] == Lower(ws[i])
  {
    if |ws| == 0 then [] else [Lower(ws[0])] + LowerAll(ws[1..])
  }

  /** Whitespace added equally at both ends does not survive `strip`. */
  lemma StripIgnoresPadding(pad: string, s: string)
    requires AllSpace(pad)
    ensures Strip(pad + s + pad) == Strip(s)
  {
    TrimStartPadding(pad, s + pad);
    assert pad + s + pad == pad + (s + pad);
    TrimEndPadding(TrimStart(s), pad);
    TrimStartAppend(s, pad);
  }

  lemma {:induction false} TrimStartPadding(pad: string, s: string)
    requires AllSpace(pad)
    ensures TrimStart(pad + s) == TrimStart(s)
    decreases |pad|
  {
    if |pad| > 0 {
      assert (pad + s)[1..] == pad[1..] + s;
      TrimStartPadding(pad[1..], s);
    } else {
      assert pad + s == s;
    }
  }

  lemma {:induction false} TrimEndPadding(s: string, pad: string)
    requires AllSpace(pad)
    ensures TrimEnd(s + pad) == TrimEnd(s)
    decreases |pad|
  {
    if |pad| > 0 {
      assert (s + pad)[..|s + pad| - 1] == s + pad[..|pad| - 1];
      TrimEndPadding(s, pad[..|pad| - 1]);
    } else {
      assert s + pad == s;
    }
  }

  /** Trimming the front first and appending afterwards commute. */
  lemma {:induction false} TrimStartAppend(s: string, pad: string)
    requires AllSpace(pad)
    ensures TrimEnd(TrimStart(s + pad)) == TrimEnd(TrimStart(s) + pad)
    decreases |s|
  {
    if |s| > 0 && IsSpace(s[0]) {
      assert (s + pad)[1..] == s[1..] + pad;
      TrimStartAppend(s[1..], pad);
    } else if |s| == 0 {
      assert s + pad == pad;
      TrimStartPadding(pad, "");
      assert pad + "" == pad;
      assert TrimStart(pad) == "";
      TrimEndPadding("", pad);
      assert "" + pad == pad;
    }
  }
}
