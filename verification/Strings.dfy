/** Removing white space at both ends, as str.strip() does. */
module Strings {
  function StripLeft(isSpace: char -> bool, s: string): string {
    if s != "" && isSpace(s[0]) then StripLeft(isSpace, s[1..]) else s
  }

  function StripRight(isSpace: char -> bool, s: string): string {
    if s != "" && isSpace(s[|s| - 1]) then StripRight(isSpace, s[..|s| - 1]) else s
  }

  function Strip(isSpace: char -> bool, s: string): string {
    StripRight(isSpace, StripLeft(isSpace, s))
  }

  lemma {:induction false} StripLeftStarts(isSpace: char -> bool, s: string)
    ensures var r := StripLeft(isSpace, s); |r| <= |s| && (r != "" ==> !isSpace(r[0])) && (r == s || |r| < |s|)
  {
    if s != "" && isSpace(s[0]) { StripLeftStarts(isSpace, s[1..]); }
  }

  lemma {:induction false} StripRightStarts(isSpace: char -> bool, s: string)
    ensures var r := StripRight(isSpace, s); r <= s && (r != "" ==> !isSpace(r[|r| - 1]))
  {
    if s != "" && isSpace(s[|s| - 1]) { StripRightStarts(isSpace, s[..|s| - 1]); }
  }

  lemma StripTwice(isSpace: char -> bool, s: string)
    ensures Strip(isSpace, Strip(isSpace, s)) == Strip(isSpace, s)
  {
    var left := StripLeft(isSpace, s);
    var both := StripRight(isSpace, left);
    StripLeftStarts(isSpace, s);
    StripRightStarts(isSpace, left);
    if both != "" { assert both[0] == left[0]; }
  }

  predicate AllSpace(isSpace: char -> bool, s: string) {
    forall i :: 0 <= i < |s| ==> isSpace(s[i])
  }

  lemma {:induction false} StripLeftSplits(isSpace: char -> bool, s: string)
    ensures var r := StripLeft(isSpace, s);
            |r| <= |s| && s[|s| - |r|..] == r && AllSpace(isSpace, s[..|s| - |r|])
  {
    if s != "" && isSpace(s[0]) {
      StripLeftSplits(isSpace, s[1..]);
      var r := StripLeft(isSpace, s);
      assert s[..|s| - |r|] == [s[0]] + s[1..][..|s| - 1 - |r|];
    }
  }

  lemma {:induction false} StripRightSplits(isSpace: char -> bool, s: string)
    ensures var r := StripRight(isSpace, s);
            r <= s && AllSpace(isSpace, s[|r|..])
  {
    if s != "" && isSpace(s[|s| - 1]) {
      var front := s[..|s| - 1];
      StripRightSplits(isSpace, front);
      var r := StripRight(isSpace, s);
      assert s[|r|..] == front[|r|..] + [s[|s| - 1]];
    }
  }

  // White space alone is stripped to nothing, and nothing else is.
  lemma {:induction false} StripsToNothing(isSpace: char -> bool, s: string)
    ensures Strip(isSpace, s) == "" <==> AllSpace(isSpace, s)
  {
    var left := StripLeft(isSpace, s);
    StripLeftSplits(isSpace, s);
    StripLeftStarts(isSpace, s);
    StripRightSplits(isSpace, left);
    if Strip(isSpace, s) == "" {
      assert left[0..] == left;
      assert s == s[..|s| - |left|] + left;
    } else {
      assert s[|s| - |left|] == left[0];
    }
  }

  lemma {:induction false} StripLeftPadding(isSpace: char -> bool, pad: string, s: string)
    requires AllSpace(isSpace, pad) && s != "" && !isSpace(s[0])
    ensures StripLeft(isSpace, pad + s) == s
  {
    if pad == "" {
      assert pad + s == s;
    } else {
      assert (pad + s)[1..] == pad[1..] + s;
      StripLeftPadding(isSpace, pad[1..], s);
    }
  }

  lemma {:induction false} StripRightPadding(isSpace: char -> bool, s: string, pad: string)
    requires AllSpace(isSpace, pad) && s != "" && !isSpace(s[|s| - 1])
    ensures StripRight(isSpace, s + pad) == s
    decreases |pad|
  {
    if pad == "" {
      assert s + pad == s;
    } else {
      assert (s + pad)[..|s + pad| - 1] == s + pad[..|pad| - 1];
      StripRightPadding(isSpace, s, pad[..|pad| - 1]);
    }
  }

  // White space around a word is stripped, and the word left as it is.
  lemma {:induction false} StripsPadding(isSpace: char -> bool, before: string, word: string, after: string)
    requires AllSpace(isSpace, before) && AllSpace(isSpace, after)
    requires word != "" && !isSpace(word[0]) && !isSpace(word[|word| - 1])
    ensures Strip(isSpace, before + word + after) == word
  {
    assert before + word + after == before + (word + after);
    StripLeftPadding(isSpace, before, word + after);
    StripRightPadding(isSpace, word, after);
  }
}
