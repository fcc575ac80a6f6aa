/** Name handling: `name.split(' ')` and its last token (the short label on the bar
    chart and in the map legend), and the ASCII upper-casing used to join map
    features to district results. */
module Names {

  const Space: char := ' '

  /** True when `s` contains no space. */
  predicate NoSpace(s: string)
  {
    forall i :: 0 <= i < |s| ==> s[i] != Space
  }

  /** `s.split(' ')`: the maximal space-free runs of `s`, one (possibly empty)
      token between each pair of neighbouring spaces. Never empty: "" splits to
      [""]. */
  function Split(s: string): (r: seq<string>)
    ensures |r| >= 1
  {
    if |s| == 0 then [""]
    else
      var init := Split(s[..|s| - 1]);
      var c := s[|s| - 1];
      if c == Space then init + [""]
      else init[..|init| - 1] + [init[|init| - 1] + [c]]
  }

  /** `tokens.join(' ')`. */
  function Join(tokens: seq<string>): string
    requires |tokens| >= 1
  {
    if |tokens| == 1 then tokens[0]
    else Join(tokens[..|tokens| - 1]) + [Space] + tokens[|tokens| - 1]
  }

  lemma {:induction false} JoinExtendLast(tokens: seq<string>, c: char)
    requires |tokens| >= 1
    ensures Join(tokens[..|tokens| - 1] + [tokens[|tokens| - 1] + [c]]) == Join(tokens) + [c]
  {
  }

  /** Round trip: joining the tokens of a split with a space gives back the name. */
  lemma {:induction false} JoinSplit(s: string)
    ensures Join(Split(s)) == s
  {
    if |s| > 0 {
      var p, c := s[..|s| - 1], s[|s| - 1];
      var init := Split(p);
      JoinSplit(p);
      assert s == p + [c];
      if c == Space {
        assert (init + [""])[..|init|] == init;
      } else {
        JoinExtendLast(init, c);
      }
    }
  }

  /** No token of a split contains the separator. */
  lemma {:induction false} SplitTokensHaveNoSpace(s: string)
    ensures forall i :: 0 <= i < |Split(s)| ==> NoSpace(Split(s)[i])
  {
    if |s| > 0 {
      SplitTokensHaveNoSpace(s[..|s| - 1]);
    }
  }

  /** `r` is a space-free suffix of `s` that reaches back to the start of `s` or
      to a space: the longest space-free suffix. */
  predicate IsLastToken(s: string, r: string)
  {
    && |r| <= |s| && r == s[|s| - |r|..]
    && NoSpace(r)
    && (r == s || s[|s| - |r| - 1] == Space)
  }

  /** Appending a letter to a name appends it to the name's last token. */
  lemma ExtendLastToken(p: string, l: string, c: char)
    requires IsLastToken(p, l) && c != Space
    ensures IsLastToken(p + [c], l + [c])
  {
    var s, r := p + [c], l + [c];
    assert r == s[|s| - |r|..];
    if l != p {
      assert s[|s| - |r| - 1] == p[|p| - |l| - 1];
    }
  }

  /** How a split ends: the tokens of the last character's prefix, with that
      character either opening a new token or extending the last one. */
  lemma SplitLastChar(s: string)
    requires |s| > 0
    ensures var init := Split(s[..|s| - 1]);
      && (s[|s| - 1] == Space ==> Split(s)[|Split(s)| - 1] == "")
      && (s[|s| - 1] != Space ==> Split(s)[|Split(s)| - 1] == init[|init| - 1] + [s[|s| - 1]])
  {
  }

  /** The last token of a split is the longest space-free suffix of the input. */
  lemma {:induction false} LastOfSplit(s: string)
    ensures IsLastToken(s, Split(s)[|Split(s)| - 1])
  {
    if |s| > 0 {
      var p, c := s[..|s| - 1], s[|s| - 1];
      var init := Split(p);
      LastOfSplit(p);
      SplitLastChar(s);
      assert s == p + [c];
      if c == Space {
        assert IsLastToken(s, "");
      } else {
        ExtendLastToken(p, init[|init| - 1], c);
      }
    }
  }

  /** `name.split(' ').slice(-1)[0]`: the text after the last space, or the whole
      name when it has no space. */
  function LastToken(name: string): (r: string)
    ensures |r| <= |name| && r == name[|name| - |r|..]
    ensures NoSpace(r)
    ensures r == name || name[|name| - |r| - 1] == Space
    ensures NoSpace(name) ==> r == name
  {
    LastOfSplit(name);
    var tokens := Split(name);
    tokens[|tokens| - 1]
  }

  /** `toUpperCase` restricted to ASCII: a..z map to A..Z, every other character is
      left alone. */
  function UpperChar(c: char): char
  {
    if 'a' <= c <= 'z' then (c as int - 32) as char else c
  }

  function Upper(s: string): (r: string)
    ensures |r| == |s|
    ensures forall i :: 0 <= i < |s| ==> r[i] == UpperChar(s[i])
  {
    if |s| == 0 then [] else [UpperChar(s[0])] + Upper(s[1..])
  }

  /** The join test of the map: the upper-cased names are equal. */
  predicate SameNameIgnoringCase(a: string, b: string)
  {
    Upper(a) == Upper(b)
  }

  predicate IsAsciiLetter(c: char)
  {
    'a' <= c <= 'z' || 'A' <= c <= 'Z'
  }

  /** Two characters that are equal up to ASCII case, stated without upper-casing:
      they are equal, or they are the same letter in the two cases. */
  predicate SameCharIgnoringCase(x: char, y: char)
  {
    x == y || (IsAsciiLetter(x) && IsAsciiLetter(y) && (x as int - y as int == 32 || y as int - x as int == 32))
  }

  /** The join matches names of the same length that agree character by character
      up to ASCII case, and nothing else. */
  lemma SameNameIgnoringCaseCharwise(a: string, b: string)
    ensures SameNameIgnoringCase(a, b) <==>
      |a| == |b| && forall i :: 0 <= i < |a| ==> SameCharIgnoringCase(a[i], b[i])
  {
  }

  /** Matching up to case is an equivalence: reflexive, symmetric and transitive. */
  lemma SameNameIgnoringCaseIsEquivalence(a: string, b: string, c: string)
    ensures SameNameIgnoringCase(a, a)
    ensures SameNameIgnoringCase(a, b) ==> SameNameIgnoringCase(b, a)
    ensures SameNameIgnoringCase(a, b) && SameNameIgnoringCase(b, c) ==> SameNameIgnoringCase(a, c)
  {
  }

  /** The match is exact up to case: "Kampala" matches "KAMPALA" but not
      "Kampala City". */
  lemma KampalaExample()
    ensures SameNameIgnoringCase("Kampala", "KAMPALA")
    ensures !SameNameIgnoringCase("Kampala", "Kampala City")
  {
  }
}
