/** Trimming, letter case and words of ASCII text. */
module Text {

  predicate Space(c: char) {
    c == ' ' || c == '\t' || c == '\n' || c == '\r'
  }

  function Trim(s: string): string {
    if s != "" && Space(s[0]) then Trim(s[1..])
    else if s != "" && Space(s[|s| - 1]) then Trim(s[..|s| - 1])
    else s
  }

  lemma TrimmedIsTrimmed(s: string)
    requires s == "" || (!Space(s[0]) && !Space(s[|s| - 1]))
    ensures Trim(s) == s
  {
  }

  /** `t` lies in `s` from `from` on, and around it there is only white space. */
  ghost predicate Inside(s: string, t: string, from: nat) {
    && from + |t| <= |s| && s[from..from + |t|] == t
    && (forall i :: 0 <= i < from ==> Space(s[i]))
    && (forall i :: from + |t| <= i < |s| ==> Space(s[i]))
  }

  lemma InsideRest(s: string, t: string, from: nat)
    requires s != "" && Space(s[0]) && Inside(s[1..], t, from)
    ensures Inside(s, t, from + 1)
  {
    var rest := s[1..];
    assert forall i :: 1 <= i < |s| ==> s[i] == rest[i - 1];
  }

  lemma InsideFront(s: string, t: string, from: nat)
    requires s != "" && Space(s[|s| - 1]) && Inside(s[..|s| - 1], t, from)
    ensures Inside(s, t, from)
  {
    var front := s[..|s| - 1];
    assert forall i :: 0 <= i < |front| ==> s[i] == front[i];
  }

  /** Trimming takes exactly the white space at the two ends. */
  lemma {:induction false} TrimIsInside(s: string) returns (from: nat)
    ensures Inside(s, Trim(s), from)
    ensures var t := Trim(s); t == "" || (!Space(t[0]) && !Space(t[|t| - 1]))
    decreases |s|
  {
    hide Inside;
    if s != "" && Space(s[0]) {
      var k := TrimIsInside(s[1..]);
      InsideRest(s, Trim(s), k);
      from := k + 1;
    } else if s != "" && Space(s[|s| - 1]) {
      from := TrimIsInside(s[..|s| - 1]);
      InsideFront(s, Trim(s), from);
    } else {
      from := 0;
      InsideItself(s);
    }
  }

  lemma InsideItself(s: string)
    ensures Inside(s, s, 0)
  {
  }

  /** Text that does not begin or end with white space is what trimming leaves, whatever white space surrounds it. */
  lemma {:induction false} TrimFindsIt(s: string, t: string, from: nat)
    requires Inside(s, t, from) && t != "" && !Space(t[0]) && !Space(t[|t| - 1])
    ensures Trim(s) == t
    decreases |s|
  {
    assert s[from] == t[0] && s[from + |t| - 1] == t[|t| - 1];
    if Space(s[0]) {
      assert from > 0;
      InsideWithoutFirst(s, t, from);
      TrimFindsIt(s[1..], t, from - 1);
    } else if Space(s[|s| - 1]) {
      assert from + |t| < |s|;
      InsideWithoutLast(s, t, from);
      TrimFindsIt(s[..|s| - 1], t, from);
    } else {
      assert from == 0 && |t| == |s|;
    }
  }

  lemma InsideWithoutFirst(s: string, t: string, from: nat)
    requires Inside(s, t, from) && from > 0
    ensures Inside(s[1..], t, from - 1)
  {
    assert s[1..][from - 1..from - 1 + |t|] == s[from..from + |t|];
  }

  lemma InsideWithoutLast(s: string, t: string, from: nat)
    requires Inside(s, t, from) && from + |t| < |s|
    ensures Inside(s[..|s| - 1], t, from)
  {
    assert s[..|s| - 1][from..from + |t|] == s[from..from + |t|];
  }

  /** Letter by letter: the 26 letters change case, everything else stays. */
  lemma CaseOfLetters(s: string, i: nat)
    requires i < |s|
    ensures 'a' <= s[i] <= 'z' ==> Upper(s)[i] as int == s[i] as int - 32 && Lower(s)[i] == s[i]
    ensures 'A' <= s[i] <= 'Z' ==> Lower(s)[i] as int == s[i] as int + 32 && Upper(s)[i] == s[i]
    ensures !('a' <= s[i] <= 'z') && !('A' <= s[i] <= 'Z') ==> Upper(s)[i] == Lower(s)[i] == s[i]
  {}

  function Upper(s: string): (r: string)
    ensures |r| == |s|
  {
    seq(|s|, i requires 0 <= i < |s| => if 'a' <= s[i] <= 'z' then s[i] - 'a' + 'A' else s[i])
  }

  function Lower(s: string): (r: string)
    ensures |r| == |s|
  {
    seq(|s|, i requires 0 <= i < |s| => if 'A' <= s[i] <= 'Z' then s[i] - 'A' + 'a' else s[i])
  }

  /** Where the word at the front of the text ends. */
  function WordEnd(s: string): (n: nat)
    ensures n <= |s| && (n < |s| ==> Space(s[n]))
    ensures forall i :: 0 <= i < n ==> !Space(s[i])
  {
    if s == "" || Space(s[0]) then 0 else 1 + WordEnd(s[1..])
  }

  /** The pieces between white space. */
  function Words(s: string): seq<string>
    decreases |s|
  {
    if s == "" then []
    else if Space(s[0]) then Words(s[1..])
    else [s[..WordEnd(s)]] + Words(s[WordEnd(s)..])
  }

  function Word(s: string, i: nat): string {
    if i < |Words(s)| then Words(s)[i] else ""
  }

  lemma WordInFront(w: string, rest: string)
    requires w != "" && (forall c <- w :: !Space(c)) && (rest == "" || Space(rest[0]))
    ensures Words(w + rest) == [w] + Words(rest)
  {
    var s := w + rest;
    EndOfFirstWord(w, rest);
    assert s[..|w|] == w && s[|w|..] == rest;
  }

  lemma {:induction false} EndOfFirstWord(w: string, rest: string)
    requires (forall c <- w :: !Space(c)) && (rest == "" || Space(rest[0]))
    ensures WordEnd(w + rest) == |w|
    decreases |w|
  {
    if w == "" {
      assert w + rest == rest;
    } else {
      assert (w + rest)[1..] == w[1..] + rest;
      assert forall c <- w[1..] :: c in w;
      EndOfFirstWord(w[1..], rest);
    }
  }
}
