/** Substring tests on text. Every pattern the bot tests a message against
    inside its handlers is an unanchored regular expression made of plain
    words and alternation, so "matches" means "contains one of the words". */
module Text {

  /** True when `w` occurs in `s` as a contiguous block of characters. */
  predicate Contains(s: string, w: string)
    decreases |s|
  {
    w <= s || (|s| > 0 && Contains(s[1..], w))
  }

  /** True when `s` contains at least one of the words `ws`
      (the alternation `(w0|w1|...)`). */
  predicate ContainsAny(s: string, ws: seq<string>) {
    exists i :: 0 <= i < |ws| && Contains(s, ws[i])
  }

  /** `w` sits in `s` at offset `i`. */
  predicate OccursAt(s: string, w: string, i: nat) {
    i + |w| <= |s| && s[i..i + |w|] == w
  }

  /** `Contains` agrees with the positional reading of a substring. */
  lemma {:induction false} ContainsAt(s: string, w: string, i: nat)
    requires OccursAt(s, w, i)
    ensures Contains(s, w)
    decreases i
  {
    if i == 0 {
      assert s[..|w|] == w;
    } else {
      assert s[1..][i - 1..i - 1 + |w|] == s[i..i + |w|];
      ContainsAt(s[1..], w, i - 1);
    }
  }

  /** Conversely, a word that `s` contains sits at some offset of `s`. */
  lemma {:induction false} ContainsWitness(s: string, w: string) returns (i: nat)
    requires Contains(s, w)
    ensures OccursAt(s, w, i)
    decreases |s|
  {
    if w <= s {
      i := 0;
    } else {
      var j := ContainsWitness(s[1..], w);
      assert s[1..][j..j + |w|] == s[j + 1..j + 1 + |w|];
      i := j + 1;
    }
  }

  /** A word that sits at no offset of `s` does not occur in `s`. */
  lemma {:induction false} NotContainsAt(s: string, w: string)
    requires forall i: nat :: !OccursAt(s, w, i)
    ensures !Contains(s, w)
    decreases |s|
  {
    assert !OccursAt(s, w, 0);
    if |s| > 0 {
      forall i: nat
        ensures !OccursAt(s[1..], w, i)
      {
        assert !OccursAt(s, w, i + 1);
        if i + |w| <= |s[1..]| {
          assert s[1..][i..i + |w|] == s[i + 1..i + 1 + |w|];
        }
      }
      NotContainsAt(s[1..], w);
    }
  }

  /** A word whose first character does not appear in `s` does not occur in `s`. */
  lemma {:induction false} NotContainsFirstChar(s: string, w: string)
    requires |w| > 0 && w[0] !in s
    ensures !Contains(s, w)
    decreases |s|
  {
    if |s| > 0 {
      assert s[0] != w[0];
      assert forall c :: c in s[1..] ==> c in s;
      NotContainsFirstChar(s[1..], w);
    }
  }

  /** Whatever surrounds a word, the text still contains it. */
  lemma ContainsInfix(a: string, w: string, b: string)
    ensures Contains(a + w + b, w)
  {
    var s := a + w + b;
    assert OccursAt(s, w, |a|) by { assert s[|a|..|a| + |w|] == w; }
    ContainsAt(s, w, |a|);
  }

  /** Appending text never removes a word that was already there. */
  lemma {:induction false} ContainsExtend(s: string, w: string, b: string)
    requires Contains(s, w)
    ensures Contains(s + b, w)
  {
    var i := ContainsWitness(s, w);
    assert OccursAt(s + b, w, i) by { assert (s + b)[i..i + |w|] == s[i..i + |w|]; }
    ContainsAt(s + b, w, i);
  }
}
