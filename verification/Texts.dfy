/** Cutting and splitting text at a delimiter. */
module Texts {

  /** The pieces between delimiters; the empty text has one empty piece. */
  function Split(text: string, d: char): (pieces: seq<string>)
    ensures |pieces| >= 1
  {
    if text == "" then [""]
    else
      var rest := Split(text[1..], d);
      if text[0] == d then [""] + rest else [[text[0]] + rest[0]] + rest[1..]
  }

  lemma {:induction false} SplitJoined(a: string, b: string, d: char)
    ensures Split(a + [d] + b, d) == Split(a, d) + Split(b, d)
  {
    if a == "" {
      assert (a + [d] + b)[1..] == b;
    } else {
      assert (a + [d] + b)[1..] == a[1..] + [d] + b;
      SplitJoined(a[1..], b, d);
    }
  }

  lemma {:induction false} SplitSingle(text: string, d: char)
    requires d !in text
    ensures Split(text, d) == [text]
  {
    if text != "" {
      SplitSingle(text[1..], d);
      assert [text[0]] + text[1..] == text;
    }
  }

  function Joined(pieces: seq<string>, d: char): string
    requires |pieces| >= 1
  {
    if |pieces| == 1 then pieces[0] else pieces[0] + [d] + Joined(pieces[1..], d)
  }

  /** Splitting loses nothing, and the pieces hold no delimiter. */
  lemma {:induction false} JoinSplit(text: string, d: char)
    ensures Joined(Split(text, d), d) == text
    ensures forall i | 0 <= i < |Split(text, d)| :: d !in Split(text, d)[i]
  {
    if text != "" {
      JoinSplit(text[1..], d);
      var rest, pieces := Split(text[1..], d), Split(text, d);
      if text[0] == d {
        assert pieces[1..] == rest;
      } else {
        assert pieces[1..] == rest[1..] && pieces[0] == [text[0]] + rest[0];
      }
    }
  }

  /** Three pieces are what stands before, between and after exactly two delimiters. */
  lemma SplitThree(text: string, d: char)
    requires |Split(text, d)| == 3
    ensures var p := Split(text, d);
            d !in p[0] && d !in p[1] && d !in p[2] && text == p[0] + [d] + p[1] + [d] + p[2]
  {
    JoinSplit(text, d);
    JoinedThree(Split(text, d), d);
  }

  lemma JoinedThree(p: seq<string>, d: char)
    requires |p| == 3
    ensures Joined(p, d) == p[0] + [d] + p[1] + [d] + p[2]
  {
    assert p[1..][1..] == [p[2]];
    assert Joined(p[1..], d) == p[1] + [d] + p[2];
  }

  lemma JoinThree(a: string, b: string, c: string, d: char)
    requires d !in a && d !in b && d !in c
    ensures Split(a + [d] + b + [d] + c, d) == [a, b, c]
  {
    SplitJoined(a + [d] + b, c, d);
    SplitJoined(a, b, d);
    SplitSingle(a, d);
    SplitSingle(b, d);
    SplitSingle(c, d);
  }

  /** Two texts that do not hold the delimiter end at its first occurrence. */
  lemma CutAt(a: string, x: string, b: string, y: string, d: char)
    requires d !in a && d !in b && a + [d] + x == b + [d] + y
    ensures a == b && x == y
  {
    var t := a + [d] + x;
    assert t[|a|] == d && t[|b|] == d;
    assert forall i | 0 <= i < |a| :: t[i] == a[i];
    assert forall i | 0 <= i < |b| :: t[i] == b[i];
    assert |a| == |b|;
    assert t[..|a|] == a && t[..|b|] == b;
    assert t[|a| + 1..] == x && t[|b| + 1..] == y;
  }

  lemma DropSame(a: string, x: string, y: string)
    requires a + x == a + y
    ensures x == y
  {
    assert (a + x)[|a|..] == x && (a + y)[|a|..] == y;
  }
}
