/** Replacement of substrings as in the Go library. */
module GoStrings {

  /** strings.Replace without a limit: every occurrence, leftmost first, not overlapping. */
  function ReplaceAll(s: string, old_: string, new_: string): string
    requires old_ != ""
  {
    if |s| < |old_| then s
    else if s[..|old_|] == old_ then new_ + ReplaceAll(s[|old_|..], old_, new_)
    else s[..1] + ReplaceAll(s[1..], old_, new_)
  }

  lemma ReplaceMoves(c: char, s: string, old_: string, new_: string)
    requires |old_| == 2 && !(s != "" && c == old_[0] && s[0] == old_[1])
    ensures ReplaceAll([c] + s, old_, new_) == [c] + ReplaceAll(s, old_, new_)
  {
    assert ([c] + s)[1..] == s && ([c] + s)[..1] == [c];
    if s != "" {
      assert ([c] + s)[..2][0] == c && ([c] + s)[..2][1] == s[0];
    }
  }

  lemma ReplaceHits(s: string, old_: string, new_: string)
    requires |old_| == 2
    ensures ReplaceAll(old_ + s, old_, new_) == new_ + ReplaceAll(s, old_, new_)
  {
    assert (old_ + s)[..2] == old_ && (old_ + s)[2..] == s;
  }

  /** Replacing in two parts is replacing in the whole, unless an occurrence lies across. */
  lemma {:induction false} ReplaceJoins(a: string, b: string, old_: string, new_: string)
    requires |old_| == 2 && !(a != "" && b != "" && a[|a| - 1] == old_[0] && b[0] == old_[1])
    ensures ReplaceAll(a + b, old_, new_) == ReplaceAll(a, old_, new_) + ReplaceAll(b, old_, new_)
    decreases |a|
  {
    hide ReplaceAll;
    if a == "" {
      assert a + b == b;
      ReplaceNothing(old_, new_);
    } else if |a| >= 2 && a[..2] == old_ {
      ReplaceJoins(a[2..], b, old_, new_);
      ReplaceHits(a[2..], old_, new_);
      ReplaceHits(a[2..] + b, old_, new_);
      assert a == old_ + a[2..] && a + b == old_ + (a[2..] + b);
    } else {
      ReplaceJoins(a[1..], b, old_, new_);
      ReplaceMoves(a[0], a[1..], old_, new_);
      ReplaceMoves(a[0], a[1..] + b, old_, new_);
      assert a == [a[0]] + a[1..] && a + b == [a[0]] + (a[1..] + b);
    }
  }

  lemma ReplaceNothing(old_: string, new_: string)
    requires old_ != ""
    ensures ReplaceAll("", old_, new_) == ""
  {}
}
