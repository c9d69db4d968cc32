/** The string operations the source leans on: strip, upper and replace. */
module Text {

  /** Python's notion of whitespace, which is what an argument-less `strip` removes. */
  predicate IsSpace(c: char) {
    var p := c as int;
    || 9 <= p <= 13 || 28 <= p <= 32 || p == 0x85 || p == 0xA0 || p == 0x1680
    || 0x2000 <= p <= 0x200A || p == 0x2028 || p == 0x2029 || p == 0x202F || p == 0x205F || p == 0x3000
  }

  function StripLeft(s: string): string {
    if s != "" && IsSpace(s[0]) then StripLeft(s[1..]) else s
  }

  function StripRight(s: string): string {
    if s != "" && IsSpace(s[|s| - 1]) then StripRight(s[..|s| - 1]) else s
  }

  function Strip(s: string): string {
    StripRight(StripLeft(s))
  }

  /** `bool(text.strip())`: the test that separates a read page from a blank one. */
  predicate HasText(s: string) {
    Strip(s) != ""
  }

  lemma {:induction false} StripLeftBlank(s: string)
    ensures StripLeft(s) == "" <==> forall c :: c in s ==> IsSpace(c)
    ensures StripLeft(s) != "" ==> !IsSpace(StripLeft(s)[0])
  {
    if s != "" && IsSpace(s[0]) {
      StripLeftBlank(s[1..]);
      assert s == [s[0]] + s[1..];
    } else if s != "" {
      assert s[0] in s;
    }
  }

  lemma {:induction false} StripRightKeepsFirst(s: string)
    requires s != "" && !IsSpace(s[0])
    ensures StripRight(s) != ""
  {
    if |s| > 1 && IsSpace(s[|s| - 1]) {
      StripRightKeepsFirst(s[..|s| - 1]);
    }
  }

  /** A string has text exactly when some character of it is not whitespace. */
  lemma HasTextIff(s: string)
    ensures HasText(s) <==> exists c :: c in s && !IsSpace(c)
  {
    StripLeftBlank(s);
    if StripLeft(s) != "" {
      StripRightKeepsFirst(StripLeft(s));
    }
  }

  /** A page that contains a stretch with text has text itself. */
  lemma SliceHasText(s: string, lo: nat, hi: nat)
    requires lo <= hi <= |s| && HasText(s[lo..hi])
    ensures HasText(s)
  {
    HasTextIff(s[lo..hi]);
    HasTextIff(s);
    var c :| c in s[lo..hi] && !IsSpace(c);
    assert c in s;
  }

  function UpperChar(c: char): char {
    if 'a' <= c <= 'z' then (c as int - 32) as char else c
  }

  function Upper(s: string): (r: string)
    ensures |r| == |s|
    ensures forall i :: 0 <= i < |s| ==> r[i] == UpperChar(s[i])
  {
    seq(|s|, i requires 0 <= i < |s| => UpperChar(s[i]))
  }

  function LowerChar(c: char): char {
    if 'A' <= c <= 'Z' then (c as int + 32) as char else c
  }

  /** `s.casefold()` on ASCII. */
  function Casefold(s: string): string {
    seq(|s|, i requires 0 <= i < |s| => LowerChar(s[i]))
  }

  /** `s.replace(c, "")`. */
  function Remove(s: string, c: char): string {
    if s == "" then ""
    else if s[0] == c then Remove(s[1..], c)
    else [s[0]] + Remove(s[1..], c)
  }

  lemma RemoveOne(c: char, d: char)
    ensures Remove([c], d) == if c == d then "" else [c]
  {
    assert [c][1..] == "";
  }

  lemma {:induction false} RemoveAppend(s: string, t: string, c: char)
    ensures Remove(s + t, c) == Remove(s, c) + Remove(t, c)
  {
    if s == "" {
      assert s + t == t;
    } else {
      RemoveAppend(s[1..], t, c);
      assert (s + t)[0] == s[0] && (s + t)[1..] == s[1..] + t;
      assert [s[0]] + (Remove(s[1..], c) + Remove(t, c)) == [s[0]] + Remove(s[1..], c) + Remove(t, c);
    }
  }

  // ----- blanks and case -----

  lemma {:induction false} BlanksBeforeGo(before: string, s: string)
    requires forall c :: c in before ==> IsSpace(c)
    ensures StripLeft(before + s) == StripLeft(s)
  {
    if before == "" {
      assert before + s == s;
    } else {
      assert before[0] in before;
      assert (before + s)[1..] == before[1..] + s;
      BlanksBeforeGo(before[1..], s);
    }
  }

  lemma {:induction false} BlanksAfterGo(s: string, after: string)
    requires forall c :: c in after ==> IsSpace(c)
    ensures Strip(s + after) == Strip(s)
  {
    if after == "" {
      assert s + after == s;
    } else {
      var front, last := after[..|after| - 1], after[|after| - 1];
      assert last in after;
      BlanksAfterGo(s, front);
      assert s + after == (s + front) + [last];
      OneBlankAfterGoes(s + front, last);
    }
  }

  lemma {:induction false} OneBlankAfterGoes(s: string, c: char)
    requires IsSpace(c)
    ensures Strip(s + [c]) == Strip(s)
  {
    if s == "" {
      assert s + [c] == [c] && [c][1..] == "";
    } else if IsSpace(s[0]) {
      assert (s + [c])[1..] == s[1..] + [c];
      OneBlankAfterGoes(s[1..], c);
    } else {
      assert (s + [c])[..|s|] == s;
    }
  }

  lemma SameCharsUpToCase(p: string, q: string, i: nat)
    requires Upper(p) == Upper(q) && i < |p|
    ensures |q| == |p| && UpperChar(p[i]) == UpperChar(q[i])
    ensures IsSpace(p[i]) <==> IsSpace(q[i])
    ensures LowerChar(p[i]) == LowerChar(q[i])
  {
    assert Upper(p)[i] == UpperChar(p[i]) && Upper(q)[i] == UpperChar(q[i]);
    assert |Upper(q)| == |q|;
  }

  lemma {:induction false} StripLeftIgnoresCase(p: string, q: string)
    requires Upper(p) == Upper(q)
    ensures Upper(StripLeft(p)) == Upper(StripLeft(q))
  {
    assert |p| == |Upper(p)| == |q|;
    if p != "" {
      SameCharsUpToCase(p, q, 0);
      if IsSpace(p[0]) {
        assert Upper(p[1..]) == Upper(p)[1..] && Upper(q[1..]) == Upper(q)[1..];
        StripLeftIgnoresCase(p[1..], q[1..]);
      }
    }
  }

  lemma {:induction false} StripRightIgnoresCase(p: string, q: string)
    requires Upper(p) == Upper(q)
    ensures Upper(StripRight(p)) == Upper(StripRight(q))
  {
    assert |p| == |Upper(p)| == |q|;
    if p != "" {
      var n := |p| - 1;
      SameCharsUpToCase(p, q, n);
      if IsSpace(p[n]) {
        assert Upper(p[..n]) == Upper(p)[..n] && Upper(q[..n]) == Upper(q)[..n];
        StripRightIgnoresCase(p[..n], q[..n]);
      }
    }
  }

  lemma StripIgnoresCase(p: string, q: string)
    requires Upper(p) == Upper(q)
    ensures Upper(Strip(p)) == Upper(Strip(q))
  {
    StripLeftIgnoresCase(p, q);
    StripRightIgnoresCase(StripLeft(p), StripLeft(q));
  }

  lemma CasefoldIgnoresCase(p: string, q: string)
    requires Upper(p) == Upper(q)
    ensures Casefold(p) == Casefold(q)
  {
    assert |p| == |Upper(p)| == |q|;
    forall i: nat | i < |p| ensures Casefold(p)[i] == Casefold(q)[i] {
      SameCharsUpToCase(p, q, i);
    }
  }

}
