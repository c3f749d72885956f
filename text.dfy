/** String primitives the extraction engine is built from: ASCII case folding,
    prefix/suffix/substring tests, the "..." truncation rule and the removal of
    "www." from a host name. Strings are sequences of Unicode scalar values,
    as Python's `str` is a sequence of code points. */
module Text {

  predicate IsDigit(c: char) {
    '0' <= c <= '9'
  }

  /** Lower-cases one character; only 'A'..'Z' are changed. */
  function LowerChar(c: char): char {
    if 'A' <= c <= 'Z' then (c as int + 32) as char else c
  }

  function Lower(s: string): (r: string)
    ensures |r| == |s|
    ensures forall i :: 0 <= i < |s| ==> r[i] == LowerChar(s[i])
  {
    seq(|s|, i requires 0 <= i < |s| => LowerChar(s[i]))
  }

  /** Python's `s.startswith(p)`. */
  predicate HasPrefix(s: string, p: string) {
    |p| <= |s| && s[..|p|] == p
  }

  /** Python's `s.endswith(p)`. */
  predicate HasSuffix(s: string, p: string) {
    |p| <= |s| && s[|s| - |p|..] == p
  }

  /** `p` occurs in `s` starting at offset `i`. */
  predicate OccursAt(s: string, p: string, i: int) {
    0 <= i <= |s| - |p| && s[i..i + |p|] == p
  }

  /** Python's `p in s`: `p` occurs at some offset of `s`. */
  predicate Contains(s: string, p: string) {
    exists i :: 0 <= i <= |s| - |p| && OccursAt(s, p, i)
  }

  /** Python's `any(p in s for p in ps)`. */
  predicate ContainsAny(s: string, ps: seq<string>) {
    exists k :: 0 <= k < |ps| && Contains(s, ps[k])
  }

  /** An occurrence in the tail of `s` is an occurrence in `s`, one further on. */
  lemma ContainsTail(s: string, p: string)
    ensures |s| > 0 && Contains(s[1..], p) ==> Contains(s, p)
  {
    if |s| > 0 && Contains(s[1..], p) {
      var j :| 0 <= j <= |s[1..]| - |p| && OccursAt(s[1..], p, j);
      assert s[1..][j..j + |p|] == s[j + 1..j + 1 + |p|];
      assert OccursAt(s, p, j + 1);
    }
  }

  /** `s[:n] + "..." if len(s) > n else s`: a string longer than `n` keeps its
      first `n` characters followed by an ellipsis; a shorter one is unchanged. */
  function Truncate(s: string, n: nat): (r: string)
    ensures |s| <= n ==> r == s
    ensures |s| > n ==> |r| == n + 3 && r[..n] == s[..n] && r[n..] == "..."
  {
    if |s| > n then s[..n] + "..." else s
  }

  /** Truncating twice is truncating once: a truncated string is n + 3 long,
      so the second pass cuts it back to the same n characters plus "...". */
  lemma TruncateIdempotent(s: string, n: nat)
    ensures Truncate(Truncate(s, n), n) == Truncate(s, n)
    ensures |Truncate(s, n)| <= n + 3
  {
    if |s| > n {
      var t := Truncate(s, n);
      assert t[..n] == s[..n];
      assert Truncate(t, n) == t[..n] + "...";
    }
  }

  /** Python's `s.replace("www.", "")`: scans left to right and drops every
      non-overlapping occurrence, not only a leading one. */
  function RemoveWww(s: string): (r: string)
    ensures |r| <= |s|
    decreases |s|
  {
    if HasPrefix(s, "www.") then RemoveWww(s[4..])
    else if s == [] then []
    else [s[0]] + RemoveWww(s[1..])
  }

  lemma {:induction false} RemoveWwwShrinks(s: string)
    requires Contains(s, "www.")
    ensures |RemoveWww(s)| <= |s| - 4
    decreases |s|
  {
    if !HasPrefix(s, "www.") {
      var i :| 0 <= i <= |s| - 4 && OccursAt(s, "www.", i);
      assert i != 0;
      assert s[1..][i - 1..i + 3] == s[i..i + 4];
      assert OccursAt(s[1..], "www.", i - 1);
      RemoveWwwShrinks(s[1..]);
    }
  }

  /** A host name is left unchanged exactly when it holds no "www." at all. */
  lemma {:induction false} RemoveWwwFixedIff(s: string)
    ensures RemoveWww(s) == s <==> !Contains(s, "www.")
    decreases |s|
  {
    if Contains(s, "www.") {
      RemoveWwwShrinks(s);
    } else if s != [] {
      assert !OccursAt(s, "www.", 0);
      ContainsTail(s, "www.");
      RemoveWwwFixedIff(s[1..]);
      assert s == [s[0]] + s[1..];
    }
  }

  /** A string that does not begin with "www." keeps its first character. */
  lemma RemoveWwwKeepsFirst(s: string)
    requires s != [] && !HasPrefix(s, "www.")
    ensures RemoveWww(s) == [s[0]] + RemoveWww(s[1..])
  {
  }

  /** "www." begins at none of the first `n` offsets of `s`. */
  predicate NoWwwBefore(s: string, n: int) {
    forall i :: 0 <= i < n && i <= |s| ==> !HasPrefix(s[i..], "www.")
  }

  lemma NoWwwBeforeTail(s: string, n: int)
    requires 0 < n && s != [] && NoWwwBefore(s, n)
    ensures !HasPrefix(s, "www.") && NoWwwBefore(s[1..], n - 1)
  {
    assert s[0..] == s;
    forall i | 0 <= i < n - 1 && i <= |s[1..]|
      ensures !HasPrefix(s[1..][i..], "www.")
    {
      assert s[1..][i..] == s[i + 1..];
    }
  }

  /** Removal passes a stretch at none of whose offsets "www." begins through
      unchanged. */
  lemma {:induction false} RemoveWwwKeepsPlainPrefix(a: string, b: string)
    requires NoWwwBefore(a + b, |a|)
    ensures RemoveWww(a + b) == a + RemoveWww(b)
    decreases |a|
  {
    if a == [] {
      assert a + b == b;
    } else {
      var s := a + b;
      NoWwwBeforeTail(s, |a|);
      RemoveWwwKeepsFirst(s);
      assert s[1..] == a[1..] + b;
      RemoveWwwKeepsPlainPrefix(a[1..], b);
      assert a == [a[0]] + a[1..];
    }
  }

  /** A leading "www." is dropped, e.g. "www.wired.com" becomes "wired.com". */
  lemma RemoveWwwLeading(host: string)
    requires !Contains(host, "www.")
    ensures RemoveWww("www." + host) == host
  {
    assert ("www." + host)[4..] == host;
    RemoveWwwFixedIff(host);
  }

  /** A "www." in the middle is dropped too, e.g. "blog.www.example.com"
      becomes "blog.example.com": no occurrence can begin earlier, since the
      only '.' near the boundary is the one of that "www.". */
  lemma RemoveWwwInner(sub: string, host: string)
    requires !Contains(sub, "www.")
    requires !Contains(host, "www.")
    ensures RemoveWww(sub + ("www." + host)) == sub + host
  {
    var b := "www." + host;
    var s := sub + b;
    forall i | 0 <= i < |sub| && i <= |s|
      ensures !HasPrefix(s[i..], "www.")
    {
      if i + 4 <= |sub| {
        assert s[i..][..4] == sub[i..i + 4];
        assert !OccursAt(sub, "www.", i);
      } else {
        assert s[i..][3] == s[i + 3] == b[i + 3 - |sub|] == 'w';
      }
    }
    RemoveWwwKeepsPlainPrefix(sub, b);
    RemoveWwwLeading(host);
  }

  /** One pass does not remove every "www.": dropping the one in
      "wwww.ww." joins the characters around it into a new one. */
  lemma RemoveWwwCanLeaveWww()
    ensures RemoveWww("wwww.ww.") == "www."
    ensures Contains(RemoveWww("wwww.ww."), "www.")
  {
    var s := "wwww.ww.";
    assert !HasPrefix(s, "www.") by { assert s[..4][3] == 'w'; }
    assert s[1..] == "www.ww.";
    assert HasPrefix(s[1..], "www.");
    assert s[1..][4..] == "ww.";
    var t := "ww.";
    assert !HasPrefix(t, "www.");
    assert !HasPrefix(t[1..], "www.");
    assert !HasPrefix(t[2..], "www.");
    assert t[1..][1..] == ".";
    assert RemoveWww(t) == "ww.";
    assert OccursAt("www.", "www.", 0);
  }

  /** A pattern with a character that never occurs in `s` is not contained in it. */
  lemma AbsentCharNotContained(s: string, p: string, c: char)
    requires c in p
    requires forall i :: 0 <= i < |s| ==> s[i] != c
    ensures !Contains(s, p)
  {
    var k :| 0 <= k < |p| && p[k] == c;
    forall i | 0 <= i <= |s| - |p|
      ensures !OccursAt(s, p, i)
    {
      assert s[i..i + |p|][k] != c;
    }
  }
}
