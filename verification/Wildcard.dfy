/**
  The wildcard matcher of the console: `*` stands for any run of characters, `?` for any one.
  The loop backtracks only to the latest star; `Wildcmp` shows that no match is lost by that.
*/
module Wildcard {

  /** The characters of a C string, without the terminating NUL. */
  type CString = s: string | '\0' !in s

  function At(s: CString, i: nat): char {
    if i < |s| then s[i] else '\0'
  }

  /** `tolower` in the C locale. */
  function ToLower(c: char): char {
    if 'A' <= c <= 'Z' then (c as int + 32) as char else c
  }

  predicate SameChar(caseSensitive: bool, a: char, b: char) {
    if caseSensitive then a == b else ToLower(a) == ToLower(b)
  }

  /** One pattern character other than `*` against one character of the data. */
  predicate CharMatches(cs: bool, p: char, d: char) {
    SameChar(cs, p, d) || p == '?'
  }

  /** `?` matches anything, and without case sensitivity the two cases of each letter match; nothing else does. */
  lemma WhichCharsMatch(cs: bool, p: char, d: char)
    ensures CharMatches(cs, p, d) <==>
            || p == '?' || p == d
            || (!cs && 'A' <= p <= 'Z' && d as int == p as int + 32)
            || (!cs && 'A' <= d <= 'Z' && p as int == d as int + 32)
  {
  }

  // ---------- The meaning of a pattern ----------

  ghost predicate Matches(cs: bool, p: CString, d: CString)
    decreases |p|
  {
    if p == [] then d == []
    else if p[0] == '*' then exists k | 0 <= k <= |d| :: Matches(cs, p[1..], d[k..])
    else d != [] && CharMatches(cs, p[0], d[0]) && Matches(cs, p[1..], d[1..])
  }

  /** A text without wildcards matches itself alone. */
  lemma {:induction false} PlainText(p: CString, d: CString)
    requires '*' !in p && '?' !in p
    ensures Matches(true, p, d) <==> p == d
    decreases |p|
  {
    if p != [] {
      assert p[0] in p;
      if d != [] {
        PlainText(p[1..], d[1..]);
        assert p == [p[0]] + p[1..] && d == [d[0]] + d[1..];
      }
    }
  }

  /** A star and a text match the texts that end with it. */
  lemma StarAndText(p: CString, d: CString)
    requires '*' !in p && '?' !in p
    ensures Matches(true, ['*'] + p, d) <==> |p| <= |d| && d[|d| - |p|..] == p
  {
    assert (['*'] + p)[1..] == p;
    forall k | 0 <= k <= |d| ensures Matches(true, p, d[k..]) <==> p == d[k..] {
      PlainText(p, d[k..]);
    }
    if |p| <= |d| && d[|d| - |p|..] == p {
      assert Matches(true, p, d[|d| - |p|..]);
    }
  }

  /** `d` begins with a match of the star-free `p`. */
  ghost predicate Begins(cs: bool, p: CString, d: CString) {
    && |p| <= |d| && '*' !in p
    && forall i :: 0 <= i < |p| ==> CharMatches(cs, p[i], d[i])
  }

  /** Some suffix of `d` from `from` on matches. */
  ghost predicate MatchesFrom(cs: bool, p: CString, d: CString, from: nat) {
    exists k | from <= k <= |d| :: Matches(cs, p, d[k..])
  }

  /** A star-free beginning can be split off a match. */
  lemma {:induction false} SplitBegins(cs: bool, p: CString, q: CString, d: CString)
    requires '*' !in p
    ensures Matches(cs, p + q, d) <==> Begins(cs, p, d) && Matches(cs, q, d[|p|..])
    decreases |p|
  {
    if p == [] {
      assert p + q == q;
      assert d[0..] == d;
    } else {
      assert (p + q)[1..] == p[1..] + q;
      assert (p + q)[0] == p[0] && p[0] in p;
      if d != [] {
        SplitBegins(cs, p[1..], q, d[1..]);
        assert |p| <= |d| ==> d[1..][|p[1..]|..] == d[|p|..];
        if Begins(cs, p[1..], d[1..]) && CharMatches(cs, p[0], d[0]) {
          assert forall i :: 0 <= i < |p| ==> CharMatches(cs, p[i], d[i]) by {
            forall i | 0 <= i < |p| ensures CharMatches(cs, p[i], d[i]) {
              if i > 0 { assert p[1..][i - 1] == p[i] && d[1..][i - 1] == d[i]; }
            }
          }
        }
        if Begins(cs, p, d) {
          assert forall i :: 0 <= i < |p| - 1 ==> p[1..][i] == p[i + 1] && d[1..][i] == d[i + 1];
        }
      }
    }
  }

  lemma BeginsIsShort(cs: bool, p: CString, d: CString)
    requires Begins(cs, p, d)
    ensures |p| <= |d|
  {
  }

  /** A pattern that begins with a star and matches a suffix of `d` matches `d`. */
  lemma StarAbsorbs(cs: bool, p: CString, d: CString, k: nat)
    requires p != [] && p[0] == '*' && k <= |d| && Matches(cs, p, d[k..])
    ensures Matches(cs, p, d)
  {
    var j :| 0 <= j <= |d[k..]| && Matches(cs, p[1..], d[k..][j..]);
    assert d[k..][j..] == d[k + j..];
  }

  lemma SomeStart(cs: bool, p: CString, data: CString, from: nat) returns (k: nat)
    requires MatchesFrom(cs, p, data, from)
    ensures from <= k <= |data| && Matches(cs, p, data[k..])
  {
    k :| from <= k <= |data| && Matches(cs, p, data[k..]);
  }

  lemma TwoParts(s: CString, a: nat, b: nat)
    requires a <= b <= |s| && forall i :: a <= i < b ==> s[i] != '*'
    ensures s[a..] == s[a..b] + s[b..] && '*' !in s[a..b]
  {
  }

  lemma Later(s: CString, a: nat, n: nat)
    requires a + n <= |s|
    ensures s[a..][n..] == s[a + n..]
  {
  }

  /**
    The reason why only the latest star matters: once the text after the star `mp` has matched
    up to a second star, any later start for the first star is covered by the second one.
  */
  lemma LaterStarCovers(cs: bool, wild: CString, data: CString, mp: nat, w: nat, start: nat, d: nat)
    requires mp <= w < |wild| && wild[w] == '*' && start <= d <= |data| && d - start == w - mp
    requires forall i :: mp <= i < w ==> wild[i] != '*'
    ensures MatchesFrom(cs, wild[mp..], data, start + 1) ==> Matches(cs, wild[w..], data[d..])
  {
    if MatchesFrom(cs, wild[mp..], data, start + 1) {
      hide Matches, Begins, MatchesFrom;
      var k := SomeStart(cs, wild[mp..], data, start + 1);
      var p := wild[mp..w];
      TwoParts(wild, mp, w);
      SplitBegins(cs, p, wild[w..], data[k..]);
      BeginsIsShort(cs, p, data[k..]);
      var m := k + (w - mp);
      Later(data, k, w - mp);
      Later(data, d, m - d);
      StarAbsorbs(cs, wild[w..], data[d..], m - d);
    }
  }

  /** When the data run out in the middle of an attempt, later starts leave too little data. */
  lemma LaterStartsTooShort(cs: bool, wild: CString, data: CString, mp: nat, w: nat, start: nat)
    requires mp <= w <= |wild| && (forall i :: mp <= i < w ==> wild[i] != '*') && |data| - start == w - mp
    ensures !MatchesFrom(cs, wild[mp..], data, start + 1)
  {
    forall k | start + 1 <= k <= |data|
      ensures !Matches(cs, wild[mp..], data[k..])
    {
      assert wild[mp..] == wild[mp..w] + wild[w..];
      SplitBegins(cs, wild[mp..w], wild[w..], data[k..]);
    }
  }

  lemma NextStart(cs: bool, p: CString, data: CString, start: nat)
    requires start <= |data|
    ensures MatchesFrom(cs, p, data, start) <==>
            Matches(cs, p, data[start..]) || MatchesFrom(cs, p, data, start + 1)
  {
  }

  /** One character of pattern and data; the end of the pattern matches no character. */
  lemma OneChar(cs: bool, wild: CString, data: CString, w: nat, d: nat)
    requires w <= |wild| && d < |data| && At(wild, w) != '*'
    ensures !(CharMatches(cs, At(wild, w), data[d])) ==> !Matches(cs, wild[w..], data[d..])
    ensures CharMatches(cs, At(wild, w), data[d]) ==>
            w < |wild| && (Matches(cs, wild[w..], data[d..]) <==> Matches(cs, wild[w + 1..], data[d + 1..]))
  {
    assert data[d] != '\0';
    assert data[d..][1..] == data[d + 1..];
    if w < |wild| {
      assert wild[w..][1..] == wild[w + 1..];
    }
  }

  lemma StarMeansFrom(cs: bool, wild: CString, data: CString, w: nat, d: nat)
    requires w < |wild| && wild[w] == '*' && d <= |data|
    ensures Matches(cs, wild[w..], data[d..]) <==> MatchesFrom(cs, wild[w + 1..], data, d)
  {
    assert wild[w..][1..] == wild[w + 1..];
    assert forall k | d <= k <= |data| :: data[k..] == data[d..][k - d..];
    assert forall k | 0 <= k <= |data[d..]| :: data[d..][k..] == data[d + k..];
  }

  /** Against no data only stars match. */
  lemma NoData(cs: bool, wild: CString, w: nat)
    requires w <= |wild|
    ensures At(wild, w) == '*' ==> (Matches(cs, wild[w..], "") <==> Matches(cs, wild[w + 1..], ""))
    ensures At(wild, w) != '*' ==> (Matches(cs, wild[w..], "") <==> w == |wild|)
  {
    var empty: CString := "";
    assert forall k | 0 <= k <= |empty| :: empty[k..] == empty;
    if w < |wild| {
      assert wild[w..][1..] == wild[w + 1..];
      assert empty[0..] == empty;
    }
  }

  /** What the loop still has to decide: the current attempt, or a later start after the latest star. */
  ghost predicate Pending(
    cs: bool, wild: CString, data: CString, seenStar: bool, mp: nat, w: nat, cp: nat, d: nat)
    requires mp <= |wild| && w <= |wild| && d <= |data|
  {
    Matches(cs, wild[w..], data[d..]) || (seenStar && MatchesFrom(cs, wild[mp..], data, cp))
  }

  lemma NewStar(cs: bool, wild: CString, data: CString, seenStar: bool, mp: nat, w: nat, cp: nat, d: nat)
    requires mp <= |wild| && w < |wild| && wild[w] == '*' && d <= |data|
    requires seenStar ==> mp <= w && 1 <= cp && cp - 1 <= d && d - (cp - 1) == w - mp
    requires seenStar ==> forall i :: mp <= i < w ==> wild[i] != '*'
    ensures Pending(cs, wild, data, seenStar, mp, w, cp, d) <==>
            Pending(cs, wild, data, true, w + 1, w + 1, d + 1, d)
  {
    hide Matches, MatchesFrom;
    if seenStar {
      LaterStarCovers(cs, wild, data, mp, w, cp - 1, d);
    }
    StarMeansFrom(cs, wild, data, w, d);
    NextStart(cs, wild[w + 1..], data, d);
  }

  lemma FinalStar(cs: bool, wild: CString, data: CString, d: nat)
    requires d <= |data|
    ensures Pending(cs, wild, data, true, |wild|, |wild|, d + 1, d)
  {
    var empty: CString := "";
    assert wild[|wild|..] == empty && data[|data|..] == empty;
    assert Matches(cs, empty, data[|data|..]);
  }

  // ---------- The matcher ----------

  method Wildcmp(wild: CString, data: CString, caseSensitive: bool) returns (r: bool)
    ensures r <==> Matches(caseSensitive, wild, data)
  {
    hide Matches, MatchesFrom, SameChar;
    var w, d := 0, 0;
    assert wild[0..] == wild && data[0..] == data;
    while At(data, d) != '\0' && At(wild, w) != '*'
      invariant w <= |wild| && d <= |data|
      invariant Matches(caseSensitive, wild, data) <==> Matches(caseSensitive, wild[w..], data[d..])
      decreases |data| - d
    {
      OneChar(caseSensitive, wild, data, w, d);
      if !SameChar(caseSensitive, At(wild, w), At(data, d)) && At(wild, w) != '?' {
        return false;
      }
      w, d := w + 1, d + 1;
    }

    // `mp` is just past the latest star and `cp - 1` is where the current attempt starts
    var mp, cp := 0, 0;
    ghost var seenStar := false;
    while At(data, d) != '\0'
      invariant mp <= |wild| && w <= |wild| && d <= |data|
      invariant !seenStar ==> At(data, d) == '\0' || At(wild, w) == '*'
      invariant seenStar ==> mp <= w && 1 <= cp && cp - 1 <= d && d - (cp - 1) == w - mp
      invariant seenStar ==> forall i :: mp <= i < w ==> wild[i] != '*'
      invariant Matches(caseSensitive, wild, data) <==>
        Pending(caseSensitive, wild, data, seenStar, mp, w, cp, d)
      decreases if seenStar then |wild| - mp else |wild| + 1, |data| - cp, |data| - d
    {
      if At(wild, w) == '*' {
        NewStar(caseSensitive, wild, data, seenStar, mp, w, cp, d);
        w := w + 1;
        if At(wild, w) == '\0' {
          FinalStar(caseSensitive, wild, data, d);
          return true;
        }
        mp, cp := w, d + 1;
        seenStar := true;
      } else {
        OneChar(caseSensitive, wild, data, w, d);
        if SameChar(caseSensitive, At(wild, w), At(data, d)) || At(wild, w) == '?' {
          w, d := w + 1, d + 1;
        } else {
          NextStart(caseSensitive, wild[mp..], data, cp);
          w, d := mp, cp;
          cp := cp + 1;
        }
      }
    }
    assert data[d..] == "";
    if seenStar {
      LaterStartsTooShort(caseSensitive, wild, data, mp, w, cp - 1);
    }
    while At(wild, w) == '*'
      invariant w <= |wild|
      invariant Matches(caseSensitive, wild, data) <==> Matches(caseSensitive, wild[w..], "")
      decreases |wild| - w
    {
      NoData(caseSensitive, wild, w);
      w := w + 1;
    }
    NoData(caseSensitive, wild, w);
    return At(wild, w) == '\0';
  }
}
