// Access-rule patterns: `*` stands for any sequence, `_` for one character.
module Glob {
  import opened Base

  // ----- what a pattern means --------------------------------------------------------

  predicate Matches(p: string, t: string)
    decreases |p|, |t|
  {
    if p == "" then t == ""
    else if p[0] == '*' then Matches(p[1..], t) || (t != "" && Matches(p, t[1..]))
    else t != "" && (p[0] == '_' || p[0] == t[0]) && Matches(p[1..], t[1..])
  }

  predicate AllStars(p: string) {
    forall k :: 0 <= k < |p| ==> p[k] == '*'
  }

  // ----- the two-pointer scan --------------------------------------------------------

  // The scan from text index `i` and pattern index `j`; `star` is the last '*' taken and `mark`
  // the text index up to which it has been made to stretch.
  predicate Scan(p: string, t: string, i: nat, j: nat, star: Option<nat>, mark: nat)
    requires i <= |t| && j <= |p| && mark <= i
    requires star.Some? ==> star.value < j
    decreases |t| - mark, |p| - j
  {
    if i == |t| then AllStars(p[j..])
    else if j < |p| && (p[j] == '_' || p[j] == t[i]) then Scan(p, t, i + 1, j + 1, star, mark)
    else if j < |p| && p[j] == '*' then Scan(p, t, i, j + 1, Some(j), i)
    else if star.Some? then Scan(p, t, mark + 1, star.value + 1, star, mark + 1)
    else false
  }

  predicate SqlLike(p: string, t: string) {
    Scan(p, t, 0, 0, None, 0)
  }

  // `n` rounds of backtracking at `cost` each.
  function Times(n: nat, cost: nat): nat {
    if n == 0 then 0 else cost + Times(n - 1, cost)
  }

  lemma {:induction false} TimesGrows(m: nat, n: nat, cost: nat)
    requires m <= n
    ensures Times(m, cost) <= Times(n, cost)
  {
    if m < n {
      TimesGrows(m, n - 1, cost);
    }
  }

  lemma {:induction false} TimesIsProduct(n: nat, cost: nat)
    ensures Times(n, cost) == n * cost
  {
    if n > 0 {
      TimesIsProduct(n - 1, cost);
      assert n * cost == (n - 1) * cost + cost;
    }
  }

  lemma RoundsBound(rounds: nat, mark: nat, j: nat, p: string, t: string)
    requires rounds <= Times(mark, |p| + 1) + j + 1 && mark <= |t| && j <= |p|
    requires rounds == Times(mark, |p| + 1) + j + 1 ==> mark < |t| || j < |p|
    ensures rounds < (|p| + 1) * (|t| + 1)
  {
    TimesGrows(mark, |t|, |p| + 1);
    if mark < |t| {
      TimesGrows(mark + 1, |t|, |p| + 1);
    }
    TimesIsProduct(|t|, |p| + 1);
    assert |t| * (|p| + 1) + (|p| + 1) == (|p| + 1) * (|t| + 1);
  }

  // The matcher, and the number of times its loop goes round: between two backtracks the pattern
  // index only grows, and each backtrack moves the mark.
  method SqlLikeMatch(pattern: string, text: string) returns (r: bool, ghost rounds: nat)
    ensures r == SqlLike(pattern, text)
    ensures rounds < (|pattern| + 1) * (|text| + 1)
  {
    rounds := 0;
    var i, j := 0, 0;
    var star: Option<nat> := None;
    var mark := 0;
    while i < |text|
      invariant 0 <= mark <= i <= |text| && 0 <= j <= |pattern|
      invariant star.Some? ==> star.value < j
      invariant Scan(pattern, text, i, j, star, mark) == SqlLike(pattern, text)
      invariant rounds <= Times(mark, |pattern| + 1) + j
      decreases |text| - mark, |pattern| - j
    {
      rounds := rounds + 1;
      if j < |pattern| && (pattern[j] == '_' || pattern[j] == text[i]) {
        i := i + 1;
        j := j + 1;
      } else if j < |pattern| && pattern[j] == '*' {
        TimesGrows(mark, i, |pattern| + 1);
        star := Some(j);
        mark := i;
        j := j + 1;
      } else if star.Some? {
        j := star.value + 1;
        mark := mark + 1;
        i := mark;
      } else {
        RoundsBound(rounds, mark, j, pattern, text);
        return false, rounds;
      }
    }
    RoundsBound(rounds, mark, j, pattern, text);
    while j < |pattern| && pattern[j] == '*'
      invariant 0 <= j <= |pattern|
      invariant AllStars(pattern[j..]) == SqlLike(pattern, text)
    {
      assert pattern[j..] == [pattern[j]] + pattern[j + 1..];
      j := j + 1;
    }
    if j < |pattern| {
      assert pattern[j..][0] != '*';
    }
    r := j == |pattern|;
  }

  // ----- soundness: for every pattern and text ---------------------------------------

  lemma {:induction false} AllStarsMatchEmpty(p: string)
    ensures Matches(p, "") <==> AllStars(p)
  {
    if p != "" {
      AllStarsMatchEmpty(p[1..]);
      assert p == [p[0]] + p[1..];
    }
  }

  // A '*' may give one text character to be matched before it.
  lemma StarAbsorbsOne(p: string, t: string)
    requires p != "" && p[0] == '*' && t != "" && Matches(p[1..], t[1..])
    ensures Matches(p, t)
  {
    assert Matches(p, t[1..]);
  }

  lemma {:induction false} ScanIsSound(p: string, t: string, i: nat, j: nat, star: Option<nat>, mark: nat)
    requires i <= |t| && j <= |p| && mark <= i
    requires star.Some? ==> star.value < j && p[star.value] == '*'
    requires Scan(p, t, i, j, star, mark)
    ensures Matches(p[j..], t[i..]) || (star.Some? && Matches(p[star.value..], t[mark..]))
    decreases |t| - mark, |p| - j
  {
    if i == |t| {
      AllStarsMatchEmpty(p[j..]);
    } else if j < |p| && (p[j] == '_' || p[j] == t[i]) {
      ScanIsSound(p, t, i + 1, j + 1, star, mark);
      assert p[j..][1..] == p[j + 1..] && t[i..][1..] == t[i + 1..];
      if p[j] == '*' && Matches(p[j + 1..], t[i + 1..]) {
        StarAbsorbsOne(p[j..], t[i..]);
      }
    } else if j < |p| && p[j] == '*' {
      ScanIsSound(p, t, i, j + 1, Some(j), i);
      assert p[j..][1..] == p[j + 1..];
    } else {
      var s := star.value;
      ScanIsSound(p, t, mark + 1, s + 1, star, mark + 1);
      assert p[s..][1..] == p[s + 1..] && t[mark..][1..] == t[mark + 1..];
      if Matches(p[s + 1..], t[mark + 1..]) {
        StarAbsorbsOne(p[s..], t[mark..]);
      }
    }
  }

  // Whatever is accepted is a match.
  lemma AcceptedIsMatch(p: string, t: string)
    requires SqlLike(p, t)
    ensures Matches(p, t)
  {
    ScanIsSound(p, t, 0, 0, None, 0);
    assert p[0..] == p && t[0..] == t;
  }

  // ----- completeness: for texts without '*' -----------------------------------------

  predicate Starless(s: string) {
    '*' !in s
  }

  // A starless head of the pattern consumes exactly its own length of text.
  lemma {:induction false} StarlessHead(q: string, r: string, t: string)
    requires Starless(q) && Matches(q + r, t)
    ensures |q| <= |t| && Matches(r, t[|q|..])
  {
    if q == "" {
      assert q + r == r && t[0..] == t;
    } else {
      assert (q + r)[0] == q[0] && (q + r)[1..] == q[1..] + r;
      StarlessHead(q[1..], r, t[1..]);
      assert t[1..][|q| - 1..] == t[|q|..];
    }
  }

  lemma {:induction false} StarAbsorbs(p: string, t: string, n: nat)
    requires p != "" && p[0] == '*' && n <= |t| && Matches(p, t[n..])
    ensures Matches(p, t)
  {
    if n == 0 {
      assert t[0..] == t;
    } else {
      assert t[1..][n - 1..] == t[n..];
      StarAbsorbs(p, t[1..], n - 1);
    }
  }

  // A '*'-led pattern matches where its rest matches some suffix.
  lemma {:induction false} StarSplits(p: string, t: string) returns (n: nat)
    requires p != "" && p[0] == '*' && Matches(p, t)
    ensures n <= |t| && Matches(p[1..], t[n..])
  {
    if Matches(p[1..], t) {
      n := 0;
      assert t[0..] == t;
    } else {
      var m := StarSplits(p, t[1..]);
      n := m + 1;
      assert t[1..][m..] == t[n..];
    }
  }

  // The other ways the scan could still go: the last star stretching past the mark.
  predicate Alternative(p: string, t: string, star: Option<nat>, mark: nat)
    requires star.Some? ==> star.value < |p|
  {
    star.Some? && mark + 1 <= |t| && Matches(p[star.value..], t[mark + 1..])
  }

  // If the last star can stretch further, so that what follows it matches later text, then the
  // pattern from `j` matches at some text index beyond `i`.
  lemma LaterMatch(p: string, t: string, i: nat, j: nat, s: nat, mark: nat) returns (k: nat)
    requires mark <= i <= |t| && s < j <= |p| && p[s] == '*'
    requires Starless(p[s + 1..j]) && i - mark == j - s - 1
    requires Alternative(p, t, Some(s), mark)
    ensures i < k <= |t| && Matches(p[j..], t[k..])
  {
    var n := StarSplits(p[s..], t[mark + 1..]);
    assert p[s..][1..] == p[s + 1..] && t[mark + 1..][n..] == t[mark + 1 + n..];
    assert p[s + 1..] == p[s + 1..j] + p[j..];
    StarlessHead(p[s + 1..j], p[j..], t[mark + 1 + n..]);
    k := i + 1 + n;
    assert t[mark + 1 + n..][j - s - 1..] == t[k..];
  }

  lemma {:induction false} ScanIsComplete(p: string, t: string, i: nat, j: nat, star: Option<nat>, mark: nat)
    requires Starless(t) && i <= |t| && j <= |p| && mark <= i
    requires star.Some? ==>
               star.value < j && p[star.value] == '*' && Starless(p[star.value + 1..j]) && i - mark == j - star.value - 1
    requires Matches(p[j..], t[i..]) || Alternative(p, t, star, mark)
    ensures Scan(p, t, i, j, star, mark)
    decreases |t| - mark, |p| - j
  {
    if i == |t| {
      if Alternative(p, t, star, mark) {
        var k := LaterMatch(p, t, i, j, star.value, mark);
        assert false;
      }
      AllStarsMatchEmpty(p[j..]);
    } else if j < |p| && (p[j] == '_' || p[j] == t[i]) {
      assert p[j..][1..] == p[j + 1..] && t[i..][1..] == t[i + 1..] && t[i] in t;
      if star.Some? {
        assert p[star.value + 1..j + 1] == p[star.value + 1..j] + [p[j]];
      }
      ScanIsComplete(p, t, i + 1, j + 1, star, mark);
    } else if j < |p| && p[j] == '*' {
      if Alternative(p, t, star, mark) {
        var k := LaterMatch(p, t, i, j, star.value, mark);
        assert t[i..][k - i..] == t[k..];
        StarAbsorbs(p[j..], t[i..], k - i);
      }
      assert p[j..][1..] == p[j + 1..] && t[i..][1..] == t[i + 1..] && p[j + 1..j + 1] == "";
      ScanIsComplete(p, t, i, j + 1, Some(j), i);
    } else {
      assert !Matches(p[j..], t[i..]);
      var s := star.value;
      assert p[s..][1..] == p[s + 1..] && t[mark + 1..] != "" ==> t[mark + 1..][1..] == t[mark + 2..];
      assert p[s + 1..s + 1] == "";
      ScanIsComplete(p, t, mark + 1, s + 1, star, mark + 1);
    }
  }

  // On texts without '*' the matcher and the meaning agree.
  lemma AgreesOnStarlessTexts(p: string, t: string)
    requires Starless(t)
    ensures SqlLike(p, t) <==> Matches(p, t)
  {
    assert p[0..] == p && t[0..] == t;
    if Matches(p, t) {
      ScanIsComplete(p, t, 0, 0, None, 0);
    } else if SqlLike(p, t) {
      AcceptedIsMatch(p, t);
    }
  }

  // ----- exactly those texts ---------------------------------------------------------

  function Repeat(c: char, n: nat): string {
    seq(n, _ => c)
  }

  // The text up to its first '*', that '*', and one '_' too many.
  function Confusing(t: string, i: nat): string
    requires i < |t|
  {
    t[..i] + "*" + Repeat('_', |t| - i)
  }

  lemma {:induction false} UnderscoresMatch(t: string)
    ensures Matches(Repeat('_', |t|), t)
  {
    if t != "" {
      UnderscoresMatch(t[1..]);
      assert Repeat('_', |t|)[1..] == Repeat('_', |t| - 1);
    }
  }

  lemma {:induction false} SelfMatch(q: string, p: string, t: string)
    requires Starless(q) && Matches(p, t)
    ensures Matches(q + p, q + t)
  {
    if q == "" {
      assert q + p == p && q + t == t;
    } else {
      assert (q + p)[1..] == q[1..] + p && (q + t)[1..] == q[1..] + t;
      SelfMatch(q[1..], p, t);
    }
  }

  // On that pattern the scan takes the text's '*' for a literal and ends one '_' short.
  lemma {:induction false} ScanRunsShort(t: string, i: nat, k: nat)
    requires i < |t| && t[i] == '*' && k <= |t|
    ensures !Scan(Confusing(t, i), t, k, k, None, 0)
    decreases |t| - k
  {
    var p := Confusing(t, i);
    if k == |t| {
      assert p[k] == '_' && p[k..][0] == '_';
    } else {
      ScanRunsShort(t, i, k + 1);
      assert p[k] == if k < i then t[k] else if k == i then '*' else '_';
    }
  }

  lemma FirstStar(t: string) returns (i: nat)
    requires !Starless(t)
    ensures i < |t| && t[i] == '*' && Starless(t[..i])
  {
    i := 0;
    while t[i] != '*'
      invariant i < |t| && Starless(t[..i]) && '*' in t[i..]
      decreases |t| - i
    {
      assert t[..i + 1] == t[..i] + [t[i]] && t[i..] == [t[i]] + t[i + 1..];
      i := i + 1;
    }
  }

  // Every text that contains '*' has a pattern that matches it and is refused.
  lemma StarredTextsAreMissed(t: string) returns (p: string)
    requires !Starless(t)
    ensures Matches(p, t) && !SqlLike(p, t)
  {
    var i := FirstStar(t);
    p := Confusing(t, i);
    UnderscoresMatch(t[i..]);
    var rest := "*" + Repeat('_', |t| - i);
    assert rest[1..] == Repeat('_', |t[i..]|);
    assert Matches(rest, t[i..]);
    SelfMatch(t[..i], rest, t[i..]);
    assert t[..i] + t[i..] == t && t[..i] + rest == p;
    ScanRunsShort(t, i, 0);
  }

  // The matcher is right about a text under every pattern exactly when the text has no '*'.
  lemma RightExactlyOnStarlessTexts(t: string)
    ensures (forall p: string :: SqlLike(p, t) <==> Matches(p, t)) <==> Starless(t)
  {
    if Starless(t) {
      forall p: string
        ensures SqlLike(p, t) <==> Matches(p, t)
      {
        AgreesOnStarlessTexts(p, t);
      }
    } else {
      var p := StarredTextsAreMissed(t);
    }
  }

  // ----- exactly the patterns without '*' --------------------------------------------

  // A pattern without '*' is scanned character by character, whatever the text.
  lemma {:induction false} StarlessScan(p: string, t: string, i: nat, j: nat)
    requires Starless(p) && i <= |t| && j <= |p|
    ensures Scan(p, t, i, j, None, 0) <==> Matches(p[j..], t[i..])
    decreases |t| - i
  {
    if i == |t| {
      AllStarsMatchEmpty(p[j..]);
    } else if j < |p| {
      assert p[j..][1..] == p[j + 1..] && t[i..][1..] == t[i + 1..] && p[j] in p;
      if p[j] == '_' || p[j] == t[i] {
        StarlessScan(p, t, i + 1, j + 1);
      }
    }
  }

  // A pattern matches itself, and still does when something is put in after one of its stars.
  lemma {:induction false} MatchesAroundStar(q: string, r: string, x: string)
    ensures Matches(q + ("*" + r), q + ("*" + x + r))
    decreases |q|
  {
    var p, t := q + ("*" + r), q + ("*" + x + r);
    if q == "" {
      SelfMatches(r);
      assert p[1..] == r && t[|x| + 1..] == r;
      StarSkips(p, t, |x| + 1);
    } else {
      assert p[1..] == q[1..] + ("*" + r) && t[1..] == q[1..] + ("*" + x + r);
      MatchesAroundStar(q[1..], r, x);
      if q[0] == '*' {
        StarAbsorbsOne(p, t);
      }
    }
  }

  lemma {:induction false} SelfMatches(p: string)
    ensures Matches(p, p)
  {
    if p != "" {
      SelfMatches(p[1..]);
      if p[0] == '*' {
        StarAbsorbsOne(p, p);
      }
    }
  }

  lemma StarSkips(p: string, t: string, n: nat)
    requires p != "" && p[0] == '*' && n <= |t| && Matches(p[1..], t[n..])
    ensures Matches(p, t)
  {
    StarAbsorbs(p, t, n);
  }

  // The scan takes every star up to the last one for a literal, and runs out of pattern first.
  lemma {:induction false} ScanStaysAligned(q: string, r: string, x: char, k: nat)
    requires Starless(r) && k <= |q + ("*" + r)|
    ensures !Scan(q + ("*" + r), q + ("*" + [x] + r), k, k, None, 0)
    decreases |q + ("*" + r)| - k
  {
    var p, t := q + ("*" + r), q + ("*" + [x] + r);
    if k < |p| {
      if k <= |q| {
        assert p[k] == t[k];
      } else {
        assert p[k] == r[k - |q| - 1];
      }
      ScanStaysAligned(q, r, x, k + 1);
    }
  }

  lemma LastStar(p: string) returns (q: string, r: string)
    requires !Starless(p)
    ensures p == q + ("*" + r) && Starless(r)
  {
    var k := |p| - 1;
    while p[k] != '*'
      invariant 0 <= k < |p| && Starless(p[k + 1..]) && '*' in p[..k + 1]
      decreases k
    {
      assert p[..k + 1] == p[..k] + [p[k]] && p[k..] == [p[k]] + p[k + 1..];
      k := k - 1;
    }
    q, r := p[..k], p[k + 1..];
  }

  // Every pattern that contains '*' refuses a text it matches.
  lemma StarredPatternsMiss(p: string) returns (t: string)
    requires !Starless(p)
    ensures Matches(p, t) && !SqlLike(p, t)
  {
    var q, r := LastStar(p);
    t := q + ("*" + "x" + r);
    MatchesAroundStar(q, r, "x");
    ScanStaysAligned(q, r, 'x', 0);
  }

  // The matcher is right about a pattern on every text exactly when the pattern has no '*'.
  lemma RightExactlyOnStarlessPatterns(p: string)
    ensures (forall t: string :: SqlLike(p, t) <==> Matches(p, t)) <==> Starless(p)
  {
    if Starless(p) {
      forall t: string
        ensures SqlLike(p, t) <==> Matches(p, t)
      {
        StarlessScan(p, t, 0, 0);
        assert p[0..] == p && t[0..] == t;
      }
    } else {
      var t := StarredPatternsMiss(p);
    }
  }
}
