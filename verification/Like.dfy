/** PostgreSQL's ILIKE, and when `%text%` means "contains the text". */
module Like {
  /** LIKE: `%` any stretch, `_` any one character, `\` the next character literally. */
  predicate Matches(p: string, t: string)
    decreases |p|, |t|
  {
    if p == "" then t == ""
    else if p[0] == '%' then Matches(p[1..], t) || (t != "" && Matches(p, t[1..]))
    else if t == "" then false
    else if p[0] == '_' then Matches(p[1..], t[1..])
    else if p[0] == '\\' then |p| >= 2 && p[1] == t[0] && Matches(p[2..], t[1..])
    else p[0] == t[0] && Matches(p[1..], t[1..])
  }

  function LowerChar(c: char): char {
    if 'A' <= c <= 'Z' then (c - 'A') + 'a' else c
  }

  function Lower(s: string): (r: string)
    ensures |r| == |s|
    ensures forall i :: 0 <= i < |s| ==> r[i] == LowerChar(s[i])
  {
    seq(|s|, i requires 0 <= i < |s| => LowerChar(s[i]))
  }

  predicate ILike(p: string, t: string) {
    Matches(Lower(p), Lower(t))
  }

  predicate OccursAt(t: string, s: string, i: nat) {
    i + |s| <= |t| && t[i..i + |s|] == s
  }

  predicate Contains(t: string, s: string) {
    exists i: nat :: i <= |t| && OccursAt(t, s, i)
  }

  predicate Special(c: char) {
    c == '%' || c == '_' || c == '\\'
  }

  predicate Plain(s: string) {
    forall i :: 0 <= i < |s| ==> !Special(s[i])
  }

  lemma {:induction false} PercentMatchesAll(t: string)
    ensures Matches("%", t)
    decreases |t|
  {
    if t != "" {
      PercentMatchesAll(t[1..]);
    }
  }

  /** A leading `%` skips any part of the text. */
  lemma {:induction false} PercentSkips(p: string, t: string)
    ensures Matches("%" + p, t) <==> exists i :: 0 <= i <= |t| && Matches(p, t[i..])
    decreases |t|
  {
    var q := "%" + p;
    assert q[1..] == p && t[0..] == t;
    if t != "" {
      PercentSkips(p, t[1..]);
      forall i | 0 <= i <= |t| - 1 ensures t[1..][i..] == t[i + 1..] {}
      if i :| 0 <= i <= |t| && Matches(p, t[i..]) {
        if i > 0 { assert Matches(p, t[1..][i - 1..]); }
      }
      if Matches(q, t) && !Matches(p, t) {
        var j :| 0 <= j <= |t[1..]| && Matches(p, t[1..][j..]);
        assert Matches(p, t[j + 1..]);
      }
    }
  }

  /** A plain pattern followed by `%` is a prefix test. */
  lemma {:induction false} PlainIsPrefix(s: string, t: string)
    requires Plain(s)
    ensures Matches(s + "%", t) <==> s <= t
    decreases |s|
  {
    var p := s + "%";
    if s == "" {
      assert p == "%";
      PercentMatchesAll(t);
    } else if t != "" {
      assert p[1..] == s[1..] + "%" && p[0] == s[0];
      PlainIsPrefix(s[1..], t[1..]);
      assert s == [s[0]] + s[1..] && t == [t[0]] + t[1..];
    }
  }

  lemma PlainIsContains(s: string, t: string)
    requires Plain(s)
    ensures Matches("%" + s + "%", t) <==> Contains(t, s)
  {
    assert "%" + s + "%" == "%" + (s + "%");
    PercentSkips(s + "%", t);
    forall i: nat | i <= |t| ensures Matches(s + "%", t[i..]) <==> OccursAt(t, s, i) {
      PlainIsPrefix(s, t[i..]);
      if i + |s| <= |t| { assert t[i..][..|s|] == t[i..i + |s|]; }
    }
  }

  /** A text that the pattern p, followed by anything, certainly matches. */
  function Sample(p: string): string {
    if p == "" then ""
    else if p[0] == '%' then Sample(p[1..])
    else if p[0] == '_' then "a" + Sample(p[1..])
    else if p[0] == '\\' then (if |p| == 1 then "%" else [p[1]] + Sample(p[2..]))
    else [p[0]] + Sample(p[1..])
  }

  lemma {:induction false} SampleMatches(p: string)
    ensures Matches(p + "%", Sample(p))
    decreases |p|
  {
    var q := p + "%";
    if p == "" {
      PercentMatchesAll("");
    } else {
      assert q[0] == p[0] && q[1..] == p[1..] + "%";
      if p[0] == '\\' {
        if |p| >= 2 {
          assert q[2..] == p[2..] + "%" && Sample(p)[1..] == Sample(p[2..]);
          SampleMatches(p[2..]);
        } else {
          assert q[2..] == "" && Sample(p)[1..] == "";
        }
      } else {
        SampleMatches(p[1..]);
        assert p[0] == '%' || Sample(p)[1..] == Sample(p[1..]);
      }
    }
  }

  lemma {:induction false} SampleDiffers(p: string)
    ensures |Sample(p)| <= |p| && (Sample(p) == p ==> Plain(p))
    decreases |p|
  {
    if p != "" {
      if p[0] == '\\' && |p| >= 2 {
        SampleDiffers(p[2..]);
      } else if p[0] != '\\' {
        SampleDiffers(p[1..]);
        if Sample(p) == p {
          assert p == [p[0]] + p[1..] && !Special(p[0]);
          assert Sample(p)[1..] == p[1..];
          assert Sample(p[1..]) == p[1..];
        }
      }
    }
  }

  lemma {:induction false} SampleIsLower(p: string)
    requires Lower(p) == p
    ensures Lower(Sample(p)) == Sample(p)
    decreases |p|
  {
    if p != "" {
      LowerTail(p, 1);
      if p[0] == '\\' && |p| >= 2 {
        LowerTail(p, 2);
        assert LowerChar(p[1]) == p[1] by { assert Lower(p)[1] == p[1]; }
        SampleIsLower(p[2..]);
      } else {
        assert LowerChar(p[0]) == p[0] by { assert Lower(p)[0] == p[0]; }
        SampleIsLower(p[1..]);
      }
    }
  }

  lemma LowerTail(p: string, n: nat)
    requires n <= |p| && Lower(p) == p
    ensures Lower(p[n..]) == p[n..]
  {
  }

  lemma LowerTwice(s: string)
    ensures Lower(Lower(s)) == Lower(s) && (Plain(Lower(s)) <==> Plain(s))
  {
  }

  // --- ignoring case, said without folding ---

  /** The same character, or the two cases of one letter. */
  predicate SameLetter(c: char, d: char) {
    || c == d
    || ('A' <= c <= 'Z' && d as int == c as int + 32)
    || ('A' <= d <= 'Z' && c as int == d as int + 32)
  }

  predicate SameText(a: string, b: string) {
    |a| == |b| && forall i :: 0 <= i < |a| ==> SameLetter(a[i], b[i])
  }

  predicate OccursAnyCaseAt(t: string, s: string, i: nat) {
    i + |s| <= |t| && SameText(t[i..i + |s|], s)
  }

  /** The text contains the searched text, whatever the case of letters. */
  predicate ContainsAnyCase(t: string, s: string) {
    exists i: nat :: i <= |t| && OccursAnyCaseAt(t, s, i)
  }

  lemma FoldingJoinsCases(c: char, d: char)
    ensures LowerChar(c) == LowerChar(d) <==> SameLetter(c, d)
  {
  }

  lemma FoldingJoinsTexts(a: string, b: string)
    ensures Lower(a) == Lower(b) <==> SameText(a, b)
  {
    if |a| == |b| {
      forall i | 0 <= i < |a| ensures Lower(a)[i] == Lower(b)[i] <==> SameLetter(a[i], b[i]) {
        FoldingJoinsCases(a[i], b[i]);
      }
    }
  }

  lemma FoldedContains(t: string, s: string)
    ensures Contains(Lower(t), Lower(s)) <==> ContainsAnyCase(t, s)
  {
    forall i: nat | i <= |t| ensures OccursAt(Lower(t), Lower(s), i) <==> OccursAnyCaseAt(t, s, i) {
      if i + |s| <= |t| {
        assert Lower(t)[i..i + |s|] == Lower(t[i..i + |s|]);
        FoldingJoinsTexts(t[i..i + |s|], s);
      }
    }
  }

  /** Swapping the case of any letters, in the pattern or in the text, changes no result. */
  lemma CaseDoesNotMatter(p: string, p': string, t: string, t': string)
    requires SameText(p, p') && SameText(t, t')
    ensures ILike(p, t) <==> ILike(p', t')
  {
    FoldingJoinsTexts(p, p');
    FoldingJoinsTexts(t, t');
  }

  lemma {:induction false} PlainMatchesItself(p: string, t: string)
    requires Plain(p)
    ensures Matches(p, t) <==> p == t
    decreases |p|
  {
    if p != "" && t != "" {
      PlainMatchesItself(p[1..], t[1..]);
      assert p == [p[0]] + p[1..] && t == [t[0]] + t[1..];
    }
  }

  /** Nothing but case is ignored: a pattern without special characters matches exactly the texts with the
      same letters. */
  lemma OnlyCaseIsIgnored(p: string, t: string)
    requires Plain(p)
    ensures ILike(p, t) <==> SameText(p, t)
  {
    LowerTwice(p);
    PlainMatchesItself(Lower(p), Lower(t));
    FoldingJoinsTexts(p, t);
  }

  lemma LowerPattern(search: string)
    ensures Lower("%" + search + "%") == "%" + Lower(search) + "%"
  {
  }

  lemma PlainSearchFinds(search: string, t: string)
    requires Plain(search)
    ensures ILike("%" + search + "%", t) <==> ContainsAnyCase(t, search)
  {
    LowerPattern(search);
    LowerTwice(search);
    PlainIsContains(Lower(search), Lower(t));
    FoldedContains(t, search);
  }

  /** Over arbitrary text: the pattern means "contains, whatever the case of letters" if and only if the
      searched text is free of `%`, `_` and `\`. */
  lemma SearchIsContainsIff(search: string)
    ensures (forall t :: ILike("%" + search + "%", t) <==> ContainsAnyCase(t, search)) <==> Plain(search)
  {
    var p := Lower(search);
    LowerPattern(search);
    LowerTwice(search);
    if Plain(search) {
      forall t ensures ILike("%" + search + "%", t) <==> ContainsAnyCase(t, search) {
        PlainSearchFinds(search, t);
      }
    } else {
      var t := Sample(p);
      SampleIsLower(p);
      SampleMatches(p);
      SampleDiffers(p);
      assert ("%" + p + "%")[1..] == p + "%";
      assert ILike("%" + search + "%", t);
      NotContained(t, p);
      FoldedContains(t, search);
    }
  }

  lemma NotContained(t: string, s: string)
    requires |t| <= |s| && t != s
    ensures !Contains(t, s)
  {
  }

  // --- over ids ---

  const ID_LENGTH: nat := 36

  /** The character that `id::text` may have at place i: a dash at four places, a lower-case hexadecimal
      digit elsewhere. */
  predicate Fits(i: nat, c: char) {
    if i == 8 || i == 13 || i == 18 || i == 23 then c == '-' else '0' <= c <= '9' || 'a' <= c <= 'f'
  }

  /** The same for a character of the search text, in either case. */
  predicate FitsAnyCase(i: nat, c: char) {
    if i == 8 || i == 13 || i == 18 || i == 23 then c == '-'
    else '0' <= c <= '9' || 'a' <= c <= 'f' || 'A' <= c <= 'F'
  }

  /** u can be the rest of an id from place i on. */
  predicate EndsId(u: string, i: nat) {
    i + |u| == ID_LENGTH && forall k :: 0 <= k < |u| ==> Fits(i + k, u[k])
  }

  predicate IsId(t: string) {
    EndsId(t, 0)
  }

  /** The pattern can be matched from place i of an id on: its literal characters fit the places they
      fall on, and its wildcards fill up the length. */
  predicate CanMatch(p: string, i: nat)
    requires i <= ID_LENGTH
    decreases |p|, ID_LENGTH - i
  {
    if p == "" then i == ID_LENGTH
    else if p[0] == '%' then CanMatch(p[1..], i) || (i < ID_LENGTH && CanMatch(p, i + 1))
    else if i == ID_LENGTH then false
    else if p[0] == '_' then CanMatch(p[1..], i + 1)
    else if p[0] == '\\' then |p| >= 2 && FitsAnyCase(i, p[1]) && CanMatch(p[2..], i + 1)
    else FitsAnyCase(i, p[0]) && CanMatch(p[1..], i + 1)
  }

  lemma EndsIdTail(u: string, i: nat)
    requires EndsId(u, i) && u != ""
    ensures EndsId(u[1..], i + 1) && Fits(i, u[0])
  {
    forall k | 0 <= k < |u| - 1 ensures Fits(i + 1 + k, u[1..][k]) {
      assert Fits(i + (k + 1), u[k + 1]);
    }
    assert Fits(i + 0, u[0]);
  }

  lemma EndsIdCons(c: char, u: string, i: nat)
    requires Fits(i, c) && EndsId(u, i + 1)
    ensures EndsId([c] + u, i)
  {
    forall k | 0 <= k < |u| + 1 ensures Fits(i + k, ([c] + u)[k]) {
      if k > 0 { assert Fits(i + 1 + (k - 1), u[k - 1]); }
    }
  }

  /** What an id matches passes the check. */
  lemma {:induction false} MatchedCanMatch(p: string, i: nat, u: string)
    requires i <= ID_LENGTH && EndsId(u, i) && Matches(p, u)
    ensures CanMatch(p, i)
    decreases |p|, |u|
  {
    if p == "" {
    } else if p[0] == '%' {
      if Matches(p[1..], u) {
        MatchedCanMatch(p[1..], i, u);
      } else {
        EndsIdTail(u, i);
        MatchedCanMatch(p, i + 1, u[1..]);
      }
    } else {
      EndsIdTail(u, i);
      MatchedCanMatch(if p[0] == '\\' then p[2..] else p[1..], i + 1, u[1..]);
    }
  }

  /** The check does not depend on the case of the pattern. */
  lemma {:induction false} CanMatchFolds(p: string, i: nat)
    requires i <= ID_LENGTH
    ensures CanMatch(Lower(p), i) <==> CanMatch(p, i)
    decreases |p|, ID_LENGTH - i
  {
    if p != "" {
      assert Lower(p)[1..] == Lower(p[1..]);
      if p[0] == '%' {
        CanMatchFolds(p[1..], i);
        if i < ID_LENGTH { CanMatchFolds(p, i + 1); }
      } else if i < ID_LENGTH {
        if p[0] == '\\' && |p| >= 2 {
          assert Lower(p)[2..] == Lower(p[2..]);
          CanMatchFolds(p[2..], i + 1);
        } else {
          CanMatchFolds(p[1..], i + 1);
        }
      }
    }
  }

  function AnyFor(i: nat): (c: char)
    ensures Fits(i, c)
  {
    if i == 8 || i == 13 || i == 18 || i == 23 then '-' else '0'
  }

  /** What passes the check is matched by some id. */
  lemma {:induction false} CanMatchIsMatched(p: string, i: nat) returns (u: string)
    requires i <= ID_LENGTH && CanMatch(p, i) && Lower(p) == p
    ensures EndsId(u, i) && Matches(p, u)
    decreases |p|, ID_LENGTH - i
  {
    if p != "" {
      FoldedTail(p);
    }
    if p == "" {
      u := "";
    } else if p[0] == '%' {
      if CanMatch(p[1..], i) {
        u := CanMatchIsMatched(p[1..], i);
      } else {
        u := CanMatchIsMatched(p, i + 1);
        u := Prepend(AnyFor(i), u, i);
      }
    } else {
      u := CanMatchIsMatched(if p[0] == '\\' then p[2..] else p[1..], i + 1);
      u := Prepend(if p[0] == '_' then AnyFor(i) else if p[0] == '\\' then p[1] else p[0], u, i);
    }
  }

  lemma FoldedTail(p: string)
    requires Lower(p) == p && p != ""
    ensures LowerChar(p[0]) == p[0] && Lower(p[1..]) == p[1..]
    ensures |p| >= 2 ==> LowerChar(p[1]) == p[1] && Lower(p[2..]) == p[2..]
  {
    assert Lower(p)[0] == p[0];
    LowerTail(p, 1);
    if |p| >= 2 {
      assert Lower(p)[1] == p[1];
      LowerTail(p, 2);
    }
  }

  lemma Prepend(c: char, rest: string, i: nat) returns (u: string)
    requires Fits(i, c) && EndsId(rest, i + 1)
    ensures u == [c] + rest && u[0] == c && u[1..] == rest && EndsId(u, i)
  {
    u := [c] + rest;
    EndsIdCons(c, rest, i);
  }

  /** Ids are lower-case and free of special characters. */
  lemma IdIsPlain(t: string)
    requires IsId(t)
    ensures Lower(t) == t && Plain(t)
  {
    forall k | 0 <= k < |t| ensures LowerChar(t[k]) == t[k] && !Special(t[k]) {
      assert Fits(0 + k, t[k]);
    }
  }

  lemma ContainedIsPlain(t: string, s: string)
    requires Plain(t) && Contains(t, s)
    ensures Plain(s)
  {
    var i: nat :| i <= |t| && OccursAt(t, s, i);
    forall k | 0 <= k < |s| ensures !Special(s[k]) {
      assert s[k] == t[i..i + |s|][k] == t[i + k];
    }
  }

  /** Over ids: the search box means "contains, whatever the case of letters" if and only if the searched
      text is free of `%`, `_` and `\`, or has such a character but cannot match any id. */
  lemma IdSearchIsContainsIff(search: string)
    ensures (forall t | IsId(t) :: ILike("%" + search + "%", t) <==> ContainsAnyCase(t, search))
       <==> Plain(search) || !CanMatch("%" + search + "%", 0)
  {
    var p := "%" + Lower(search) + "%";
    LowerPattern(search);
    LowerTwice(search);
    LowerTwice("%" + search + "%");
    CanMatchFolds("%" + search + "%", 0);
    if Plain(search) {
      forall t | IsId(t) ensures ILike("%" + search + "%", t) <==> ContainsAnyCase(t, search) {
        PlainSearchFinds(search, t);
      }
    } else {
      forall t | IsId(t) ensures !ContainsAnyCase(t, search) {
        NeverContained(t, search);
      }
      if CanMatch(p, 0) {
        var t := CanMatchIsMatched(p, 0);
        IdIsPlain(t);
        assert IsId(t) && ILike("%" + search + "%", t);
      } else {
        forall t | IsId(t) ensures !ILike("%" + search + "%", t) {
          IdIsPlain(t);
          if Matches(p, t) { MatchedCanMatch(p, 0, t); }
        }
      }
    }
  }

  lemma NeverContained(t: string, search: string)
    requires IsId(t) && !Plain(search)
    ensures !ContainsAnyCase(t, search)
  {
    LowerTwice(search);
    IdIsPlain(t);
    FoldedContains(t, search);
    if Contains(t, Lower(search)) {
      ContainedIsPlain(t, Lower(search));
    }
  }

  /** Both kinds of special text occur: an underscore makes the box find every id, a percent sign after
      a letter that no id has makes it find none, as "contains" would. */
  lemma SpecialSearches()
    ensures !Plain("_") && CanMatch("%" + "_" + "%", 0)
    ensures !Plain("z%") && !CanMatch("%" + "z%" + "%", 0)
  {
    assert Special("_"[0]) && Special("z%"[1]);
    UnderscoreMatches(0);
    LetterNeverMatches(0);
    assert "%" + "_" + "%" == "%_%" && "%" + "z%" + "%" == "%z%%";
  }

  lemma {:induction false} PercentCanMatch(i: nat)
    requires i <= ID_LENGTH
    ensures CanMatch("%", i)
    decreases ID_LENGTH - i
  {
    if i < ID_LENGTH {
      PercentCanMatch(i + 1);
    } else {
      assert "%"[1..] == "";
    }
  }

  lemma UnderscoreMatches(i: nat)
    requires i < ID_LENGTH
    ensures CanMatch("%_%", i)
  {
    PercentCanMatch(i + 1);
    assert "%_%"[1..] == "_%" && "_%"[1..] == "%";
  }

  lemma {:induction false} LetterNeverMatches(i: nat)
    requires i <= ID_LENGTH
    ensures !CanMatch("%z%%", i)
    decreases ID_LENGTH - i
  {
    assert "%z%%"[1..] == "z%%";
    if i < ID_LENGTH {
      LetterNeverMatches(i + 1);
    }
  }
}
