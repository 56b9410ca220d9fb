/** Searching players by name: the LIKE pattern built from a query, under LIKE with a
    backslash as its escape character. */
module LikeSearch {

  /** `like_pattern`, as a function. */
  function Escaped(q: string): string {
    if q == [] then []
    else (if q[0] == '\\' || q[0] == '%' || q[0] == '_' then ['\\', q[0]] else [q[0]]) + Escaped(q[1..])
  }

  function Pattern(q: string): string {
    "%" + Escaped(q) + "%"
  }

  lemma {:induction false} EscapedSnoc(q: string, c: char)
    ensures Escaped(q + [c]) == Escaped(q) + if c == '\\' || c == '%' || c == '_' then ['\\', c] else [c]
  {
    if q == [] {
      assert q + [c] == [c] && [c][1..] == [];
    } else {
      assert (q + [c])[0] == q[0] && (q + [c])[1..] == q[1..] + [c];
      EscapedSnoc(q[1..], c);
    }
  }

  method LikePattern(query: string) returns (out: string)
    ensures out == Pattern(query)
  {
    out := "%";
    for i := 0 to |query|
      invariant out == "%" + Escaped(query[..i])
    {
      var c := query[i];
      assert query[..i + 1] == query[..i] + [c];
      EscapedSnoc(query[..i], c);
      if c == '\\' || c == '%' || c == '_' {
        out := out + ['\\'];
      }
      out := out + [c];
    }
    assert query[..|query|] == query;
    out := out + "%";
  }

  /** LIKE: `%` is any run of characters, `_` any one, and a backslash takes the next
      character for itself.  `same` is the matcher's case equivalence. */
  predicate Like(p: string, s: string, same: (char, char) -> bool)
    decreases |p| + |s|
  {
    if p == [] then s == []
    else if p[0] == '%' then Like(p[1..], s, same) || (s != [] && Like(p, s[1..], same))
    else if p[0] == '_' then s != [] && Like(p[1..], s[1..], same)
    else if p[0] == '\\' then |p| >= 2 && s != [] && same(p[1], s[0]) && Like(p[2..], s[1..], same)
    else s != [] && same(p[0], s[0]) && Like(p[1..], s[1..], same)
  }

  predicate OccursAt(q: string, s: string, i: nat, same: (char, char) -> bool) {
    i + |q| <= |s| && forall k :: 0 <= k < |q| ==> same(q[k], s[i + k])
  }

  /** An escaped query matches itself, whatever it is made of, and nothing else. */
  lemma {:induction false} EscapedMatches(q: string, tail: string, s: string, same: (char, char) -> bool)
    ensures Like(Escaped(q) + tail, s, same) <==> OccursAt(q, s, 0, same) && Like(tail, s[|q|..], same)
    decreases |q|
  {
    assert OccursAt(q, s, 0, same) ==> |q| <= |s|;
    if q == [] {
      assert Escaped(q) + tail == tail && s[0..] == s;
    } else {
      var p := Escaped(q) + tail;
      var c := q[0];
      if c == '\\' || c == '%' || c == '_' {
        assert p[0] == '\\' && p[1] == c && p[2..] == Escaped(q[1..]) + tail;
      } else {
        assert p[0] == c && p[1..] == Escaped(q[1..]) + tail;
      }
      if s != [] {
        EscapedMatches(q[1..], tail, s[1..], same);
        Shifted(q, s, same);
        hide OccursAt;
        if |q| <= |s| {
          assert s[1..][|q| - 1..] == s[|q|..];
        }
      }
    }
  }

  lemma Shifted(q: string, s: string, same: (char, char) -> bool)
    requires q != [] && s != []
    ensures OccursAt(q, s, 0, same) <==> same(q[0], s[0]) && OccursAt(q[1..], s[1..], 0, same)
  {
    if same(q[0], s[0]) && OccursAt(q[1..], s[1..], 0, same) {
      forall k | 0 <= k < |q|
        ensures same(q[k], s[0 + k])
      {
        if k > 0 {
          assert same(q[1..][k - 1], s[1..][0 + (k - 1)]);
        }
      }
    }
    if OccursAt(q, s, 0, same) {
      forall k | 0 <= k < |q| - 1
        ensures same(q[1..][k], s[1..][0 + k])
      {
        assert same(q[k + 1], s[0 + (k + 1)]);
      }
      assert same(q[0], s[0 + 0]);
    }
  }

  lemma {:induction false} AnyMatches(s: string, same: (char, char) -> bool)
    ensures Like("%", s, same)
    decreases |s|
  {
    assert "%"[1..] == [];
    if s != [] {
      AnyMatches(s[1..], same);
    }
  }

  /** A leading `%` lets the rest match from any place. */
  lemma {:induction false} SomewhereMatches(p: string, s: string, same: (char, char) -> bool)
    ensures Like("%" + p, s, same) <==> exists i :: 0 <= i <= |s| && Like(p, s[i..], same)
    decreases |s|
  {
    assert ("%" + p)[1..] == p && s[0..] == s;
    if s != [] {
      SomewhereMatches(p, s[1..], same);
      if i :| 0 <= i <= |s[1..]| && Like(p, s[1..][i..], same) {
        assert s[1..][i..] == s[i + 1..];
      }
      if i :| 0 <= i <= |s| && Like(p, s[i..], same) && i > 0 {
        assert s[1..][i - 1..] == s[i..];
      }
    }
  }

  ghost predicate Contains(q: string, s: string, same: (char, char) -> bool) {
    exists i :: 0 <= i && OccursAt(q, s, i, same)
  }

  /** The pattern built from any query, even one full of wildcards and backslashes,
      matches exactly the names that contain the query. */
  lemma {:induction false} PatternMeansContains(q: string, s: string, same: (char, char) -> bool)
    ensures Like(Pattern(q), s, same) <==> Contains(q, s, same)
  {
    assert Pattern(q) == "%" + (Escaped(q) + "%");
    SomewhereMatches(Escaped(q) + "%", s, same);
    forall i | 0 <= i <= |s|
      ensures Like(Escaped(q) + "%", s[i..], same) <==> OccursAt(q, s, i, same)
    {
      EscapedMatches(q, "%", s[i..], same);
      if |q| <= |s[i..]| {
        AnyMatches(s[i..][|q|..], same);
      }
      Moved(q, s, i, same);
    }
  }

  lemma Moved(q: string, s: string, i: nat, same: (char, char) -> bool)
    requires i <= |s|
    ensures OccursAt(q, s[i..], 0, same) <==> OccursAt(q, s, i, same)
  {
    if OccursAt(q, s[i..], 0, same) {
      forall k | 0 <= k < |q|
        ensures same(q[k], s[i + k])
      {
        assert s[i..][0 + k] == s[i + k];
      }
    }
    if OccursAt(q, s, i, same) {
      forall k | 0 <= k < |q|
        ensures same(q[k], s[i..][0 + k])
      {
        assert s[i..][0 + k] == s[i + k];
      }
    }
  }

  /** What `search` shows: a query of nothing but white space finds nobody. */
  predicate Finds(query: string, name: string, same: (char, char) -> bool, isSpace: char -> bool) {
    !Blank(query, isSpace) && Like(Pattern(query), name, same)
  }

  /** `trim().is_empty()`. */
  predicate Blank(query: string, isSpace: char -> bool) {
    forall i :: 0 <= i < |query| ==> isSpace(query[i])
  }

  lemma SearchFinds(query: string, name: string, same: (char, char) -> bool, isSpace: char -> bool)
    ensures Finds(query, name, same, isSpace) <==> !Blank(query, isSpace) && Contains(query, name, same)
  {
    PatternMeansContains(query, name, same);
  }
}
