/**
 The search index's wildcard query on a keyword value.

 A pattern is read left to right: `*` stands for any run of characters
 (possibly empty), `?` for exactly one character, and a backslash makes the
 character after it literal (a backslash at the very end is itself literal).
 Every other character stands for itself. A value matches when the whole
 value is spelled by the pattern.
 */
module Wildcard {

  datatype Token = AnyRun | AnyChar | Literal(c: char)

  /** True when `c` has a meaning of its own in a pattern. */
  predicate IsSpecial(c: char)
  {
    c == '*' || c == '?' || c == '\\'
  }

  /** A query that contains no wildcard or escape character. */
  predicate IsPlain(q: string)
  {
    forall i :: 0 <= i < |q| ==> !IsSpecial(q[i])
  }

  /** The tokens of a pattern. */
  function Tokens(p: string): (t: seq<Token>)
    ensures |t| <= |p|
    ensures AnyRun in t ==> '*' in p
    ensures AnyChar in t ==> '?' in p
    decreases |p|
  {
    if p == [] then []
    else if p[0] == '*' then [AnyRun] + Tokens(p[1..])
    else if p[0] == '?' then [AnyChar] + Tokens(p[1..])
    else if p[0] == '\\' && |p| > 1 then [Literal(p[1])] + Tokens(p[2..])
    else [Literal(p[0])] + Tokens(p[1..])
  }

  /** The literal tokens spelling `q`. */
  function Literals(q: string): (t: seq<Token>)
    ensures |t| == |q|
    ensures FixedWidth(t) == |t|
  {
    if q == [] then [] else [Literal(q[0])] + Literals(q[1..])
  }

  /** The number of tokens of `t` that each take exactly one character. */
  function FixedWidth(t: seq<Token>): (n: nat)
    ensures n <= |t|
    ensures n == |t| <==> forall i :: 0 <= i < |t| ==> t[i] != AnyRun
  {
    if t == [] then 0
    else (if t[0] == AnyRun then 0 else 1) + FixedWidth(t[1..])
  }

  /** True when the tokens `t` spell the whole of `s`. A matched value is at
      least as long as the pattern's single-character tokens, and exactly
      that long when the pattern has no `*`. */
  function Matches(t: seq<Token>, s: string): (r: bool)
    ensures r ==> FixedWidth(t) <= |s|
    ensures r && FixedWidth(t) == |t| ==> |s| == |t|
    decreases |t|, |s|
  {
    if t == [] then s == []
    else match t[0]
      case AnyRun => Matches(t[1..], s) || (s != [] && Matches(t, s[1..]))
      case AnyChar => s != [] && Matches(t[1..], s[1..])
      case Literal(c) => s != [] && s[0] == c && Matches(t[1..], s[1..])
  }

  /** `q` occurs in `s` starting at position `i`. */
  predicate OccursAt(q: string, s: string, i: int)
  {
    0 <= i <= |s| - |q| && s[i..i + |q|] == q
  }

  /** `q` occurs as a contiguous run of characters in `s`. */
  ghost predicate IsSubstring(q: string, s: string)
  {
    exists i :: OccursAt(q, s, i)
  }

  lemma TokensOfLiteralHead(p: string)
    requires p != [] && !IsSpecial(p[0])
    ensures Tokens(p) == [Literal(p[0])] + Tokens(p[1..])
  {
  }

  lemma ConcatAssoc(a: seq<Token>, b: seq<Token>, c: seq<Token>)
    ensures a + (b + c) == (a + b) + c
  {
  }

  lemma TokensOfPlainStep(q: string, rest: string)
    requires q != [] && !IsSpecial(q[0])
    requires Tokens(q[1..] + rest) == Literals(q[1..]) + Tokens(rest)
    ensures Tokens(q + rest) == Literals(q) + Tokens(rest)
  {
    var head := [Literal(q[0])];
    calc {
      Tokens(q + rest);
    == { assert (q + rest)[0] == q[0] && (q + rest)[1..] == q[1..] + rest;
         TokensOfLiteralHead(q + rest); }
      head + Tokens(q[1..] + rest);
    ==
      head + (Literals(q[1..]) + Tokens(rest));
    == { ConcatAssoc(head, Literals(q[1..]), Tokens(rest)); }
      (head + Literals(q[1..])) + Tokens(rest);
    ==
      Literals(q) + Tokens(rest);
    }
  }

  lemma PlainTail(q: string)
    requires q != [] && IsPlain(q)
    ensures IsPlain(q[1..])
  {
    forall i | 0 <= i < |q[1..]| ensures !IsSpecial(q[1..][i]) {
      assert q[1..][i] == q[i + 1];
    }
  }

  lemma {:induction false} TokensOfPlain(q: string, rest: string)
    requires IsPlain(q)
    ensures Tokens(q + rest) == Literals(q) + Tokens(rest)
    decreases |q|
  {
    if q != [] {
      PlainTail(q);
      TokensOfPlain(q[1..], rest);
      TokensOfPlainStep(q, rest);
    } else {
      assert q + rest == rest;
    }
  }

  lemma {:induction false} AnyRunMatchesAll(s: string)
    ensures Matches([AnyRun], s)
    decreases |s|
  {
    assert [AnyRun][1..] == [];
    if s != [] {
      AnyRunMatchesAll(s[1..]);
    }
  }

  /** A leading `*` matches exactly when the rest matches some suffix. */
  lemma {:induction false} LeadingRun(t: seq<Token>, s: string)
    ensures Matches([AnyRun] + t, s) <==> exists i :: 0 <= i <= |s| && Matches(t, s[i..])
    decreases |s|
  {
    var u := [AnyRun] + t;
    assert u[0] == AnyRun && u[1..] == t;
    assert s[0..] == s;
    if s != [] {
      LeadingRun(t, s[1..]);
      if exists i :: 1 <= i <= |s| && Matches(t, s[i..]) {
        var i :| 1 <= i <= |s| && Matches(t, s[i..]);
        assert s[1..][i - 1..] == s[i..];
      }
      if exists i :: 0 <= i <= |s[1..]| && Matches(t, s[1..][i..]) {
        var i :| 0 <= i <= |s[1..]| && Matches(t, s[1..][i..]);
        assert s[1..][i..] == s[i + 1..];
      }
    }
  }

  /** Literals followed by a trailing `*` match exactly the values that start with them. */
  lemma {:induction false} LiteralsThenRun(q: string, s: string)
    ensures Matches(Literals(q) + [AnyRun], s) <==> |q| <= |s| && s[..|q|] == q
    decreases |q|
  {
    var t := Literals(q) + [AnyRun];
    if q == [] {
      assert t == [AnyRun];
      AnyRunMatchesAll(s);
    } else {
      assert t[0] == Literal(q[0]);
      assert t[1..] == Literals(q[1..]) + [AnyRun];
      if s != [] {
        LiteralsThenRun(q[1..], s[1..]);
        if |q| <= |s| {
          assert s[..|q|] == [s[0]] + s[1..][..|q| - 1];
          assert q == [q[0]] + q[1..];
        }
      }
    }
  }

  /** The tokens of `*q*` for a plain `q`. */
  lemma StarTokens(q: string)
    requires IsPlain(q)
    ensures Tokens("*" + q + "*") == [AnyRun] + (Literals(q) + [AnyRun])
  {
    var star: string := "*";
    assert Tokens(star) == [AnyRun];
    TokensOfPlain(q, star);
    assert "*" + q + "*" == star + (q + star);
  }

  lemma StarMatchIsSubstring(q: string, name: string)
    requires Matches([AnyRun] + (Literals(q) + [AnyRun]), name)
    ensures IsSubstring(q, name)
  {
    LeadingRun(Literals(q) + [AnyRun], name);
    var i :| 0 <= i <= |name| && Matches(Literals(q) + [AnyRun], name[i..]);
    LiteralsThenRun(q, name[i..]);
    assert name[i..i + |q|] == name[i..][..|q|];
    assert OccursAt(q, name, i);
  }

  lemma SubstringIsStarMatch(q: string, name: string)
    requires IsSubstring(q, name)
    ensures Matches([AnyRun] + (Literals(q) + [AnyRun]), name)
  {
    var i :| OccursAt(q, name, i);
    LiteralsThenRun(q, name[i..]);
    assert name[i..i + |q|] == name[i..][..|q|];
    LeadingRun(Literals(q) + [AnyRun], name);
  }

  /** For a query without wildcard or escape characters, `*q*` matches a
      name exactly when `q` occurs in it as a contiguous substring. */
  lemma ContainsPatternIsSubstring(q: string, name: string)
    requires IsPlain(q)
    ensures Matches(Tokens("*" + q + "*"), name) <==> IsSubstring(q, name)
  {
    StarTokens(q);
    if Matches(Tokens("*" + q + "*"), name) {
      StarMatchIsSubstring(q, name);
    }
    if IsSubstring(q, name) {
      SubstringIsStarMatch(q, name);
    }
  }

  /** The query `*q*` that the search handler sends, applied to one name:
      for a plain `q` it holds exactly when `q` occurs in the name. */
  function ContainsPattern(q: string, name: string): (r: bool)
    ensures IsPlain(q) ==> (r <==> IsSubstring(q, name))
    ensures r ==> FixedWidth(Tokens("*" + q + "*")) <= |name|
  {
    if IsPlain(q) then ContainsPatternIsSubstring(q, name); Matches(Tokens("*" + q + "*"), name)
    else Matches(Tokens("*" + q + "*"), name)
  }
}
