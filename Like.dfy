/** PostgreSQL's ILIKE: `%` matches any run of characters, `_` any one character, a backslash
    makes the next character literal, and letters compare without regard to case (ASCII). */
module Like {
  import opened Wrappers
  import opened Strings

  datatype LikeToken = AnyRun | AnyOne | Literal(c: char)

  /** The pattern read as tokens; none when it ends in a lone backslash, which PostgreSQL
      refuses with an error. */
  function Tokens(pat: string): Option<seq<LikeToken>>
    decreases |pat|
  {
    if pat == [] then Some([])
    else if pat[0] == '\\' then
      if |pat| == 1 then None
      else match Tokens(pat[2..])
        case None => None
        case Some(rest) => Some([Literal(pat[1])] + rest)
    else
      var t := if pat[0] == '%' then AnyRun else if pat[0] == '_' then AnyOne else Literal(pat[0]);
      match Tokens(pat[1..])
      case None => None
      case Some(rest) => Some([t] + rest)
  }

  /** The text matches the tokens, letters compared case-insensitively. */
  predicate Matches(toks: seq<LikeToken>, text: string)
    decreases |toks|, |text|
  {
    if toks == [] then text == []
    else match toks[0]
      case AnyRun => Matches(toks[1..], text) || (text != [] && Matches(toks, text[1..]))
      case AnyOne => text != [] && Matches(toks[1..], text[1..])
      case Literal(c) => text != [] && LowerChar(text[0]) == LowerChar(c) && Matches(toks[1..], text[1..])
  }

  /** `text ILIKE pat`: none when the pattern is refused. */
  function ILike(pat: string, text: string): Option<bool> {
    match Tokens(pat)
    case None => None
    case Some(toks) => Some(Matches(toks, text))
  }

  /** A pattern that ends in an unescaped `%` is always accepted. */
  lemma {:induction false} EndsInPercentParses(s: string)
    ensures Tokens(s + "%").Some?
    decreases |s|
  {
    if s != [] {
      if s[0] == '\\' {
        if |s| == 1 {
          var pat := s + "%";
          assert pat[0] == '\\' && pat[1] == '%' && pat[2..] == [];
          assert [Literal('%')] + [] == [Literal('%')];
        } else {
          assert (s + "%")[2..] == s[2..] + "%";
          EndsInPercentParses(s[2..]);
        }
      } else {
        assert (s + "%")[1..] == s[1..] + "%";
        EndsInPercentParses(s[1..]);
      }
    }
  }

  lemma PercentToken()
    ensures Tokens("%") == Some([AnyRun])
  {
    var pat := "%";
    assert pat[0] == '%' && pat[1..] == [];
    assert [AnyRun] + [] == [AnyRun];
  }

  /** The text contains none of the three pattern characters. */
  predicate Plain(s: string) {
    forall i :: 0 <= i < |s| ==> s[i] != '%' && s[i] != '_' && s[i] != '\\'
  }

  function Literals(s: string): (r: seq<LikeToken>)
    ensures |r| == |s|
    ensures forall i :: 0 <= i < |s| ==> r[i] == Literal(s[i])
  {
    seq(|s|, i requires 0 <= i < |s| => Literal(s[i]))
  }

  lemma {:induction false} PlainTokens(s: string, suffix: string)
    requires Plain(s) && Tokens(suffix).Some?
    ensures Tokens(s + suffix) == Some(Literals(s) + Tokens(suffix).value)
    decreases |s|
  {
    if s != [] {
      assert (s + suffix)[0] == s[0];
      assert (s + suffix)[1..] == s[1..] + suffix;
      PlainTokens(s[1..], suffix);
      var x := Tokens(suffix).value;
      assert Tokens(s + suffix) == Some([Literal(s[0])] + (Literals(s[1..]) + x));
      assert Literals(s) == [Literal(s[0])] + Literals(s[1..]);
      assert [Literal(s[0])] + (Literals(s[1..]) + x) == Literals(s) + x;
    } else {
      assert s + suffix == suffix;
      assert Literals(s) + Tokens(suffix).value == Tokens(suffix).value;
    }
  }

  lemma {:induction false} AnyRunMatchesAll(text: string)
    ensures Matches([AnyRun], text)
    decreases |text|
  {
    if text != [] {
      AnyRunMatchesAll(text[1..]);
    }
  }

  /** Letters of `s` then `%`: the text starts with `s`, ignoring case. */
  lemma {:induction false} LiteralsThenRun(s: string, text: string)
    ensures Matches(Literals(s) + [AnyRun], text) <==> |s| <= |text| && Lower(text[..|s|]) == Lower(s)
    decreases |s|
  {
    if s == [] {
      AnyRunMatchesAll(text);
      assert Literals(s) + [AnyRun] == [AnyRun];
    } else {
      var toks := Literals(s) + [AnyRun];
      assert toks[1..] == Literals(s[1..]) + [AnyRun];
      LiteralsThenRun(s[1..], if text == [] then [] else text[1..]);
      if text != [] && |s| <= |text| {
        var a, b := Lower(text[..|s|]), Lower(s);
        assert a == [LowerChar(text[0])] + Lower(text[1..][..|s| - 1]);
        assert b == [LowerChar(s[0])] + Lower(s[1..]);
        assert a == b <==> a[0] == b[0] && a[1..] == b[1..];
      }
    }
  }

  /** `%` then the rest: the rest matches some suffix of the text. */
  lemma {:induction false} RunThen(rest: seq<LikeToken>, text: string)
    ensures Matches([AnyRun] + rest, text) <==> exists i :: 0 <= i <= |text| && Matches(rest, text[i..])
    decreases |text|
  {
    var toks := [AnyRun] + rest;
    assert toks[1..] == rest;
    assert text[0..] == text;
    if text != [] {
      RunThen(rest, text[1..]);
      if exists i :: 0 <= i <= |text| && Matches(rest, text[i..]) {
        var i :| 0 <= i <= |text| && Matches(rest, text[i..]);
        if i > 0 {
          assert text[1..][i - 1..] == text[i..];
        }
      }
      if exists i :: 0 <= i <= |text[1..]| && Matches(rest, text[1..][i..]) {
        var i :| 0 <= i <= |text[1..]| && Matches(rest, text[1..][i..]);
        assert text[1..][i..] == text[i + 1..];
      }
    }
  }

  /** `%s%` for a plain `s` reads as a run, the letters of `s`, and a run. */
  lemma SearchPatternTokens(s: string)
    requires Plain(s)
    ensures Tokens("%" + s + "%") == Some([AnyRun] + (Literals(s) + [AnyRun]))
  {
    PercentToken();
    PlainTokens(s, "%");
    var pat := "%" + s + "%";
    assert pat[1..] == s + "%";
    assert pat[0] == '%';
  }

  /** A run, the letters of `s`, and a run match exactly the texts containing `s`, ignoring
      case. */
  lemma SearchTokensMatch(s: string, text: string)
    ensures Matches([AnyRun] + (Literals(s) + [AnyRun]), text) == Contains(Lower(text), Lower(s))
  {
    RunThen(Literals(s) + [AnyRun], text);
    if Matches([AnyRun] + (Literals(s) + [AnyRun]), text) {
      var i :| 0 <= i <= |text| && Matches(Literals(s) + [AnyRun], text[i..]);
      LiteralsThenRun(s, text[i..]);
      assert Lower(text)[i..i + |s|] == Lower(text[i..][..|s|]);
      assert OccursAt(Lower(text), Lower(s), i);
    }
    if Contains(Lower(text), Lower(s)) {
      var i :| 0 <= i <= |Lower(text)| - |Lower(s)| && OccursAt(Lower(text), Lower(s), i);
      assert Lower(text)[i..i + |s|] == Lower(text[i..][..|s|]);
      LiteralsThenRun(s, text[i..]);
    }
  }

  /** The search pattern `%s%` built from text without pattern characters matches exactly
      the strings that contain that text, ignoring case. */
  lemma SubstringSearch(s: string, text: string)
    requires Plain(s)
    ensures ILike("%" + s + "%", text) == Some(Contains(Lower(text), Lower(s)))
  {
    SearchPatternTokens(s);
    SearchTokensMatch(s, text);
  }

  /** An underscore typed into the search is a wildcard: `%_%` matches any non-empty text. */
  lemma UnderscoreMatchesAnything(text: string)
    requires text != []
    ensures ILike("%_%", text) == Some(true)
  {
    PercentToken();
    var p2, p3 := "_%", "%_%";
    assert p2[0] == '_' && p2[1..] == "%";
    assert [AnyOne] + [AnyRun] == [AnyOne, AnyRun];
    assert Tokens(p2) == Some([AnyOne, AnyRun]);
    assert p3[0] == '%' && p3[1..] == p2;
    assert [AnyRun] + [AnyOne, AnyRun] == [AnyRun, AnyOne, AnyRun];
    assert Tokens("%_%") == Some([AnyRun, AnyOne, AnyRun]);
    AnyRunMatchesAll(text[1..]);
    assert [AnyRun, AnyOne, AnyRun][1..] == [AnyOne, AnyRun];
    assert [AnyOne, AnyRun][1..] == [AnyRun];
    assert Matches([AnyOne, AnyRun], text);
    assert Matches([AnyRun, AnyOne, AnyRun], text);
  }
}
