/** Shell-style matching as `fnmatch.fnmatch` performs it on POSIX systems:
    the pattern is translated into tokens exactly as `fnmatch.translate` turns
    it into a regular expression, and the tokens must match the whole name.
    `*` matches any run of characters (the slash included), `?` any one
    character, `[seq]` / `[!seq]` one character in / not in the set, and a `[`
    without a closing `]` stands for itself. Matching is case-sensitive. */
module Fnmatch {

  /** One member of a bracket expression: a character or a range `lo-hi`. */
  datatype SetItem = Single(c: char) | Range(lo: char, hi: char)

  /** What `fnmatch.translate` emits for one pattern element. */
  datatype Token =
    | Star                                            // `*`  becomes `.*`
    | AnyChar                                         // `?`  becomes `.`
    | Literal(c: char)                                // escaped character
    | CharSet(negated: bool, items: seq<SetItem>)     // `[...]` / `[!...]`

  /** The items of a bracket expression body, read left to right: a character
      followed by `-` and one more character forms a range; a `-` that ends
      the body is an ordinary member. */
  function SetItems(body: string): seq<SetItem>
    decreases |body|
  {
    if body == [] then []
    else if |body| >= 3 && body[1] == '-' then [Range(body[0], body[2])] + SetItems(body[3..])
    else [Single(body[0])] + SetItems(body[1..])
  }

  /** Index of the first `]` at or after `j`, or `|pat|` when there is none. */
  function CloseBracket(pat: string, j: nat): (k: nat)
    requires j <= |pat|
    ensures j <= k <= |pat|
    ensures k < |pat| ==> pat[k] == ']'
    decreases |pat| - j
  {
    if j == |pat| || pat[j] == ']' then j else CloseBracket(pat, j + 1)
  }

  /** Where the search for the closing `]` of a bracket opened at `pat[0]`
      starts: a leading `!` and then a leading `]` belong to the body. */
  function BodyStart(pat: string): (j: nat)
    requires pat != []
    ensures 1 <= j <= |pat|
  {
    var j := if 1 < |pat| && pat[1] == '!' then 2 else 1;
    if j < |pat| && pat[j] == ']' then j + 1 else j
  }

  function Translate(pat: string): seq<Token>
    decreases |pat|
  {
    if pat == [] then []
    else if pat[0] == '*' then [Star] + Translate(pat[1..])
    else if pat[0] == '?' then [AnyChar] + Translate(pat[1..])
    else if pat[0] == '[' then
      var k := CloseBracket(pat, BodyStart(pat));
      if k == |pat| then [Literal('[')] + Translate(pat[1..])
      else
        var body := pat[1..k];
        if body != [] && body[0] == '!' then [CharSet(true, SetItems(body[1..]))] + Translate(pat[k + 1..])
        else [CharSet(false, SetItems(body))] + Translate(pat[k + 1..])
    else [Literal(pat[0])] + Translate(pat[1..])
  }

  predicate InSet(items: seq<SetItem>, c: char) {
    exists k :: 0 <= k < |items| && match items[k]
      case Single(d) => c == d
      case Range(lo, hi) => lo <= c <= hi
  }

  /** Whether a token other than `*` accepts the character `c`. */
  predicate MatchesOne(t: Token, c: char)
    requires !t.Star?
  {
    match t
    case AnyChar => true
    case Literal(d) => c == d
    case CharSet(negated, items) => InSet(items, c) != negated
  }

  /** Whether the token sequence matches the whole of `s`. */
  predicate Matches(toks: seq<Token>, s: string)
    decreases |toks|, |s|
  {
    if toks == [] then s == []
    else if toks[0].Star? then Matches(toks[1..], s) || (s != [] && Matches(toks, s[1..]))
    else s != [] && MatchesOne(toks[0], s[0]) && Matches(toks[1..], s[1..])
  }

  /** `fnmatch.fnmatch(name, pat)`. */
  predicate Fnmatch(name: string, pat: string) {
    Matches(Translate(pat), name)
  }

  /** A pattern character that `translate` does not escape literally. */
  predicate IsMeta(c: char) {
    c == '*' || c == '?' || c == '['
  }

  predicate NoMeta(pat: string) {
    forall k :: 0 <= k < |pat| ==> !IsMeta(pat[k])
  }

  /** A leading `*` matches when the rest of the pattern matches some suffix. */
  lemma {:induction false} StarSplits(rest: seq<Token>, s: string)
    ensures Matches([Star] + rest, s) <==> exists k :: 0 <= k <= |s| && Matches(rest, s[k..])
    decreases |s|
  {
    var toks := [Star] + rest;
    assert toks[1..] == rest;
    if s == [] {
      assert s[0..] == s;
    } else {
      StarSplits(rest, s[1..]);
      if Matches(toks, s) {
        if !Matches(rest, s) {
          assert Matches(toks, s[1..]);
          var k :| 0 <= k <= |s[1..]| && Matches(rest, s[1..][k..]);
          assert s[1..][k..] == s[k + 1..];
        } else {
          assert s[0..] == s;
        }
      } else {
        forall k | 0 <= k <= |s| ensures !Matches(rest, s[k..]) {
          if k == 0 {
            assert s[0..] == s;
          } else {
            assert s[1..][k - 1..] == s[k..];
          }
        }
      }
    }
  }

  /** A pattern free of `*`, `?` and `[` matches exactly itself. */
  lemma {:induction false} LiteralPatternMatchesItself(pat: string, name: string)
    requires NoMeta(pat)
    ensures Fnmatch(name, pat) <==> name == pat
    decreases |pat|
  {
    if pat != [] {
      assert Translate(pat) == [Literal(pat[0])] + Translate(pat[1..]);
      assert NoMeta(pat[1..]) by {
        forall k | 0 <= k < |pat[1..]| ensures !IsMeta(pat[1..][k]) {
          assert pat[1..][k] == pat[k + 1];
        }
      }
      if name != [] {
        LiteralPatternMatchesItself(pat[1..], name[1..]);
        if name[0] == pat[0] && name[1..] == pat[1..] {
          assert name == [name[0]] + name[1..] && pat == [pat[0]] + pat[1..];
        }
      }
    }
  }

  /** `*<suffix>` with a literal suffix (the shape of `*.tmp`) matches exactly
      the names that end with the suffix. */
  lemma StarSuffixPattern(suffix: string, name: string)
    requires NoMeta(suffix)
    ensures Fnmatch(name, "*" + suffix) <==> |name| >= |suffix| && name[|name| - |suffix|..] == suffix
  {
    var pat := "*" + suffix;
    assert pat[1..] == suffix;
    assert Translate(pat) == [Star] + Translate(suffix);
    StarSplits(Translate(suffix), name);
    forall k | 0 <= k <= |name| ensures Matches(Translate(suffix), name[k..]) <==> name[k..] == suffix {
      LiteralPatternMatchesItself(suffix, name[k..]);
    }
    if |name| >= |suffix| && name[|name| - |suffix|..] == suffix {
      assert Matches(Translate(suffix), name[|name| - |suffix|..]);
    }
  }

  /** The pattern `*` matches every name. */
  lemma StarMatchesEverything(name: string)
    ensures Fnmatch(name, "*")
  {
    var empty: string := [];
    assert NoMeta(empty);
    StarSuffixPattern(empty, name);
    assert "*" + empty == "*";
  }

  /** The pattern `?` matches exactly the one-character names. */
  lemma QuestionMarkMatchesOneCharacter(name: string)
    ensures Fnmatch(name, "?") <==> |name| == 1
  {
    assert Translate("?") == [AnyChar];
    assert [AnyChar][1..] == [];
    if name != [] {
      assert Matches([AnyChar], name) == Matches([], name[1..]);
    }
  }

  /** `[!seq]` accepts exactly the characters that `[seq]` rejects. */
  lemma {:induction false} NegatedBracketComplements(body: string, c: char)
    requires body != [] && body[0] != '!' && body[0] != ']' && ']' !in body
    ensures Fnmatch([c], "[" + body + "]") <==> !Fnmatch([c], "[!" + body + "]")
  {
    var pos := "[" + body + "]";
    var neg := "[!" + body + "]";
    assert BodyStart(pos) == 1;
    assert BodyStart(neg) == 2;
    CloseAtEnd(pos, 1);
    CloseAtEnd(neg, 2);
    assert pos[1..|pos| - 1] == body && pos[|pos|..] == [];
    assert neg[1..|neg| - 1] == "!" + body && ("!" + body)[1..] == body && neg[|neg|..] == [];
    assert Translate(pos) == [CharSet(false, SetItems(body))];
    assert Translate(neg) == [CharSet(true, SetItems(body))];
    assert [c][1..] == [];
    var t := CharSet(false, SetItems(body));
    var u := CharSet(true, SetItems(body));
    assert [t][1..] == [] && [u][1..] == [];
    assert Matches([t], [c]) == MatchesOne(t, c);
    assert Matches([u], [c]) == MatchesOne(u, c);
  }

  /** The only `]` of `pat` at or after `j` is its last character. */
  lemma {:induction false} CloseAtEnd(pat: string, j: nat)
    requires 0 < j < |pat| && pat[|pat| - 1] == ']'
    requires forall m :: j <= m < |pat| - 1 ==> pat[m] != ']'
    ensures CloseBracket(pat, j) == |pat| - 1
    decreases |pat| - j
  {
    if pat[j] != ']' {
      CloseAtEnd(pat, j + 1);
    }
  }
}
