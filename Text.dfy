/**
  The handful of Go `strings` operations the chat server and its client rely
  on: prefix and suffix tests, `Split` on a one-character separator, `Join`,
  `Index`/`LastIndex` of a character and `TrimSpace`. Go strings hold UTF-8
  bytes; here a string is a `seq<char>` of the Unicode code points those bytes
  encode, which is how `strings.TrimSpace` reads them when it meets a
  non-ASCII byte.
*/
module Text {

  /** `strings.HasPrefix`: the first `|p|` characters of `s` are `p`. */
  predicate HasPrefix(s: string, p: string) {
    |p| <= |s| && s[..|p|] == p
  }

  /** `strings.HasSuffix`: the last `|p|` characters of `s` are `p`. */
  predicate HasSuffix(s: string, p: string) {
    |p| <= |s| && s[|s| - |p|..] == p
  }

  /** `strings.Split(s, string(sep))`: the pieces between separators, in order.
      There is always one more piece than there are separators, and no piece
      contains the separator. */
  function Split(s: string, sep: char): (parts: seq<string>)
    ensures |parts| >= 1
    ensures forall i :: 0 <= i < |parts| ==> sep !in parts[i]
  {
    if s == [] then [""]
    else if s[0] == sep then [""] + Split(s[1..], sep)
    else
      var rest := Split(s[1..], sep);
      [[s[0]] + rest[0]] + rest[1..]
  }

  /** `strings.Join(parts, sep)`. */
  function Join(parts: seq<string>, sep: string): string {
    if |parts| == 0 then ""
    else if |parts| == 1 then parts[0]
    else parts[0] + sep + Join(parts[1..], sep)
  }

  /** Joining the pieces of a split with the same separator gives back the
      original string. */
  lemma {:induction false} JoinSplit(s: string, sep: char)
    ensures Join(Split(s, sep), [sep]) == s
  {
    if s == [] {
    } else if s[0] == sep {
      var rest := Split(s[1..], sep);
      JoinSplit(s[1..], sep);
      assert Split(s, sep) == [""] + rest;
      assert ([""] + rest)[1..] == rest;
    } else {
      var rest := Split(s[1..], sep);
      JoinSplit(s[1..], sep);
      var parts := Split(s, sep);
      assert parts == [[s[0]] + rest[0]] + rest[1..];
      if |rest| == 1 {
        assert parts == [[s[0]] + rest[0]];
      } else {
        assert parts[1..] == rest[1..];
        assert Join(rest, [sep]) == rest[0] + [sep] + Join(rest[1..], [sep]);
      }
    }
  }

  /** A split yields exactly one piece more than the separator occurs. */
  lemma {:induction false} SplitCount(s: string, sep: char)
    ensures |Split(s, sep)| == multiset(s)[sep] + 1
  {
    if s != [] {
      SplitCount(s[1..], sep);
      assert s == [s[0]] + s[1..];
      assert multiset(s) == multiset{s[0]} + multiset(s[1..]);
    }
  }

  /** Three or more pieces: the string is the first piece, a separator, the
      second piece, a separator, and the join of the remaining pieces; that
      join is therefore the text after the second separator. */
  lemma SplitAfterSecond(s: string, sep: char)
    requires |Split(s, sep)| >= 3
    ensures var parts := Split(s, sep);
      s == parts[0] + [sep] + parts[1] + [sep] + Join(parts[2..], [sep])
  {
    var parts := Split(s, sep);
    JoinSplit(s, sep);
    assert parts[1..][1..] == parts[2..];
    assert Join(parts[1..], [sep]) == parts[1] + [sep] + Join(parts[2..], [sep]);
  }

  /** `strings.Index(s, string(c))`: the first position of `c`, or -1. */
  function IndexOf(s: string, c: char): (r: int)
    ensures -1 <= r < |s|
    ensures r == -1 <==> c !in s
    ensures r >= 0 ==> s[r] == c && c !in s[..r]
  {
    if s == [] then -1
    else if s[0] == c then 0
    else
      var k := IndexOf(s[1..], c);
      if k == -1 then -1 else k + 1
  }

  /** `strings.LastIndex(s, string(c))`: the last position of `c`, or -1. */
  function LastIndexOf(s: string, c: char): (r: int)
    ensures -1 <= r < |s|
    ensures r == -1 <==> c !in s
    ensures r >= 0 ==> s[r] == c && c !in s[r + 1..]
  {
    if s == [] then -1
    else if s[|s| - 1] == c then |s| - 1
    else
      assert s == s[..|s| - 1] + [s[|s| - 1]];
      LastIndexOf(s[..|s| - 1], c)
  }

  /** Go's `unicode.IsSpace`: the ASCII white space characters, U+0085,
      U+00A0 and the other characters with the Unicode White_Space property.
      Below U+0100 these are exactly the six ASCII ones, U+0085 and U+00A0, and
      none lies above U+3000. */
  predicate IsSpace(c: char): (b: bool)
    ensures c as int < 0x100 ==> (b <==> c in "\t\n\U{000B}\U{000C}\r \U{0085}\U{00A0}")
    ensures b ==> c as int <= 0x3000
  {
    c == ' ' || c == '\t' || c == '\n' || c == '\r' || c == '\U{000B}' || c == '\U{000C}'
    || c == '\U{0085}' || c == '\U{00A0}' || c == '\U{1680}'
    || ('\U{2000}' <= c <= '\U{200A}')
    || c == '\U{2028}' || c == '\U{2029}' || c == '\U{202F}' || c == '\U{205F}' || c == '\U{3000}'
  }

  /** Drops the leading white space; the result does not start with white
      space. */
  function TrimLeft(s: string): (r: string)
    ensures |r| <= |s|
    ensures r == [] || !IsSpace(r[0])
  {
    if s != [] && IsSpace(s[0]) then TrimLeft(s[1..]) else s
  }

  /** Drops the trailing white space; the result starts where `s` does and
      does not end with white space. */
  function TrimRight(s: string): (r: string)
    ensures |r| <= |s|
    ensures r != [] ==> r[0] == s[0] && !IsSpace(r[|r| - 1])
  {
    if s != [] && IsSpace(s[|s| - 1]) then TrimRight(s[..|s| - 1]) else s
  }

  /** `TrimLeft` keeps a suffix of `s` and drops only white space. */
  lemma {:induction false} TrimLeftDropsSpaces(s: string)
    ensures var r := TrimLeft(s);
      r == s[|s| - |r|..] && forall i :: 0 <= i < |s| - |r| ==> IsSpace(s[i])
  {
    if s != [] && IsSpace(s[0]) {
      TrimLeftDropsSpaces(s[1..]);
    }
  }

  /** `TrimRight` keeps a prefix of `s` and drops only white space. */
  lemma {:induction false} TrimRightDropsSpaces(s: string)
    ensures var r := TrimRight(s);
      r == s[..|r|] && forall i :: |r| <= i < |s| ==> IsSpace(s[i])
  {
    if s != [] && IsSpace(s[|s| - 1]) {
      TrimRightDropsSpaces(s[..|s| - 1]);
    }
  }

  /** `strings.TrimSpace`. */
  function TrimSpace(s: string): (r: string)
    ensures r == [] || (!IsSpace(r[0]) && !IsSpace(r[|r| - 1]))
  {
    TrimRight(TrimLeft(s))
  }

  /** Trailing white space does not survive `TrimRight`. */
  lemma {:induction false} TrimRightSpaces(s: string, ws: string)
    requires forall i :: 0 <= i < |ws| ==> IsSpace(ws[i])
    ensures TrimRight(s + ws) == TrimRight(s)
  {
    if ws == [] {
      assert s + ws == s;
    } else {
      var t := s + ws;
      assert t[..|t| - 1] == s + ws[..|ws| - 1];
      TrimRightSpaces(s, ws[..|ws| - 1]);
    }
  }

  /** Trimming a string that neither starts nor ends with white space, followed
      by white space only, removes exactly that trailing white space. */
  lemma TrimSpaceTrailing(s: string, ws: string)
    requires s != [] && !IsSpace(s[0]) && !IsSpace(s[|s| - 1])
    requires forall i :: 0 <= i < |ws| ==> IsSpace(ws[i])
    ensures TrimSpace(s + ws) == s
  {
    assert TrimLeft(s + ws) == s + ws;
    TrimRightSpaces(s, ws);
  }
}
