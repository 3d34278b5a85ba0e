/** The Python `str` operations the publisher relies on, on `string` (a `seq<char>`). */
module Text {

  /** The characters for which Python's `str.isspace()` holds: what `str.strip()` removes. */
  const Whitespace: set<char> := {
    '\t', '\n', '\U{000B}', '\U{000C}', '\r', '\U{001C}', '\U{001D}', '\U{001E}', '\U{001F}', ' ',
    '\U{0085}', '\U{00A0}', '\U{1680}',
    '\U{2000}', '\U{2001}', '\U{2002}', '\U{2003}', '\U{2004}', '\U{2005}', '\U{2006}',
    '\U{2007}', '\U{2008}', '\U{2009}', '\U{200A}',
    '\U{2028}', '\U{2029}', '\U{202F}', '\U{205F}', '\U{3000}'
  }

  predicate AllIn(s: string, chars: set<char>) {
    forall i :: 0 <= i < |s| ==> s[i] in chars
  }

  /** Neither end of `s` is one of `chars`: stripping `chars` leaves `s` alone. */
  predicate Trimmed(s: string, chars: set<char>) {
    s == [] || (s[0] !in chars && s[|s| - 1] !in chars)
  }

  /** How many characters at the start of `s` are in `chars`. */
  function Leading(s: string, chars: set<char>): (n: nat)
    ensures n <= |s|
    ensures forall i :: 0 <= i < n ==> s[i] in chars
    ensures n == |s| || s[n] !in chars
  {
    if s != [] && s[0] in chars then 1 + Leading(s[1..], chars) else 0
  }

  /** How many characters at the end of `s` are in `chars`. */
  function Trailing(s: string, chars: set<char>): (n: nat)
    ensures n <= |s|
    ensures forall i :: |s| - n <= i < |s| ==> s[i] in chars
    ensures n == |s| || s[|s| - n - 1] !in chars
  {
    if s != [] && s[|s| - 1] in chars then 1 + Trailing(s[..|s| - 1], chars) else 0
  }

  /** Python's `s.lstrip(chars)`. */
  function TrimStart(s: string, chars: set<char>): string {
    s[Leading(s, chars)..]
  }

  /** Python's `s.rstrip(chars)`. */
  function TrimEnd(s: string, chars: set<char>): string {
    s[..|s| - Trailing(s, chars)]
  }

  /** Python's `s.strip(chars)`: the result neither starts nor ends with one of `chars`. */
  function Trim(s: string, chars: set<char>): (r: string)
    ensures Trimmed(r, chars)
  {
    TrimEnd(TrimStart(s, chars), chars)
  }

  /** Python's `s.strip()`. */
  function Strip(s: string): (r: string)
    ensures Trimmed(r, Whitespace)
  {
    Trim(s, Whitespace)
  }

  /** Whatever is padded with `chars` around a trimmed core strips back to that core. */
  lemma TrimPadded(pre: string, core: string, post: string, chars: set<char>)
    requires AllIn(pre, chars) && AllIn(post, chars) && Trimmed(core, chars)
    ensures Trim(pre + core + post, chars) == core
  {
    var s := pre + core + post;
    assert forall i :: 0 <= i < |pre| ==> s[i] in chars;
    assert forall i :: |pre| + |core| <= i < |s| ==> s[i] in chars;
    if core == [] {
      assert TrimStart(s, chars) == [];
    } else {
      assert s[|pre|] == core[0] && s[|pre| + |core| - 1] == core[|core| - 1];
      assert Leading(s, chars) == |pre|;
      var t := TrimStart(s, chars);
      assert t == core + post;
      assert forall i :: |core| <= i < |t| ==> t[i] in chars;
      assert t[|core| - 1] == core[|core| - 1];
      assert Trailing(t, chars) == |post|;
    }
  }

  /** `s` is its stripped core with `chars` on either side. */
  lemma TrimSplit(s: string, chars: set<char>) returns (pre: string, post: string)
    ensures s == pre + Trim(s, chars) + post
    ensures AllIn(pre, chars) && AllIn(post, chars)
  {
    var t := TrimStart(s, chars);
    var u := TrimEnd(t, chars);
    pre := s[..Leading(s, chars)];
    post := t[|u|..];
    assert s == pre + t;
    assert t == u + post;
    assert s == pre + u + post;
  }

  /** Padding with `chars` does not change what stripping `chars` gives. */
  lemma TrimIgnoresPadding(pre: string, s: string, post: string, chars: set<char>)
    requires AllIn(pre, chars) && AllIn(post, chars)
    ensures Trim(pre + s + post, chars) == Trim(s, chars)
  {
    var p, q := TrimSplit(s, chars);
    Regroup(pre, p, Trim(s, chars), q, post);
    AllInConcat(pre, p, chars);
    AllInConcat(q, post, chars);
    TrimPadded(pre + p, Trim(s, chars), q + post, chars);
  }

  lemma Regroup(pre: string, a: string, b: string, c: string, post: string)
    ensures pre + (a + b + c) + post == (pre + a) + b + (c + post)
  {
  }

  lemma AllInConcat(a: string, b: string, chars: set<char>)
    requires AllIn(a, chars) && AllIn(b, chars)
    ensures AllIn(a + b, chars)
  {
    forall i | 0 <= i < |a + b|
      ensures (a + b)[i] in chars
    {
      if i >= |a| {
        assert (a + b)[i] == b[i - |a|];
      }
    }
  }

  lemma StripIgnoresPrefix(pre: string, s: string)
    requires AllIn(pre, Whitespace)
    ensures Strip(pre + s) == Strip(s)
  {
    TrimIgnoresPadding(pre, s, [], Whitespace);
    assert pre + s + [] == pre + s;
  }

  lemma StripIgnoresSuffix(s: string, post: string)
    requires AllIn(post, Whitespace)
    ensures Strip(s + post) == Strip(s)
  {
    TrimIgnoresPadding([], s, post, Whitespace);
    assert [] + s + post == s + post;
  }

  lemma StripIdempotent(s: string)
    ensures Strip(Strip(s)) == Strip(s)
  {
    TrimPadded([], Strip(s), [], Whitespace);
    assert [] + Strip(s) + [] == Strip(s);
  }

  /** A character that is not stripped survives stripping exactly where it is. */
  lemma StripKeeps(s: string, c: char)
    requires c !in Whitespace
    ensures c in Strip(s) <==> c in s
  {
    var p, q := TrimSplit(s, Whitespace);
    var m := Strip(s);
    assert forall i :: 0 <= i < |p| ==> s[i] in Whitespace;
    assert forall i :: |p| + |m| <= i < |s| ==> s[i] in Whitespace;
    assert forall i :: |p| <= i < |p| + |m| ==> s[i] == m[i - |p|];
    if c in s {
      var i :| 0 <= i < |s| && s[i] == c;
      assert m[i - |p|] == c;
    }
  }

  /** Python's `str.lower()` restricted to ASCII letters. */
  function LowerChar(c: char): char {
    if 'A' <= c <= 'Z' then (c as int + 32) as char else c
  }

  function Lower(s: string): string {
    seq(|s|, i requires 0 <= i < |s| => LowerChar(s[i]))
  }

  /** Python's `s.startswith(prefix)`; every string starts with "". */
  predicate StartsWith(s: string, prefix: string) {
    |prefix| <= |s| && s[..|prefix|] == prefix
  }

  predicate EndsWith(s: string, suffix: string) {
    |suffix| <= |s| && s[|s| - |suffix|..] == suffix
  }

  /** Position of the first `c` in `s`, as `s.index(c)`. */
  function IndexOf(s: string, c: char): (i: nat)
    requires c in s
    ensures i < |s| && s[i] == c
    ensures forall j :: 0 <= j < i ==> s[j] != c
  {
    if s[0] == c then 0 else 1 + IndexOf(s[1..], c)
  }

  /** `IndexOf` is the only position whose character is `c` and before which `c` does not occur. */
  lemma IndexOfAt(s: string, c: char, i: nat)
    requires i < |s| && s[i] == c
    requires forall j :: 0 <= j < i ==> s[j] != c
    ensures IndexOf(s, c) == i
  {
  }

  /** Python's `s.split(sep)` for a one-character separator: always at least one piece. */
  function Split(s: string, sep: char): (parts: seq<string>)
    ensures |parts| >= 1
    ensures forall i :: 0 <= i < |parts| ==> sep !in parts[i]
    decreases |s|
  {
    if sep in s then
      var i := IndexOf(s, sep);
      [s[..i]] + Split(s[i + 1..], sep)
    else
      [s]
  }

  /** Python's `sep.join(parts)`. */
  function Join(sep: string, parts: seq<string>): string
    decreases |parts|
  {
    if |parts| == 0 then ""
    else if |parts| == 1 then parts[0]
    else parts[0] + sep + Join(sep, parts[1..])
  }

  /** Splitting and joining again with the same separator gives the original string back. */
  lemma {:induction false} JoinSplit(s: string, sep: char)
    ensures Join([sep], Split(s, sep)) == s
    decreases |s|
  {
    if sep in s {
      var i := IndexOf(s, sep);
      JoinSplit(s[i + 1..], sep);
      var parts := Split(s, sep);
      assert parts[1..] == Split(s[i + 1..], sep);
      assert s == s[..i] + [sep] + s[i + 1..];
    }
  }

  /** Joining pieces that do not contain the separator and splitting again recovers the pieces. */
  lemma {:induction false} SplitJoin(parts: seq<string>, sep: char)
    requires |parts| >= 1
    requires forall i :: 0 <= i < |parts| ==> sep !in parts[i]
    ensures Split(Join([sep], parts), sep) == parts
    decreases |parts|
  {
    if |parts| > 1 {
      var p := parts[0];
      var rest := Join([sep], parts[1..]);
      var s := Join([sep], parts);
      assert s == p + [sep] + rest;
      assert forall j :: 0 <= j < |p| ==> s[j] == p[j];
      assert s[|p|] == sep;
      IndexOfAt(s, sep, |p|);
      assert s[..|p|] == p;
      assert s[|p| + 1..] == rest;
      SplitJoin(parts[1..], sep);
      assert Split(s, sep) == [p] + Split(rest, sep);
    }
  }

  /** A join of one or more pieces is empty only if it is the join of one empty piece. */
  lemma JoinEmpty(sep: string, parts: seq<string>)
    requires sep != [] && Join(sep, parts) == []
    ensures |parts| <= 1 && (|parts| == 1 ==> parts[0] == [])
  {
  }

  /** Putting a piece in front of the parts puts it, and a separator when there were parts, in front of their join. */
  lemma JoinFront(sep: string, first: string, parts: seq<string>)
    ensures Join(sep, [first] + parts) == first + (if parts == [] then "" else sep + Join(sep, parts))
  {
    assert ([first] + parts)[1..] == parts;
  }

  /** A join whose first piece is not empty is not empty. */
  lemma JoinNonEmpty(sep: string, parts: seq<string>)
    requires |parts| >= 1 && parts[0] != []
    ensures Join(sep, parts) != []
  {
    if |parts| > 1 {
      assert Join(sep, parts)[0] == parts[0][0];
    }
  }

  function DigitChar(d: nat): char
    requires d < 10
  {
    ('0' as int + d) as char
  }

  /** Python's `str(n)` for a natural number: its decimal digits. */
  function NatToString(n: nat): (r: string)
    ensures |r| >= 1
    ensures forall i :: 0 <= i < |r| ==> '0' <= r[i] <= '9'
  {
    if n < 10 then [DigitChar(n)] else NatToString(n / 10) + [DigitChar(n % 10)]
  }

  /** Python's `str(n)` for an integer. */
  function IntToString(n: int): string {
    if n < 0 then "-" + NatToString(-n) else NatToString(n)
  }

  /** Python's slice `s[start:]`, where a negative start counts from the end and is clamped. */
  function SliceFrom(s: string, start: int): (r: string)
    ensures |r| <= |s| && r == s[|s| - |r|..]
  {
    var i := if start < 0 then (if |s| + start < 0 then 0 else |s| + start)
             else (if start > |s| then |s| else start);
    s[i..]
  }
}
