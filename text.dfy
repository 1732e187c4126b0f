/** The two Python string methods the program relies on: `str.split` with a
    one-character separator and `str.strip` with no argument. */
module Text {

  /** Number of occurrences of `c` in `s`. */
  function Count(s: string, c: char): (r: nat)
  {
    if |s| == 0 then 0 else (if s[0] == c then 1 else 0) + Count(s[1..], c)
  }

  /** `s.split(sep)`: the pieces between the occurrences of `sep`; there is one
      more piece than there are separators, and no piece holds the separator. */
  function Split(s: string, sep: char): (parts: seq<string>)
    ensures |parts| == Count(s, sep) + 1
    ensures forall i :: 0 <= i < |parts| ==> sep !in parts[i]
  {
    if |s| == 0 then [""]
    else
      var rest := Split(s[1..], sep);
      if s[0] == sep then [""] + rest
      else [[s[0]] + rest[0]] + rest[1..]
  }

  /** `sep.join(parts)`, the inverse of Split. */
  function Join(parts: seq<string>, sep: char): (r: string)
    requires |parts| >= 1
  {
    if |parts| == 1 then parts[0] else parts[0] + [sep] + Join(parts[1..], sep)
  }

  /** Joining the pieces of a split gives back the string. */
  lemma {:induction false} JoinSplit(s: string, sep: char)
    ensures Join(Split(s, sep), sep) == s
  {
    if |s| > 0 {
      JoinSplit(s[1..], sep);
      var rest := Split(s[1..], sep);
      if s[0] != sep {
        if |rest| == 1 {
          assert Join(rest, sep) == rest[0];
        } else {
          assert Join(rest, sep) == rest[0] + [sep] + Join(rest[1..], sep);
          assert ([[s[0]] + rest[0]] + rest[1..])[1..] == rest[1..];
        }
      } else {
        assert ([""] + rest)[1..] == rest;
      }
      assert s == [s[0]] + s[1..];
    }
  }

  /** Splitting a string whose first piece is `a` gives `a` followed by the
      pieces of the rest. */
  lemma {:induction false} SplitPrefix(a: string, tail: string, sep: char)
    requires sep !in a
    ensures Split(a + tail, sep) == [a + Split(tail, sep)[0]] + Split(tail, sep)[1..]
  {
    if |a| > 0 {
      SplitPrefix(a[1..], tail, sep);
      assert (a + tail)[1..] == a[1..] + tail;
      assert (a + tail)[0] == a[0];
      assert [a[0]] + (a[1..] + Split(tail, sep)[0]) == a + Split(tail, sep)[0];
    } else {
      var parts := Split(tail, sep);
      assert a + tail == tail;
      assert a + parts[0] == parts[0];
      assert parts == [parts[0]] + parts[1..];
    }
  }

  /** Splitting `a + [sep] + rest` where `a` holds no separator. */
  lemma SplitCons(a: string, rest: string, sep: char)
    requires sep !in a
    ensures Split(a + [sep] + rest, sep) == [a] + Split(rest, sep)
  {
    SplitPrefix(a, [sep] + rest, sep);
    assert a + [sep] + rest == a + ([sep] + rest);
    assert ([sep] + rest)[0] == sep;
    assert ([sep] + rest)[1..] == rest;
    assert Split([sep] + rest, sep) == [""] + Split(rest, sep);
    assert a + "" == a;
  }

  /** A string with no separator splits into itself alone. */
  lemma SplitNoSeparator(s: string, sep: char)
    requires sep !in s
    ensures Split(s, sep) == [s]
  {
    SplitPrefix(s, "", sep);
    assert s + "" == s;
  }

  /** Splitting a join gives back the pieces, when no piece holds the separator. */
  lemma {:induction false} SplitJoin(parts: seq<string>, sep: char)
    requires |parts| >= 1
    requires forall i :: 0 <= i < |parts| ==> sep !in parts[i]
    ensures Split(Join(parts, sep), sep) == parts
  {
    if |parts| == 1 {
      SplitNoSeparator(parts[0], sep);
    } else {
      SplitJoin(parts[1..], sep);
      SplitCons(parts[0], Join(parts[1..], sep), sep);
      assert parts == [parts[0]] + parts[1..];
    }
  }

  lemma JoinTwo(a: string, b: string, sep: char)
    ensures Join([a, b], sep) == a + [sep] + b
  {
    assert [a, b][1..] == [b];
  }

  lemma JoinThree(a: string, b: string, c: string, sep: char)
    ensures Join([a, b, c], sep) == a + [sep] + b + [sep] + c
  {
    assert [a, b, c][1..] == [b, c];
    JoinTwo(b, c, sep);
  }

  /** `s.split(sep)[0]`: the longest prefix of `s` before the first separator. */
  lemma SplitFirst(s: string, sep: char)
    ensures var p := Split(s, sep)[0];
            && |p| <= |s| && s[..|p|] == p && (|p| == |s| || s[|p|] == sep)
  {
    var parts := Split(s, sep);
    JoinSplit(s, sep);
    if |parts| > 1 {
      assert s == parts[0] + [sep] + Join(parts[1..], sep);
      assert s[..|parts[0]|] == parts[0];
    }
  }

  /** Joining all pieces is joining all but the last, then the separator and
      the last piece. */
  lemma {:induction false} JoinLast(parts: seq<string>, sep: char)
    requires |parts| >= 2
    ensures Join(parts, sep) == Join(parts[..|parts| - 1], sep) + [sep] + parts[|parts| - 1]
  {
    var n := |parts|;
    if n == 2 {
      assert parts[..1] == [parts[0]];
    } else {
      JoinLast(parts[1..], sep);
      assert parts[1..][..n - 2] == parts[..n - 1][1..];
      assert Join(parts[..n - 1], sep) == parts[0] + [sep] + Join(parts[..n - 1][1..], sep);
    }
  }

  /** `s.split(sep)[-1]`: the longest suffix of `s` after the last separator. */
  lemma SplitLast(s: string, sep: char)
    ensures var parts := Split(s, sep);
            var p := parts[|parts| - 1];
            && |p| <= |s| && s[|s| - |p|..] == p && (|p| == |s| || s[|s| - |p| - 1] == sep)
  {
    var parts := Split(s, sep);
    var n := |parts|;
    JoinSplit(s, sep);
    if n > 1 {
      JoinLast(parts, sep);
      var front := Join(parts[..n - 1], sep);
      assert s == front + [sep] + parts[n - 1];
      assert s[|s| - |parts[n - 1]|..] == parts[n - 1];
      assert s[|s| - |parts[n - 1]| - 1] == sep;
    }
  }

  /** The characters `str.isspace` accepts. */
  predicate IsSpace(c: char)
  {
    || c == ' ' || '\t' <= c <= '\r' || '\U{1C}' <= c <= '\U{1F}'
    || c == '\U{85}' || c == '\U{A0}' || c == '\U{1680}' || '\U{2000}' <= c <= '\U{200A}'
    || c == '\U{2028}' || c == '\U{2029}' || c == '\U{202F}' || c == '\U{205F}' || c == '\U{3000}'
  }

  /** `s.lstrip()`: the suffix of `s` left after its leading whitespace. */
  function StripLeft(s: string): (r: string)
    ensures |r| <= |s|
  {
    if |s| > 0 && IsSpace(s[0]) then StripLeft(s[1..]) else s
  }

  /** `lstrip` cuts off whitespace only, and all of it. */
  lemma {:induction false} StripLeftSpec(s: string)
    ensures var r := StripLeft(s);
            && r == s[|s| - |r|..]
            && (r == [] || !IsSpace(r[0]))
            && forall i :: 0 <= i < |s| - |r| ==> IsSpace(s[i])
  {
    if |s| > 0 && IsSpace(s[0]) {
      StripLeftSpec(s[1..]);
    }
  }

  /** `s.rstrip()`: the prefix of `s` left after its trailing whitespace. */
  function StripRight(s: string): (r: string)
    ensures |r| <= |s|
  {
    if |s| > 0 && IsSpace(s[|s| - 1]) then StripRight(s[..|s| - 1]) else s
  }

  /** `rstrip` cuts off whitespace only, and all of it. */
  lemma {:induction false} StripRightSpec(s: string)
    ensures var r := StripRight(s);
            && r == s[..|r|]
            && (r == [] || !IsSpace(r[|r| - 1]))
            && forall i :: |r| <= i < |s| ==> IsSpace(s[i])
  {
    if |s| > 0 && IsSpace(s[|s| - 1]) {
      StripRightSpec(s[..|s| - 1]);
    }
  }

  /** `s.strip()`. */
  function Strip(s: string): (r: string)
  {
    StripRight(StripLeft(s))
  }

  /** What `strip` keeps: the piece `s[i..j]`, which neither starts nor ends
      with whitespace, everything cut off on either side being whitespace; a
      string with no whitespace at either end is kept whole. */
  lemma StripSpec(s: string) returns (i: nat, j: nat)
    ensures i <= j <= |s| && Strip(s) == s[i..j]
    ensures forall k :: 0 <= k < i ==> IsSpace(s[k])
    ensures forall k :: j <= k < |s| ==> IsSpace(s[k])
    ensures Strip(s) == [] || (!IsSpace(Strip(s)[0]) && !IsSpace(Strip(s)[|Strip(s)| - 1]))
    ensures (s == [] || (!IsSpace(s[0]) && !IsSpace(s[|s| - 1]))) ==> Strip(s) == s
  {
    var l := StripLeft(s);
    var r := StripRight(l);
    StripLeftSpec(s);
    StripRightSpec(l);
    i := |s| - |l|;
    j := i + |r|;
    assert r == s[i..j];
    if r != [] {
      assert r[0] == l[0];
    }
    if s != [] && !IsSpace(s[0]) && !IsSpace(s[|s| - 1]) {
      assert i == 0;
      assert l == s;
    }
  }

  /** Stripping twice is stripping once. */
  lemma StripIdempotent(s: string)
    ensures Strip(Strip(s)) == Strip(s)
  {
    var _, _ := StripSpec(s);
    var _, _ := StripSpec(Strip(s));
  }
}
