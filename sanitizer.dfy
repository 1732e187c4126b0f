/** `AudioNotes.sanitize_filename`: a video title made safe to use as a file
    name. The program does it in two passes, and so does this model: a regular
    expression deletes every backslash, slash, star, question mark, colon,
    double quote, angle bracket and vertical bar, then
    `str.replace` turns every space into an underscore. */
module Sanitizer {
  import opened Text

  /** The characters the regular expression deletes. */
  predicate IsIllegal(c: char)
  {
    c in {'\\', '/', '*', '?', ':', '"', '<', '>', '|'}
  }

  /** The `re.sub` pass: illegal characters deleted, the rest kept in order. */
  function DeleteIllegal(s: string): (r: string)
  {
    if |s| == 0 then ""
    else if IsIllegal(s[0]) then DeleteIllegal(s[1..])
    else [s[0]] + DeleteIllegal(s[1..])
  }

  /** `s.replace(" ", "_")`. */
  function SpacesToUnderscores(s: string): (r: string)
  {
    if |s| == 0 then ""
    else [if s[0] == ' ' then '_' else s[0]] + SpacesToUnderscores(s[1..])
  }

  function Sanitize(s: string): (r: string)
  {
    SpacesToUnderscores(DeleteIllegal(s))
  }

  /** Number of characters of `s` the first pass deletes. */
  function CountIllegal(s: string): (r: nat)
  {
    if |s| == 0 then 0 else (if IsIllegal(s[0]) then 1 else 0) + CountIllegal(s[1..])
  }

  /** What one character of the input becomes in the output. */
  function SanitizeChar(c: char): (r: string)
  {
    if IsIllegal(c) then "" else if c == ' ' then "_" else [c]
  }

  /** Both passes distribute over concatenation: each part of a title is
      sanitised on its own and the results stay in order. */
  lemma {:induction false} SanitizeAppend(a: string, b: string)
    ensures Sanitize(a + b) == Sanitize(a) + Sanitize(b)
  {
    DeleteIllegalAppend(a, b);
    SpacesToUnderscoresAppend(DeleteIllegal(a), DeleteIllegal(b));
  }

  lemma {:induction false} DeleteIllegalAppend(a: string, b: string)
    ensures DeleteIllegal(a + b) == DeleteIllegal(a) + DeleteIllegal(b)
  {
    if |a| > 0 {
      assert (a + b)[0] == a[0] && (a + b)[1..] == a[1..] + b;
      DeleteIllegalAppend(a[1..], b);
    } else {
      assert a + b == b;
    }
  }

  lemma {:induction false} SpacesToUnderscoresAppend(a: string, b: string)
    ensures SpacesToUnderscores(a + b) == SpacesToUnderscores(a) + SpacesToUnderscores(b)
  {
    if |a| > 0 {
      assert (a + b)[0] == a[0] && (a + b)[1..] == a[1..] + b;
      SpacesToUnderscoresAppend(a[1..], b);
    } else {
      assert a + b == b;
    }
  }

  /** The two passes agree with a single left-to-right pass that rewrites
      each character on its own: illegal characters vanish, a space becomes
      `_`, every other character is kept, in the original order. */
  lemma {:induction false} SanitizeByCharacter(s: string)
    ensures |s| > 0 ==> Sanitize(s) == SanitizeChar(s[0]) + Sanitize(s[1..])
    ensures |s| == 0 ==> Sanitize(s) == ""
  {
    if |s| > 0 {
      assert s == [s[0]] + s[1..];
      SanitizeAppend([s[0]], s[1..]);
      assert DeleteIllegal([s[0]]) == (if IsIllegal(s[0]) then "" else [s[0]]);
    }
  }

  /** The result holds none of `\ / * ? : " < > |` and no space. */
  lemma {:induction false} SanitizedIsSafe(s: string)
    ensures forall i :: 0 <= i < |Sanitize(s)| ==> !IsIllegal(Sanitize(s)[i]) && Sanitize(s)[i] != ' '
  {
    if |s| > 0 {
      SanitizeByCharacter(s);
      SanitizedIsSafe(s[1..]);
    }
  }

  /** One character out for every character kept, none for a deleted one. */
  lemma {:induction false} SanitizedLength(s: string)
    ensures |Sanitize(s)| == |s| - CountIllegal(s)
  {
    if |s| > 0 {
      SanitizeByCharacter(s);
      SanitizedLength(s[1..]);
    }
  }

  /** Every character that is neither illegal nor a space occurs in the
      output exactly as often as in the input, and the output has one `_` for
      every `_` or space of the input. */
  lemma {:induction false} SanitizedCounts(s: string, c: char)
    ensures !IsIllegal(c) && c != ' ' && c != '_' ==> Count(Sanitize(s), c) == Count(s, c)
    ensures Count(Sanitize(s), '_') == Count(s, '_') + Count(s, ' ')
    ensures Count(Sanitize(s), ' ') == 0
  {
    if |s| > 0 {
      SanitizeByCharacter(s);
      SanitizedCounts(s[1..], c);
      CountAppend(SanitizeChar(s[0]), Sanitize(s[1..]), c);
      CountAppend(SanitizeChar(s[0]), Sanitize(s[1..]), '_');
      CountAppend(SanitizeChar(s[0]), Sanitize(s[1..]), ' ');
    }
  }

  lemma {:induction false} CountAppend(a: string, b: string, c: char)
    ensures Count(a + b, c) == Count(a, c) + Count(b, c)
  {
    if |a| > 0 {
      assert (a + b)[0] == a[0] && (a + b)[1..] == a[1..] + b;
      CountAppend(a[1..], b, c);
    } else {
      assert a + b == b;
    }
  }

  /** A name that is already safe is left as it is. */
  lemma {:induction false} SanitizeSafeIsIdentity(s: string)
    requires forall i :: 0 <= i < |s| ==> !IsIllegal(s[i]) && s[i] != ' '
    ensures Sanitize(s) == s
  {
    if |s| > 0 {
      SanitizeByCharacter(s);
      SanitizeSafeIsIdentity(s[1..]);
      assert s == [s[0]] + s[1..];
    }
  }

  /** Sanitising twice gives the same name as sanitising once. */
  lemma SanitizeIdempotent(s: string)
    ensures Sanitize(Sanitize(s)) == Sanitize(s)
  {
    SanitizedIsSafe(s);
    SanitizeSafeIsIdentity(Sanitize(s));
  }
}
