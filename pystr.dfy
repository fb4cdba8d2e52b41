/**
 * The few Python `str` operations the backend's bootstrap code relies on:
 * `split(sep)`, `strip()`, `rstrip(ch)`, `startswith(prefix)` and `sep.join`,
 * stated over `seq<char>` with Python's semantics.
 */
module PyStr {

  /** The characters for which Python's `str.isspace()` holds; `str.strip()`
      with no argument removes exactly these from both ends. */
  predicate IsSpace(c: char) {
    || c == ' ' || c == '\t' || c == '\n' || c == '\r'
    || c == '\U{0B}' || c == '\U{0C}'
    || ('\U{1C}' <= c <= '\U{1F}')
    || c == '\U{85}' || c == '\U{A0}' || c == '\U{1680}'
    || ('\U{2000}' <= c <= '\U{200A}')
    || c == '\U{2028}' || c == '\U{2029}' || c == '\U{202F}' || c == '\U{205F}'
    || c == '\U{3000}'
  }

  /** Every character of `s` is whitespace (vacuously true of ""). */
  predicate AllSpace(s: string) {
    forall i :: 0 <= i < |s| ==> IsSpace(s[i])
  }

  /** `s.lstrip()`: the suffix of `s` left after dropping leading whitespace. */
  function LStrip(s: string): (r: string)
    ensures |r| <= |s| && r == s[|s| - |r|..]
    ensures AllSpace(s[..|s| - |r|])
    ensures r == [] || !IsSpace(r[0])
  {
    if s != [] && IsSpace(s[0]) then LStrip(s[1..]) else s
  }

  /** `s.rstrip()`: the prefix of `s` left after dropping trailing whitespace. */
  function RStrip(s: string): (r: string)
    ensures |r| <= |s| && r == s[..|r|]
    ensures AllSpace(s[|r|..])
    ensures r == [] || !IsSpace(r[|r| - 1])
  {
    if s != [] && IsSpace(s[|s| - 1]) then RStrip(s[..|s| - 1]) else s
  }

  /** `s.strip()`: whitespace removed from both ends. The result is empty
      exactly when `s` is whitespace only, and otherwise starts and ends
      with a non-whitespace character. */
  function Strip(s: string): (r: string)
    ensures |r| <= |s|
    ensures r == [] <==> AllSpace(s)
    ensures r != [] ==> !IsSpace(r[0]) && !IsSpace(r[|r| - 1])
  {
    StripEmptyOnlyWhenAllSpace(s);
    RStrip(LStrip(s))
  }

  /** Stripping leaves nothing exactly when there is nothing but whitespace. */
  lemma StripEmptyOnlyWhenAllSpace(s: string)
    ensures RStrip(LStrip(s)) == [] <==> AllSpace(s)
  {
    var l := LStrip(s);
    if l == [] {
      assert s[..|s|] == s;
    } else {
      var k := |s| - |l|;
      assert l[0] == s[k] && !IsSpace(s[k]);
      assert !AllSpace(s);
      RStripKeepsFirst(l);
    }
  }

  /** `rstrip()` never cuts into a non-whitespace first character. */
  lemma {:induction false} RStripKeepsFirst(s: string)
    requires s != [] && !IsSpace(s[0])
    ensures RStrip(s) != []
  {
    if IsSpace(s[|s| - 1]) {
      RStripKeepsFirst(s[..|s| - 1]);
    }
  }

  /** `s` is `mid` with the whitespace runs `lead` and `trail` around it. */
  predicate PaddedBy(s: string, lead: string, mid: string, trail: string) {
    s == lead + mid + trail && AllSpace(lead) && AllSpace(trail)
  }

  /** `Strip(s)` is `s` with a whitespace-only prefix and suffix cut off. */
  lemma StripDecomposes(s: string)
    ensures exists lead, trail :: PaddedBy(s, lead, Strip(s), trail)
  {
    var l := LStrip(s);
    var lead := s[..|s| - |l|];
    var r := RStrip(l);
    var trail := l[|r|..];
    assert Strip(s) == r;
    Regroup(s, lead, l, r, trail);
    assert AllSpace(lead) && AllSpace(trail);
    assert PaddedBy(s, lead, r, trail);
  }

  /** Cutting a prefix off `s`, then a suffix off the rest, leaves three parts. */
  lemma Regroup(s: string, lead: string, l: string, r: string, trail: string)
    requires |lead| <= |s| && lead == s[..|lead|] && l == s[|lead|..]
    requires |r| <= |l| && r == l[..|r|] && trail == l[|r|..]
    ensures s == lead + r + trail
  {
    assert s == lead + l;
    assert l == r + trail;
  }

  /** Stripping twice is stripping once: the stored origins are in stripped form. */
  lemma StripIdempotent(s: string)
    ensures Strip(Strip(s)) == Strip(s)
  {
  }

  /** One space on each side of a word is stripped away. */
  lemma StripSpacePadding(t: string)
    requires t != [] && !IsSpace(t[0]) && !IsSpace(t[|t| - 1])
    ensures Strip([' '] + t + [' ']) == t
  {
    var s := [' '] + t + [' '];
    assert s[1..] == t + [' '];
    assert LStrip(s) == t + [' '];
    assert (t + [' '])[..|t|] == t;
  }

  /** `s.rstrip(c)`: every trailing copy of `c` removed. */
  function RStripChar(s: string, c: char): (r: string)
    ensures |r| <= |s| && r == s[..|r|]
    ensures forall i :: |r| <= i < |s| ==> s[i] == c
    ensures r == [] || r[|r| - 1] != c
  {
    if s != [] && s[|s| - 1] == c then RStripChar(s[..|s| - 1], c) else s
  }

  /** Text made only of `c` is removed entirely by `rstrip(c)`. */
  lemma {:induction false} RStripCharAll(s: string, c: char)
    requires forall i :: 0 <= i < |s| ==> s[i] == c
    ensures RStripChar(s, c) == []
  {
    if s != [] {
      RStripCharAll(s[..|s| - 1], c);
    }
  }

  /** `s.startswith(prefix)`. */
  predicate StartsWith(s: string, prefix: string) {
    |prefix| <= |s| && s[..|prefix|] == prefix
  }

  /** `s.startswith(prefix)` holds exactly when `s` is `prefix` followed by
      something. */
  lemma StartsWithIsPrefix(s: string, prefix: string)
    ensures StartsWith(s, prefix) <==> exists rest :: s == prefix + rest
  {
    if StartsWith(s, prefix) {
      assert s == prefix + s[|prefix|..];
    }
    if exists rest :: s == prefix + rest {
      var rest :| s == prefix + rest;
      assert s[..|prefix|] == prefix;
    }
  }

  /** Dropping a common first character keeps a prefix a prefix. */
  lemma StartsWithTail(s: string, c: char, prefix: string)
    requires s != [] && s[0] == c
    ensures StartsWith(s[1..], prefix) <==> StartsWith(s, [c] + prefix)
  {
    if |prefix| + 1 <= |s| {
      assert s[..|prefix| + 1] == [c] + s[1..][..|prefix|];
    }
  }

  /** `s.split(sep)` for a one-character separator: the maximal pieces of `s`
      between separators. There is always at least one piece (`"".split(",")`
      is `[""]`), and no piece contains the separator. */
  function Split(s: string, sep: char): (parts: seq<string>)
    ensures |parts| >= 1
    ensures forall i :: 0 <= i < |parts| ==> sep !in parts[i]
  {
    if s == [] then [[]]
    else
      var rest := Split(s[1..], sep);
      if s[0] == sep then [[]] + rest
      else [[s[0]] + rest[0]] + rest[1..]
  }

  /** `sep.join(parts)`. */
  function Join(parts: seq<string>, sep: char): string
  {
    if parts == [] then []
    else if |parts| == 1 then parts[0]
    else parts[0] + [sep] + Join(parts[1..], sep)
  }

  /** One step of `Split`: how the first character shapes the pieces. */
  lemma SplitCons(c: char, t: string, sep: char)
    ensures Split([c] + t, sep) ==
              if c == sep then [[]] + Split(t, sep)
              else [[c] + Split(t, sep)[0]] + Split(t, sep)[1..]
  {
    assert ([c] + t)[1..] == t;
  }

  /** A separator splits the text into the pieces before it and after it. */
  lemma {:induction false} SplitAtSeparator(x: string, sep: char, y: string)
    ensures Split(x + [sep] + y, sep) == Split(x, sep) + Split(y, sep)
  {
    if x == [] {
      assert x + [sep] + y == [sep] + y;
      SplitCons(sep, y, sep);
    } else {
      var c, x' := x[0], x[1..];
      assert x == [c] + x';
      assert x + [sep] + y == [c] + (x' + [sep] + y);
      SplitAtSeparator(x', sep, y);
      SplitConsAppend(c, Split(x', sep), Split(y, sep), sep);
      SplitCons(c, x' + [sep] + y, sep);
      SplitCons(c, x', sep);
    }
  }

  /** The list algebra behind one step of the lemma above. */
  lemma SplitConsAppend(c: char, rx: seq<string>, ry: seq<string>, sep: char)
    requires |rx| >= 1
    ensures c != sep ==> [[c] + (rx + ry)[0]] + (rx + ry)[1..] == ([[c] + rx[0]] + rx[1..]) + ry
    ensures c == sep ==> [[]] + (rx + ry) == ([[]] + rx) + ry
  {
    if c != sep {
      assert (rx + ry)[0] == rx[0];
      assert (rx + ry)[1..] == rx[1..] + ry;
    }
  }

  /** Joining the pieces of a split gives back the text. */
  lemma {:induction false} JoinSplit(s: string, sep: char)
    ensures Join(Split(s, sep), sep) == s
  {
    if s != [] {
      JoinSplit(s[1..], sep);
      var rest := Split(s[1..], sep);
      if s[0] == sep {
        assert s == [sep] + s[1..];
      } else {
        if |rest| == 1 {
          assert s == [s[0]] + s[1..];
        } else {
          assert rest == [rest[0]] + rest[1..];
          assert Join(rest, sep) == rest[0] + [sep] + Join(rest[1..], sep);
          assert s == [s[0]] + s[1..];
        }
      }
    }
  }

  /** Splitting a join of separator-free pieces gives back the pieces. */
  lemma {:induction false} SplitJoin(parts: seq<string>, sep: char)
    requires |parts| >= 1
    requires forall i :: 0 <= i < |parts| ==> sep !in parts[i]
    ensures Split(Join(parts, sep), sep) == parts
  {
    if |parts| == 1 {
      NoSeparatorIsOnePiece(parts[0], sep);
    } else {
      SplitJoin(parts[1..], sep);
      NoSeparatorIsOnePiece(parts[0], sep);
      SplitAtSeparator(parts[0], sep, Join(parts[1..], sep));
      assert parts == [parts[0]] + parts[1..];
    }
  }

  /** Text without the separator is a single piece. */
  lemma {:induction false} NoSeparatorIsOnePiece(s: string, sep: char)
    requires sep !in s
    ensures Split(s, sep) == [s]
  {
    if s != [] {
      assert s[0] in s;
      assert forall c :: c in s[1..] ==> c in s;
      NoSeparatorIsOnePiece(s[1..], sep);
      assert s == [s[0]] + s[1..];
    }
  }
}
