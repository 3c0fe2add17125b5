/** The JavaScript string operations the modelled code relies on:
    `split` with a one-character separator, `join`, `lastIndexOf`,
    `substring`, `indexOf`/`includes` on a substring, `replace` with a
    string pattern, and the decimal rendering of a non-negative number
    (as in `prop + '[' + i + ']'`). */
module Strings {
  import opened Seqs

  /** `parts.join(sep)`. */
  function Join(parts: seq<string>, sep: string): string
  {
    if |parts| == 0 then ""
    else if |parts| == 1 then parts[0]
    else parts[0] + sep + Join(parts[1..], sep)
  }

  /** The concatenation of all parts (`join('')`). */
  function Concat(parts: seq<string>): string
  {
    if parts == [] then "" else parts[0] + Concat(parts[1..])
  }

  /** `s` with every occurrence of `c` taken out. */
  function Remove(s: string, c: char): (r: string)
    ensures c !in r
  {
    if s == [] then ""
    else if s[0] == c then Remove(s[1..], c)
    else [s[0]] + Remove(s[1..], c)
  }

  /** `s.split(sep)`: never empty, no part holds the separator, joining the
      parts back gives `s`, and the first part is the text before the first
      separator. */
  function Split(s: string, sep: char): (parts: seq<string>)
    ensures |parts| >= 1
    ensures forall i :: 0 <= i < |parts| ==> sep !in parts[i]
    ensures Join(parts, [sep]) == s
    ensures |parts[0]| <= |s| && s[..|parts[0]|] == parts[0]
    ensures |parts[0]| < |s| ==> s[|parts[0]|] == sep
  {
    if s == [] then [""]
    else
      var rest := Split(s[1..], sep);
      if s[0] == sep then
        assert Join([""] + rest, [sep]) == "" + [sep] + Join(rest, [sep]) by {
          assert ([""] + rest)[1..] == rest;
        }
        [""] + rest
      else
        var parts := [[s[0]] + rest[0]] + rest[1..];
        assert parts[1..] == rest[1..];
        assert s == [s[0]] + s[1..];
        parts
  }

  /** One step of `Split`: the first character either starts a new part
      or joins the first part of the rest. */
  lemma SplitCons(c: char, t: string, sep: char)
    ensures Split([c] + t, sep) ==
      if c == sep then [""] + Split(t, sep) else [[c] + Split(t, sep)[0]] + Split(t, sep)[1..]
  {
    assert ([c] + t)[1..] == t;
  }

  /** Splitting at a separator splits each side independently. */
  lemma {:induction false} SplitAppend(a: string, b: string, sep: char)
    ensures Split(a + [sep] + b, sep) == Split(a, sep) + Split(b, sep)
    decreases |a|
  {
    if a == [] {
      assert a + [sep] + b == [sep] + b;
      SplitCons(sep, b, sep);
    } else {
      var t := a[1..] + [sep] + b;
      assert a + [sep] + b == [a[0]] + t;
      assert a == [a[0]] + a[1..];
      SplitAppend(a[1..], b, sep);
      SplitCons(a[0], t, sep);
      SplitCons(a[0], a[1..], sep);
      PartsCons(a[0], sep, Split(a[1..], sep), Split(b, sep));
    }
  }

  /** The list algebra behind one step of `SplitAppend`. */
  lemma PartsCons(c: char, sep: char, ra: seq<string>, rb: seq<string>)
    requires |ra| >= 1
    ensures var r := ra + rb;
      (if c == sep then [""] + ra else [[c] + ra[0]] + ra[1..]) + rb
      == (if c == sep then [""] + r else [[c] + r[0]] + r[1..])
  {
    var r := ra + rb;
    if c != sep {
      assert r[0] == ra[0];
      assert r[1..] == ra[1..] + rb;
    }
  }

  /** A text without the separator splits into itself alone. */
  lemma {:induction false} SplitWithoutSeparator(s: string, sep: char)
    requires sep !in s
    ensures Split(s, sep) == [s]
    decreases |s|
  {
    if s != [] {
      SplitWithoutSeparator(s[1..], sep);
      assert s == [s[0]] + s[1..];
    }
  }

  /** `s.lastIndexOf(c)`: the last position holding `c`, or -1. */
  function LastIndexOf(s: string, c: char): (k: int)
    ensures -1 <= k < |s|
    ensures k >= 0 ==> s[k] == c
    ensures forall j :: k < j < |s| ==> s[j] != c
  {
    if s == [] then -1
    else if s[|s| - 1] == c then |s| - 1
    else LastIndexOf(s[..|s| - 1], c)
  }

  /** `s.substring(s.lastIndexOf(c) + 1)`: the longest suffix of `s`
      without `c`; all of `s` when `c` does not occur. */
  function AfterLast(s: string, c: char): (r: string)
    ensures c !in r
    ensures |r| <= |s| && s[|s| - |r|..] == r
    ensures c !in s ==> r == s
    ensures c in s ==> s[|s| - |r| - 1] == c
  {
    s[LastIndexOf(s, c) + 1..]
  }

  /** `s.split(sep).slice(0, -1).join(sep)`: the text before the last
      separator, and the empty string when there is none. */
  function DropLastSegment(s: string, sep: char): (r: string)
    ensures sep in s ==> r == s[..LastIndexOf(s, sep)]
    ensures sep !in s ==> r == ""
  {
    var parts := Split(s, sep);
    if sep in s then
      var k := LastIndexOf(s, sep);
      assert s == s[..k] + [sep] + s[k + 1..];
      SplitAppend(s[..k], s[k + 1..], sep);
      SplitWithoutSeparator(s[k + 1..], sep);
      assert parts[..|parts| - 1] == Split(s[..k], sep);
      Join(parts[..|parts| - 1], [sep])
    else
      SplitWithoutSeparator(s, sep);
      Join(parts[..|parts| - 1], [sep])
  }

  /** `base + sep + last` with a separator-free `last` gives back `base`
      and `last`. */
  lemma LastSegmentRoundTrip(base: string, last: string, sep: char)
    requires sep !in last
    ensures DropLastSegment(base + [sep] + last, sep) == base
    ensures AfterLast(base + [sep] + last, sep) == last
  {
    var s := base + [sep] + last;
    assert s[|base|] == sep;
    var k := LastIndexOf(s, sep);
    assert forall j :: |base| < j < |s| ==> s[j] == last[j - |base| - 1];
    assert k == |base|;
    assert s[..k] == base;
  }

  /** What comes before the last separator and what comes after it
      rebuild the whole text. */
  lemma LastSegmentSplit(s: string, sep: char)
    requires sep in s
    ensures DropLastSegment(s, sep) + [sep] + AfterLast(s, sep) == s
  {
    var k := LastIndexOf(s, sep);
    assert s == s[..k] + [sep] + s[k + 1..];
  }

  /** `s.split(sep)[0]`: the text before the first separator, all of `s`
      when there is none. */
  function FirstSegment(s: string, sep: char): (r: string)
    ensures sep !in r
    ensures |r| <= |s| && s[..|r|] == r
    ensures |r| < |s| ==> s[|r|] == sep
    ensures sep !in s ==> r == s
  {
    Split(s, sep)[0]
  }

  /** True when `sub` occurs in `s` starting at position `j`. */
  predicate OccursAt(s: string, sub: string, j: int)
  {
    0 <= j && j + |sub| <= |s| && s[j..j + |sub|] == sub
  }

  /** `s.indexOf(sub)`: the first position where `sub` occurs, or -1. */
  function IndexOf(s: string, sub: string): (k: int)
    ensures k == -1 || OccursAt(s, sub, k)
    ensures forall j :: 0 <= j && (k == -1 || j < k) ==> !OccursAt(s, sub, j)
    decreases |s|
  {
    if |s| < |sub| then -1
    else if s[..|sub|] == sub then 0
    else
      assert !OccursAt(s, sub, 0);
      var k := IndexOf(s[1..], sub);
      assert forall j :: 0 <= j ==> (OccursAt(s[1..], sub, j) <==> OccursAt(s, sub, j + 1)) by {
        forall j | 0 <= j
          ensures OccursAt(s[1..], sub, j) <==> OccursAt(s, sub, j + 1)
        {
          if j + 1 + |sub| <= |s| {
            assert s[1..][j..j + |sub|] == s[j + 1..j + 1 + |sub|];
          }
        }
      }
      assert forall j :: 1 <= j && (k == -1 || j < k + 1) ==> !OccursAt(s, sub, j) by {
        forall j | 1 <= j && (k == -1 || j < k + 1)
          ensures !OccursAt(s, sub, j)
        {
          assert !OccursAt(s[1..], sub, j - 1);
        }
      }
      if k == -1 then -1 else k + 1
  }

  /** `s.includes(sub)`. */
  predicate Includes(s: string, sub: string)
  {
    IndexOf(s, sub) >= 0
  }

  /** `s.replace(pat, rep)` with a string pattern: only the first
      occurrence is replaced. */
  function ReplaceFirst(s: string, pat: string, rep: string): string
  {
    var k := IndexOf(s, pat);
    if k < 0 then s else s[..k] + rep + s[k + |pat|..]
  }

  /** Removing the first occurrence of `pat` from a text that starts with
      it leaves what follows; a text without it is unchanged. */
  lemma ReplaceFirstCases(s: string, pat: string)
    ensures |pat| <= |s| && s[..|pat|] == pat ==> ReplaceFirst(s, pat, "") == s[|pat|..]
    ensures (forall j :: 0 <= j ==> !OccursAt(s, pat, j)) ==> ReplaceFirst(s, pat, "") == s
  {
    if |pat| <= |s| && s[..|pat|] == pat {
      assert OccursAt(s, pat, 0);
    }
  }

  /** The truthiness of a line: a non-empty string. */
  predicate NonEmptyLine(line: string)
  {
    line != ""
  }

  /** `parts.filter(line => line)`: the parts that are truthy strings, in
      order. */
  function NonEmptyParts(parts: seq<string>): (r: seq<string>)
    ensures forall i :: 0 <= i < |r| ==> r[i] != ""
    ensures forall x :: x in r ==> x in parts
    ensures Concat(r) == Concat(parts)
    ensures r == Filter(parts, NonEmptyLine)
  {
    if parts == [] then []
    else if parts[0] == "" then NonEmptyParts(parts[1..])
    else [parts[0]] + NonEmptyParts(parts[1..])
  }

  /** Joining the parts of a split drops exactly the separators. */
  lemma {:induction false} ConcatSplit(s: string, sep: char)
    ensures Concat(Split(s, sep)) == Remove(s, sep)
    decreases |s|
  {
    if s != [] {
      ConcatSplit(s[1..], sep);
      var rest := Split(s[1..], sep);
      if s[0] != sep {
        var parts := [[s[0]] + rest[0]] + rest[1..];
        assert parts[1..] == rest[1..];
      } else {
        assert ([""] + rest)[1..] == rest;
      }
    }
  }

  /** `text.split('\n').filter(line => line)`: the non-empty parts of the
      newline split, in order; none contains a line break and, run
      together, they are the text with its line breaks removed. */
  function NonEmptyLines(text: string): (lines: seq<string>)
    ensures lines == Filter(Split(text, '\n'), NonEmptyLine)
    ensures forall i :: 0 <= i < |lines| ==> lines[i] != "" && '\n' !in lines[i]
    ensures Concat(lines) == Remove(text, '\n')
  {
    ConcatSplit(text, '\n');
    var parts := Split(text, '\n');
    var lines := NonEmptyParts(parts);
    assert forall i :: 0 <= i < |lines| ==> lines[i] in parts;
    lines
  }

  /** The decimal digit `d`. */
  function DigitChar(d: nat): (c: char)
    requires d < 10
    ensures '0' <= c <= '9'
  {
    "0123456789"[d]
  }

  /** The decimal rendering of `n`, as JavaScript prints an integer. */
  function NatToString(n: nat): (s: string)
    ensures |s| >= 1
    ensures forall i :: 0 <= i < |s| ==> '0' <= s[i] <= '9'
  {
    if n < 10 then [DigitChar(n)] else NatToString(n / 10) + [DigitChar(n % 10)]
  }

  /** `b.startsWith(a)`. */
  predicate IsPrefix(a: string, b: string)
  {
    |a| <= |b| && b[..|a|] == a
  }
}
