/**
 The text operations a business slug is built from: Python's `lower`, `re.sub`, `strip`, `rstrip`,
 `replace` and slicing, restricted to the uses the slug code makes of them.
 */
module SlugText {

  predicate IsAscii(s: string) {
    forall c | c in s :: c < 128 as char
  }

  predicate IsLowerAlnum(c: char) {
    'a' <= c <= 'z' || '0' <= c <= '9'
  }

  /** Slug characters with no two hyphens in a row. */
  predicate Hyphenated(s: string) {
    && (forall i | 0 <= i < |s| :: IsLowerAlnum(s[i]) || s[i] == '-')
    && (forall i | 0 < i < |s| :: s[i] == '-' ==> s[i - 1] != '-')
  }

  /** Nonempty [a-z0-9] segments joined by single hyphens. */
  predicate Canonical(s: string) {
    s != [] && Hyphenated(s) && s[0] != '-' && s[|s| - 1] != '-'
  }

  /** `encode("ascii", "ignore")` */
  function DropNonAscii(s: string): (t: string)
    ensures IsAscii(t)
    ensures IsAscii(s) ==> t == s
  {
    if s == [] then []
    else
      assert IsAscii(s) ==> s[0] in s && forall c | c in s[1..] :: c in s;
      if s[0] < 128 as char then [s[0]] + DropNonAscii(s[1..]) else DropNonAscii(s[1..])
  }

  function LowerChar(c: char): (d: char)
    ensures IsLowerAlnum(c) || c == '-' ==> d == c
  {
    if 'A' <= c <= 'Z' then (c as int + 32) as char else c
  }

  /** `str.lower` on ASCII text. */
  function Lower(s: string): (t: string)
    ensures |t| == |s|
    ensures Hyphenated(s) ==> t == s
  {
    seq(|s|, i requires 0 <= i < |s| => LowerChar(s[i]))
  }

  function DropRun(s: string): (t: string)
    ensures |t| <= |s|
    ensures t != [] ==> IsLowerAlnum(t[0])
    ensures s != [] && IsLowerAlnum(s[0]) ==> t == s
  {
    if s == [] || IsLowerAlnum(s[0]) then s else DropRun(s[1..])
  }

  /** `re.sub(r"[^a-z0-9]+", "-", s)` */
  function Hyphenate(s: string): (t: string)
    ensures Hyphenated(t)
    ensures s != [] && IsLowerAlnum(s[0]) ==> t != [] && t[0] == s[0]
    ensures s == [] ==> t == []
    decreases |s|
  {
    if s == [] then []
    else if IsLowerAlnum(s[0]) then [s[0]] + Hyphenate(s[1..])
    else ['-'] + Hyphenate(DropRun(s[1..]))
  }

  function StripLeft(s: string): (t: string)
    ensures t == [] || t[0] != '-'
    ensures s == [] || s[0] != '-' ==> t == s
    ensures Hyphenated(s) ==> Hyphenated(t)
  {
    if s != [] && s[0] == '-' then StripLeft(s[1..]) else s
  }

  /** `s.rstrip("-")`; it only ever removes hyphens, and only at the end. */
  function StripRight(s: string): (t: string)
    ensures t <= s
    ensures t == [] || t[|t| - 1] != '-'
    ensures s == [] || s[|s| - 1] != '-' ==> t == s
    ensures forall i | |t| <= i < |s| :: s[i] == '-'
  {
    if s != [] && s[|s| - 1] == '-' then StripRight(s[..|s| - 1]) else s
  }

  /** `s[:n]`, where a negative `n` counts from the end. */
  function SliceTo(s: string, n: int): (t: string)
    ensures t <= s
    ensures 0 <= n ==> |t| == if n <= |s| then n else |s|
    ensures n < 0 ==> |t| == if -n <= |s| then |s| + n else 0
  {
    if n > |s| then s
    else if n >= 0 then s[..n]
    else if |s| + n > 0 then s[..|s| + n]
    else []
  }

  /** `s.replace("-", "")` */
  function RemoveHyphens(s: string): (t: string)
    ensures '-' !in s ==> t == s
  {
    if s == [] then []
    else if s[0] == '-' then RemoveHyphens(s[1..])
    else [s[0]] + RemoveHyphens(s[1..])
  }

  lemma {:induction false} RemoveHyphensConcat(a: string, b: string)
    ensures RemoveHyphens(a + b) == RemoveHyphens(a) + RemoveHyphens(b)
  {
    if a == [] {
      assert a + b == b;
    } else {
      assert (a + b)[1..] == a[1..] + b;
      RemoveHyphensConcat(a[1..], b);
    }
  }

  /** Canonical text passes through the substitution untouched. */
  lemma {:induction false} HyphenateFixes(s: string)
    requires Hyphenated(s)
    requires s == [] || s[|s| - 1] != '-'
    ensures Hyphenate(s) == s
    decreases |s|
  {
    if s != [] {
      var rest := s[1..];
      assert Hyphenated(rest) by {
        assert forall i | 0 <= i < |rest| :: rest[i] == s[i + 1];
      }
      HyphenateFixes(rest);
      if s[0] == '-' {
        assert IsLowerAlnum(s[1]);
        assert DropRun(rest) == rest;
      }
    }
  }

  lemma HyphenatedPrefix(s: string, t: string)
    requires Hyphenated(s) && t <= s
    ensures Hyphenated(t)
    ensures t != [] && s[0] != '-' ==> t[0] != '-'
  {
    assert forall i | 0 <= i < |t| :: t[i] == s[i];
  }

  /** A prefix of canonical text loses nothing but its trailing hyphen, and never everything. */
  lemma StripPrefix(s: string, t: string)
    requires Canonical(s) && t <= s && t != []
    ensures Canonical(StripRight(t)) && |t| - 1 <= |StripRight(t)|
  {
    HyphenatedPrefix(s, t);
    var u := StripRight(t);
    HyphenatedPrefix(t, u);
    assert forall i | |u| <= i < |t| :: t[i] == '-';
  }

  lemma CanonicalConcat(a: string, b: string)
    requires Canonical(a) && Canonical(b)
    ensures Canonical(a + "-" + b)
  {
    var s := a + "-" + b;
    forall i | 0 <= i < |s|
      ensures IsLowerAlnum(s[i]) || s[i] == '-'
      ensures 0 < i && s[i] == '-' ==> s[i - 1] != '-'
    {
      if |a| < i { assert s[i] == b[i - |a| - 1]; }
    }
  }

  /** The text after the last hyphen. */
  function LastSegment(s: string): (t: string)
    ensures '-' !in t
  {
    if s == [] || s[|s| - 1] == '-' then []
    else LastSegment(s[..|s| - 1]) + [s[|s| - 1]]
  }

  lemma {:induction false} LastSegmentAfterHyphen(a: string, b: string)
    requires '-' !in b
    ensures LastSegment(a + "-" + b) == b
  {
    var s := a + "-" + b;
    if b != [] {
      var front := b[..|b| - 1];
      assert s[..|s| - 1] == a + "-" + front;
      assert s[|s| - 1] == b[|b| - 1] && b[|b| - 1] in b;
      LastSegmentAfterHyphen(a, front);
    }
  }

  lemma HyphenFreeIsCanonical(s: string)
    requires s != [] && forall i | 0 <= i < |s| :: IsLowerAlnum(s[i])
    ensures Canonical(s)
  {
  }
}
