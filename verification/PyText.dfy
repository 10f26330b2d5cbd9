/** Python's whitespace stripping and splitting on a character. */
module PyText {

  /** `str.isspace` of one character. */
  predicate IsSpace(c: char) {
    c in "\t\n\r \U{0b}\U{0c}\U{1c}\U{1d}\U{1e}\U{1f}\U{85}\U{a0}\U{1680}\U{2028}\U{2029}\U{202f}\U{205f}\U{3000}"
    || '\U{2000}' <= c <= '\U{200a}'
  }

  /** By their code points. */
  lemma SpaceExactly(c: char)
    ensures IsSpace(c) <==>
            var n := c as int;
            || 0x09 <= n <= 0x0d || 0x1c <= n <= 0x20 || 0x2000 <= n <= 0x200a
            || n in {0x85, 0xa0, 0x1680, 0x2028, 0x2029, 0x202f, 0x205f, 0x3000}
  {
  }

  predicate AllSpace(s: string) {
    forall i | 0 <= i < |s| :: IsSpace(s[i])
  }

  /** Neither end is whitespace. */
  predicate Trimmed(s: string) {
    s != [] ==> !IsSpace(s[0]) && !IsSpace(s[|s| - 1])
  }

  /** `str.strip` */
  function Strip(s: string): (t: string)
    ensures Trimmed(t)
    ensures Trimmed(s) ==> t == s
    decreases |s|
  {
    if s != [] && IsSpace(s[0]) then Strip(s[1..])
    else if s != [] && IsSpace(s[|s| - 1]) then Strip(s[..|s| - 1])
    else s
  }

  /** Whitespace around a text strips away. */
  lemma {:induction false} StripPadded(left: string, s: string, right: string)
    requires AllSpace(left) && AllSpace(right) && Trimmed(s)
    ensures Strip(left + (s + right)) == s
  {
    if left != [] {
      hide IsSpace;
      assert left[1..] + (s + right) == (left + (s + right))[1..];
      StripPadded(left[1..], s, right);
    } else {
      assert left + (s + right) == s + right;
      StripAfter(s, right);
    }
  }

  lemma {:induction false} StripAfter(s: string, right: string)
    requires AllSpace(right) && Trimmed(s)
    ensures Strip(s + right) == s
  {
    hide IsSpace;
    if s == [] {
      assert s + right == right;
      StripSpace(right);
    } else if right == [] {
      assert s + right == s;
    } else {
      var front := right[..|right| - 1];
      assert (s + right)[..|s + right| - 1] == s + front;
      StripAfter(s, front);
    }
  }

  lemma {:induction false} StripSpace(s: string)
    requires AllSpace(s)
    ensures Strip(s) == []
  {
    if s != [] { StripSpace(s[1..]); }
  }

  /** `str.split` on one character: always at least one part. */
  function Split(s: string, separator: char): (parts: seq<string>)
    ensures parts != []
  {
    if s == [] then [[]]
    else
      var rest := Split(s[1..], separator);
      if s[0] == separator then [[]] + rest else [[s[0]] + rest[0]] + rest[1..]
  }

  /** `str.join` */
  function Join(parts: seq<string>, separator: char): string {
    if parts == [] then []
    else if |parts| == 1 then parts[0]
    else parts[0] + [separator] + Join(parts[1..], separator)
  }

  lemma {:induction false} SplitAtFirst(part: string, separator: char, rest: string)
    requires separator !in part
    ensures Split(part + [separator] + rest, separator) == [part] + Split(rest, separator)
  {
    var s := part + [separator] + rest;
    if part == [] {
      assert s[1..] == rest;
    } else {
      assert s[1..] == part[1..] + [separator] + rest;
      SplitAtFirst(part[1..], separator, rest);
      assert [part[0]] + part[1..] == part;
    }
  }

  lemma {:induction false} SplitNone(part: string, separator: char)
    requires separator !in part
    ensures Split(part, separator) == [part]
  {
    if part != [] {
      SplitNone(part[1..], separator);
      assert [part[0]] + part[1..] == part;
    }
  }

  /** Splitting undoes joining parts that do not contain the separator. */
  lemma {:induction false} SplitJoin(parts: seq<string>, separator: char)
    requires parts != [] && forall i | 0 <= i < |parts| :: separator !in parts[i]
    ensures Split(Join(parts, separator), separator) == parts
  {
    if |parts| == 1 {
      SplitNone(parts[0], separator);
    } else {
      SplitJoin(parts[1..], separator);
      SplitAtFirst(parts[0], separator, Join(parts[1..], separator));
    }
  }

  lemma SpaceIsNotComma(s: string)
    requires AllSpace(s)
    ensures ',' !in s
  {
  }
}
