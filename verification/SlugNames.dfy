/** What a business slug keeps of the name it is made from, and which name that is. */
module SlugNames {
  import opened Wrappers
  import opened Distinct
  import opened SlugText
  import opened SlugAllocator
  import opened Uuid
  import PyText
  import Decimal

  // ----- The words of a text -----

  /** The characters a slug keeps. */
  predicate IsKept(c: char) {
    'a' <= c <= 'z' || 'A' <= c <= 'Z' || '0' <= c <= '9'
  }

  function Small(c: char): char {
    if 'A' <= c <= 'Z' then ('a' as int + (c as int - 'A' as int)) as char else c
  }

  function SmallText(s: string): (t: string)
    ensures |t| == |s|
  {
    seq(|s|, i requires 0 <= i < |s| => Small(s[i]))
  }

  /** The kept characters of a text, in lower case and in their order. */
  function Kept(text: string): string {
    if text == [] then []
    else if IsKept(text[0]) then [Small(text[0])] + Kept(text[1..])
    else Kept(text[1..])
  }

  /** The first ASCII character is one that is kept. */
  predicate StartsWord(text: string) {
    text != [] && if text[0] < 128 as char then IsKept(text[0]) else StartsWord(text[1..])
  }

  /** The runs of kept characters, in lower case: ASCII characters end a run, others are not there at all. */
  function Words(text: string): seq<string> {
    if text == [] then []
    else
      var rest := Words(text[1..]);
      if !IsKept(text[0]) then rest
      else if StartsWord(text[1..]) && rest != [] then [[Small(text[0])] + rest[0]] + rest[1..]
      else [[Small(text[0])]] + rest
  }

  lemma {:induction false} StartsWordHasWord(text: string)
    requires StartsWord(text)
    ensures Words(text) != []
  {
    if !IsKept(text[0]) { StartsWordHasWord(text[1..]); }
  }

  /** A run of kept characters is one word. */
  lemma {:induction false} WordsOfRun(run: string)
    requires run != [] && forall i | 0 <= i < |run| :: IsKept(run[i])
    ensures Words(run) == [SmallText(run)]
  {
    var rest := run[1..];
    if rest == [] {
      assert Words(rest) == [] && !StartsWord(rest);
      assert SmallText(run) == [Small(run[0])];
    } else {
      WordsOfRun(rest);
      assert StartsWord(rest);
      assert [Small(run[0])] + SmallText(rest) == SmallText(run);
    }
  }

  /** An ASCII character that is not kept separates. */
  lemma {:induction false} WordsAtSeparator(a: string, c: char, b: string)
    requires c < 128 as char && !IsKept(c)
    ensures Words(a + [c] + b) == Words(a) + Words(b)
  {
    var text := a + [c] + b;
    if a == [] {
      assert text[1..] == b;
    } else {
      assert text[1..] == a[1..] + [c] + b;
      WordsAtSeparator(a[1..], c, b);
      StartsBeforeSeparator(a[1..], c, b);
      if StartsWord(a[1..]) { StartsWordHasWord(a[1..]); }
    }
  }

  lemma {:induction false} StartsBeforeSeparator(a: string, c: char, b: string)
    requires c < 128 as char && !IsKept(c)
    ensures StartsWord(a + [c] + b) <==> StartsWord(a)
  {
    if a != [] {
      assert (a + [c] + b)[1..] == a[1..] + [c] + b;
      StartsBeforeSeparator(a[1..], c, b);
    }
  }

  /** Any other character is as good as absent: it neither stays nor separates. */
  lemma {:induction false} WordsIgnoreNonAscii(a: string, c: char, b: string)
    requires c >= 128 as char
    ensures Words(a + [c] + b) == Words(a + b)
  {
    var text := a + [c] + b;
    if a == [] {
      assert text[1..] == b && a + b == b;
    } else {
      assert text[1..] == a[1..] + [c] + b && (a + b)[1..] == a[1..] + b;
      WordsIgnoreNonAscii(a[1..], c, b);
      StartsAfterNonAscii(a[1..], c, b);
    }
  }

  lemma {:induction false} StartsAfterNonAscii(a: string, c: char, b: string)
    requires c >= 128 as char
    ensures StartsWord(a + [c] + b) <==> StartsWord(a + b)
  {
    if a == [] {
      assert ([c] + b)[1..] == b && a + [c] + b == [c] + b && a + b == b;
    } else {
      assert (a + [c] + b)[1..] == a[1..] + [c] + b && (a + b)[1..] == a[1..] + b;
      StartsAfterNonAscii(a[1..], c, b);
    }
  }

  /** The words joined by hyphens: the slug of a text, were there no limit and no reserved word. */
  function Whole(text: string): string {
    PyText.Join(Words(text), '-')
  }

  /** Words are not empty and have no hyphens. */
  lemma {:induction false} WordsShape(text: string)
    ensures forall w | w in Words(text) :: w != [] && '-' !in w
  {
    if text != [] {
      var rest := Words(text[1..]);
      WordsShape(text[1..]);
      assert rest != [] ==> rest[0] in rest;
      assert forall w | w in Words(text) ::
          w in rest || w == [Small(text[0])] || (rest != [] && w == [Small(text[0])] + rest[0]);
    }
  }

  /** Without its hyphens it is exactly what is kept of the text. */
  lemma {:induction false} WholeKeeps(text: string)
    ensures RemoveHyphens(Whole(text)) == Kept(text)
  {
    if text != [] {
      var c, rest := Small(text[0]), Words(text[1..]);
      WholeKeeps(text[1..]);
      if IsKept(text[0]) {
        if StartsWord(text[1..]) { StartsWordHasWord(text[1..]); }
        JoinStep(c, rest, StartsWord(text[1..]));
      }
    }
  }

  lemma JoinStep(c: char, rest: seq<string>, joined: bool)
    requires c != '-' && (joined ==> rest != [])
    ensures var words := if joined then [[c] + rest[0]] + rest[1..] else [[c]] + rest;
            PyText.Join(words, '-') ==
            if joined || rest == [] then [c] + PyText.Join(rest, '-') else [c] + ['-'] + PyText.Join(rest, '-')
  {
    if joined {
      var words := [[c] + rest[0]] + rest[1..];
      assert words[1..] == rest[1..];
      if |rest| > 1 {
        assert PyText.Join(words, '-') == ([c] + rest[0]) + ['-'] + PyText.Join(rest[1..], '-');
        assert PyText.Join(rest, '-') == rest[0] + ['-'] + PyText.Join(rest[1..], '-');
        var tail := PyText.Join(rest[1..], '-');
        assert ([c] + rest[0]) + ['-'] + tail == [c] + (rest[0] + ['-'] + tail);
      }
    } else {
      assert ([[c]] + rest)[1..] == rest;
    }
  }

  // ----- The code computes them -----

  lemma {:induction false} WordsOfAscii(text: string)
    ensures Words(DropNonAscii(text)) == Words(text)
    ensures StartsWord(DropNonAscii(text)) <==> StartsWord(text)
  {
    if text != [] {
      WordsOfAscii(text[1..]);
      if text[0] < 128 as char {
        assert DropNonAscii(text)[1..] == DropNonAscii(text[1..]);
      }
    }
  }

  lemma LowerStep(a: string)
    requires a != []
    ensures Lower(a) == [LowerChar(a[0])] + Lower(a[1..])
    ensures IsLowerAlnum(LowerChar(a[0])) <==> IsKept(a[0])
    ensures IsKept(a[0]) ==> LowerChar(a[0]) == Small(a[0])
  {
  }

  /** The hyphen that the substitution leaves before and after the words. */
  function Edge(present: bool): string {
    if present then ['-'] else []
  }

  function Edged(before: bool, s: string, after: bool): string {
    Edge(before) + s + Edge(after)
  }

  lemma EdgedStep(c: char, s: string, after: bool)
    ensures [c] + Edged(false, s, after) == Edged(false, [c] + s, after)
    ensures [c] + Edged(true, s, after) == Edged(false, [c] + ['-'] + s, after)
    ensures ['-'] + Edged(false, s, after) == Edged(true, s, after)
    ensures [c] + ['-'] == Edged(false, [c], true)
    ensures [c] == Edged(false, [c], false)
  {
    assert [c] + ([] + s + Edge(after)) == [] + ([c] + s) + Edge(after);
    assert [c] + (['-'] + s + Edge(after)) == [] + ([c] + ['-'] + s) + Edge(after);
    assert ['-'] + ([] + s + Edge(after)) == ['-'] + s + Edge(after);
  }

  /** Dropped characters at the front leave one hyphen between them. */
  lemma HyphenateDropped(a: string)
    requires a != [] && !IsKept(a[0])
    ensures var rest := a[1..];
            Hyphenate(Lower(a)) ==
            if rest != [] && !IsKept(rest[0]) then Hyphenate(Lower(rest)) else ['-'] + Hyphenate(Lower(rest))
  {
    var rest := a[1..];
    LowerStep(a);
    assert Lower(a)[1..] == Lower(rest);
    if rest != [] {
      LowerStep(rest);
      assert Lower(rest)[1..] == Lower(rest[1..]);
    }
  }

  /** The substitution gives the words joined by hyphens, and one hyphen at each end where it drops something. */
  predicate HasShape(a: string) {
    var words := Words(a);
    Hyphenate(Lower(a)) ==
    if words == [] then Edge(a != [])
    else Edged(!IsKept(a[0]), PyText.Join(words, '-'), !IsKept(a[|a| - 1]))
  }

  lemma DroppedStep(a: string)
    requires a != [] && !IsKept(a[0]) && HasShape(a[1..])
    requires |a| > 1 ==> a[1] < 128 as char
    ensures HasShape(a)
  {
    hide Hyphenate, Lower, PyText.Join, Words, Edged;
    var rest := a[1..];
    HyphenateDropped(a);
    DroppedWords(a);
    if rest == [] {
      WordsOfNothing();
      LowerNothing();
    } else {
      assert rest[|rest| - 1] == a[|a| - 1] && (StartsWord(rest) <==> IsKept(rest[0]));
      if IsKept(rest[0]) {
        StartsWordHasWord(rest);
        EdgedStep('-', PyText.Join(Words(rest), '-'), !IsKept(a[|a| - 1]));
      }
    }
  }

  lemma DroppedWords(a: string)
    requires a != [] && !IsKept(a[0])
    ensures Words(a) == Words(a[1..])
  {
  }

  lemma {:induction false} HyphenateShape(a: string)
    requires IsAscii(a)
    ensures HasShape(a)
    decreases |a|
  {
    if a == [] {
      assert Lower([]) == [];
    } else {
      AsciiRest(a);
      HyphenateShape(a[1..]);
      hide HasShape, IsAscii;
      if IsKept(a[0]) { KeptStep(a); } else { DroppedStep(a); }
    }
  }

  lemma AsciiRest(a: string)
    requires IsAscii(a) && a != []
    ensures IsAscii(a[1..]) && a[0] < 128 as char && (|a| > 1 ==> a[1] < 128 as char)
  {
    assert a[0] in a && (|a| > 1 ==> a[1] in a);
    assert forall c | c in a[1..] :: c in a;
  }

  /** The words of a text that starts with a kept character, joined. */
  lemma JoinKept(a: string)
    requires a != [] && IsKept(a[0])
    ensures Words(a) != []
    ensures var rest := a[1..];
            PyText.Join(Words(a), '-') ==
            if StartsWord(rest) || Words(rest) == [] then [Small(a[0])] + PyText.Join(Words(rest), '-')
            else [Small(a[0])] + ['-'] + PyText.Join(Words(rest), '-')
  {
    if StartsWord(a[1..]) { StartsWordHasWord(a[1..]); }
    JoinStep(Small(a[0]), Words(a[1..]), StartsWord(a[1..]));
  }

  lemma KeptStep(a: string)
    requires a != [] && IsKept(a[0]) && HasShape(a[1..])
    requires |a| > 1 ==> a[1] < 128 as char
    ensures HasShape(a)
  {
    hide Hyphenate, Lower, Words, PyText.Join, Edged, Small;
    var rest, c := a[1..], Small(a[0]);
    HyphenateKept(a);
    JoinKept(a);
    JoinNothing();
    assert [c] + [] == [c];
    EdgedStep(c, PyText.Join(Words(rest), '-'), !IsKept(a[|a| - 1]));
    if rest == [] {
      WordsOfNothing();
      LowerNothing();
    } else {
      assert rest[|rest| - 1] == a[|a| - 1] && (StartsWord(rest) <==> IsKept(rest[0]));
      if StartsWord(rest) { StartsWordHasWord(rest); }
      if Words(rest) == [] { WordlessEnd(rest); }
    }
  }

  lemma LowerNothing()
    ensures Hyphenate(Lower([])) == []
  {
  }

  lemma JoinNothing()
    ensures PyText.Join([], '-') == []
  {
  }

  lemma HyphenateKept(a: string)
    requires a != [] && IsKept(a[0])
    ensures Hyphenate(Lower(a)) == [Small(a[0])] + Hyphenate(Lower(a[1..]))
  {
    LowerStep(a);
    assert Lower(a)[1..] == Lower(a[1..]);
  }

  lemma {:induction false} WordlessEnd(text: string)
    requires text != [] && Words(text) == []
    ensures !IsKept(text[|text| - 1])
  {
    if |text| > 1 { WordlessEnd(text[1..]); }
  }

  lemma StripLeftEdge(present: bool, s: string)
    requires s == [] || s[0] != '-'
    ensures StripLeft(Edge(present) + s) == s
  {
    if present {
      assert (['-'] + s)[1..] == s;
    } else {
      assert [] + s == s;
    }
  }

  lemma StripRightEdge(s: string, present: bool)
    requires s == [] || s[|s| - 1] != '-'
    ensures StripRight(s + Edge(present)) == s
  {
    if present {
      assert (s + ['-'])[..|s + ['-']| - 1] == s;
    } else {
      assert s + [] == s;
    }
  }

  lemma StripEdges(before: bool, s: string, after: bool)
    requires s != [] && s[0] != '-' && s[|s| - 1] != '-'
    ensures StripRight(StripLeft(Edge(before) + s + Edge(after))) == s
  {
    hide StripLeft, StripRight;
    assert Edge(before) + s + Edge(after) == Edge(before) + (s + Edge(after));
    StripLeftEdge(before, s + Edge(after));
    StripRightEdge(s, after);
  }

  lemma {:induction false} JoinEnds(words: seq<string>)
    requires words != [] && forall w | w in words :: w != [] && '-' !in w
    ensures var s := PyText.Join(words, '-'); s != [] && s[0] != '-' && s[|s| - 1] != '-'
  {
    var first := words[0];
    assert first in words && first[0] in first && first[|first| - 1] in first;
    if |words| > 1 {
      assert forall w | w in words[1..] :: w in words;
      JoinEnds(words[1..]);
    }
  }

  /** Lowering, substituting and stripping a text comes to its words joined by hyphens. */
  lemma StrippedIsWhole(text: string)
    ensures StripRight(StripLeft(Hyphenate(Lower(DropNonAscii(text))))) == Whole(text)
  {
    hide Hyphenate, Lower, Words;
    var a := DropNonAscii(text);
    WordsOfAscii(text);
    HyphenateShape(a);
    if Words(a) != [] {
      WordsShape(a);
      JoinEnds(Words(a));
      assert a != [] by { WordsOfNothing(); }
      StripEdges(!IsKept(a[0]), PyText.Join(Words(a), '-'), !IsKept(a[|a| - 1]));
    }
  }

  lemma WordsOfNothing()
    ensures Words([]) == []
  {
  }

  // ----- The base slug of a name -----

  /** The first twelve digits of a printed company id. */
  function IdDigits(companyId: string): string
    requires IsUuid(companyId)
  {
    companyId[..8] + companyId[9..13]
  }

  lemma CompactIdText(companyId: string)
    requires IsUuid(companyId)
    ensures ShortId(companyId) == companyId[..8]
    ensures Fallback(companyId) == "business-" + IdDigits(companyId)
  {
    var a, b, c := companyId[..8], companyId[9..13], companyId[13..];
    assert forall i | 0 <= i < 8 :: a[i] == companyId[i] && IsHexDigit(a[i]);
    assert forall i | 0 <= i < 4 :: b[i] == companyId[i + 9] && IsHexDigit(b[i]);
    assert companyId == a + (['-'] + (b + c));
    RemoveFirstHyphen(a, b, c);
    CompactId(companyId);
    assert (a + (b + RemoveHyphens(c)))[..8] == a;
    assert (a + (b + RemoveHyphens(c)))[..12] == a + b;
  }

  lemma WholeEnds(text: string)
    ensures Whole(text) != [] ==> Whole(text)[|Whole(text)| - 1] != '-'
  {
    WordsShape(text);
    if Words(text) != [] { JoinEnds(Words(text)); }
  }

  lemma WholeIsHyphenated(text: string)
    ensures Hyphenated(Whole(text))
  {
    hide Words;
    StrippedIsWhole(text);
    var h := StripLeft(Hyphenate(Lower(DropNonAscii(text))));
    HyphenatedPrefix(h, StripRight(h));
  }

  /** The first characters of a text, without a hyphen at the end. */
  function Cut(s: string, n: nat): string
    requires 1 <= n
  {
    if |s| <= n then s else if s[n - 1] == '-' then s[..n - 1] else s[..n]
  }

  lemma StripCut(whole: string, n: nat)
    requires Hyphenated(whole) && 1 <= n
    requires whole == [] || whole[|whole| - 1] != '-'
    ensures StripRight(SliceTo(whole, n)) == Cut(whole, n)
  {
    if |whole| > n {
      var cut := whole[..n];
      assert SliceTo(whole, n) == cut && cut[n - 1] == whole[n - 1];
      if whole[n - 1] == '-' { assert cut[..n - 1] == whole[..n - 1]; }
    } else {
      assert SliceTo(whole, n) == whole;
    }
  }

  lemma LongIsNotReserved(s: string)
    ensures |s| >= 62 ==> s !in RESERVED
  {
  }

  lemma SqueezeIsCut(text: string)
    ensures Squeeze(DropNonAscii(text)) == Cut(Whole(text), 63)
  {
    hide Words, Hyphenate, Lower, StripLeft, DropNonAscii, Whole, Cut;
    StrippedIsWhole(text);
    WholeIsHyphenated(text);
    WholeEnds(text);
    StripCut(Whole(text), 63);
  }

  /**
   A base slug is the words of the name joined by hyphens: all of them as long as they fit into 63
   characters, otherwise the first 63, or 62 where the 63rd is a hyphen. Shorter than three characters or
   reserved, it is made from the company id instead.
   */
  lemma BaseSlugIsTheName(nfkd: string -> string, name: string, companyId: string)
    requires IsUuid(companyId)
    ensures var whole, base := Whole(nfkd(name)), BaseSlug(nfkd, name, companyId);
            && (|whole| <= 63 ==> base == if |whole| < 3 || whole in RESERVED
                                          then "business-" + IdDigits(companyId) else whole)
            && (|whole| > 63 ==> base == if whole[62] == '-' then whole[..62] else whole[..63])
  {
    hide RESERVED, Squeeze, Whole, Fallback, DropNonAscii;
    SqueezeIsCut(nfkd(name));
    CompactIdText(companyId);
    LongIsNotReserved(Squeeze(DropNonAscii(nfkd(name))));
  }

  /** The first eight digits of the company id and from the second attempt on its number. */
  function SuffixText(companyId: string, counter: nat): string
    requires IsUuid(companyId)
  {
    if counter == 1 then companyId[..8] else companyId[..8] + "-" + Decimal.Print(counter)
  }

  lemma SuffixIsText(companyId: string, counter: nat)
    requires IsUuid(companyId) && 1 <= counter < Decimal.Pow10(52)
    ensures Suffix(companyId, counter) == SuffixText(companyId, counter)
    ensures |SuffixText(companyId, counter)| <= 61
  {
    hide ShortId, Decimal.Print;
    CompactIdText(companyId);
    Decimal.PrintLength(counter, 52);
  }

  lemma AttemptOfParts(candidate: string, companyId: string, counter: nat)
    ensures Attempt(candidate, companyId, counter) ==
            StripRight(SliceTo(candidate, 62 - |Suffix(companyId, counter)|)) + "-" + Suffix(companyId, counter)
  {
  }

  /** A numbered attempt is the candidate, cut where the whole would not fit into 63 characters, and the suffix. */
  lemma AttemptText(candidate: string, companyId: string, counter: nat)
    requires Canonical(candidate) && |candidate| <= 63 && IsUuid(companyId)
    requires 1 <= counter < Decimal.Pow10(52)
    ensures var suffix := SuffixText(companyId, counter);
            && |suffix| <= 61
            && Attempt(candidate, companyId, counter) == Cut(candidate, 62 - |suffix|) + "-" + suffix
  {
    hide Suffix, SuffixText, Cut, Attempt, Decimal.Pow10, StripRight, SliceTo;
    SuffixIsText(companyId, counter);
    AttemptOfParts(candidate, companyId, counter);
    StripCut(candidate, 62 - |Suffix(companyId, counter)|);
  }

  // ----- Which name a company's slug is made from -----

  /** The English name where there is one, whatever the other; else the other; else nothing. */
  lemma SlugsUseName(nfkd: string -> string, rows: seq<Company>, i: nat)
    requires i < |rows|
    ensures var row, earlier := rows[i], Elements(Slugs(nfkd, rows)[..i]);
            && (forall english | row.nameEn == Some(english) && english != [] ::
                  Slugs(nfkd, rows)[i] == FirstFit(BaseSlug(nfkd, english, row.id), row.id, earlier))
            && (forall name | (row.nameEn == None || row.nameEn == Some([])) && row.name == Some(name) ::
                  Slugs(nfkd, rows)[i] == FirstFit(BaseSlug(nfkd, name, row.id), row.id, earlier))
            && ((row.nameEn == None || row.nameEn == Some([])) && row.name == None ==>
                  Slugs(nfkd, rows)[i] == FirstFit(BaseSlug(nfkd, [], row.id), row.id, earlier))
  {
    hide BaseSlug, FirstFit, Slugs;
    SlugsStep(nfkd, rows, i);
  }

  /** A first company called Thai Garden in English gets that name, whatever else it is called. */
  lemma EnglishNameFirst(nfkd: string -> string, id: string, name: Option<string>)
    requires FixesAscii(nfkd) && IsUuid(id)
    ensures Slugs(nfkd, [Company(id, name, Some("Thai Garden"))]) == ["thai-garden"]
  {
    hide RESERVED, Whole, Slugs, FirstFit, BaseSlug, Elements;
    var row := Company(id, name, Some("Thai Garden"));
    ThaiGarden();
    BaseSlugIsTheName(nfkd, "Thai Garden", id);
    SlugsUseName(nfkd, [row], 0);
    ElementsOfNothing(Slugs(nfkd, [row]));
    FirstFitIs("thai-garden", id, {}, 0);
  }

  lemma ElementsOfNothing(slugs: seq<string>)
    ensures Elements(slugs[..0]) == {}
  {
  }

  lemma TwoWords(a: string, b: string)
    requires a != [] && b != [] && forall i | 0 <= i < |a| :: IsKept(a[i])
    requires forall i | 0 <= i < |b| :: IsKept(b[i])
    ensures Whole(a + [' '] + b) == SmallText(a) + ['-'] + SmallText(b)
  {
    hide Words;
    WordsAtSeparator(a, ' ', b);
    WordsOfRun(a);
    WordsOfRun(b);
    var words := [SmallText(a), SmallText(b)];
    assert [SmallText(a)] + [SmallText(b)] == words && words[1..] == [SmallText(b)];
    assert PyText.Join(words[1..], '-') == SmallText(b);
    assert PyText.Join(words, '-') == SmallText(a) + ['-'] + SmallText(b);
  }

  lemma ThaiGarden()
    ensures IsAscii("Thai Garden") && Whole("Thai Garden") == "thai-garden" && "thai-garden" !in RESERVED
  {
    hide Whole, RESERVED;
    LongAndT("thai-garden");
    TwoWords("Thai", "Garden");
    assert "Thai" + [' '] + "Garden" == "Thai Garden";
    assert SmallText("Thai") == "thai" && SmallText("Garden") == "garden";
    assert "thai" + ['-'] + "garden" == "thai-garden";
  }

  lemma LongAndT(w: string)
    requires |w| == 11 && w[0] == 't'
    ensures w !in RESERVED
  {
  }
}
