/** Comma-separated lists of identifiers in the settings. */
module Allowlist {
  import opened Wrappers
  import opened Uuid
  import PyText
  import Scan

  datatype AllowlistError = NotUuids

  /** The texts among these that are not blank, without their surrounding whitespace. */
  function Entries(parts: seq<string>): seq<string> {
    if parts == [] then []
    else
      var text := PyText.Strip(parts[|parts| - 1]);
      var earlier := Entries(parts[..|parts| - 1]);
      if text != [] then earlier + [text] else earlier
  }

  predicate AllParse<U>(entries: seq<string>, parse: string -> Option<U>) {
    forall e | e in entries :: parse(e).Some?
  }

  ghost function Parsed<U>(entries: seq<string>, parse: string -> Option<U>): set<U> {
    set e | e in entries && parse(e).Some? :: parse(e).value
  }

  /** What a list means: the identifiers between its commas, provided everything there is one. */
  ghost function Meaning<U>(raw: string, parse: string -> Option<U>): Result<set<U>, AllowlistError> {
    var entries := Entries(PyText.Split(raw, ','));
    if AllParse(entries, parse) then Ok(Parsed(entries, parse)) else Err(NotUuids)
  }

  lemma ParsedOneMore<U>(entries: seq<string>, e: string, parse: string -> Option<U>)
    ensures AllParse(entries + [e], parse) <==> AllParse(entries, parse) && parse(e).Some?
    ensures parse(e).Some? ==> Parsed(entries + [e], parse) == Parsed(entries, parse) + {parse(e).value}
  {
    assert forall x :: x in entries + [e] <==> x in entries || x == e;
  }

  lemma EntriesOneMore(parts: seq<string>, n: nat)
    requires n < |parts|
    ensures var text := PyText.Strip(parts[n]);
            Entries(parts[..n + 1]) == if text != [] then Entries(parts[..n]) + [text] else Entries(parts[..n])
  {
    Scan.TakeOneMore(parts, n);
    assert parts[..n + 1][..n] == parts[..n];
  }

  lemma {:induction false} BadPart<U>(parts: seq<string>, n: nat, end: nat, parse: string -> Option<U>)
    requires n < end <= |parts| && PyText.Strip(parts[n]) != [] && parse(PyText.Strip(parts[n])).None?
    ensures !AllParse(Entries(parts[..end]), parse)
  {
    hide Entries, AllParse, Parsed, PyText.Strip;
    var last := end - 1;
    var text := PyText.Strip(parts[last]);
    EntriesOneMore(parts, last);
    if text != [] { ParsedOneMore(Entries(parts[..last]), text, parse); }
    if n < last { BadPart(parts, n, last, parse); }
  }

  /** `parse_uuid_allowlist`, over the parser of one identifier. */
  method ParseUuidAllowlist<U(==)>(raw: string, parse: string -> Option<U>)
    returns (outcome: Result<set<U>, AllowlistError>)
    ensures outcome == Meaning(raw, parse)
  {
    hide AllParse, Parsed, Entries, PyText.Split, PyText.Strip;
    var parts := PyText.Split(raw, ',');
    var values: set<U> := {};
    var i := 0;
    NothingParsed(parse);
    assert parts[..0] == [];
    while i < |parts|
      invariant 0 <= i <= |parts|
      invariant AllParse(Entries(parts[..i]), parse)
      invariant values == Parsed(Entries(parts[..i]), parse)
    {
      EntriesOneMore(parts, i);
      var value := PyText.Strip(parts[i]);
      if value != [] {
        var parsed := parse(value);
        if parsed.None? {
          BadPart(parts, i, |parts|, parse);
          assert parts[..|parts|] == parts;
          return Err(NotUuids);
        }
        ParsedOneMore(Entries(parts[..i]), value, parse);
        values := values + {parsed.value};
      }
      i := i + 1;
    }
    assert parts[..i] == parts;
    outcome := Ok(values);
  }

  /** What stands between the commas, without surrounding whitespace, where it is not blank. */
  ghost function Texts(parts: seq<string>): set<string> {
    set i | 0 <= i < |parts| && PyText.Strip(parts[i]) != [] :: PyText.Strip(parts[i])
  }

  lemma TextsOneMore(front: seq<string>, last: string)
    ensures var text := PyText.Strip(last);
            Texts(front + [last]) == if text != [] then Texts(front) + {text} else Texts(front)
  {
    hide PyText.Strip;
    var all, text := front + [last], PyText.Strip(last);
    assert all[|front|] == last && forall i | 0 <= i < |front| :: all[i] == front[i];
    forall e ensures e in Texts(all) <==> e in Texts(front) || (e == text && text != []) {
      if e in Texts(front) {
        var i :| 0 <= i < |front| && PyText.Strip(front[i]) == e;
        assert PyText.Strip(all[i]) == e;
      }
    }
  }

  lemma {:induction false} EntriesAre(parts: seq<string>)
    ensures forall e :: e in Entries(parts) <==> e in Texts(parts)
  {
    hide PyText.Strip, Texts;
    if parts == [] {
      NoTexts();
    } else {
      var front, last := parts[..|parts| - 1], parts[|parts| - 1];
      EntriesAre(front);
      TextsOneMore(front, last);
      assert parts == front + [last];
    }
  }

  lemma NoTexts()
    ensures Texts([]) == {}
  {
  }

  /** A list can be read exactly when everything between its commas is blank or an identifier; it means those. */
  lemma MeaningExactly<U>(raw: string, parse: string -> Option<U>)
    ensures var texts, r := Texts(PyText.Split(raw, ',')), Meaning(raw, parse);
            && (r.Ok? <==> forall e | e in texts :: parse(e).Some?)
            && (r.Ok? ==> r.value == set e | e in texts :: parse(e).value)
  {
    hide PyText.Strip, Entries, PyText.Split, Texts;
    EntriesAre(PyText.Split(raw, ','));
  }

  lemma NothingParsed<U>(parse: string -> Option<U>)
    ensures Entries([]) == [] && AllParse([], parse) && Parsed([], parse) == {}
  {
  }

  // ----- Writing a list by hand -----

  /** One entry as somebody writes it: an identifier or nothing, with whitespace around it. */
  datatype Entry<U> = Entry(left: string, id: Option<U>, right: string)

  function Text<U>(form: U -> string, id: Option<U>): string {
    if id.Some? then form(id.value) else ""
  }

  function Written<U>(form: U -> string, entries: seq<Entry<U>>): (parts: seq<string>)
    ensures |parts| == |entries|
  {
    seq(|entries|, i requires 0 <= i < |entries| =>
      entries[i].left + (Text(form, entries[i].id) + entries[i].right))
  }

  function Listed<U>(entries: seq<Entry<U>>): set<U> {
    set e | e in entries && e.id.Some? :: e.id.value
  }

  /** Identifiers print in the standard form, and the parser reads that form back. */
  ghost predicate ReadsPrinted<U(!new)>(form: U -> string, parse: string -> Option<U>) {
    forall u :: IsUuid(form(u)) && parse(form(u)) == Some(u)
  }

  ghost predicate PaddedWithSpace<U>(entries: seq<Entry<U>>) {
    forall i | 0 <= i < |entries| :: PyText.AllSpace(entries[i].left) && PyText.AllSpace(entries[i].right)
  }

  lemma UuidText(s: string)
    requires IsUuid(s)
    ensures PyText.Trimmed(s) && s != [] && ',' !in s
  {
  }

  lemma WrittenPart<U(!new)>(form: U -> string, parse: string -> Option<U>, entries: seq<Entry<U>>, i: nat)
    requires ReadsPrinted(form, parse) && PaddedWithSpace(entries) && i < |entries|
    ensures PyText.Strip(Written(form, entries)[i]) == Text(form, entries[i].id)
    ensures ',' !in Written(form, entries)[i]
    ensures entries[i].id.Some? <==> Text(form, entries[i].id) != []
  {
    var e := entries[i];
    if e.id.Some? { UuidText(form(e.id.value)); }
    PyText.StripPadded(e.left, Text(form, e.id), e.right);
    PyText.SpaceIsNotComma(e.left);
    PyText.SpaceIsNotComma(e.right);
  }

  /** The printed identifiers of the entries, in their order. */
  function Printed<U>(form: U -> string, entries: seq<Entry<U>>): seq<string> {
    if entries == [] then []
    else
      var id := entries[|entries| - 1].id;
      var earlier := Printed(form, entries[..|entries| - 1]);
      if id.Some? then earlier + [form(id.value)] else earlier
  }

  lemma {:induction false} WrittenEntries<U(!new)>(form: U -> string, parse: string -> Option<U>,
      entries: seq<Entry<U>>)
    requires ReadsPrinted(form, parse) && PaddedWithSpace(entries)
    ensures Entries(Written(form, entries)) == Printed(form, entries)
  {
    if entries != [] {
      var n := |entries| - 1;
      WrittenPart(form, parse, entries, n);
      WrittenEntries(form, parse, entries[..n]);
      assert Written(form, entries)[..n] == Written(form, entries[..n]);
    }
  }

  lemma ListedOneMore<U>(entries: seq<Entry<U>>)
    requires entries != []
    ensures var n := |entries| - 1;
            Listed(entries) ==
            if entries[n].id.Some? then Listed(entries[..n]) + {entries[n].id.value} else Listed(entries[..n])
  {
    var n := |entries| - 1;
    assert forall e :: e in entries <==> e in entries[..n] || e == entries[n];
  }

  lemma {:induction false} PrintedParse<U(!new)>(form: U -> string, parse: string -> Option<U>, entries: seq<Entry<U>>)
    requires ReadsPrinted(form, parse)
    ensures AllParse(Printed(form, entries), parse) && Parsed(Printed(form, entries), parse) == Listed(entries)
  {
    hide AllParse, Parsed, IsUuid;
    if entries == [] {
      NothingParsed(parse);
    } else {
      var n := |entries| - 1;
      PrintedParse(form, parse, entries[..n]);
      if entries[n].id.Some? { ParsedOneMore(Printed(form, entries[..n]), form(entries[n].id.value), parse); }
      ListedOneMore(entries);
    }
  }

  /**
   Parsing undoes writing: identifiers joined by commas, with whitespace around them, blank entries,
   repeats and in any order, parse to exactly their set.
   */
  lemma ParseInvertsWriting<U(!new)>(form: U -> string, parse: string -> Option<U>, entries: seq<Entry<U>>)
    requires ReadsPrinted(form, parse) && PaddedWithSpace(entries)
    ensures Meaning(PyText.Join(Written(form, entries), ','), parse) == Ok(Listed(entries))
  {
    hide AllParse, Parsed, Listed;
    var parts := Written(form, entries);
    PrintedParse(form, parse, entries);
    WrittenEntries(form, parse, entries);
    if entries == [] {
      assert PyText.Split(PyText.Join(parts, ','), ',') == [[]];
      assert Entries([[]]) == [];
    } else {
      forall i | 0 <= i < |parts| ensures ',' !in parts[i] {
        WrittenPart(form, parse, entries, i);
      }
      PyText.SplitJoin(parts, ',');
    }
  }
}
