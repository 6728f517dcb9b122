/**
 The userscript metadata block serializer (`generateUserscriptHeader`).

 A header is an ordered list of keys, each holding either one string or a list
 of strings. The block is an opening marker line, one `// @key value` line per
 scalar key or per list element, a closing marker line and an empty last line,
 all joined with newlines. Keys are padded with spaces to 11 characters;
 values are copied verbatim.
 */
module Header {
  import opened Text

  /** A header value: one string, or a list rendered one line per element. */
  datatype Value = Scalar(text: string) | List(items: seq<string>)

  /** One key of the header object together with its value. */
  datatype Field = Field(key: string, value: Value)

  /** The header object; the order of the sequence is the key order. */
  type FieldSet = seq<Field>

  /** What one field line carries: a key and one of its values. */
  type Entry = (string, string)

  const OpenMarker: string := "// ==UserScript=="
  const CloseMarker: string := "// ==/UserScript=="
  const LinePrefix: string := "// @"
  const KeyWidth: nat := 11

  /** The strings a value renders, in order. */
  function Values(v: Value): seq<string>
  {
    match v
    case Scalar(text) => [text]
    case List(items) => items
  }

  /** Number of field lines: one per scalar key plus the length of every list. */
  function LineCount(fs: FieldSet): nat
  {
    if |fs| == 0 then 0
    else
      (match fs[0].value
       case Scalar(_) => 1
       case List(items) => |items|)
      + LineCount(fs[1..])
  }

  /** Column at which the value starts on a field line of `key`. */
  function ValueColumn(key: string): nat
  {
    |LinePrefix| + (if |key| < KeyWidth then KeyWidth else |key|) + 1
  }

  /** One field line: `// @`, the key padded to 11 characters, a space, the value. */
  function FieldLine(key: string, value: string): string
  {
    LinePrefix + PadEnd(key, KeyWidth) + " " + value
  }

  /**
   The layout of a field line: the prefix, the key, spaces up to the value
   column (at least one), then the value unchanged. A key of 11 characters or
   more is neither cut nor padded and is followed by a single space.
   */
  lemma FieldLineLayout(key: string, value: string)
    ensures var line := FieldLine(key, value);
      && |line| == ValueColumn(key) + |value|
      && line[..|LinePrefix|] == LinePrefix
      && line[|LinePrefix|..|LinePrefix| + |key|] == key
      && (forall i :: |LinePrefix| + |key| <= i < ValueColumn(key) ==> line[i] == Space)
      && line[ValueColumn(key)..] == value
  {
    var padded := PadEnd(key, KeyWidth);
    var line := FieldLine(key, value);
    assert line[|LinePrefix|..|LinePrefix| + |key|] == padded[..|key|];
  }

  /** The entries of one field: its key paired with each of its values. */
  function FieldEntries(f: Field): seq<Entry>
  {
    var vs := Values(f.value);
    seq(|vs|, j requires 0 <= j < |vs| => (f.key, vs[j]))
  }

  /** The entries of a field set, field after field. */
  function Entries(fs: FieldSet): (es: seq<Entry>)
    ensures |es| == LineCount(fs)
  {
    if |fs| == 0 then [] else FieldEntries(fs[0]) + Entries(fs[1..])
  }

  function Render(es: seq<Entry>): (lines: seq<string>)
  {
    seq(|es|, i requires 0 <= i < |es| => FieldLine(es[i].0, es[i].1))
  }

  /** The field lines of a header, between the two markers. */
  function BodyLines(fs: FieldSet): seq<string>
  {
    Render(Entries(fs))
  }

  /** The lines handed to `join`: markers, field lines and a final empty line. */
  function HeaderLines(fs: FieldSet): seq<string>
  {
    [OpenMarker] + BodyLines(fs) + [CloseMarker, ""]
  }

  /** The text of the metadata block. */
  function Serialize(fs: FieldSet): string
  {
    Join(HeaderLines(fs))
  }

  /**
   The serializer as written: a line list is pushed to in key order, a list
   value pushing one line per element, and the lines are joined at the end.
   */
  method GenerateUserscriptHeader(keyValues: FieldSet) returns (text: string)
    ensures text == Serialize(keyValues)
  {
    var lines := [OpenMarker];
    var i := 0;
    while i < |keyValues|
      invariant i <= |keyValues|
      invariant lines == [OpenMarker] + BodyLines(keyValues[..i])
    {
      var key := keyValues[i].key;
      var entries := FieldEntries(keyValues[i]);
      var before := lines;
      match keyValues[i].value {
        case Scalar(value) =>
          lines := lines + [FieldLine(key, value)];
        case List(values) =>
          var j := 0;
          while j < |values|
            invariant j <= |values|
            invariant lines == before + Render(entries[..j])
          {
            assert Render(entries[..j + 1]) == Render(entries[..j]) + [FieldLine(key, values[j])] by {
              assert entries[..j + 1] == entries[..j] + [(key, values[j])];
              RenderAppend(entries[..j], [(key, values[j])]);
            }
            lines := lines + [FieldLine(key, values[j])];
            j := j + 1;
          }
          assert entries[..j] == entries;
      }
      assert BodyLines(keyValues[..i + 1]) == BodyLines(keyValues[..i]) + Render(entries) by {
        EntriesOfPrefix(keyValues, i);
        RenderAppend(Entries(keyValues[..i]), entries);
      }
      i := i + 1;
    }
    assert keyValues[..i] == keyValues;
    lines := lines + [CloseMarker, ""];
    text := Join(lines);
  }

  lemma RenderAppend(a: seq<Entry>, b: seq<Entry>)
    ensures Render(a + b) == Render(a) + Render(b)
  {
  }

  /** Entries are computed field by field: concatenating field sets concatenates their entries. */
  lemma {:induction false} EntriesAppend(a: FieldSet, b: FieldSet)
    ensures Entries(a + b) == Entries(a) + Entries(b)
  {
    if |a| == 0 {
      assert a + b == b;
    } else {
      assert (a + b)[0] == a[0];
      assert (a + b)[1..] == a[1..] + b;
      EntriesAppend(a[1..], b);
    }
  }

  /** A header whose every value renders exactly one string has one entry per field, in field order. */
  lemma {:induction false} EntriesOfSingletons(fs: FieldSet)
    requires forall i :: 0 <= i < |fs| ==> |Values(fs[i].value)| == 1
    ensures Entries(fs) == seq(|fs|, i requires 0 <= i < |fs| => (fs[i].key, Values(fs[i].value)[0]))
  {
    if |fs| > 0 {
      EntriesOfSingletons(fs[1..]);
      assert FieldEntries(fs[0]) == [(fs[0].key, Values(fs[0].value)[0])];
    }
  }

  /** A single scalar field is a single entry. */
  lemma EntriesOfScalar(key: string, value: string)
    ensures Entries([Field(key, Scalar(value))]) == [(key, value)]
  {
    assert [Field(key, Scalar(value))][1..] == [];
  }

  /** The entries of a header around one field. */
  lemma EntriesAround(a: FieldSet, f: Field, b: FieldSet)
    ensures Entries(a + [f] + b) == Entries(a) + FieldEntries(f) + Entries(b)
  {
    assert Entries([f]) == FieldEntries(f) by {
      assert [f][1..] == [];
    }
    EntriesAppend(a + [f], b);
    EntriesAppend(a, [f]);
  }

  lemma EntriesOfPrefix(fs: FieldSet, i: nat)
    requires i < |fs|
    ensures Entries(fs[..i + 1]) == Entries(fs[..i]) + FieldEntries(fs[i])
  {
    assert fs[..i + 1] == fs[..i] + [fs[i]];
    EntriesAppend(fs[..i], [fs[i]]);
    assert [fs[i]][1..] == [];
  }

  /**
   Field lines follow key order: the lines of a concatenation of field sets are
   the lines of the first followed by the lines of the second.
   */
  lemma BodyLinesAppend(a: FieldSet, b: FieldSet)
    ensures BodyLines(a + b) == BodyLines(a) + BodyLines(b)
  {
    EntriesAppend(a, b);
    RenderAppend(Entries(a), Entries(b));
  }

  /**
   Where each value lands: the `j`-th value of the `i`-th field is line
   `1 + LineCount(fs[..i]) + j` of the block, it carries that field's key, and
   the field's lines form one contiguous run of `|Values|` lines.
   */
  lemma FieldLinesInPlace(fs: FieldSet, i: nat, j: nat)
    requires i < |fs|
    requires j < |Values(fs[i].value)|
    ensures LineCount(fs[..i + 1]) == LineCount(fs[..i]) + |Values(fs[i].value)|
    ensures 1 + LineCount(fs[..i]) + j < |HeaderLines(fs)| - 2
    ensures HeaderLines(fs)[1 + LineCount(fs[..i]) + j] == FieldLine(fs[i].key, Values(fs[i].value)[j])
  {
    EntriesOfPrefix(fs, i);
    assert fs == fs[..i + 1] + fs[i + 1..];
    EntriesAppend(fs[..i + 1], fs[i + 1..]);
    var es := Entries(fs);
    var k := LineCount(fs[..i]) + j;
    assert es[k] == FieldEntries(fs[i])[j];
    assert HeaderLines(fs)[1 + k] == BodyLines(fs)[k];
  }

  /** A list with no elements contributes no line at all. */
  lemma EmptyListInvisible(a: FieldSet, key: string, b: FieldSet)
    ensures Serialize(a + [Field(key, List([]))] + b) == Serialize(a + b)
  {
    var f := [Field(key, List([]))];
    assert Entries(f) == [];
    EntriesAppend(a, f);
    assert Entries(a + f) == Entries(a);
    EntriesAppend(a + f, b);
    EntriesAppend(a, b);
    assert Entries(a + f + b) == Entries(a + b);
  }

  lemma MarkersSingleLine()
    ensures NewLine !in OpenMarker && NewLine !in CloseMarker
  {
  }

  /** The text is every header line followed by a newline, the empty last line aside. */
  lemma SerializeTerminated(fs: FieldSet)
    ensures Serialize(fs) == OpenMarker + "\n" + Terminated(BodyLines(fs)) + CloseMarker + "\n"
  {
    var body := BodyLines(fs);
    assert HeaderLines(fs) == ([OpenMarker] + body + [CloseMarker]) + [""];
    JoinEmptyLast([OpenMarker] + body + [CloseMarker]);
    TerminatedAppend([OpenMarker] + body, [CloseMarker]);
    TerminatedAppend([OpenMarker], body);
    assert Terminated([OpenMarker]) == OpenMarker + "\n";
    assert Terminated([CloseMarker]) == CloseMarker + "\n";
  }

  /**
   How the text splits at newlines, whatever the values hold: the opening
   marker first, then each field line split at its own newlines, then the
   closing marker and one empty string, so exactly one newline follows the
   closing marker.
   */
  lemma SplitSerialize(fs: FieldSet)
    ensures Split(Serialize(fs)) == [OpenMarker] + SplitAll(BodyLines(fs)) + [CloseMarker, ""]
  {
    var body := BodyLines(fs);
    assert Serialize(fs) == OpenMarker + [NewLine] + Terminated(body) + CloseMarker + [NewLine] by {
      SerializeTerminated(fs);
    }
    MarkersSingleLine();
    SplitFramed(OpenMarker, body, CloseMarker);
  }

  /** The framing of the text, stated on characters and on lines. */
  lemma SerializeFraming(fs: FieldSet)
    ensures var t := Serialize(fs);
      && |t| >= |OpenMarker| + |CloseMarker| + 2
      && t[..|OpenMarker| + 1] == OpenMarker + "\n"
      && t[|t| - |CloseMarker| - 1..] == CloseMarker + "\n"
    ensures var lines := Split(Serialize(fs));
      && |lines| >= 3
      && lines[0] == OpenMarker
      && lines[|lines| - 2] == CloseMarker
      && lines[|lines| - 1] == ""
  {
    SerializeTerminated(fs);
    SplitSerialize(fs);
  }

  /** No key and no value holds a newline. */
  predicate SingleLine(fs: FieldSet)
  {
    forall i :: 0 <= i < |fs| ==> NewLine !in fs[i].key && NoNewLines(Values(fs[i].value))
  }

  lemma {:induction false} EntriesSingleLine(fs: FieldSet)
    requires SingleLine(fs)
    ensures forall i :: 0 <= i < |Entries(fs)| ==> NewLine !in Entries(fs)[i].0 && NewLine !in Entries(fs)[i].1
  {
    if |fs| > 0 {
      assert SingleLine(fs[1..]) by {
        forall i | 0 <= i < |fs[1..]|
          ensures NewLine !in fs[1..][i].key && NoNewLines(Values(fs[1..][i].value))
        {
          assert fs[1..][i] == fs[i + 1];
        }
      }
      EntriesSingleLine(fs[1..]);
    }
  }

  lemma FieldLineSingleLine(key: string, value: string)
    requires NewLine !in key && NewLine !in value
    ensures NewLine !in FieldLine(key, value)
  {
    var line := FieldLine(key, value);
    FieldLineLayout(key, value);
    forall i | 0 <= i < |line|
      ensures line[i] != NewLine
    {
      if i < |LinePrefix| {
        assert line[i] == line[..|LinePrefix|][i];
      } else if i < |LinePrefix| + |key| {
        assert line[i] == key[i - |LinePrefix|];
      } else if i >= ValueColumn(key) {
        assert line[i] == value[i - ValueColumn(key)];
      }
    }
  }

  /**
   When no key or value holds a newline, splitting the text at newlines gives
   back exactly the header lines: 3 + (number of scalar keys) + (sum of the
   list lengths) of them.
   */
  lemma SerializeLines(fs: FieldSet)
    requires SingleLine(fs)
    ensures Split(Serialize(fs)) == HeaderLines(fs)
    ensures |Split(Serialize(fs))| == 3 + LineCount(fs)
  {
    var es := Entries(fs);
    var body := BodyLines(fs);
    EntriesSingleLine(fs);
    forall i | 0 <= i < |body|
      ensures NewLine !in body[i]
    {
      FieldLineSingleLine(es[i].0, es[i].1);
    }
    SplitAllSingle(body);
    SplitSerialize(fs);
  }

  /**
   A header with one more field line at the end of its body serializes to the
   same text with that line inserted just before the closing marker.
   */
  lemma SerializeAddLine(fs: FieldSet, more: FieldSet, line: string)
    requires BodyLines(more) == BodyLines(fs) + [line]
    ensures var pre := OpenMarker + "\n" + Terminated(BodyLines(fs));
      && Serialize(fs) == pre + CloseMarker + "\n"
      && Serialize(more) == pre + line + "\n" + CloseMarker + "\n"
  {
    var body := BodyLines(fs);
    var t := Terminated(body);
    var pre := OpenMarker + "\n" + t;
    assert OpenMarker + "\n" + (t + (line + "\n")) + CloseMarker + "\n" == pre + line + "\n" + CloseMarker + "\n";
    assert Serialize(fs) == pre + CloseMarker + "\n" by {
      SerializeTerminated(fs);
    }
    assert Terminated(BodyLines(more)) == t + (line + "\n") by {
      TerminatedAppend(body, [line]);
      assert Terminated([line]) == line + "\n";
    }
    assert Serialize(more) == OpenMarker + "\n" + Terminated(BodyLines(more)) + CloseMarker + "\n" by {
      SerializeTerminated(more);
    }
  }

  /** The lines of a header around one of its fields. */
  lemma BodyLinesAround(fs: FieldSet, i: nat)
    requires i < |fs|
    ensures BodyLines(fs) == BodyLines(fs[..i]) + Render(FieldEntries(fs[i])) + BodyLines(fs[i + 1..])
  {
    var a, b := fs[..i], fs[i + 1..];
    assert fs == a + [fs[i]] + b;
    assert Entries([fs[i]]) == FieldEntries(fs[i]);
    assert BodyLines(a + [fs[i]]) == BodyLines(a) + Render(FieldEntries(fs[i])) by {
      BodyLinesAppend(a, [fs[i]]);
    }
    BodyLinesAppend(a + [fs[i]], b);
  }

  /** One entry among others renders as one line among the others' lines. */
  lemma BodyLinesOfEntries(fs: FieldSet, before: seq<Entry>, e: Entry, after: seq<Entry>)
    requires Entries(fs) == before + [e] + after
    ensures BodyLines(fs) == Render(before) + [FieldLine(e.0, e.1)] + Render(after)
  {
    RenderAppend(before + [e], after);
    RenderAppend(before, [e]);
  }
}
