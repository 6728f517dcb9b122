/**
 A strict fixed-column reader that inverts the serializer's layout: the key is
 the text up to the first space after `// @`, the padding must be exactly the
 serializer's, and the value starts at the column the serializer pads to. A
 userscript manager is more lenient: it skips every space after the key. This
 reader is the inverse that shows the serializer loses nothing: every key and
 every value comes back, in order.
 */
module HeaderParse {
  import opened Text
  import opened Header

  /** A key that a field line gives back unchanged: non-empty and without a space. */
  predicate WellFormedKey(key: string)
  {
    |key| > 0 && Space !in key
  }

  predicate WellFormedKeys(es: seq<Entry>)
  {
    forall i :: 0 <= i < |es| ==> WellFormedKey(es[i].0)
  }

  /** The key and the value of one field line, if it has the serializer's layout. */
  function ParseFieldLine(line: string): Option<Entry>
  {
    if |line| < |LinePrefix| || line[..|LinePrefix|] != LinePrefix then None
    else
      var rest := line[|LinePrefix|..];
      var k := IndexOf(rest, Space);
      var width := if k < KeyWidth then KeyWidth else k;
      if k == 0 || |rest| < width + 1 then None
      else if rest[k..width + 1] != Spaces(width + 1 - k) then None
      else Some((rest[..k], rest[width + 1..]))
  }

  /** A key padded to `width` and followed by the separating space. */
  lemma PadThenSpace(key: string, width: nat)
    requires width == if |key| < KeyWidth then KeyWidth else |key|
    ensures PadEnd(key, KeyWidth) + " " == key + Spaces(width + 1 - |key|)
  {
    if |key| < KeyWidth {
      assert Spaces(KeyWidth - |key|) + " " == Spaces(width + 1 - |key|);
    } else {
      assert " " == Spaces(1);
    }
  }

  lemma FieldLineParts(key: string, value: string, gap: string)
    requires PadEnd(key, KeyWidth) + " " == key + gap
    ensures FieldLine(key, value) == LinePrefix + (key + gap + value)
  {
    assert LinePrefix + PadEnd(key, KeyWidth) + " " + value == LinePrefix + (PadEnd(key, KeyWidth) + " ") + value;
  }

  /** A line made of the prefix, a key, the padding gap and a value parses to that key and value. */
  lemma ParseFieldLineOfParts(key: string, gap: string, value: string)
    requires |key| > 0
    requires IndexOf(key + gap + value, Space) == |key|
    requires gap == Spaces((if |key| < KeyWidth then KeyWidth else |key|) + 1 - |key|)
    ensures ParseFieldLine(LinePrefix + (key + gap + value)) == Some((key, value))
  {
    var rest := key + gap + value;
    var line := LinePrefix + rest;
    var width := if |key| < KeyWidth then KeyWidth else |key|;
    assert line[..|LinePrefix|] == LinePrefix;
    assert line[|LinePrefix|..] == rest;
    assert rest[..|key|] == key;
    assert rest[|key|..width + 1] == gap;
    assert rest[width + 1..] == value;
  }

  lemma ParseFieldLineOfFieldLine(key: string, value: string)
    requires WellFormedKey(key)
    ensures ParseFieldLine(FieldLine(key, value)) == Some((key, value))
  {
    var width := if |key| < KeyWidth then KeyWidth else |key|;
    var gap := Spaces(width + 1 - |key|);
    assert FieldLine(key, value) == LinePrefix + (key + gap + value) by {
      PadThenSpace(key, width);
      FieldLineParts(key, value, gap);
    }
    assert IndexOf(key + gap + value, Space) == |key| by {
      assert key + gap + value == key + (gap + value);
      assert (gap + value)[0] == Space;
      IndexOfAppend(key, gap + value, Space);
    }
    ParseFieldLineOfParts(key, gap, value);
  }

  lemma FieldLineOfParseFieldLine(line: string, e: Entry)
    requires ParseFieldLine(line) == Some(e)
    ensures WellFormedKey(e.0)
    ensures line == FieldLine(e.0, e.1)
  {
    var rest := line[|LinePrefix|..];
    var k := IndexOf(rest, Space);
    var width := if k < KeyWidth then KeyWidth else k;
    var key, value := e.0, e.1;
    var gap := rest[k..width + 1];
    assert key == rest[..k] && value == rest[width + 1..] && gap == Spaces(width + 1 - k);
    assert Space !in key by {
      forall j | 0 <= j < |key|
        ensures key[j] != Space
      {
        assert key[j] == rest[j];
      }
    }
    assert line == LinePrefix + (key + gap + value) by {
      Cut2(line, |LinePrefix|);
      Cut3(rest, k, width + 1);
    }
    assert PadEnd(key, KeyWidth) + " " == key + gap by {
      PadThenSpace(key, width);
    }
    FieldLineParts(key, value, gap);
  }

  /** A line parses to an entry exactly when it is that entry's field line. */
  lemma ParseFieldLineIff(line: string, e: Entry)
    ensures ParseFieldLine(line) == Some(e) <==> WellFormedKey(e.0) && line == FieldLine(e.0, e.1)
  {
    if ParseFieldLine(line) == Some(e) {
      FieldLineOfParseFieldLine(line, e);
    }
    if WellFormedKey(e.0) && line == FieldLine(e.0, e.1) {
      ParseFieldLineOfFieldLine(e.0, e.1);
    }
  }

  /** Every line parsed in turn; one line of another shape rejects them all. */
  function ParseFieldLines(lines: seq<string>): Option<seq<Entry>>
  {
    if |lines| == 0 then Some([])
    else
      match ParseFieldLine(lines[0])
      case None => None
      case Some(e) =>
        match ParseFieldLines(lines[1..])
        case None => None
        case Some(es) => Some([e] + es)
  }

  lemma {:induction false} ParseRender(es: seq<Entry>)
    requires WellFormedKeys(es)
    ensures ParseFieldLines(Render(es)) == Some(es)
  {
    if |es| > 0 {
      ParseFieldLineOfFieldLine(es[0].0, es[0].1);
      assert Render(es)[1..] == Render(es[1..]);
      ParseRender(es[1..]);
      assert [es[0]] + es[1..] == es;
    }
  }

  lemma RenderCons(e: Entry, tail: seq<Entry>)
    ensures Render([e] + tail) == [FieldLine(e.0, e.1)] + Render(tail)
  {
  }

  lemma {:induction false} RenderParse(lines: seq<string>, es: seq<Entry>)
    requires ParseFieldLines(lines) == Some(es)
    ensures WellFormedKeys(es)
    ensures lines == Render(es)
  {
    if |lines| > 0 {
      var e := ParseFieldLine(lines[0]).value;
      var tail := ParseFieldLines(lines[1..]).value;
      assert es == [e] + tail;
      assert WellFormedKey(e.0) && lines[0] == FieldLine(e.0, e.1) by {
        FieldLineOfParseFieldLine(lines[0], e);
      }
      assert WellFormedKeys(tail) && lines[1..] == Render(tail) by {
        RenderParse(lines[1..], tail);
      }
      RenderCons(e, tail);
      assert lines == [lines[0]] + lines[1..];
    }
  }

  /** The entries of a metadata block, if the text has the serializer's layout. */
  function ParseHeader(text: string): Option<seq<Entry>>
  {
    var lines := Split(text);
    if |lines| < 3 || lines[0] != OpenMarker || lines[|lines| - 2] != CloseMarker || lines[|lines| - 1] != "" then None
    else ParseFieldLines(lines[1..|lines| - 2])
  }

  /** One scalar field per entry, in order. */
  function Scalars(es: seq<Entry>): FieldSet
  {
    seq(|es|, i requires 0 <= i < |es| => Field(es[i].0, Scalar(es[i].1)))
  }

  lemma {:induction false} EntriesOfScalars(es: seq<Entry>)
    ensures Entries(Scalars(es)) == es
  {
    if |es| > 0 {
      assert Scalars(es)[1..] == Scalars(es[1..]);
      EntriesOfScalars(es[1..]);
      assert FieldEntries(Scalars(es)[0]) == [es[0]];
    }
  }

  lemma {:induction false} EntryKeyIsFieldKey(fs: FieldSet, i: nat)
    requires i < |Entries(fs)|
    ensures exists j :: 0 <= j < |fs| && fs[j].key == Entries(fs)[i].0
  {
    var first := FieldEntries(fs[0]);
    if i < |first| {
      assert fs[0].key == Entries(fs)[i].0;
    } else {
      EntryKeyIsFieldKey(fs[1..], i - |first|);
      var j :| 0 <= j < |fs[1..]| && fs[1..][j].key == Entries(fs[1..])[i - |first|].0;
      assert fs[j + 1].key == Entries(fs)[i].0;
    }
  }

  /**
   Round trip: when every key is non-empty and space-free and nothing holds a
   newline, reading the serialized block gives back every key/value pair, in
   key order and, within a list, in element order.
   */
  lemma ParseSerialize(fs: FieldSet)
    requires SingleLine(fs)
    requires forall i :: 0 <= i < |fs| ==> WellFormedKey(fs[i].key)
    ensures ParseHeader(Serialize(fs)) == Some(Entries(fs))
  {
    var lines := Split(Serialize(fs));
    SerializeLines(fs);
    assert lines[1..|lines| - 2] == Render(Entries(fs));
    forall i | 0 <= i < |Entries(fs)|
      ensures WellFormedKey(Entries(fs)[i].0)
    {
      EntryKeyIsFieldKey(fs, i);
    }
    ParseRender(Entries(fs));
  }

  /**
   The other direction: any text the reader accepts is exactly the serializer's
   output for the entries it read, taken as scalar fields.
   */
  lemma SerializeParse(text: string, es: seq<Entry>)
    requires ParseHeader(text) == Some(es)
    ensures WellFormedKeys(es)
    ensures text == Serialize(Scalars(es))
  {
    var lines := Split(text);
    var body := lines[1..|lines| - 2];
    assert WellFormedKeys(es) && body == BodyLines(Scalars(es)) by {
      RenderParse(body, es);
      EntriesOfScalars(es);
    }
    assert lines == [OpenMarker] + body + [CloseMarker, ""] by {
      Framed(lines);
    }
    assert text == Join(lines) by {
      JoinSplit(text);
    }
  }
}
