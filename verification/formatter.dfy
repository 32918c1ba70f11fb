/** Rendering of one log event into the Markdown text that is sent. */
module Formatter {
  import opened Wrappers
  import opened Levels
  import opened Seqs

  /** One entry of the optional `name => value` array passed with an event. */
  datatype Field = Field(name: string, value: string)

  /** The `name: value` line of one field. */
  function FieldLine(f: Field): string {
    f.name + ": " + f.value + "\n"
  }

  /** The lines of all fields, in iteration order. */
  function RenderFields(fields: seq<Field>): string
    decreases |fields|
  {
    if fields == [] then "" else FieldLine(fields[0]) + RenderFields(fields[1..])
  }

  /** The italic label that a non-empty prefix contributes. */
  function Label(prefix: string): string {
    if prefix == "" then "" else "_" + prefix + ":_ "
  }

  /** A null field array and an empty one are treated alike: no block. */
  predicate HasFields(fields: Option<seq<Field>>) {
    fields.Some? && |fields.value| > 0
  }

  /** The fenced block that non-empty fields append. */
  function Block(fields: seq<Field>): string {
    "\n```\n" + RenderFields(fields) + "```"
  }

  /** The rendered message, built in the order the logger builds it: glyph and
      text, then the prefix label in front, then the fenced field block behind. */
  function Format(level: int, prefix: string, text: string, fields: Option<seq<Field>>): string {
    var core := Glyph(level) + " " + text;
    var labelled := Label(prefix) + core;
    if HasFields(fields) then labelled + Block(fields.value) else labelled
  }

  /** Field lines concatenate: rendering two runs of fields is rendering their join. */
  lemma {:induction false} RenderFieldsAppend(a: seq<Field>, b: seq<Field>)
    ensures RenderFields(a + b) == RenderFields(a) + RenderFields(b)
    decreases |a|
  {
    if a == [] {
      assert a + b == b;
    } else {
      assert (a + b)[1..] == a[1..] + b;
      RenderFieldsAppend(a[1..], b);
    }
  }

  /** The three shapes of a rendered message: glyph, space and text alone; the
      italic prefix label in front of that; the fenced block of field lines behind. */
  lemma FormatShape(level: int, prefix: string, text: string, fields: Option<seq<Field>>)
    ensures prefix == "" && !HasFields(fields) ==>
      Format(level, prefix, text, fields) == Glyph(level) + " " + text
    ensures prefix != "" ==>
      Format(level, prefix, text, fields) == "_" + prefix + ":_ " + Format(level, "", text, fields)
    ensures HasFields(fields) ==>
      Format(level, prefix, text, fields)
        == Format(level, prefix, text, None) + ("\n```\n" + RenderFields(fields.value) + "```")
    ensures !HasFields(fields) ==> Format(level, prefix, text, fields) == Format(level, prefix, text, None)
  {
    var core := Glyph(level) + " " + text;
    var L := Label(prefix);
    assert Format(level, "", text, fields) == (if HasFields(fields) then core + Block(fields.value) else core) by {
      assert Label("") + core == core;
    }
    if HasFields(fields) {
      Assoc(L, core, Block(fields.value));
    }
  }

  /** Position facts about a message laid out as label, glyph, space, text, block. */
  lemma Layout<T>(a: seq<T>, g: seq<T>, sp: seq<T>, t: seq<T>, b: seq<T>)
    requires |g| == 1 && |sp| == 1
    ensures var s := a + (g + (sp + (t + b)));
      && |s| == |a| + 2 + |t| + |b|
      && s[..|a|] == a
      && s[|a|..|a| + 1] == g
      && s[|a| + 1] == sp[0]
      && s[|a| + 2..|a| + 2 + |t|] == t
      && s[|a| + 2 + |t|..] == b
  {
  }

  /** The message is the label, glyph, space, text and block, in this order. */
  lemma FormatParts(level: int, prefix: string, text: string, fields: Option<seq<Field>>)
    ensures Format(level, prefix, text, fields)
      == Label(prefix) + (Glyph(level) + (" " + (text + (if HasFields(fields) then Block(fields.value) else "")))) 
  {
    var L, g := Label(prefix), Glyph(level);
    if HasFields(fields) {
      Regroup(L, g, " ", text, Block(fields.value));
    } else {
      Regroup(L, g, " ", text, "");
    }
  }

  lemma Regroup<T>(a: seq<T>, g: seq<T>, sp: seq<T>, t: seq<T>, b: seq<T>)
    ensures a + (g + sp + t) + b == a + (g + (sp + (t + b)))
    ensures b == [] ==> a + (g + sp + t) == a + (g + (sp + (t + b)))
  {
  }

  /** Where the label, the glyph and the space sit in the message. */
  lemma FormatHead(level: int, prefix: string, text: string, fields: Option<seq<Field>>)
    ensures var s := Format(level, prefix, text, fields);
      var h := |Label(prefix)|;
      && |s| >= h + 2 + |text|
      && s[..h] == Label(prefix)
      && s[h..h + 1] == Glyph(level)
      && s[h + 1] == ' '
  {
    var b := if HasFields(fields) then Block(fields.value) else "";
    var L, g := Label(prefix), Glyph(level);
    var s := Format(level, prefix, text, fields);
    FormatParts(level, prefix, text, fields);
    assert s == L + (g + (" " + (text + b)));
    Layout(L, g, " ", text, b);
  }

  /** Where the text and the field block sit in the message. */
  lemma FormatTail(level: int, prefix: string, text: string, fields: Option<seq<Field>>)
    ensures var s := Format(level, prefix, text, fields);
      var h := |Label(prefix)|;
      var b := if HasFields(fields) then Block(fields.value) else "";
      && |s| == h + 2 + |text| + |b|
      && s[h + 2..h + 2 + |text|] == text
      && s[h + 2 + |text|..] == b
  {
    var b := if HasFields(fields) then Block(fields.value) else "";
    var L, g := Label(prefix), Glyph(level);
    var s := Format(level, prefix, text, fields);
    FormatParts(level, prefix, text, fields);
    assert s == L + (g + (" " + (text + b)));
    Layout(L, g, " ", text, b);
  }

  /** A reader of the message finds, in this order: the prefix label, the glyph
      that names the level, a space, the text verbatim, and the field block. */
  lemma FormatLayout(level: int, prefix: string, text: string, fields: Option<seq<Field>>)
    ensures var s := Format(level, prefix, text, fields);
      var h := |Label(prefix)|;
      && |s| >= h + 2 + |text|
      && s[..h] == Label(prefix)
      && LevelOfGlyph(s[h..h + 1]) == (if IsKnown(level) then Some(level) else None)
      && s[h + 1] == ' '
      && s[h + 2..h + 2 + |text|] == text
      && (HasFields(fields) ==> s[h + 2 + |text|..] == "\n```\n" + RenderFields(fields.value) + "```")
      && (!HasFields(fields) ==> |s| == h + 2 + |text|)
  {
    FormatHead(level, prefix, text, fields);
    FormatTail(level, prefix, text, fields);
    GlyphRoundTrip(level);
  }

  /** Each field is rendered as its own `name: value` line, at the position that
      follows the lines of the fields before it. */
  lemma FieldLinesInOrder(fields: seq<Field>, i: int)
    requires 0 <= i < |fields|
    ensures var off := |RenderFields(fields[..i])|;
      var line := FieldLine(fields[i]);
      off + |line| <= |RenderFields(fields)|
      && RenderFields(fields)[off..off + |line|] == line
  {
    assert fields == fields[..i] + [fields[i]] + fields[i + 1..];
    RenderFieldsAppend(fields[..i] + [fields[i]], fields[i + 1..]);
    RenderFieldsAppend(fields[..i], [fields[i]]);
    assert RenderFields([fields[i]]) == FieldLine(fields[i]) by {
      assert [fields[i]][1..] == [];
    }
  }
}
