/** The multipart/form-data body the logger posts, and a reader for it. */
module Multipart {
  import opened Wrappers
  import opened Search
  import opened Seqs

  /** A form value: plain text, or a named file with its content. */
  datatype Part = Scalar(value: string) | Blob(filename: string, content: string)

  datatype FormField = FormField(name: string, part: Part)

  const CRLF: string := "\r\n"
  const OctetStream: string := "Content-Type: application/octet-stream"

  /** The boundary line that opens every part. */
  function Opening(delimiter: string): string {
    "--" + delimiter
  }

  /** The line that closes the body. */
  function Closing(delimiter: string): string {
    "--" + delimiter + "--" + CRLF
  }

  const NamePrefix: string := "Content-Disposition: form-data; name=\""
  const FilenamePrefix: string := "; filename=\""

  function Disposition(name: string): string {
    NamePrefix + name + "\""
  }

  /** The header lines of a part: the disposition, and for a file also its name
      and the content-type line. */
  function PartHeaders(f: FormField): string {
    match f.part
    case Scalar(_) => Disposition(f.name)
    case Blob(filename, _) => Disposition(f.name) + FilenamePrefix + filename + "\"" + CRLF + OctetStream
  }

  /** The value carried by a part: the text, or the file's content. */
  function PartValue(p: Part): string {
    match p
    case Scalar(v) => v
    case Blob(_, content) => content
  }

  /** The bytes of one part: boundary line, headers, blank line, value. */
  function EncodePart(delimiter: string, f: FormField): (r: string)
    ensures |r| >= |Opening(delimiter)| + |PartValue(f.part)| + 6
    ensures r[..|Opening(delimiter)|] == Opening(delimiter)
    ensures r[|r| - |PartValue(f.part)| - 2..] == PartValue(f.part) + CRLF
  {
    var head := CRLF + PartHeaders(f) + CRLF + CRLF;
    SplitAfter(Opening(delimiter), head + PartValue(f.part) + CRLF);
    Assoc(head, PartValue(f.part), CRLF);
    Assoc(Opening(delimiter), head, PartValue(f.part) + CRLF);
    SplitAfter(Opening(delimiter) + head, PartValue(f.part) + CRLF);
    Opening(delimiter) + (head + PartValue(f.part) + CRLF)
  }

  function EncodeParts(delimiter: string, fields: seq<FormField>): string
    decreases |fields|
  {
    if fields == [] then "" else EncodePart(delimiter, fields[0]) + EncodeParts(delimiter, fields[1..])
  }

  /** The whole body: every part in order, then the closing boundary. */
  function Encode(delimiter: string, fields: seq<FormField>): (r: string)
    ensures |r| >= |Closing(delimiter)|
    ensures r[|r| - |Closing(delimiter)|..] == Closing(delimiter)
  {
    SplitAfter(EncodeParts(delimiter, fields), Closing(delimiter));
    EncodeParts(delimiter, fields) + Closing(delimiter)
  }

  lemma {:induction false} EncodePartsSnoc(delimiter: string, fields: seq<FormField>, f: FormField)
    ensures EncodeParts(delimiter, fields + [f]) == EncodeParts(delimiter, fields) + EncodePart(delimiter, f)
    decreases |fields|
  {
    if fields == [] {
      assert [f][1..] == [];
    } else {
      assert (fields + [f])[1..] == fields[1..] + [f];
      EncodePartsSnoc(delimiter, fields[1..], f);
      Assoc(EncodePart(delimiter, fields[0]), EncodeParts(delimiter, fields[1..]), EncodePart(delimiter, f));
    }
  }

  lemma EncodePartsPrefix(delimiter: string, fields: seq<FormField>, i: int)
    requires 0 <= i < |fields|
    ensures EncodeParts(delimiter, fields[..i + 1]) == EncodeParts(delimiter, fields[..i]) + EncodePart(delimiter, fields[i])
  {
    assert fields[..i + 1] == fields[..i] + [fields[i]];
    EncodePartsSnoc(delimiter, fields[..i], fields[i]);
  }

  /** The body is assembled part by part while walking the fields, as the
      logger's request builder does. */
  method BuildMultiPartRequest(delimiter: string, fields: seq<FormField>) returns (data: string)
    ensures data == Encode(delimiter, fields)
  {
    data := "";
    var i := 0;
    while i < |fields|
      invariant i <= |fields|
      invariant data == EncodeParts(delimiter, fields[..i])
    {
      EncodePartsPrefix(delimiter, fields, i);
      data := data + EncodePart(delimiter, fields[i]);
      i := i + 1;
    }
    assert fields[..i] == fields;
    data := data + Closing(delimiter);
  }

  // ---------------------------------------------------------------------------
  // A reader for such a body, as the receiving server parses it.

  /** The text that ends a value: a line break followed by the boundary. */
  function ValueEnd(delimiter: string): string {
    CRLF + Opening(delimiter)
  }

  /** Splits `r` at its first quote into the quoted text and what follows the quote. */
  function ReadQuoted(r: string): (o: Option<(string, string)>)
    ensures o.Some? ==> |o.value.1| < |r|
  {
    match IndexOf(r, "\"")
    case None => None
    case Some(i) => Some((r[..i], r[i + 1..]))
  }

  /** Splits a part's body into its value and the rest, which starts at the next boundary. */
  function ReadValue(delimiter: string, body: string): (o: Option<(string, string)>)
    ensures o.Some? ==> |o.value.1| <= |body|
  {
    match IndexOf(body, ValueEnd(delimiter))
    case None => None
    case Some(k) => Some((body[..k], body[k + 2..]))
  }

  /** After the closing quote of the name: either a plain value, or a file name and
      the content-type line; yields the value kind (file name or none) and the body. */
  function ReadHeaders(r: string): (o: Option<(Option<string>, string)>)
    ensures o.Some? ==> |o.value.1| < |r|
  {
    var blank := CRLF + CRLF;
    if |r| >= |blank| && r[..|blank|] == blank then Some((None, r[|blank|..]))
    else if |r| >= |FilenamePrefix| && r[..|FilenamePrefix|] == FilenamePrefix then
      match ReadQuoted(r[|FilenamePrefix|..])
      case None => None
      case Some((filename, r2)) =>
        var tail := CRLF + OctetStream + CRLF + CRLF;
        if |r2| >= |tail| && r2[..|tail|] == tail then Some((Some(filename), r2[|tail|..]))
        else None
    else None
  }

  /** Reads the part at the start of `s`: its field, and the text after it,
      which starts at the next boundary. */
  function DecodePart(delimiter: string, s: string): (o: Option<(FormField, string)>)
    ensures o.Some? ==> |o.value.1| < |s|
  {
    var lead := Opening(delimiter) + CRLF + NamePrefix;
    if |s| < |lead| || s[..|lead|] != lead then None
    else
      match ReadQuoted(s[|lead|..])
      case None => None
      case Some((name, r)) =>
        match ReadHeaders(r)
        case None => None
        case Some((kind, body)) =>
          match ReadValue(delimiter, body)
          case None => None
          case Some((value, rest)) =>
            var part := if kind.Some? then Blob(kind.value, value) else Scalar(value);
            Some((FormField(name, part), rest))
  }

  /** Reads a body back into its fields; `None` for anything malformed. */
  function Decode(delimiter: string, s: string): Option<seq<FormField>>
    decreases |s|
  {
    if s == Closing(delimiter) then Some([])
    else
      match DecodePart(delimiter, s)
      case None => None
      case Some((f, rest)) =>
        match Decode(delimiter, rest)
        case None => None
        case Some(more) => Some([f] + more)
  }

  /** The characters of the boundaries the logger generates: thirteen dashes
      followed by an MD5 digest in lower-case hexadecimal. */
  predicate BoundaryChar(c: char) {
    c == '-' || '0' <= c <= '9' || 'a' <= c <= 'f'
  }

  predicate ValidDelimiter(delimiter: string) {
    forall i :: 0 <= i < |delimiter| ==> BoundaryChar(delimiter[i])
  }

  /** A field survives the trip: quotes only around names, and no value that
      contains a line break followed by the boundary. */
  predicate Transmittable(delimiter: string, f: FormField) {
    && '"' !in f.name
    && match f.part
       case Scalar(v) => !Occurs(v, ValueEnd(delimiter))
       case Blob(filename, content) => '"' !in filename && !Occurs(content, ValueEnd(delimiter))
  }

  lemma NoQuoteNoOccurrence(x: string)
    requires '"' !in x
    ensures !Occurs(x, "\"")
  {
    forall j | 0 <= j <= |x| ensures !MatchAt(x, "\"", j) {
      if j + 1 <= |x| {
        assert x[j..j + 1][0] == x[j];
      }
    }
  }

  lemma ReadQuotedPlaced(x: string, t: string)
    requires '"' !in x
    ensures ReadQuoted(x + ("\"" + t)) == Some((x, t))
  {
    NoQuoteNoOccurrence(x);
    FirstOccurrence(x, "\"", t);
    Assoc(x, "\"", t);
    var s := x + "\"" + t;
    assert s[..|x|] == x;
    assert s[|x| + 1..] == t;
  }

  /** The line break that ends a value does not reappear inside the value end. */
  lemma ValueEndNoBorder(delimiter: string)
    requires ValidDelimiter(delimiter)
    ensures ValueEnd(delimiter)[0] !in ValueEnd(delimiter)[1..]
  {
    var pat := ValueEnd(delimiter);
    assert pat[1..] == "\n--" + delimiter;
    assert '\r' !in delimiter;
  }

  /** Splitting at the first occurrence of a border-free pattern that follows a
      text free of it. */
  lemma SplitAtFirst(v: string, pat: string, t: string)
    requires |pat| >= 2 && pat[0] !in pat[1..]
    requires !Occurs(v, pat)
    ensures IndexOf(v + (pat + t), pat) == Some(|v|)
    ensures (v + (pat + t))[..|v|] == v
    ensures (v + (pat + t))[|v| + 2..] == pat[2..] + t
  {
    FirstOccurrence(v, pat, t);
    Assoc(v, pat, t);
  }

  lemma ReadValuePlaced(delimiter: string, v: string, t: string)
    requires ValidDelimiter(delimiter)
    requires !Occurs(v, ValueEnd(delimiter))
    ensures ReadValue(delimiter, v + (ValueEnd(delimiter) + t)) == Some((v, Opening(delimiter) + t))
  {
    ValueEndNoBorder(delimiter);
    SplitAtFirst(v, ValueEnd(delimiter), t);
    assert ValueEnd(delimiter)[2..] == Opening(delimiter);
  }

  /** Every encoded body begins with the opening boundary; `t` is what follows it. */
  lemma EncodeStartsWithOpening(delimiter: string, fields: seq<FormField>) returns (t: string)
    ensures Encode(delimiter, fields) == Opening(delimiter) + t
  {
    var o := Opening(delimiter);
    if fields == [] {
      t := "--" + CRLF;
    } else {
      var f := fields[0];
      var x := CRLF + PartHeaders(f) + CRLF + CRLF + PartValue(f.part) + CRLF;
      var more := EncodeParts(delimiter, fields[1..]);
      Assoc(o, x, more);
      Assoc(o, x + more, Closing(delimiter));
      t := x + more + Closing(delimiter);
    }
  }

  lemma EncodeCons(delimiter: string, fields: seq<FormField>)
    requires fields != []
    ensures Encode(delimiter, fields) == EncodePart(delimiter, fields[0]) + Encode(delimiter, fields[1..])
  {
    Assoc(EncodePart(delimiter, fields[0]), EncodeParts(delimiter, fields[1..]), Closing(delimiter));
  }

  // Regrouping of the concatenations that make up a part, stated over
  // arbitrary sequences so that the literals need not be unfolded.

  lemma ScalarRegroup<T>(o: seq<T>, c: seq<T>, n: seq<T>, name: seq<T>, q: seq<T>, v: seq<T>, t: seq<T>)
    ensures o + (c + (n + name + q) + c + c + v + c) + (o + t)
      == (o + c + n) + (name + (q + ((c + c) + (v + ((c + o) + t)))))
  {
  }

  lemma BlobRegroup<T>(o: seq<T>, c: seq<T>, n: seq<T>, name: seq<T>, q: seq<T>, fp: seq<T>,
                       filename: seq<T>, ct: seq<T>, v: seq<T>, t: seq<T>)
    ensures o + (c + (n + name + q + fp + filename + q + c + ct) + c + c + v + c) + (o + t)
      == (o + c + n) + (name + (q + (fp + (filename + (q + ((c + ct + c + c) + (v + ((c + o) + t))))))))
  {
  }

  lemma ReadHeadersScalar(body: string)
    ensures ReadHeaders((CRLF + CRLF) + body) == Some((None, body))
  {
    SplitAfter(CRLF + CRLF, body);
  }

  lemma ReadHeadersBlob(filename: string, body: string)
    requires '"' !in filename
    ensures ReadHeaders(FilenamePrefix + (filename + ("\"" + ((CRLF + OctetStream + CRLF + CRLF) + body))))
      == Some((Some(filename), body))
  {
    var tail := CRLF + OctetStream + CRLF + CRLF;
    var r := FilenamePrefix + (filename + ("\"" + (tail + body)));
    assert r[0] == ';';
    assert r[..|CRLF + CRLF|] != CRLF + CRLF;
    SplitAfter(FilenamePrefix, filename + ("\"" + (tail + body)));
    ReadQuotedPlaced(filename, tail + body);
    SplitAfter(tail, body);
  }

  /** The first part of a body reads back as its field. */
  lemma DecodePartPlaced(delimiter: string, f: FormField, t: string)
    requires ValidDelimiter(delimiter) && Transmittable(delimiter, f)
    ensures DecodePart(delimiter, EncodePart(delimiter, f) + (Opening(delimiter) + t))
      == Some((f, Opening(delimiter) + t))
  {
    var s := EncodePart(delimiter, f) + (Opening(delimiter) + t);
    var lead := Opening(delimiter) + CRLF + NamePrefix;
    var end := ValueEnd(delimiter);
    var value := PartValue(f.part);
    var afterName;
    match f.part {
      case Scalar(v) =>
        afterName := (CRLF + CRLF) + (v + (end + t));
        ScalarRegroup(Opening(delimiter), CRLF, NamePrefix, f.name, "\"", v, t);
        ReadHeadersScalar(v + (end + t));
      case Blob(filename, content) =>
        afterName := FilenamePrefix + (filename + ("\"" + ((CRLF + OctetStream + CRLF + CRLF) + (content + (end + t)))));
        BlobRegroup(Opening(delimiter), CRLF, NamePrefix, f.name, "\"", FilenamePrefix, filename, OctetStream, content, t);
        ReadHeadersBlob(filename, content + (end + t));
    }
    assert s == lead + (f.name + ("\"" + afterName));
    SplitAfter(lead, f.name + ("\"" + afterName));
    ReadQuotedPlaced(f.name, afterName);
    ReadValuePlaced(delimiter, value, t);
  }

  /** A body that starts with a part is not the closing boundary alone. */
  lemma PartIsNotClosing(delimiter: string, f: FormField, t: string)
    ensures EncodePart(delimiter, f) + t != Closing(delimiter)
  {
    var s := EncodePart(delimiter, f) + t;
    var o := Opening(delimiter);
    assert s[|o| + 2] == NamePrefix[0];
    assert Closing(delimiter)[|o| + 2] == CRLF[0];
  }

  lemma DecodeCons(delimiter: string, s: string, f: FormField, rest: string)
    requires s != Closing(delimiter) && DecodePart(delimiter, s) == Some((f, rest))
    ensures Decode(delimiter, s) == match Decode(delimiter, rest)
                                    case None => None
                                    case Some(more) => Some([f] + more)
  {
  }

  /** A body built from transmittable fields reads back as exactly those fields,
      in order: names, file names and values byte for byte. */
  lemma {:induction false} RoundTrip(delimiter: string, fields: seq<FormField>)
    requires ValidDelimiter(delimiter)
    requires forall i :: 0 <= i < |fields| ==> Transmittable(delimiter, fields[i])
    ensures Decode(delimiter, Encode(delimiter, fields)) == Some(fields)
    decreases |fields|
  {
    if fields == [] {
      assert Encode(delimiter, fields) == Closing(delimiter);
    } else {
      var f, more := fields[0], fields[1..];
      EncodeCons(delimiter, fields);
      var t := EncodeStartsWithOpening(delimiter, more);
      DecodePartPlaced(delimiter, f, t);
      PartIsNotClosing(delimiter, f, Opening(delimiter) + t);
      RoundTrip(delimiter, more);
      DecodeCons(delimiter, Encode(delimiter, fields), f, Encode(delimiter, more));
      ConsSplit(fields);
    }
  }
}
