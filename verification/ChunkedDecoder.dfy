/**
 The stream decoder `iter_response_objects`: JSON documents out of a chunked response.
 Decoding of one document is a parameter.
 */
module ChunkedDecoder {
  import opened Options

  /** A document read from the front of a text, and how many characters it took. */
  datatype Found<T> = Found(document: T, length: nat)

  type Decoder<T> = string -> Option<Found<T>>

  /** Every success consumes something, and is not changed by more text. */
  ghost predicate Reliable<T(!new)>(decode: Decoder<T>) {
    && (forall s :: decode(s).Some? ==> 0 < decode(s).value.length <= |s|)
    && (forall s, t :: Unchanged(decode, s, t))
  }

  ghost predicate Unchanged<T(!new)>(decode: Decoder<T>, s: string, more: string) {
    decode(s).Some? ==> decode(s + more) == decode(s)
  }

  predicate Blank(c: char) {
    c == ' ' || c == '\t' || c == '\n' || c == '\r'
  }

  /** The match of WHITESPACE_RE at the front: how many blanks lead the text. */
  function Blanks(s: string): (n: nat)
    ensures n <= |s|
  {
    if s != "" && Blank(s[0]) then 1 + Blanks(s[1..]) else 0
  }

  /** What follows the leading blanks. */
  function Trim(s: string): (r: string)
    ensures |r| <= |s|
    ensures r != "" ==> !Blank(r[0])
  {
    if s != "" && Blank(s[0]) then Trim(s[1..]) else s
  }

  lemma {:induction false} TrimSkipsBlanks(s: string)
    ensures s[Blanks(s)..] == Trim(s)
    decreases |s|
  {
    if s != "" && Blank(s[0]) {
      TrimSkipsBlanks(s[1..]);
      assert s[1..][Blanks(s[1..])..] == s[Blanks(s)..];
    }
  }

  lemma {:induction false} TrimConcat(s: string, t: string)
    ensures Trim(s + t) == if Trim(s) == "" then Trim(t) else Trim(s) + t
    decreases |s|
  {
    if s == "" {
      assert s + t == t;
    } else if Blank(s[0]) {
      assert (s + t)[1..] == s[1..] + t;
      TrimConcat(s[1..], t);
    }
  }

  // ---------------------------------------------------------------- one text

  /** The documents of a text, front to back up to the first failure, and what is left then. */
  ghost function Parse<T(!new)>(decode: Decoder<T>, s: string): (r: (seq<T>, string))
    requires Reliable(decode)
    decreases |s|
  {
    var text := Trim(s);
    if text == "" || decode(text) == None then ([], text)
    else
      var rest := Parse(decode, text[decode(text).value.length..]);
      ([decode(text).value.document] + rest.0, rest.1)
  }

  /** A parse whose documents come after others. */
  ghost function Onto<T>(docs: seq<T>, r: (seq<T>, string)): (seq<T>, string) {
    (docs + r.0, r.1)
  }

  lemma OntoLaws<T>(a: seq<T>, b: seq<T>, r: (seq<T>, string))
    ensures Onto([], r) == r && Onto(a, Onto(b, r)) == Onto(a + b, r)
  {
    assert [] + r.0 == r.0;
    assert a + (b + r.0) == (a + b) + r.0;
  }

  /** Text that does not begin with a blank: one document, or nothing at all. */
  lemma ParseFront<T(!new)>(decode: Decoder<T>, text: string)
    requires Reliable(decode) && text != "" && !Blank(text[0])
    ensures match decode(text)
            case None => Parse(decode, text) == ([], text)
            case Some(found) => Parse(decode, text) == Onto([found.document], Parse(decode, text[found.length..]))
  {
    assert Trim(text) == text;
  }

  /** Leading blanks make no difference. */
  lemma AfterBlanks<T(!new)>(decode: Decoder<T>, s: string)
    requires Reliable(decode)
    ensures Parse(decode, Trim(s)) == Parse(decode, s)
  {
    assert Trim(Trim(s)) == Trim(s);
  }

  lemma ParseBlank<T(!new)>(decode: Decoder<T>, s: string)
    requires Reliable(decode) && Trim(s) == ""
    ensures Parse(decode, s) == ([], "")
  {
  }

  /** Text that arrives later is parsed after what was left of the text before it. */
  lemma {:induction false} ParseConcat<T(!new)>(decode: Decoder<T>, s: string, t: string)
    requires Reliable(decode)
    ensures Parse(decode, s + t) == Onto(Parse(decode, s).0, Parse(decode, Parse(decode, s).1 + t))
    decreases |s|, 1
  {
    var text := Trim(s);
    TrimConcat(s, t);
    AfterBlanks(decode, s + t);
    if text == "" {
      ParseBlank(decode, s);
      AfterBlanks(decode, t);
      assert "" + t == t;
      OntoLaws([], [], Parse(decode, t));
    } else {
      AfterBlanks(decode, s);
      FrontConcat(decode, text, t);
    }
  }

  lemma {:induction false} FrontConcat<T(!new)>(decode: Decoder<T>, text: string, t: string)
    requires Reliable(decode) && text != "" && !Blank(text[0])
    ensures Parse(decode, text + t) == Onto(Parse(decode, text).0, Parse(decode, Parse(decode, text).1 + t))
    decreases |text|, 0
  {
    ParseFront(decode, text);
    match decode(text) {
      case None => OntoLaws([], [], Parse(decode, text + t));
      case Some(found) =>
        var tail := text[found.length..];
        assert Unchanged(decode, text, t);
        ParseFront(decode, text + t);
        assert (text + t)[found.length..] == tail + t;
        ParseConcat(decode, tail, t);
        OntoLaws([found.document], Parse(decode, tail).0, Parse(decode, Parse(decode, tail).1 + t));
    }
  }

  // ---------------------------------------------------------------- which documents come out

  predicate AllBlank(s: string) {
    forall c <- s :: c in {' ', '\t', '\n', '\r'}
  }

  lemma {:induction false} TrimDrops(blanks: string, s: string)
    requires AllBlank(blanks) && (s != "" ==> s[0] !in {' ', '\t', '\n', '\r'})
    ensures Trim(blanks + s) == s
    decreases |blanks|
  {
    if blanks == "" {
      assert blanks + s == s;
    } else {
      assert blanks[0] in blanks && (forall c <- blanks[1..] :: c in blanks);
      assert (blanks + s)[1..] == blanks[1..] + s;
      TrimDrops(blanks[1..], s);
    }
  }

  /** A document as it stands in a text, with blanks before it. */
  datatype Piece<T> = Piece(blanks: string, text: string, document: T)

  ghost predicate Readable<T(!new)>(decode: Decoder<T>, p: Piece<T>) {
    && AllBlank(p.blanks) && p.text != "" && p.text[0] !in {' ', '\t', '\n', '\r'}
    && decode(p.text) == Some(Found(p.document, |p.text|))
  }

  function TextOf<T>(pieces: seq<Piece<T>>): string {
    if pieces == [] then "" else pieces[0].blanks + pieces[0].text + TextOf(pieces[1..])
  }

  function Documents<T>(pieces: seq<Piece<T>>): (r: seq<T>)
    ensures |r| == |pieces| && forall i :: 0 <= i < |r| ==> r[i] == pieces[i].document
  {
    if pieces == [] then [] else [pieces[0].document] + Documents(pieces[1..])
  }

  /** A text made of documents with blanks before, between and behind them gives exactly these
      documents, and goes on to whatever follows. */
  lemma {:induction false} DocumentsComeOut<T(!new)>(decode: Decoder<T>, pieces: seq<Piece<T>>, blanks: string, rest: string)
    requires Reliable(decode) && (forall p <- pieces :: Readable(decode, p)) && AllBlank(blanks)
    requires rest != "" ==> rest[0] !in {' ', '\t', '\n', '\r'} && decode(rest) == None
    ensures Parse(decode, TextOf(pieces) + (blanks + rest)) == (Documents(pieces), rest)
    decreases |pieces|
  {
    var tail := blanks + rest;
    if pieces == [] {
      assert TextOf(pieces) + tail == tail;
      TrimDrops(blanks, rest);
    } else {
      var p := pieces[0];
      var more := TextOf(pieces[1..]) + tail;
      assert p in pieces && (forall q <- pieces[1..] :: q in pieces);
      DocumentsComeOut(decode, pieces[1..], blanks, rest);
      Regroup(p.blanks, p.text, TextOf(pieces[1..]), tail);
      OneComesOut(decode, p, more);
    }
  }

  lemma Regroup(a: string, b: string, c: string, d: string)
    ensures (a + b + c) + d == a + (b + (c + d))
  {
  }

  lemma OneComesOut<T(!new)>(decode: Decoder<T>, p: Piece<T>, more: string)
    requires Reliable(decode) && Readable(decode, p)
    ensures Parse(decode, p.blanks + (p.text + more)) == Onto([p.document], Parse(decode, more))
  {
    TrimDrops(p.blanks, p.text + more);
    AfterBlanks(decode, p.blanks + (p.text + more));
    assert Unchanged(decode, p.text, more);
    ParseFront(decode, p.text + more);
    assert (p.text + more)[|p.text|..] == more;
  }

  // ---------------------------------------------------------------- chunks

  function Concat(chunks: seq<string>): string {
    if chunks == [] then "" else Concat(chunks[..|chunks| - 1]) + chunks[|chunks| - 1]
  }

  /** The inner loop has read `messages`, and goes on at idx, which is not on a blank. */
  ghost predicate Reading<T(!new)>(decode: Decoder<T>, chunk: string, messages: seq<T>, idx: nat)
    requires Reliable(decode)
  {
    && idx <= |chunk| && (idx < |chunk| ==> !Blank(chunk[idx]))
    && Parse(decode, chunk) == Onto(messages, Parse(decode, chunk[idx..]))
  }

  lemma SkipBlanks(chunk: string, next: nat, idx: nat)
    requires next <= |chunk| && idx == next + Blanks(chunk[next..])
    ensures idx <= |chunk| && chunk[idx..] == Trim(chunk[next..]) && (idx < |chunk| ==> !Blank(chunk[idx]))
  {
    TrimSkipsBlanks(chunk[next..]);
    assert chunk[next..][Blanks(chunk[next..])..] == chunk[idx..];
  }

  lemma StartReading<T(!new)>(decode: Decoder<T>, chunk: string)
    requires Reliable(decode)
    ensures Reading(decode, chunk, [], Blanks(chunk))
  {
    assert chunk[0..] == chunk;
    SkipBlanks(chunk, 0, Blanks(chunk));
    AfterBlanks(decode, chunk);
    OntoLaws([], [], Parse(decode, chunk));
  }

  lemma ParseAt<T(!new)>(decode: Decoder<T>, chunk: string, idx: nat, found: Found<T>)
    requires Reliable(decode) && idx < |chunk| && !Blank(chunk[idx]) && decode(chunk[idx..]) == Some(found)
    ensures idx < idx + found.length <= |chunk|
    ensures Parse(decode, chunk[idx..]) == Onto([found.document], Parse(decode, Trim(chunk[idx + found.length..])))
  {
    ParseFront(decode, chunk[idx..]);
    assert chunk[idx..][found.length..] == chunk[idx + found.length..];
    AfterBlanks(decode, chunk[idx + found.length..]);
  }

  /** One document is read at idx and the blanks behind it are skipped. */
  lemma ReadOne<T(!new)>(decode: Decoder<T>, chunk: string, messages: seq<T>, idx: nat, found: Found<T>, next: nat)
    requires Reliable(decode) && Reading(decode, chunk, messages, idx)
    requires idx < |chunk| && decode(chunk[idx..]) == Some(found)
    requires idx + found.length <= |chunk| && next == idx + found.length + Blanks(chunk[idx + found.length..])
    ensures next <= |chunk| && Reading(decode, chunk, messages + [found.document], next)
  {
    ParseAt(decode, chunk, idx, found);
    SkipBlanks(chunk, idx + found.length, next);
    OntoLaws(messages, [found.document], Parse(decode, chunk[next..]));
  }

  lemma StopReading<T(!new)>(decode: Decoder<T>, chunk: string, messages: seq<T>, idx: nat)
    requires Reliable(decode) && Reading(decode, chunk, messages, idx)
    requires idx == |chunk| || decode(chunk[idx..]) == None
    ensures Parse(decode, chunk) == (messages, chunk[idx..])
  {
    if idx == |chunk| {
      ParseBlank(decode, chunk[idx..]);
    } else {
      ParseFront(decode, chunk[idx..]);
    }
    assert messages + [] == messages;
  }

  /** The inner loop: all documents of one chunk, and the rest that is kept for the next. */
  method DrainChunk<T(!new)>(decode: Decoder<T>, chunk: string) returns (messages: seq<T>, prev: string)
    requires Reliable(decode)
    ensures Parse(decode, chunk) == (messages, prev)
  {
    var idx := Blanks(chunk);
    messages := [];
    StartReading(decode, chunk);
    while idx < |chunk|
      invariant Reading(decode, chunk, messages, idx)
      decreases |chunk| - idx
    {
      match decode(chunk[idx..]) {
        case None =>
          break;
        case Some(found) =>
          ParseAt(decode, chunk, idx, found);
          var next := idx + found.length + Blanks(chunk[idx + found.length..]);
          ReadOne(decode, chunk, messages, idx, found, next);
          messages := messages + [found.document];
          idx := next;
      }
    }
    StopReading(decode, chunk, messages, idx);
    prev := chunk[idx..];
  }

  /** For any chunking, the documents of the whole text. */
  method IterResponseObjects<T(!new)>(decode: Decoder<T>, chunks: seq<string>) returns (messages: seq<T>)
    requires Reliable(decode)
    ensures messages == Parse(decode, Concat(chunks)).0
  {
    var prev := "";
    messages := [];
    for c := 0 to |chunks|
      invariant Parse(decode, Concat(chunks[..c])) == (messages, prev)
    {
      assert chunks[..c + 1][..c] == chunks[..c];
      ParseConcat(decode, Concat(chunks[..c]), chunks[c]);
      var yielded;
      yielded, prev := DrainChunk(decode, prev + chunks[c]);
      messages := messages + yielded;
    }
    assert chunks[..|chunks|] == chunks;
  }
}
