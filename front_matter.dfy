/** `parseTemplateFile`: a file whose first line is `<!--` carries a JSON
    header up to a `-->` line; everything after that line is the body. */
module FrontMatter {
  import opened Wrappers
  import opened Metadata
  import opened Lines

  const Open: string := "<!--"
  const Close: string := "-->"

  /** What resolving a template can fail with. `readFileSync` on a missing
      file and `JSON.parse` on a bad header throw in the source; a layout
      cycle overflows its stack. */
  datatype TemplateError =
    | FileNotFound(path: string)
    | MalformedMetadata(path: string)
    | CyclicLayout(path: string)

  /** The result of `parseTemplateFile`. */
  datatype Parsed = Parsed(data: Meta, content: string)

  /** The header text collected from the lines after the opening marker, and
      the lines left once the closing marker has been consumed. */
  datatype Scanned = Scanned(header: string, rest: seq<string>)

  function ScanHeader(ls: seq<string>): Scanned
    decreases |ls|
  {
    if |ls| == 0 then Scanned("", [])
    else if ls[0] == Close then Scanned("", ls[1..])
    else
      var s := ScanHeader(ls[1..]);
      Scanned(ls[0] + s.header, s.rest)
  }

  datatype FrontMatter = NoHeader | Header(text: string, body: string)

  /** The split of a file into header text and body, before `JSON.parse`. */
  function SplitFrontMatter(file: string): FrontMatter {
    var lines := Split(file);
    if lines[0] != Open then NoHeader
    else
      var s := ScanHeader(lines[1..]);
      Header(s.header, Join(s.rest))
  }

  /** What `parseTemplateFile(filename)` returns or throws, given the file
      system `fs` and `JSON.parse` as `parseJson`. */
  function ParseFile(fs: map<string, string>, filename: string, parseJson: string -> Option<Meta>)
    : (r: Result<Parsed, TemplateError>)
    ensures r == Err(FileNotFound(filename)) <==> filename !in fs
    ensures r.Err? ==> r.error == FileNotFound(filename) || r.error == MalformedMetadata(filename)
  {
    if filename !in fs then Err(FileNotFound(filename))
    else
      match SplitFrontMatter(fs[filename])
      case NoHeader => Ok(Parsed(map[], fs[filename]))
      case Header(text, body) =>
        match parseJson(text)
        case None => Err(MalformedMetadata(filename))
        case Some(data) => Ok(Parsed(data, body))
  }

  /** The line scanner of `parseTemplateFile`: shifts lines off the split file,
      appending each to the header text until the closing marker. */
  method ParseTemplateFile(fs: map<string, string>, filename: string, parseJson: string -> Option<Meta>)
    returns (r: Result<Parsed, TemplateError>)
    ensures r == ParseFile(fs, filename, parseJson)
  {
    if filename !in fs {
      return Err(FileNotFound(filename));
    }
    var file := fs[filename];
    var lines := Split(file);
    var line := lines[0];
    lines := lines[1..];
    if line != Open {
      return Ok(Parsed(map[], file));
    }
    var data := "";
    ghost var all := lines;
    while |lines| > 0
      invariant ScanHeader(all) == Scanned(data + ScanHeader(lines).header, ScanHeader(lines).rest)
      decreases |lines|
    {
      line := lines[0];
      lines := lines[1..];
      if line == Close {
        break;
      }
      data := data + line;
    }
    assert ScanHeader(all) == Scanned(data, lines);
    var content := Join(lines);
    match parseJson(data)
    case None =>
      r := Err(MalformedMetadata(filename));
    case Some(d) =>
      r := Ok(Parsed(d, content));
  }

  /** Header lines that never equal the closing marker are collected whole into
      the header text, without separators, and the rest follows the marker. */
  lemma {:induction false} ScanUntilClose(hs: seq<string>, rest: seq<string>)
    requires forall i :: 0 <= i < |hs| ==> hs[i] != Close
    ensures ScanHeader(hs + [Close] + rest) == Scanned(Concat(hs), rest)
    decreases |hs|
  {
    if |hs| == 0 {
      assert hs + [Close] + rest == [Close] + rest;
    } else {
      assert (hs + [Close] + rest)[1..] == hs[1..] + [Close] + rest;
      ScanUntilClose(hs[1..], rest);
    }
  }

  /** Without a closing marker every line goes into the header text. */
  lemma {:induction false} ScanUnclosed(ls: seq<string>)
    requires forall i :: 0 <= i < |ls| ==> ls[i] != Close
    ensures ScanHeader(ls) == Scanned(Concat(ls), [])
    decreases |ls|
  {
    if |ls| > 0 {
      ScanUnclosed(ls[1..]);
    }
  }

  /** The first line of a text is the prefix up to its first line ending. */
  lemma {:induction false} FirstLinePrefix(s: string)
    ensures Split(s)[0] <= s
    ensures |Split(s)[0]| < |s| ==> s[|Split(s)[0]|] == EOL
    decreases |s|
  {
    if |s| > 0 && s[0] != EOL {
      FirstLinePrefix(s[1..]);
    }
  }

  /** The file has a header exactly when it is the opening marker alone or
      starts with the opening marker and a line ending; otherwise its data is
      empty and its content is the whole file, unchanged. */
  lemma NoMarkerNoData(fs: map<string, string>, filename: string, parseJson: string -> Option<Meta>)
    requires filename in fs
    ensures var file := fs[filename];
      SplitFrontMatter(file).Header? <==> (file == Open || Open + [EOL] <= file)
    ensures var file := fs[filename];
      !(file == Open || Open + [EOL] <= file) ==> ParseFile(fs, filename, parseJson) == Ok(Parsed(map[], file))
  {
    var file := fs[filename];
    var l := Split(file)[0];
    FirstLinePrefix(file);
    if Open + [EOL] <= file {
      var rest := file[|Open| + 1..];
      assert file == Open + [EOL] + rest;
      SplitAppend(Open, rest);
      SplitSingle(Open);
    } else if file == Open {
      SplitSingle(Open);
    }
  }

  /** The lines of a file in front-matter form. */
  lemma {:induction false} SplitFrontMatterFile(hs: seq<string>, body: string)
    ensures Split(Open + [EOL] + Join(hs) + [EOL] + Close + [EOL] + body)
         == [Open] + Split(Join(hs)) + [Close] + Split(body)
  {
    var j := Join(hs);
    var last := Close + [EOL] + body;
    var tail := j + [EOL] + last;
    assert Open + [EOL] + j + [EOL] + Close + [EOL] + body == Open + [EOL] + tail;
    SplitAppend(Open, tail);
    SplitSingle(Open);
    SplitAppend(j, last);
    SplitAppend(Close, body);
    SplitSingle(Close);
  }

  lemma {:induction false} HeaderOfLines(file: string, hl: seq<string>, rest: seq<string>)
    requires Split(file) == [Open] + hl + [Close] + rest
    requires forall i :: 0 <= i < |hl| ==> hl[i] != Close
    ensures SplitFrontMatter(file) == Header(Concat(hl), Join(rest))
  {
    assert Split(file)[1..] == hl + [Close] + rest;
    ScanUntilClose(hl, rest);
  }

  /** `"<!--\n" + H.join("\n") + "\n-->\n" + B` parses back into the header
      lines glued together and the body `B`, whatever `B` holds. */
  lemma RoundTrip(hs: seq<string>, body: string)
    requires NoEOL(hs)
    requires forall i :: 0 <= i < |hs| ==> hs[i] != Close
    ensures SplitFrontMatter(Open + [EOL] + Join(hs) + [EOL] + Close + [EOL] + body)
         == Header(Concat(hs), body)
  {
    var file := Open + [EOL] + Join(hs) + [EOL] + Close + [EOL] + body;
    SplitFrontMatterFile(hs, body);
    HeaderLines(hs);
    HeaderOfLines(file, Split(Join(hs)), Split(body));
    JoinSplit(body);
  }

  /** Header lines joined and split again glue back to the same text, and
      none of them closes the header. */
  lemma HeaderLines(hs: seq<string>)
    requires NoEOL(hs)
    requires forall i :: 0 <= i < |hs| ==> hs[i] != Close
    ensures Concat(Split(Join(hs))) == Concat(hs)
    ensures forall i :: 0 <= i < |Split(Join(hs))| ==> Split(Join(hs))[i] != Close
  {
    var hl := Split(Join(hs));
    if |hs| == 0 {
      assert hl == [""];
      assert Concat(hl) == Concat(hs);
    } else {
      SplitJoin(hs);
    }
  }

  /** With no closing line, every line after the opening marker goes into the
      header text and the content is empty. */
  lemma Unclosed(file: string)
    requires Split(file)[0] == Open
    requires forall i :: 1 <= i < |Split(file)| ==> Split(file)[i] != Close
    ensures SplitFrontMatter(file) == Header(Concat(Split(file)[1..]), "")
  {
    var ls := Split(file)[1..];
    assert forall i :: 0 <= i < |ls| ==> ls[i] == Split(file)[i + 1];
    ScanUnclosed(ls);
  }
}
