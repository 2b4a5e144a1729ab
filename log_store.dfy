/** The log files both request classes write: a file system seen as a map
    from path to content, where the only write the classes perform is
    `fopen($path, 'a')` followed by one `fwrite` of a line. */
module LogStore {
  import opened PhpString

  type Files = map<string, string>

  /** The content of `p`, or the empty string when the file does not exist
      (appending to a missing file creates it). */
  function Content(files: Files, p: string): string {
    if p in files then files[p] else ""
  }

  /** One `logMessage($message, $logPath)` call. */
  datatype Entry = Entry(path: string, message: string)

  /** The files after one `logMessage`: the target exists afterwards and its
      old content is followed by the message and a line feed; every other
      file is untouched. */
  function Appended(files: Files, e: Entry): (r: Files)
    ensures r.Keys == files.Keys + {e.path}
    ensures r[e.path] == Content(files, e.path) + e.message + "\n"
    ensures forall q :: q in files && q != e.path ==> r[q] == files[q]
  {
    files[e.path := Content(files, e.path) + e.message + "\n"]
  }

  /** The files after a sequence of `logMessage` calls, in order. */
  function Replay(files: Files, es: seq<Entry>): Files
    decreases |es|
  {
    if es == [] then files
    else Appended(Replay(files, es[..|es| - 1]), es[|es| - 1])
  }

  lemma ReplaySnoc(files: Files, es: seq<Entry>, e: Entry)
    ensures Replay(files, es + [e]) == Appended(Replay(files, es), e)
  {
    assert (es + [e])[..|es|] == es;
  }

  /** What a sequence of calls writes to `p`, in order. */
  function Written(es: seq<Entry>, p: string): string
    decreases |es|
  {
    if es == [] then ""
    else
      var e := es[|es| - 1];
      Written(es[..|es| - 1], p) + (if e.path == p then e.message + "\n" else "")
  }

  /** The paths a sequence of calls writes to. */
  function Targets(es: seq<Entry>): set<string>
    decreases |es|
  {
    if es == [] then {} else Targets(es[..|es| - 1]) + {es[|es| - 1].path}
  }

  /** Logging is append-only: every file ends up as its old content followed
      by exactly the lines written to it, in call order. */
  lemma {:induction false} ReplayContent(files: Files, es: seq<Entry>, p: string)
    ensures Content(Replay(files, es), p) == Content(files, p) + Written(es, p)
    decreases |es|
  {
    if es != [] {
      ReplayContent(files, es[..|es| - 1], p);
    }
  }

  /** Logging creates exactly the files it writes to and deletes none. */
  lemma {:induction false} ReplayKeys(files: Files, es: seq<Entry>)
    ensures Replay(files, es).Keys == files.Keys + Targets(es)
    decreases |es|
  {
    if es != [] {
      ReplayKeys(files, es[..|es| - 1]);
    }
  }

  /** What a batch of calls writes is what its halves write, one after the
      other. */
  lemma {:induction false} WrittenAppend(a: seq<Entry>, b: seq<Entry>, p: string)
    ensures Written(a + b, p) == Written(a, p) + Written(b, p)
    decreases |b|
  {
    if b == [] {
      assert a + b == a;
    } else {
      var n := |b| - 1;
      assert (a + b)[..|a + b| - 1] == a + b[..n];
      assert (a + b)[|a + b| - 1] == b[n];
      WrittenAppend(a, b[..n], p);
    }
  }

  /** A path no call targets is written nothing. */
  lemma {:induction false} WrittenElsewhere(es: seq<Entry>, p: string)
    requires p !in Targets(es)
    ensures Written(es, p) == ""
    decreases |es|
  {
    if es != [] {
      WrittenElsewhere(es[..|es| - 1], p);
    }
  }

  /** The tag a record carries. */
  datatype Tag = Success | Error

  function TagText(t: Tag): string {
    match t
    case Success => "Success"
    case Error => "Error"
  }

  /** `{$id}:{$tag} code:{$httpCode}:`, the part of a log record in front
      of its text; both record formats start a line with it. */
  function Head(id: string, tag: Tag, code: int): string {
    id + ":" + TagText(tag) + " code:" + IntToDec(code) + ":"
  }

  /** The text after the third colon of a line. */
  function AfterThird(line: string): string {
    AfterColon(AfterColon(AfterColon(line)))
  }

  lemma TagTextPlain(tag: Tag)
    ensures ':' !in TagText(tag) && '\n' !in TagText(tag)
  {
    match tag
    case Success => assert TagText(tag) == "Success";
    case Error => assert TagText(tag) == "Error";
  }

  lemma HeadPlain(id: string, tag: Tag, code: int)
    requires ':' !in id && '\n' !in id
    ensures '\n' !in Head(id, tag, code)
    ensures ':' !in TagText(tag) + " code" && ':' !in IntToDec(code)
  {
    DecPlain(code);
    TagTextPlain(tag);
  }

  /** A head is its three fields, each closed by a colon. */
  lemma HeadFields(id: string, tag: Tag, code: int, rest: string)
    ensures Head(id, tag, code) + rest ==
            id + ([':'] + ((TagText(tag) + " code") + ([':'] + (IntToDec(code) + ([':'] + rest)))))
  {
    assert " code:" == " code" + ":";
    HeadRegroup(id, TagText(tag), " code", IntToDec(code), rest);
  }

  lemma HeadRegroup(x0: string, t: string, w: string, x2: string, rest: string)
    ensures x0 + ":" + t + (w + ":") + x2 + ":" + rest ==
            x0 + ([':'] + ((t + w) + ([':'] + (x2 + ([':'] + rest)))))
  {
  }

  /** For a colon-free id on one line, `explode(':', ...)` of a head and
      what follows yields the id, the tag with ` code`, the status code,
      then the fields of what follows; dropping three colons leaves what
      follows. */
  lemma HeadSplit(id: string, tag: Tag, code: int, rest: string)
    requires ':' !in id && '\n' !in id
    ensures '\n' !in Head(id, tag, code)
    ensures Split(Head(id, tag, code) + rest, ':') ==
            [id, TagText(tag) + " code", IntToDec(code)] + Split(rest, ':')
    ensures AfterThird(Head(id, tag, code) + rest) == rest
  {
    HeadPlain(id, tag, code);
    HeadFields(id, tag, code, rest);
    SplitThree(id, TagText(tag) + " code", IntToDec(code), rest);
    AfterThree(id, TagText(tag) + " code", IntToDec(code), rest);
  }

  /** The third field of a head, trimmed, is the status code; the fourth is
      the first field of what follows. */
  lemma HeadCode(id: string, tag: Tag, code: int, rest: string)
    requires ':' !in id && '\n' !in id
    ensures var parts := Split(Head(id, tag, code) + rest, ':');
            && |parts| > 3
            && Trim(parts[2]) == IntToDec(code)
            && parts[3] == Split(rest, ':')[0]
  {
    HeadSplit(id, tag, code, rest);
    FieldsOf(id, TagText(tag) + " code", IntToDec(code), Split(rest, ':'));
    DecPlain(code);
    TrimOfStable(IntToDec(code));
  }

  lemma FieldsOf<T>(a: T, b: T, c: T, t: seq<T>)
    requires t != []
    ensures |[a, b, c] + t| > 3 && ([a, b, c] + t)[2] == c && ([a, b, c] + t)[3] == t[0]
  {
  }

  lemma ConsThree<T>(a: T, b: T, c: T, t: seq<T>)
    ensures [a] + ([b] + ([c] + t)) == [a, b, c] + t
  {
  }

  /** Three colon-free fields, each closed by a colon, in front of `rest`:
      `explode` yields them first. */
  lemma SplitThree(x0: string, x1: string, x2: string, rest: string)
    requires ':' !in x0 && ':' !in x1 && ':' !in x2
    ensures Split(x0 + ([':'] + (x1 + ([':'] + (x2 + ([':'] + rest))))), ':') == [x0, x1, x2] + Split(rest, ':')
  {
    var y2 := x2 + ([':'] + rest);
    var y1 := x1 + ([':'] + y2);
    SplitColon(x2, rest);
    SplitColon(x1, y2);
    SplitColon(x0, y1);
    ConsThree(x0, x1, x2, Split(rest, ':'));
  }

  lemma SplitColon(x: string, y: string)
    requires ':' !in x
    ensures Split(x + ([':'] + y), ':') == [x] + Split(y, ':')
  {
    assert x + [':'] + y == x + ([':'] + y);
    SplitJoin(x, ':', y);
  }

  /** ... and dropping three colons leaves `rest`. */
  lemma AfterThree(x0: string, x1: string, x2: string, rest: string)
    requires ':' !in x0 && ':' !in x1 && ':' !in x2
    ensures AfterThird(x0 + ([':'] + (x1 + ([':'] + (x2 + ([':'] + rest)))))) == rest
  {
    var y2 := x2 + ([':'] + rest);
    var y1 := x1 + ([':'] + y2);
    AfterOneColon(x0, y1);
    AfterOneColon(x1, y2);
    AfterOneColon(x2, rest);
  }

  lemma AfterOneColon(x: string, y: string)
    requires ':' !in x
    ensures AfterColon(x + ([':'] + y)) == y
  {
    assert x + ":" + y == x + ([':'] + y);
    AfterColonJoin(x, y);
  }

  /** `"{$dirPath}/{$uuid}.{$suffix}"` with `$dirPath` the temporary
      directory, the directory separator and `phpcurl`. */
  function ResponseFilePath(tempDir: string, separator: string, uuid: string, suffix: string): string {
    tempDir + separator + "phpcurl" + "/" + uuid + "." + suffix
  }

  /** Different ids get different response files, and two suffixes without
      a dot, such as `response` and `error`, give one id different files.
      The ids themselves may hold dots, as `uniqid('', true)` ids do. */
  lemma ResponseFilePathInjective(tempDir: string, separator: string, u1: string, u2: string, s1: string, s2: string)
    requires ResponseFilePath(tempDir, separator, u1, s1) == ResponseFilePath(tempDir, separator, u2, s2)
    requires '.' !in s1 && '.' !in s2
    ensures u1 == u2 && s1 == s2
  {
    var d := tempDir + separator + "phpcurl" + "/";
    var p1 := ResponseFilePath(tempDir, separator, u1, s1);
    var p2 := ResponseFilePath(tempDir, separator, u2, s2);
    assert p1 == d + u1 + "." + s1;
    assert p2 == d + u2 + "." + s2;
    IdNotShorter(d, u1, u2, s1, s2);
    IdNotShorter(d, u2, u1, s2, s1);
    assert |u1| == |u2|;
    assert p1[|d|..|d| + |u1|] == u1;
    assert p1[|d| + |u1| + 1..] == s1;
  }

  /** The id of a path is not shorter than any other reading of it: the
      suffix after the id holds no dot, so the dot before it is the last
      one in the path. */
  lemma IdNotShorter(d: string, u1: string, u2: string, s1: string, s2: string)
    requires d + u1 + "." + s1 == d + u2 + "." + s2
    requires '.' !in s1
    ensures |u2| <= |u1|
  {
    var p := d + u2 + "." + s2;
    assert p[|d| + |u2|] == '.';
    NoDotAfterId(d, u1, s1);
  }

  /** No character after the dot that ends the id is a dot. */
  lemma NoDotAfterId(d: string, u: string, s: string)
    requires '.' !in s
    ensures forall i :: |d| + |u| < i < |d + u + "." + s| ==> (d + u + "." + s)[i] != '.'
  {
    forall i | |d| + |u| < i < |d + u + "." + s|
      ensures (d + u + "." + s)[i] != '.'
    {
      assert (d + u + "." + s)[i] == s[i - |d| - |u| - 1];
    }
  }

  /** The response file and the error file of one id differ. */
  lemma ResponseAndErrorFilesDiffer(tempDir: string, separator: string, uuid: string)
    ensures ResponseFilePath(tempDir, separator, uuid, "response") != ResponseFilePath(tempDir, separator, uuid, "error")
  {
    if ResponseFilePath(tempDir, separator, uuid, "response") == ResponseFilePath(tempDir, separator, uuid, "error") {
      ResponseFilePathInjective(tempDir, separator, uuid, uuid, "response", "error");
    }
  }

  /** The file system the classes log to. `tempDir` and `separator` stand
      for `sys_get_temp_dir()` and `DIRECTORY_SEPARATOR`. */
  class FileSystem {
    var files: Files
    const tempDir: string
    const separator: string

    constructor (files0: Files, tempDir: string, separator: string)
      ensures files == files0 && this.tempDir == tempDir && this.separator == separator
    {
      files := files0;
      this.tempDir := tempDir;
      this.separator := separator;
    }

    /** `fopen($path, 'a')`, `fwrite($fh, $data)`, `fclose($fh)`. */
    method AppendLine(e: Entry)
      modifies this
      ensures files == Appended(old(files), e)
    {
      var before := if e.path in files then files[e.path] else "";
      files := files[e.path := before + e.message + "\n"];
    }
  }
}
