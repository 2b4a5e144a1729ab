/** Class `SweetCurls\SweetCurl` (lib/SweetCurl.php): the request
    configuration and its setters, the four request methods with every
    transfer's outcome taken as an input, the `|||`-wrapped log records they
    append, and `getUuidLog`, which finds a record again by id. */
module SweetCurls {
  import opened PhpArray
  import opened PhpString
  import opened Curl
  import opened LogStore
  import opened HandleTable

  /** A record up to its text: `|||{$uuid}:{$tag} code:{$httpCode}:`. */
  function RecordHead(uuid: string, tag: Tag, code: int): string {
    Head("|||" + uuid, tag, code)
  }

  /** `"|||{$uuid}:{$tag} code:{$httpCode}:{$text}|||"`. */
  function Record(uuid: string, tag: Tag, code: int, text: string): string {
    RecordHead(uuid, tag, code) + text + "|||"
  }

  /** The record `singleRequest` logs: a transport error goes to the error
      log with the error text, anything else (a 404 included) to the
      success log with the body. */
  function SingleEntry(uuid: string, successLog: string, errorLog: string, t: Transfer): Entry {
    if t.errno != 0 then Entry(errorLog, Record(uuid, Error, t.code, t.error))
    else Entry(successLog, Record(uuid, Success, t.code, t.body))
  }

  /** What `singleRequest` returns. */
  function SingleReply(t: Transfer, responseRequired: bool): (r: Reply)
    ensures !responseRequired ==> r == Bool(t.errno == 0)
    ensures responseRequired ==> r == Str(if t.errno != 0 then t.error else t.body)
  {
    if t.errno != 0 then
      if responseRequired then Str(t.error) else Bool(false)
    else
      if responseRequired then Str(t.body) else Bool(true)
  }

  /** The Success record of one transfer, to the success log. */
  function SuccessRecord(uuid: string, successLog: string): Transfer -> Entry {
    (t: Transfer) => Entry(successLog, Record(uuid, Success, t.code, t.body))
  }

  /** The records `multipleRequests` logs: one Success record per handle,
      in URL order, all to the success log, whatever the status code. */
  function MultiEntries(uuid: string, successLog: string, ts: seq<Transfer>): seq<Entry> {
    MapSeq(ts, SuccessRecord(uuid, successLog))
  }

  /** `multipleRequests` logs, for the `i`-th URL, a Success record of its
      status code and body to the success log. */
  lemma MultiEntriesAt(uuid: string, successLog: string, ts: seq<Transfer>, i: nat)
    requires i < |ts|
    ensures |MultiEntries(uuid, successLog, ts)| == |ts|
    ensures MultiEntries(uuid, successLog, ts)[i] == Entry(successLog, Record(uuid, Success, ts[i].code, ts[i].body))
  {
    MapSeqAt(ts, SuccessRecord(uuid, successLog), i);
  }

  lemma MultiStep(uuid: string, successLog: string, ts: seq<Transfer>, i: nat)
    requires i < |ts|
    ensures MultiEntries(uuid, successLog, ts[..i + 1]) ==
            MultiEntries(uuid, successLog, ts[..i]) + [Entry(successLog, Record(uuid, Success, ts[i].code, ts[i].body))]
    ensures BodiesOf(ts[..i + 1]) == BodiesOf(ts[..i]) + [ts[i].body]
  {
    assert ts[..i + 1] == ts[..i] + [ts[i]];
    MapSeqSnoc(ts[..i], ts[i], SuccessRecord(uuid, successLog));
    assert ts[..i + 1][..i] == ts[..i];
  }

  /** The record the async methods log: a 2xx status goes to the success
      log as Success, every other status to the error log as Error. */
  function RoutedEntry(uuid: string, successLog: string, errorLog: string, t: Transfer): Entry {
    if IsSuccessCode(t.code) then Entry(successLog, Record(uuid, Success, t.code, t.body))
    else Entry(errorLog, Record(uuid, Error, t.code, t.body))
  }

  function Routed(successLog: string, errorLog: string): ((string, Transfer)) -> Entry {
    (p: (string, Transfer)) => RoutedEntry(p.0, successLog, errorLog, p.1)
  }

  /** The records `asyncMultipleRequests` logs for handles started under
      `ids`: `$handles[$uuid] = $ch` keeps one handle per id. */
  function AsyncEntries(ids: seq<string>, successLog: string, errorLog: string, ts: seq<Transfer>): seq<Entry>
    requires |ts| == |ids|
  {
    VisitAll(ids, ts, Routed(successLog, errorLog))
  }

  /** With pairwise different ids, `asyncMultipleRequests` logs one routed
      record per URL, in URL order. */
  lemma AsyncEntriesDistinct(ids: seq<string>, successLog: string, errorLog: string, ts: seq<Transfer>)
    requires |ts| == |ids| && DistinctSeq(ids)
    ensures |AsyncEntries(ids, successLog, errorLog, ts)| == |ids|
    ensures forall i :: 0 <= i < |ids| ==>
              AsyncEntries(ids, successLog, errorLog, ts)[i] == RoutedEntry(ids[i], successLog, errorLog, ts[i])
  {
    VisitAllDistinct(ids, ts, Routed(successLog, errorLog));
  }

  /** With a repeated id only the last handle started under it is logged. */
  lemma AsyncEntriesRepeated(ids: seq<string>, successLog: string, errorLog: string, ts: seq<Transfer>, j: nat)
    requires |ts| == |ids| && j < |IndexIds(ids)|
    ensures var (uuid, i) := IndexIds(ids)[j];
      && i < |ids| && ids[i] == uuid
      && (forall i' :: i < i' < |ids| ==> ids[i'] != uuid)
      && AsyncEntries(ids, successLog, errorLog, ts)[j] == RoutedEntry(uuid, successLog, errorLog, ts[i])
  {
    VisitAllRepeated(ids, ts, Routed(successLog, errorLog), j);
  }

  /** The handle an async method sends: the common options, then the
      response file when one is required (so it beats the option map). */
  function AsyncHandle(url: string, c: RequestConfig, uuid: string, responseFileRequired: bool, tempDir: string, separator: string): Handle {
    EffectiveHandle(url, c)
    + (if responseFileRequired then map[File := Stream(ResponseFilePath(tempDir, separator, uuid, "response"))] else map[])
  }

  lemma AsyncHandleFile(url: string, c: RequestConfig, uuid: string, responseFileRequired: bool, tempDir: string, separator: string)
    ensures var h := AsyncHandle(url, c, uuid, responseFileRequired, tempDir, separator);
      && (responseFileRequired ==> File in h && h[File] == Stream(ResponseFilePath(tempDir, separator, uuid, "response")))
      && (!responseFileRequired ==> h == EffectiveHandle(url, c))
      && forall k :: k != File ==>
           (k in h <==> k in EffectiveHandle(url, c)) && (k in h ==> h[k] == EffectiveHandle(url, c)[k])
  {
    if !responseFileRequired {
      assert EffectiveHandle(url, c) + map[] == EffectiveHandle(url, c);
    }
  }

  /** The handle for one async transfer under `uuid`. */
  method AsyncHandleFor(url: string, c: RequestConfig, uuid: string, responseFileRequired: bool, tempDir: string, separator: string)
    returns (h: Handle)
    ensures h == AsyncHandle(url, c, uuid, responseFileRequired, tempDir, separator)
  {
    h := Assemble(url, c);
    if responseFileRequired {
      var responseFile := ResponseFilePath(tempDir, separator, uuid, "response");
      UnionSingleton(h, File, Stream(responseFile));
      h := h[File := Stream(responseFile)];
    } else {
      assert h + map[] == h;
    }
  }

  function AsyncHandles(urls: seq<string>, ids: seq<string>, c: RequestConfig, responseFileRequired: bool,
                        tempDir: string, separator: string): (hs: seq<Handle>)
    requires |ids| == |urls|
    ensures |hs| == |urls|
    ensures forall i :: 0 <= i < |urls| ==> hs[i] == AsyncHandle(urls[i], c, ids[i], responseFileRequired, tempDir, separator)
    decreases |urls|
  {
    if urls == [] then []
    else
      var n := |urls| - 1;
      AsyncHandles(urls[..n], ids[..n], c, responseFileRequired, tempDir, separator)
      + [AsyncHandle(urls[n], c, ids[n], responseFileRequired, tempDir, separator)]
  }

  lemma AsyncHandlesStep(urls: seq<string>, ids: seq<string>, c: RequestConfig, responseFileRequired: bool,
                         tempDir: string, separator: string, i: nat)
    requires |ids| == |urls| && i < |urls|
    ensures AsyncHandles(urls[..i + 1], ids[..i + 1], c, responseFileRequired, tempDir, separator)
            == AsyncHandles(urls[..i], ids[..i], c, responseFileRequired, tempDir, separator)
               + [AsyncHandle(urls[i], c, ids[i], responseFileRequired, tempDir, separator)]
  {
    assert urls[..i + 1][..i] == urls[..i];
    assert ids[..i + 1][..i] == ids[..i];
  }

  /** The first loop of `asyncMultipleRequests`: one handle per URL, and
      the `$handles` table from id to handle position. */
  method StartHandles(urls: seq<string>, newIds: seq<string>, c: RequestConfig, responseFileRequired: bool,
                      tempDir: string, separator: string)
    returns (handles: seq<Handle>, table: Arr<string, nat>)
    requires |newIds| == |urls|
    ensures |handles| == |urls|
    ensures forall i :: 0 <= i < |urls| ==>
              handles[i] == AsyncHandle(urls[i], c, newIds[i], responseFileRequired, tempDir, separator)
    ensures table == IndexIds(newIds)
  {
    handles := [];
    table := [];
    for i := 0 to |urls|
      invariant |handles| == i
      invariant handles == AsyncHandles(urls[..i], newIds[..i], c, responseFileRequired, tempDir, separator)
      invariant table == IndexIds(newIds[..i])
    {
      var uuid := newIds[i];
      var h := AsyncHandleFor(urls[i], c, uuid, responseFileRequired, tempDir, separator);
      table := Register(table, newIds, i);
      AsyncHandlesStep(urls, newIds, c, responseFileRequired, tempDir, separator, i);
      handles := handles + [h];
    }
    assert newIds[..|urls|] == newIds;
    assert urls[..|urls|] == urls;
  }

  /** `$returnCodeMessage` of `getUuidLog`, as far as its `===` comparisons
      tell values apart. */
  datatype Mode = ModeFalse | ModeTrue | ModeCode | ModeResponse | ModeOther

  /** The log `getUuidLog` reads: the error log only for `false`. */
  function LogPathFor(successLog: string, errorLog: string, mode: Mode): string {
    if mode == ModeFalse then errorLog else successLog
  }

  /** A line that contains the id and has more than three colon fields. */
  predicate IsMatch(line: string, uuid: string) {
    Contains(line, uuid) && |Split(line, ':')| > 3
  }

  /** Position of the first matching line, or the number of lines. */
  function FirstMatch(lines: seq<string>, uuid: string): (k: nat)
    ensures k <= |lines|
    ensures k < |lines| ==> IsMatch(lines[k], uuid)
    ensures forall j :: 0 <= j < k ==> !IsMatch(lines[j], uuid)
    decreases |lines|
  {
    if lines == [] then 0
    else if IsMatch(lines[0], uuid) then 0
    else 1 + FirstMatch(lines[1..], uuid)
  }

  /** Position of the first line from `from` on that starts with `|||`, or
      the number of lines. */
  function BodyEnd(lines: seq<string>, from: nat): (j: nat)
    requires from <= |lines|
    ensures from <= j <= |lines|
    ensures j < |lines| ==> StartsWith(lines[j], "|||")
    ensures forall i :: from <= i < j ==> !StartsWith(lines[i], "|||")
    decreases |lines| - from
  {
    if from == |lines| then from
    else if StartsWith(lines[from], "|||") then from
    else BodyEnd(lines, from + 1)
  }

  /** The lines that contain the id, in file order. */
  function Candidates(lines: seq<string>, uuid: string): seq<string>
    decreases |lines|
  {
    if lines == [] then []
    else
      var n := |lines| - 1;
      Candidates(lines[..n], uuid) + (if Contains(lines[n], uuid) then [lines[n]] else [])
  }

  /** `substr(trim($parts[0]), 3)`: the id part of a matching line without
      the leading `|||`. */
  function UuidField(line: string): string {
    DropFirst(Trim(Split(line, ':')[0]), 3)
  }

  /** `trim($parts[2])`: the code part of a matching line. */
  function CodeField(line: string): string
    requires |Split(line, ':')| > 2
  {
    Trim(Split(line, ':')[2])
  }

  /** `substr(trim($response), 0, -3)`: the collected body without the
      closing `|||`. */
  function ResponseText(body: string): string {
    DropLast(Trim(body), 3)
  }

  /** What `getUuidLog` makes of a matching line and the body collected
      after it. The full answer always says Success. */
  function Answer(line: string, body: string, mode: Mode): Reply
    requires |Split(line, ':')| > 3
  {
    if mode == ModeCode then Str(CodeField(line))
    else if mode == ModeResponse then Str(ResponseText(body))
    else Str(FullAnswer(UuidField(line), CodeField(line), ResponseText(body)))
  }

  /** `"{$uuidLog}:Success code:{$code}:{$response}"`: the full answer
      always says Success, whatever the record's tag. */
  function FullAnswer(uuidLog: string, code: string, response: string): string {
    uuidLog + ":Success code:" + code + ":" + response
  }

  /** The lines after line `k` up to the next line that starts with `|||`,
      joined. */
  function Body(lines: seq<string>, k: nat): string
    requires k < |lines|
  {
    Flatten(lines[k + 1..BodyEnd(lines, k + 1)])
  }

  /** `getUuidLog` on the lines of an existing log. In `'response'` mode a
      miss gives the id-containing lines collected in `$message`. */
  function LookupLines(lines: seq<string>, uuid: string, mode: Mode): Reply {
    AnswerAt(lines, uuid, mode, FirstMatch(lines, uuid))
  }

  /** The answer when the scan stops at line `k` (`k == |lines|`: at the
      end of the file). */
  function AnswerAt(lines: seq<string>, uuid: string, mode: Mode, k: nat): Reply
    requires k <= |lines| && (k < |lines| ==> |Split(lines[k], ':')| > 3)
  {
    if k < |lines| then Answer(lines[k], Body(lines, k), mode)
    else if mode == ModeResponse then Str(Flatten(Candidates(lines, uuid)))
    else Bool(false)
  }

  /** `getUuidLog($uuid, $returnCodeMessage)` on the log at `logPath`. On a
      missing log, `'response'` mode returns the never assigned `$message`,
      that is `null`. */
  function Lookup(files: Files, logPath: string, uuid: string, mode: Mode): Reply {
    if logPath !in files then
      if mode == ModeResponse then Null else Bool(false)
    else LookupLines(Lines(files[logPath]), uuid, mode)
  }

  /** On a match `getUuidLog` answers from the matching line and the body
      after it. */
  lemma LookupAtFirst(lines: seq<string>, uuid: string, mode: Mode, k: nat)
    requires FirstMatch(lines, uuid) == k < |lines|
    ensures LookupLines(lines, uuid, mode) == Answer(lines[k], Body(lines, k), mode)
  {
  }

  /** The first matching line is the one before which nothing matches. */
  lemma FirstMatchAt(lines: seq<string>, uuid: string, k: nat)
    requires k < |lines| && IsMatch(lines[k], uuid)
    requires forall i :: 0 <= i < k ==> !IsMatch(lines[i], uuid)
    ensures FirstMatch(lines, uuid) == k
  {
  }

  /** The outer `fgets` loop of `getUuidLog` over an existing log. */
  method ScanLog(lines: seq<string>, uuid: string, mode: Mode) returns (r: Reply)
    ensures r == LookupLines(lines, uuid, mode)
  {
    var message := "";
    var k := 0;
    while k < |lines|
      invariant k <= |lines|
      invariant forall i :: 0 <= i < k ==> !IsMatch(lines[i], uuid)
      invariant message == Flatten(Candidates(lines[..k], uuid))
    {
      var line := lines[k];
      if Contains(line, uuid) {
        if |Split(line, ':')| > 3 {
          FirstMatchAt(lines, uuid, k);
          r := AnswerMatch(lines, uuid, mode, k);
          return;
        }
        CandidatesKept(lines, uuid, k);
        message := message + line;
      } else {
        CandidatesSkipped(lines, uuid, k);
      }
      k := k + 1;
    }
    ScanMissed(lines, uuid, mode, k);
    if mode == ModeResponse {
      return Str(message);
    }
    return Bool(false);
  }

  /** What the scan returns once it stops at the first matching line `k`:
      the body collected after it, then the answer. */
  method AnswerMatch(lines: seq<string>, uuid: string, mode: Mode, k: nat) returns (r: Reply)
    requires k < |lines| && FirstMatch(lines, uuid) == k
    ensures r == LookupLines(lines, uuid, mode)
  {
    var response := CollectBody(lines, k + 1);
    LookupAtFirst(lines, uuid, mode, k);
    r := AnswerLine(lines[k], response, mode);
  }

  /** The scan that reaches the end of the file without a match. */
  lemma ScanMissed(lines: seq<string>, uuid: string, mode: Mode, k: nat)
    requires k == |lines|
    requires forall i :: 0 <= i < k ==> !IsMatch(lines[i], uuid)
    ensures LookupLines(lines, uuid, mode) ==
            if mode == ModeResponse then Str(Flatten(Candidates(lines[..k], uuid))) else Bool(false)
  {
    assert lines[..k] == lines;
    LookupMiss(lines, uuid, mode);
  }

  /** Without a matching line `getUuidLog` answers false, or in
      `'response'` mode the id-containing lines. */
  lemma LookupMiss(lines: seq<string>, uuid: string, mode: Mode)
    requires forall i :: 0 <= i < |lines| ==> !IsMatch(lines[i], uuid)
    ensures LookupLines(lines, uuid, mode) ==
            if mode == ModeResponse then Str(Flatten(Candidates(lines, uuid))) else Bool(false)
  {
    assert FirstMatch(lines, uuid) == |lines|;
  }

  /** The id-containing lines up to line `k` and one line more, when that
      line contains the id ... */
  lemma CandidatesKept(lines: seq<string>, uuid: string, k: nat)
    requires k < |lines| && Contains(lines[k], uuid)
    ensures Flatten(Candidates(lines[..k + 1], uuid)) == Flatten(Candidates(lines[..k], uuid)) + lines[k]
  {
    var p := lines[..k + 1];
    assert p[..k] == lines[..k] && p[k] == lines[k];
    assert Candidates(p, uuid) == Candidates(lines[..k], uuid) + [lines[k]];
    FlattenSnoc(Candidates(lines[..k], uuid), lines[k]);
  }

  /** ... and when it does not. */
  lemma CandidatesSkipped(lines: seq<string>, uuid: string, k: nat)
    requires k < |lines| && !Contains(lines[k], uuid)
    ensures Candidates(lines[..k + 1], uuid) == Candidates(lines[..k], uuid)
  {
    var p := lines[..k + 1];
    assert p[..k] == lines[..k] && p[k] == lines[k];
    assert Candidates(p, uuid) == Candidates(lines[..k], uuid) + [];
  }

  /** The answer built from a matching line and its collected body. */
  method AnswerLine(line: string, body: string, mode: Mode) returns (r: Reply)
    requires |Split(line, ':')| > 3
    ensures r == Answer(line, body, mode)
  {
    var uuidLog := UuidField(line);
    var code := CodeField(line);
    var response := ResponseText(body);
    if mode == ModeTrue {
      r := Str(FullAnswer(uuidLog, code, response));
    } else if mode == ModeCode {
      r := Str(code);
    } else if mode == ModeResponse {
      r := Str(response);
    } else {
      r := Str(FullAnswer(uuidLog, code, response));
    }
  }

  /** The inner `fgets` loop: the lines from `from` on, up to the first that
      starts with `|||` or the end of the file. */
  method CollectBody(lines: seq<string>, from: nat) returns (text: string)
    requires from <= |lines|
    ensures text == Flatten(lines[from..BodyEnd(lines, from)])
  {
    text := "";
    var j := from;
    while j < |lines| && !StartsWith(lines[j], "|||")
      invariant from <= j <= |lines|
      invariant forall i :: from <= i < j ==> !StartsWith(lines[i], "|||")
      invariant text == Flatten(lines[from..j])
    {
      assert lines[from..j + 1] == lines[from..j] + [lines[j]];
      FlattenSnoc(lines[from..j], lines[j]);
      text := text + lines[j];
      j := j + 1;
    }
  }

  /** An id that `explode(':')` and `fgets` keep in one piece. */
  predicate PlainId(uuid: string) {
    ':' !in uuid && '\n' !in uuid
  }

  /** No line of the log content `c` matches `uuid`. */
  predicate NoMatchIn(c: string, uuid: string) {
    forall i :: 0 <= i < |Lines(c)| ==> !IsMatch(Lines(c)[i], uuid)
  }

  /** The lines `fgets` reads from a record's text, its closing `|||` and
      the line feed `logMessage` adds. */
  function TextLines(text: string): seq<string> {
    Lines(text + "|||\n")
  }

  /** A log `c` that a record for `uuid` can be appended to and found in:
      it ends a line, no line of it matches the id, and the id keeps to one
      colon field of one line. */
  predicate ReadyFor(c: string, uuid: string) {
    EndsLine(c) && PlainId(uuid) && NoMatchIn(c, uuid)
  }

  /** No line of a record's text after the first starts with `|||`. */
  predicate NoInnerMarker(text: string) {
    forall i :: 1 <= i < |TextLines(text)| ==> !StartsWith(TextLines(text)[i], "|||")
  }

  /** What follows a record: nothing, or the next record. */
  predicate NextRecordOrEnd(d: string) {
    d == [] || StartsWith(d, "|||")
  }

  /** Line `k` is the first line matching `uuid`, and it is the first line
      of a record for `uuid`. */
  predicate RecordAt(lines: seq<string>, k: nat, uuid: string, tag: Tag, code: int, text: string) {
    && PlainId(uuid)
    && k < |lines|
    && TextLines(text) != []
    && FirstMatch(lines, uuid) == k
    && lines[k] == RecordHead(uuid, tag, code) + TextLines(text)[0]
  }

  /** The body lines collected after line `k` are the rest of the text. */
  predicate BodyAt(lines: seq<string>, k: nat, text: string)
    requires k < |lines|
  {
    TextLines(text) != [] && lines[k + 1..BodyEnd(lines, k + 1)] == TextLines(text)[1..]
  }

  /** The head of a record holds no line feed and splits into the marked
      id, the tag with ` code` and the status code. */
  lemma RecordHeadSplit(uuid: string, tag: Tag, code: int, rest: string)
    requires PlainId(uuid)
    ensures '\n' !in RecordHead(uuid, tag, code)
    ensures Split(RecordHead(uuid, tag, code) + rest, ':') ==
            ["|||" + uuid, TagText(tag) + " code", IntToDec(code)] + Split(rest, ':')
    ensures AfterThird(RecordHead(uuid, tag, code) + rest) == rest
  {
    HeadSplit("|||" + uuid, tag, code, rest);
  }

  lemma RecordHeadPlain(uuid: string, tag: Tag, code: int)
    requires PlainId(uuid)
    ensures '\n' !in RecordHead(uuid, tag, code)
  {
    HeadPlain("|||" + uuid, tag, code);
  }

  /** How `fgets` reads a log holding `c`, then one record, then `d`: the
      lines of `c`, the record's first line behind its head, the rest of
      its text, the lines of `d`. */
  lemma RecordLayout(c: string, uuid: string, tag: Tag, code: int, text: string, d: string)
    requires EndsLine(c) && PlainId(uuid)
    ensures TextLines(text) != []
    ensures Lines(c + Record(uuid, tag, code, text) + "\n" + d) ==
            Lines(c) + [RecordHead(uuid, tag, code) + TextLines(text)[0]] + TextLines(text)[1..] + Lines(d)
  {
    var h := RecordHead(uuid, tag, code);
    var b := text + "|||\n";
    RecordClosed(uuid, tag, code, text);
    RegroupSplit(c, Record(uuid, tag, code, text), "\n", h, b, d);
    RecordHeadPlain(uuid, tag, code);
    LinesNonEmpty(b);
    LinesAround(c, h, b, d);
  }

  /** A record and the line feed after it: the head, then the text with
      the closing `|||` and the line feed. */
  lemma RecordClosed(uuid: string, tag: Tag, code: int, text: string)
    ensures Record(uuid, tag, code, text) + "\n" == RecordHead(uuid, tag, code) + (text + "|||\n")
  {
  }

  /** A record's first line matches the record's id. */
  lemma RecordLineMatches(uuid: string, tag: Tag, code: int, l0: string)
    requires PlainId(uuid)
    ensures IsMatch(RecordHead(uuid, tag, code) + l0, uuid)
    ensures |Split(RecordHead(uuid, tag, code) + l0, ':')| > 3
  {
    RecordHeadSplit(uuid, tag, code, l0);
    HeadFields("|||" + uuid, tag, code, l0);
    ContainsAt("|||", uuid, [':'] + ((TagText(tag) + " code") + ([':'] + (IntToDec(code) + ([':'] + l0)))));
  }

  /** A record appended to a log that is ready for it holds the first line
      `getUuidLog` stops at. */
  lemma RecordFound(c: string, uuid: string, tag: Tag, code: int, text: string, d: string)
    requires ReadyFor(c, uuid)
    ensures var lines := Lines(c + Record(uuid, tag, code, text) + "\n" + d);
            && RecordAt(lines, |Lines(c)|, uuid, tag, code, text)
            && lines[|Lines(c)| + 1..] == TextLines(text)[1..] + Lines(d)
  {
    var lines := Lines(c + Record(uuid, tag, code, text) + "\n" + d);
    var k := |Lines(c)|;
    var ls := TextLines(text);
    RecordLayout(c, uuid, tag, code, text, d);
    Pieces(Lines(c), RecordHead(uuid, tag, code) + ls[0], ls[1..], Lines(d));
    RecordLineMatches(uuid, tag, code, ls[0]);
    forall i | 0 <= i < k ensures !IsMatch(lines[i], uuid) {
      assert lines[i] == lines[..k][i];
    }
    FirstMatchAt(lines, uuid, k);
  }

  /** ... and when the rest of its text has no `|||` line and the next
      record or the end follows, the body collected is the rest of its
      text. */
  lemma RecordBody(c: string, uuid: string, tag: Tag, code: int, text: string, d: string)
    requires ReadyFor(c, uuid) && NoInnerMarker(text) && NextRecordOrEnd(d)
    ensures var lines := Lines(c + Record(uuid, tag, code, text) + "\n" + d);
            && RecordAt(lines, |Lines(c)|, uuid, tag, code, text)
            && BodyAt(lines, |Lines(c)|, text)
  {
    RecordFound(c, uuid, tag, code, text, d);
    NextRecordLines(d);
    BodyFrom(Lines(c + Record(uuid, tag, code, text) + "\n" + d), |Lines(c)|, uuid, tag, code, text, Lines(d));
  }

  /** The lines of what follows a record: none, or a first one that starts
      with `|||`. */
  lemma NextRecordLines(d: string)
    requires NextRecordOrEnd(d)
    ensures Lines(d) == [] || StartsWith(Lines(d)[0], "|||")
  {
    if d != [] {
      FirstLineStarts(d, "|||");
    }
  }

  /** A record found at line `k` whose text has no inner `|||` line and is
      followed by nothing or the next record yields its text as the body. */
  lemma BodyFrom(lines: seq<string>, k: nat, uuid: string, tag: Tag, code: int, text: string, dl: seq<string>)
    requires RecordAt(lines, k, uuid, tag, code, text) && NoInnerMarker(text)
    requires lines[k + 1..] == TextLines(text)[1..] + dl
    requires dl == [] || StartsWith(dl[0], "|||")
    ensures BodyAt(lines, k, text)
  {
    BodyAfter(lines, k, TextLines(text), dl);
  }

  /** The record's code comes back: `getUuidLog($uuid, 'code')` on a log
      that holds the record behind lines not matching the id returns the
      code written, whatever the tag, the text and what follows. */
  lemma LookupCodeRoundTrip(c: string, uuid: string, tag: Tag, code: int, text: string, d: string)
    requires ReadyFor(c, uuid)
    ensures LookupLines(Lines(c + Record(uuid, tag, code, text) + "\n" + d), uuid, ModeCode) == Str(IntToDec(code))
  {
    RecordFound(c, uuid, tag, code, text, d);
    CodeAt(Lines(c + Record(uuid, tag, code, text) + "\n" + d), |Lines(c)|, uuid, tag, code, text);
  }

  /** A lookup that stops at a record's first line answers `'code'` with
      the record's code. */
  lemma CodeAt(lines: seq<string>, k: nat, uuid: string, tag: Tag, code: int, text: string)
    requires RecordAt(lines, k, uuid, tag, code, text)
    ensures LookupLines(lines, uuid, ModeCode) == Str(IntToDec(code))
  {
    RecordLineMatches(uuid, tag, code, TextLines(text)[0]);
    LookupAtFirst(lines, uuid, ModeCode, k);
    CodeOfRecord(uuid, tag, code, TextLines(text)[0]);
  }

  /** The code field of a record's first line is the code. */
  lemma CodeOfRecord(uuid: string, tag: Tag, code: int, l0: string)
    requires PlainId(uuid)
    ensures |Split(RecordHead(uuid, tag, code) + l0, ':')| > 3
    ensures CodeField(RecordHead(uuid, tag, code) + l0) == IntToDec(code)
  {
    HeadCode("|||" + uuid, tag, code, l0);
  }

  /** The scan for the body stops at the first line from `from` on that
      starts with `|||`. */
  lemma {:induction false} BodyEndAt(lines: seq<string>, from: nat, j: nat)
    requires from <= j <= |lines|
    requires forall i :: from <= i < j ==> !StartsWith(lines[i], "|||")
    requires j < |lines| ==> StartsWith(lines[j], "|||")
    ensures BodyEnd(lines, from) == j
    decreases j - from
  {
    if from < j {
      BodyEndAt(lines, from + 1, j);
    }
  }

  /** The inner loop collects exactly the lines before the next one that
      starts with `|||`. */
  lemma BodyAfter(lines: seq<string>, k: nat, ls: seq<string>, dl: seq<string>)
    requires k < |lines| && ls != [] && lines[k + 1..] == ls[1..] + dl
    requires forall i :: 1 <= i < |ls| ==> !StartsWith(ls[i], "|||")
    requires dl == [] || StartsWith(dl[0], "|||")
    ensures BodyEnd(lines, k + 1) == k + |ls|
    ensures lines[k + 1..BodyEnd(lines, k + 1)] == ls[1..]
  {
    var j := k + |ls|;
    forall i | k + 1 <= i < j ensures !StartsWith(lines[i], "|||") {
      assert lines[i] == lines[k + 1..][i - (k + 1)] == ls[i - k];
    }
    if dl != [] {
      assert lines[j] == lines[k + 1..][|ls| - 1];
    }
    BodyEndAt(lines, k + 1, j);
    assert lines[k + 1..j] == lines[k + 1..][..|ls| - 1];
  }

  /** What `getUuidLog($uuid, 'response')` returns for a record whose text
      has no line feed, when the log ends or another record follows: the
      empty string, since the body is only collected from the lines after
      the matching one. */
  lemma SingleLineResponseLost(c: string, uuid: string, tag: Tag, code: int, text: string, d: string)
    requires ReadyFor(c, uuid) && '\n' !in text && NextRecordOrEnd(d)
    ensures LookupLines(Lines(c + Record(uuid, tag, code, text) + "\n" + d), uuid, ModeResponse) == Str("")
  {
    SingleTextLine(text);
    RecordBody(c, uuid, tag, code, text, d);
    SingleLineAt(Lines(c + Record(uuid, tag, code, text) + "\n" + d), |Lines(c)|, uuid, tag, code, text);
  }

  /** A lookup that stops at the only line of a record answers `'response'`
      with the empty string. */
  lemma SingleLineAt(lines: seq<string>, k: nat, uuid: string, tag: Tag, code: int, text: string)
    requires RecordAt(lines, k, uuid, tag, code, text) && BodyAt(lines, k, text) && '\n' !in text
    ensures LookupLines(lines, uuid, ModeResponse) == Str("")
  {
    SingleTextLine(text);
    RecordLineMatches(uuid, tag, code, TextLines(text)[0]);
    LookupAtFirst(lines, uuid, ModeResponse, k);
    assert Body(lines, k) == Flatten([]);
    EmptyResponse();
  }

  lemma EmptyResponse()
    ensures ResponseText(Flatten([])) == ""
  {
    assert Trim("") == "";
  }

  /** A text without a line feed is read back as one line. */
  lemma SingleTextLine(text: string)
    requires '\n' !in text
    ensures TextLines(text) == [text + "|||\n"] && TextLines(text)[1..] == []
    ensures NoInnerMarker(text)
  {
    assert text + "|||\n" == (text + "|||") + "\n";
    OneLine(text + "|||");
  }

  /** An id that no line contains is never found: `getUuidLog` answers
      `false`, or in `'response'` mode the empty `$message`. */
  lemma LookupUnknownId(lines: seq<string>, uuid: string, mode: Mode)
    requires forall i :: 0 <= i < |lines| ==> !Contains(lines[i], uuid)
    ensures LookupLines(lines, uuid, mode) == if mode == ModeResponse then Str("") else Bool(false)
  {
    LookupMiss(lines, uuid, mode);
    CandidatesNone(lines, uuid);
  }

  lemma {:induction false} CandidatesNone(lines: seq<string>, uuid: string)
    requires forall i :: 0 <= i < |lines| ==> !Contains(lines[i], uuid)
    ensures Candidates(lines, uuid) == []
    decreases |lines|
  {
    if lines != [] {
      var n := |lines| - 1;
      assert forall i :: 0 <= i < n ==> lines[..n][i] == lines[i];
      CandidatesNone(lines[..n], uuid);
    }
  }

  /** The full answer for a record whose text has no line feed:
      `{$uuid}:Success code:{$code}:` with the tag `Success` whatever the
      record's tag, and nothing after the last colon. */
  lemma FullAnswerSaysSuccess(c: string, uuid: string, tag: Tag, code: int, text: string, d: string, mode: Mode)
    requires ReadyFor(c, uuid) && '\n' !in text && NextRecordOrEnd(d)
    requires uuid == [] || !IsTrimChar(uuid[|uuid| - 1])
    requires mode != ModeCode && mode != ModeResponse
    ensures LookupLines(Lines(c + Record(uuid, tag, code, text) + "\n" + d), uuid, mode)
            == Str(FullAnswer(uuid, IntToDec(code), ""))
  {
    SingleTextLine(text);
    RecordBody(c, uuid, tag, code, text, d);
    FullAnswerAt(Lines(c + Record(uuid, tag, code, text) + "\n" + d), |Lines(c)|, uuid, tag, code, text, mode);
  }

  /** A lookup that stops at the only line of a record gives the full
      answer with an empty text. */
  lemma FullAnswerAt(lines: seq<string>, k: nat, uuid: string, tag: Tag, code: int, text: string, mode: Mode)
    requires RecordAt(lines, k, uuid, tag, code, text) && BodyAt(lines, k, text) && '\n' !in text
    requires uuid == [] || !IsTrimChar(uuid[|uuid| - 1])
    requires mode != ModeCode && mode != ModeResponse
    ensures LookupLines(lines, uuid, mode) == Str(FullAnswer(uuid, IntToDec(code), ""))
  {
    SingleTextLine(text);
    RecordLineMatches(uuid, tag, code, TextLines(text)[0]);
    LookupAtFirst(lines, uuid, mode, k);
    assert Body(lines, k) == Flatten([]);
    EmptyResponse();
    FullAnswerOfRecord(uuid, tag, code, TextLines(text)[0], Flatten([]), mode);
  }

  /** The full answer on a record's first line names the record's id and
      code, and the tag `Success`. */
  lemma FullAnswerOfRecord(uuid: string, tag: Tag, code: int, l0: string, body: string, mode: Mode)
    requires PlainId(uuid) && (uuid == [] || !IsTrimChar(uuid[|uuid| - 1]))
    requires mode != ModeCode && mode != ModeResponse
    ensures |Split(RecordHead(uuid, tag, code) + l0, ':')| > 3
    ensures Answer(RecordHead(uuid, tag, code) + l0, body, mode)
            == Str(FullAnswer(uuid, IntToDec(code), ResponseText(body)))
  {
    var line := RecordHead(uuid, tag, code) + l0;
    CodeOfRecord(uuid, tag, code, l0);
    UuidOfRecord(uuid, tag, code, l0);
    FullAnswerMode(line, body, mode);
  }

  lemma FullAnswerMode(line: string, body: string, mode: Mode)
    requires |Split(line, ':')| > 3
    requires mode != ModeCode && mode != ModeResponse
    ensures Answer(line, body, mode) == Str(FullAnswer(UuidField(line), CodeField(line), ResponseText(body)))
  {
  }

  /** The id field of a record's first line is the record's id. */
  lemma UuidOfRecord(uuid: string, tag: Tag, code: int, l0: string)
    requires PlainId(uuid) && (uuid == [] || !IsTrimChar(uuid[|uuid| - 1]))
    ensures UuidField(RecordHead(uuid, tag, code) + l0) == uuid
  {
    RecordHeadSplit(uuid, tag, code, l0);
    MarkedIdTrim(uuid);
  }

  lemma MarkedIdTrim(uuid: string)
    requires uuid == [] || !IsTrimChar(uuid[|uuid| - 1])
    ensures DropFirst(Trim("|||" + uuid), 3) == uuid
  {
    var marked := "|||" + uuid;
    MarkedStable(marked, uuid);
    MarkedTrim(marked, uuid);
    MarkedDrop(marked, uuid);
  }

  lemma MarkedTrim(marked: string, uuid: string)
    requires marked == "|||" + uuid && TrimStable(marked)
    ensures Trim(marked) == marked
  {
    TrimOfStable(marked);
  }

  lemma MarkedDrop(marked: string, uuid: string)
    requires marked == "|||" + uuid
    ensures DropFirst(marked, 3) == uuid
  {
    assert marked[3..] == uuid;
  }

  lemma MarkedStable(marked: string, uuid: string)
    requires marked == "|||" + uuid
    requires uuid == [] || !IsTrimChar(uuid[|uuid| - 1])
    ensures TrimStable(marked)
  {
    assert marked[0] == '|';
    if uuid != [] {
      assert marked[|marked| - 1] == uuid[|uuid| - 1];
    } else {
      assert marked[|marked| - 1] == '|';
    }
  }

  /** A record whose text runs over several lines: `'response'` mode gives
      back everything after the text's first line, when that rest has
      nothing for `trim` to take away in front. */
  lemma MultiLineResponse(c: string, uuid: string, tag: Tag, code: int, first: string, rest: string, d: string)
    requires ReadyFor(c, uuid) && NextRecordOrEnd(d)
    requires '\n' !in first && NoInnerMarker(first + "\n" + rest)
    requires rest == [] || !IsTrimChar(rest[0])
    ensures LookupLines(Lines(c + Record(uuid, tag, code, first + "\n" + rest) + "\n" + d), uuid, ModeResponse)
            == Str(rest)
  {
    var text := first + "\n" + rest;
    var lines := Lines(c + Record(uuid, tag, code, text) + "\n" + d);
    var k := |Lines(c)|;
    RecordBody(c, uuid, tag, code, text, d);
    RecordLineMatches(uuid, tag, code, TextLines(text)[0]);
    LookupAtFirst(lines, uuid, ModeResponse, k);
    TextLinesAfterFirst(first, rest);
    FlattenLines(rest + "|||\n");
    TextTrimmed(rest);
  }

  /** The lines of a text after its first one are the lines of what
      follows its first line feed. */
  lemma TextLinesAfterFirst(first: string, rest: string)
    requires '\n' !in first
    ensures TextLines(first + "\n" + rest) != []
    ensures TextLines(first + "\n" + rest)[1..] == Lines(rest + "|||\n")
  {
    assert (first + "\n" + rest) + "|||\n" == (first + "\n") + (rest + "|||\n");
    OneLine(first);
    LinesAppend(first + "\n", rest + "|||\n");
  }

  /** The code of a transfer `singleRequest` logged comes back from
      `getUuidLog($uuid, 'code')`, a 404 as well as a 200, when the transfer
      itself did not fail. */
  lemma SingleRequestCodeFound(files: Files, uuid: string, successLog: string, errorLog: string, t: Transfer)
    requires t.errno == 0 && ReadyFor(Content(files, successLog), uuid)
    ensures Lookup(Appended(files, SingleEntry(uuid, successLog, errorLog, t)),
                   LogPathFor(successLog, errorLog, ModeCode), uuid, ModeCode) == Str(IntToDec(t.code))
  {
    var c := Content(files, successLog);
    var m := Record(uuid, Success, t.code, t.body);
    LookupCodeRoundTrip(c, uuid, Success, t.code, t.body, "");
    assert c + m + "\n" + "" == c + m + "\n";
  }

  /** `getUuidLog` with the body taken from the rest of the matching line
      as well as the lines after it, as the log format calls for. */
  function IntendedAnswer(line: string, body: string, mode: Mode): Reply
    requires |Split(line, ':')| > 3
  {
    Answer(line, AfterThird(line) + body, mode)
  }

  function IntendedLookupLines(lines: seq<string>, uuid: string, mode: Mode): Reply {
    var k := FirstMatch(lines, uuid);
    if k < |lines| then IntendedAnswer(lines[k], Body(lines, k), mode)
    else AnswerAt(lines, uuid, mode, k)
  }

  /** The record's text comes back from the intended lookup, when it does
      not start with a character `trim` removes and none of its later lines
      starts with `|||`. */
  lemma IntendedResponseRoundTrip(c: string, uuid: string, tag: Tag, code: int, text: string, d: string)
    requires ReadyFor(c, uuid) && NoInnerMarker(text) && NextRecordOrEnd(d)
    requires text == [] || !IsTrimChar(text[0])
    ensures IntendedLookupLines(Lines(c + Record(uuid, tag, code, text) + "\n" + d), uuid, ModeResponse) == Str(text)
  {
    RecordBody(c, uuid, tag, code, text, d);
    IntendedTextAt(Lines(c + Record(uuid, tag, code, text) + "\n" + d), |Lines(c)|, uuid, tag, code, text);
  }

  /** An intended lookup that stops at a record's first line, with the rest
      of its text after it, answers `'response'` with the text. */
  lemma IntendedTextAt(lines: seq<string>, k: nat, uuid: string, tag: Tag, code: int, text: string)
    requires RecordAt(lines, k, uuid, tag, code, text) && BodyAt(lines, k, text)
    requires text == [] || !IsTrimChar(text[0])
    ensures IntendedLookupLines(lines, uuid, ModeResponse) == Str(text)
  {
    IntendedText(uuid, tag, code, text);
  }

  /** The intended answer on a record's first line and the rest of its text
      is the text. */
  lemma IntendedText(uuid: string, tag: Tag, code: int, text: string)
    requires PlainId(uuid)
    requires text == [] || !IsTrimChar(text[0])
    ensures TextLines(text) != []
    ensures var line := RecordHead(uuid, tag, code) + TextLines(text)[0];
            && |Split(line, ':')| > 3
            && IntendedAnswer(line, Flatten(TextLines(text)[1..]), ModeResponse) == Str(text)
  {
    var ls := TextLines(text);
    IntendedBody(uuid, tag, code, text);
    var line := RecordHead(uuid, tag, code) + ls[0];
    RecordLineMatches(uuid, tag, code, ls[0]);
    TextTrimmed(text);
    assert IntendedAnswer(line, Flatten(ls[1..]), ModeResponse) == Str(ResponseText(text + "|||\n"));
  }

  /** The rest of a record's first line after the head, and the lines after
      it, give back the closed text. */
  lemma IntendedBody(uuid: string, tag: Tag, code: int, text: string)
    requires PlainId(uuid)
    ensures TextLines(text) != []
    ensures AfterThird(RecordHead(uuid, tag, code) + TextLines(text)[0]) + Flatten(TextLines(text)[1..]) == text + "|||\n"
  {
    var closed := text + "|||\n";
    var ls := TextLines(text);
    LinesNonEmpty(closed);
    RecordHeadSplit(uuid, tag, code, ls[0]);
    FlattenLines(closed);
    assert Flatten(ls) == ls[0] + Flatten(ls[1..]);
  }

  lemma TextTrimmed(text: string)
    requires text == [] || !IsTrimChar(text[0])
    ensures ResponseText(text + "|||\n") == text
  {
    assert text + "|||\n" == (text + "|||") + "\n";
    TrimLine(text + "|||");
    assert (text + "|||")[..|text|] == text;
  }

  /** The configuration fields of a `SweetCurl` object. An empty string
      stands for an unset field. */
  datatype Settings = Settings(
    url: string,
    urls: seq<string>,
    headers: Arr<string, string>,
    httpMethod: string,
    options: Arr<OptKey, OptValue>,
    bearerToken: string,
    authorization: string,
    logsEnabled: bool,
    successLogPath: string,
    errorLogPath: string,
    response: Stored,
    responseRequired: bool,
    responseFileRequired: bool)

  class SweetCurl {
    var url: string
    var urls: seq<string>
    var headers: Arr<string, string>
    var httpMethod: string
    var options: Arr<OptKey, OptValue>
    var bearerToken: string
    var authorization: string
    var logsEnabled: bool
    var successLogPath: string
    var errorLogPath: string
    var response: Stored
    var responseRequired: bool
    var responseFileRequired: bool
    /** Set once by the constructor from `uniqid()`, taken as an input. */
    const uuidLog: string
    /** The file system the log records go to. */
    const fs: FileSystem

    function State(): Settings
      reads this
    {
      Settings(url, urls, headers, httpMethod, options, bearerToken, authorization, logsEnabled,
               successLogPath, errorLogPath, response, responseRequired, responseFileRequired)
    }

    /** The fields the request methods read to set up a handle. */
    function Config(): RequestConfig
      reads this
    {
      RequestConfig(bearerToken, authorization, httpMethod, options, headers)
    }

    constructor (url: string, urls: seq<string>, headers: Arr<string, string>, httpMethod: string,
                 options: Arr<OptKey, OptValue>, responseRequired: bool, uuid: string, fs: FileSystem)
      ensures State() == Settings(url, urls, headers, httpMethod, options, "", "", false, "", "",
                                  Unset, responseRequired, false)
      ensures uuidLog == uuid && this.fs == fs
    {
      this.url := url;
      this.urls := urls;
      this.headers := headers;
      this.httpMethod := httpMethod;
      this.options := options;
      this.responseRequired := responseRequired;
      logsEnabled := false;
      responseFileRequired := false;
      uuidLog := uuid;
      bearerToken := "";
      authorization := "";
      successLogPath := "";
      errorLogPath := "";
      response := Unset;
      this.fs := fs;
    }

    method SetUrl(url: string)
      modifies this
      ensures State() == old(State()).(url := url)
    {
      this.url := url;
    }

    method SetUrls(urls: seq<string>)
      modifies this
      ensures State() == old(State()).(urls := urls)
    {
      this.urls := urls;
    }

    /** `getUuid`: the id the object logs under. */
    method GetUuid() returns (uuid: string)
      ensures uuid == uuidLog
    {
      uuid := uuidLog;
    }

    /** `returnResponse`: what the last request stored. */
    method ReturnResponse() returns (r: Stored)
      ensures r == State().response
    {
      r := response;
    }

    /** `returnResponses` reads the same field as `returnResponse`: after
        `multipleRequests` it is the list of bodies. */
    method ReturnResponses() returns (r: Stored)
      ensures r == State().response
    {
      r := response;
    }

    method SetBearerToken(bearerToken: string)
      modifies this
      ensures State() == old(State()).(bearerToken := bearerToken)
    {
      this.bearerToken := bearerToken;
    }

    method SetAuthorization(authorization: string)
      modifies this
      ensures State() == old(State()).(authorization := authorization)
    {
      this.authorization := authorization;
    }

    method SetMethod(httpMethod: string)
      modifies this
      ensures State() == old(State()).(httpMethod := httpMethod)
    {
      this.httpMethod := httpMethod;
    }

    /** `$this->options[$key] = $value`: only that key of the option map
        changes. */
    method SetOption(key: OptKey, value: OptValue)
      modifies this
      ensures State() == old(State()).(options := Set(old(options), key, value))
    {
      options := Set(options, key, value);
    }

    /** Replaces the whole option map. */
    method SetOptions(options: Arr<OptKey, OptValue>)
      modifies this
      ensures State() == old(State()).(options := options)
    {
      this.options := options;
    }

    /** `$this->headers[$key] = $value`: only that header changes. */
    method AddHeader(key: string, value: string)
      modifies this
      ensures State() == old(State()).(headers := Set(old(headers), key, value))
    {
      headers := Set(headers, key, value);
    }

    /** `array_merge`: existing headers stay, the new values win. */
    method AddHeaders(newHeaders: Arr<string, string>)
      modifies this
      ensures State() == old(State()).(headers := Merge(old(headers), newHeaders))
    {
      headers := Merge(headers, newHeaders);
    }

    method EnableLogs()
      modifies this
      ensures State() == old(State()).(logsEnabled := true)
    {
      logsEnabled := true;
    }

    method SetSuccessLogPath(path: string)
      modifies this
      ensures State() == old(State()).(successLogPath := path)
    {
      successLogPath := path;
    }

    method SetErrorLogPath(path: string)
      modifies this
      ensures State() == old(State()).(errorLogPath := path)
    {
      errorLogPath := path;
    }

    method EnableResponseFile()
      modifies this
      ensures State() == old(State()).(responseFileRequired := true)
    {
      responseFileRequired := true;
    }

    /** `logMessage`: appends the message and a line feed to the log, and
        changes no other file. */
    method LogMessage(message: string, logPath: string)
      modifies fs
      ensures fs.files == Appended(old(fs.files), Entry(logPath, message))
    {
      fs.AppendLine(Entry(logPath, message));
    }

    /** `singleRequest` on a transfer with outcome `t`; `h` is the handle as
        it is sent. */
    method SingleRequest(t: Transfer) returns (h: Handle, r: Reply)
      modifies this, fs
      ensures h == EffectiveHandle(url, Config())
      ensures State() == old(State()).(response := ExecResult(t))
      ensures fs.files == if logsEnabled
                          then Appended(old(fs.files), SingleEntry(uuidLog, successLogPath, errorLogPath, t))
                          else old(fs.files)
      ensures r == SingleReply(t, responseRequired)
    {
      h := Assemble(url, Config());
      response := ExecResult(t);
      if t.errno != 0 {
        if logsEnabled {
          LogMessage(Record(uuidLog, Error, t.code, t.error), errorLogPath);
        }
        r := if responseRequired then Str(t.error) else Bool(false);
      } else {
        if logsEnabled {
          LogMessage(Record(uuidLog, Success, t.code, t.body), successLogPath);
        }
        r := if responseRequired then Str(t.body) else Bool(true);
      }
    }

    /** `multipleRequests` with `transfers[i]` the outcome for `urls[i]`. */
    method MultipleRequests(transfers: seq<Transfer>) returns (handles: seq<Handle>, responses: seq<string>)
      requires |transfers| == |urls|
      modifies this, fs
      ensures |handles| == |urls|
      ensures forall i :: 0 <= i < |urls| ==> handles[i] == EffectiveHandle(urls[i], Config())
      ensures responses == BodiesOf(transfers)
      ensures State() == old(State()).(response := Bodies(responses))
      ensures fs.files == Replay(old(fs.files), if logsEnabled then MultiEntries(uuidLog, successLogPath, transfers) else [])
    {
      handles := AssembleAll(urls, Config());
      responses := CollectResponses(transfers);
      response := Bodies(responses);
    }

    /** The second loop of `multipleRequests`: each handle's content, and
        one Success record per handle. */
    method CollectResponses(transfers: seq<Transfer>) returns (responses: seq<string>)
      modifies fs
      ensures responses == BodiesOf(transfers)
      ensures fs.files == Replay(old(fs.files), if logsEnabled then MultiEntries(uuidLog, successLogPath, transfers) else [])
    {
      responses := [];
      ghost var logged: seq<Entry> := [];
      for i := 0 to |transfers|
        invariant responses == BodiesOf(transfers[..i])
        invariant logged == if logsEnabled then MultiEntries(uuidLog, successLogPath, transfers[..i]) else []
        invariant fs.files == Replay(old(fs.files), logged)
      {
        var t := transfers[i];
        MultiStep(uuidLog, successLogPath, transfers, i);
        if logsEnabled {
          var e := Entry(successLogPath, Record(uuidLog, Success, t.code, t.body));
          ReplaySnoc(old(fs.files), logged, e);
          LogMessage(e.message, e.path);
          logged := logged + [e];
        }
        responses := responses + [t.body];
      }
      assert transfers[..|transfers|] == transfers;
    }

    /** `asyncSingleRequest` on a transfer with outcome `t`. It does not
        store the response. */
    method AsyncSingleRequest(t: Transfer) returns (h: Handle, r: Reply)
      modifies fs
      ensures h == AsyncHandle(url, Config(), uuidLog, responseFileRequired, fs.tempDir, fs.separator)
      ensures fs.files == if logsEnabled
                          then Appended(old(fs.files), RoutedEntry(uuidLog, successLogPath, errorLogPath, t))
                          else old(fs.files)
      ensures r == AsyncReply(t, responseRequired)
    {
      var uuid := uuidLog;
      h := AsyncHandleFor(url, Config(), uuid, responseFileRequired, fs.tempDir, fs.separator);
      var successLog := successLogPath;
      var errorLog := errorLogPath;
      if logsEnabled {
        if IsSuccessCode(t.code) {
          LogMessage(Record(uuid, Success, t.code, t.body), successLog);
        } else {
          LogMessage(Record(uuid, Error, t.code, t.body), errorLog);
        }
      }
      if IsSuccessCode(t.code) {
        r := if responseRequired then Str(t.body) else Bool(true);
      } else {
        r := if responseRequired then Str(t.body) else Bool(false);
      }
    }

    /** `asyncMultipleRequests` with `transfers[i]` the outcome for `urls[i]`
        and `newIds[i]` the id `getNewUuid` gives its handle. */
    method AsyncMultipleRequests(transfers: seq<Transfer>, newIds: seq<string>) returns (handles: seq<Handle>, r: Reply)
      requires |transfers| == |urls| && |newIds| == |urls|
      modifies fs
      ensures |handles| == |urls|
      ensures forall i :: 0 <= i < |urls| ==>
                handles[i] == AsyncHandle(urls[i], Config(), newIds[i], responseFileRequired, fs.tempDir, fs.separator)
      ensures fs.files == Replay(old(fs.files),
                                 if logsEnabled then AsyncEntries(newIds, successLogPath, errorLogPath, transfers) else [])
      ensures r == Bool(true)
    {
      var table;
      handles, table := StartHandles(urls, newIds, Config(), responseFileRequired, fs.tempDir, fs.separator);
      IndexIdsInRange(newIds);
      LogTable(table, transfers);
      r := Bool(true);
    }

    /** The second loop of `asyncMultipleRequests`: one routed record per
        table entry, in table order. */
    method LogTable(table: seq<(string, nat)>, transfers: seq<Transfer>)
      requires forall j :: 0 <= j < |table| ==> table[j].1 < |transfers|
      modifies fs
      ensures fs.files == Replay(old(fs.files),
                                 if logsEnabled then Visit(table, transfers, Routed(successLogPath, errorLogPath)) else [])
    {
      var successLog, errorLog := successLogPath, errorLogPath;
      if logsEnabled {
        for j := 0 to |table|
          invariant fs.files == Replay(old(fs.files), Visit(table[..j], transfers, Routed(successLog, errorLog)))
        {
          VisitStep(table, transfers, Routed(successLog, errorLog), j);
          var e := RoutedEntry(table[j].0, successLog, errorLog, transfers[table[j].1]);
          ReplaySnoc(old(fs.files), Visit(table[..j], transfers, Routed(successLog, errorLog)), e);
          LogMessage(e.message, e.path);
        }
        assert table[..|table|] == table;
      }
    }

    /** `getUuidLog($uuid, $returnCodeMessage)`: reads the success log
        unless the mode is `false`, and scans it with `fgets` for the first
        line that contains the id and has more than three colon fields. */
    method GetUuidLog(uuid: string, mode: Mode) returns (r: Reply)
      ensures r == Lookup(fs.files, LogPathFor(successLogPath, errorLogPath, mode), uuid, mode)
    {
      var logPath := successLogPath;
      if mode == ModeFalse {
        logPath := errorLogPath;
      }
      if logPath in fs.files {
        r := ScanLog(Lines(fs.files[logPath]), uuid, mode);
      } else if mode == ModeResponse {
        r := Null;
      } else {
        r := Bool(false);
      }
    }
  }
}
