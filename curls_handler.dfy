/** Class `Ohswedd\Sweetcurls\CurlRequest`
    (lib/Ohswedd/Sweetcurls/CurlsHandler.php): the same configuration and
    handle assembly as `SweetCurl`, log records of one line each, and a
    `getUuidLog` that answers from the first line starting with the id. */
module OhsweddSweetcurls {
  import opened PhpArray
  import opened PhpString
  import opened Curl
  import opened LogStore
  import opened HandleTable

  /** `"{$uuid}:{$tag} code:{$httpCode}:{$text}"`. */
  function LogLine(uuid: string, tag: Tag, code: int, text: string): string {
    Head(uuid, tag, code) + text
  }

  /** `{$this->response}` after `curl_exec`: a failed transfer leaves
      `false`, which interpolates as the empty string. */
  function ExecText(t: Transfer): string {
    if t.errno != 0 then "" else t.body
  }

  /** What `singleRequest` returns: `$this->response`. */
  function ExecReply(t: Transfer): (r: Reply)
    ensures r == Bool(false) <==> t.errno != 0
    ensures r != Bool(false) ==> r == Str(t.body)
  {
    if t.errno != 0 then Bool(false) else Str(t.body)
  }

  /** The record `singleRequest` logs: always Success, always to the success
      log, whatever the status code and whether the transfer failed. */
  function SingleEntry(uuid: string, successLog: string, t: Transfer): Entry {
    Entry(successLog, LogLine(uuid, Success, t.code, ExecText(t)))
  }

  /** The record the other three request methods log: a 2xx status goes to
      the success log as Success, every other status to the error log as
      Error; the text is the body. */
  function RoutedEntry(uuid: string, successLog: string, errorLog: string, t: Transfer): Entry {
    if IsSuccessCode(t.code) then Entry(successLog, LogLine(uuid, Success, t.code, t.body))
    else Entry(errorLog, LogLine(uuid, Error, t.code, t.body))
  }

  function RoutedFor(uuid: string, successLog: string, errorLog: string): Transfer -> Entry {
    (t: Transfer) => RoutedEntry(uuid, successLog, errorLog, t)
  }

  /** The records `multipleRequests` logs: one routed record per handle, in
      URL order, all under the object's id. */
  function MultiEntries(uuid: string, successLog: string, errorLog: string, ts: seq<Transfer>): seq<Entry> {
    MapSeq(ts, RoutedFor(uuid, successLog, errorLog))
  }

  /** `multipleRequests` logs, for the `i`-th URL, the routed record of its
      outcome. */
  lemma MultiEntriesAt(uuid: string, successLog: string, errorLog: string, ts: seq<Transfer>, i: nat)
    requires i < |ts|
    ensures |MultiEntries(uuid, successLog, errorLog, ts)| == |ts|
    ensures MultiEntries(uuid, successLog, errorLog, ts)[i] == RoutedEntry(uuid, successLog, errorLog, ts[i])
  {
    MapSeqAt(ts, RoutedFor(uuid, successLog, errorLog), i);
  }

  lemma MultiStep(uuid: string, successLog: string, errorLog: string, ts: seq<Transfer>, i: nat)
    requires i < |ts|
    ensures MultiEntries(uuid, successLog, errorLog, ts[..i + 1]) ==
            MultiEntries(uuid, successLog, errorLog, ts[..i]) + [RoutedEntry(uuid, successLog, errorLog, ts[i])]
    ensures BodiesOf(ts[..i + 1]) == BodiesOf(ts[..i]) + [ts[i].body]
  {
    assert ts[..i + 1] == ts[..i] + [ts[i]];
    MapSeqSnoc(ts[..i], ts[i], RoutedFor(uuid, successLog, errorLog));
    assert ts[..i + 1][..i] == ts[..i];
  }

  function Routed(successLog: string, errorLog: string): ((string, Transfer)) -> Entry {
    (p: (string, Transfer)) => RoutedEntry(p.0, successLog, errorLog, p.1)
  }

  /** The records `asyncMultipleRequests` logs for handles started under
      `ids`: `$handles[$uuid] = $ch` keeps one handle per id. */
  function AsyncEntries(ids: seq<string>, successLog: string, errorLog: string, ts: seq<Transfer>): seq<Entry>
    requires |ts| == |ids|
  {
    VisitAll(ids, ts, Routed(successLog, errorLog))
  }

  /** With pairwise different ids, `asyncMultipleRequests` logs one routed
      record per URL under that URL's id, in URL order. */
  lemma AsyncEntriesDistinct(ids: seq<string>, successLog: string, errorLog: string, ts: seq<Transfer>)
    requires |ts| == |ids| && DistinctSeq(ids)
    ensures |AsyncEntries(ids, successLog, errorLog, ts)| == |ids|
    ensures forall i :: 0 <= i < |ids| ==>
              AsyncEntries(ids, successLog, errorLog, ts)[i] == RoutedEntry(ids[i], successLog, errorLog, ts[i])
  {
    VisitAllDistinct(ids, ts, Routed(successLog, errorLog));
  }

  /** With a repeated id only the last handle started under it is logged. */
  lemma AsyncEntriesRepeated(ids: seq<string>, successLog: string, errorLog: string, ts: seq<Transfer>, j: nat)
    requires |ts| == |ids| && j < |IndexIds(ids)|
    ensures var (uuid, i) := IndexIds(ids)[j];
      && i < |ids| && ids[i] == uuid
      && (forall i' :: i < i' < |ids| ==> ids[i'] != uuid)
      && AsyncEntries(ids, successLog, errorLog, ts)[j] == RoutedEntry(uuid, successLog, errorLog, ts[i])
  {
    VisitAllRepeated(ids, ts, Routed(successLog, errorLog), j);
  }

  /** The first loop of `asyncMultipleRequests`: one handle per URL, and
      the `$handles` table from id to handle position. */
  method StartHandles(urls: seq<string>, newIds: seq<string>, c: RequestConfig)
    returns (handles: seq<Handle>, table: Arr<string, nat>)
    requires |newIds| == |urls|
    ensures |handles| == |urls|
    ensures forall i :: 0 <= i < |urls| ==> handles[i] == EffectiveHandle(urls[i], c)
    ensures table == IndexIds(newIds)
  {
    handles := [];
    table := [];
    for i := 0 to |urls|
      invariant handles == Handles(urls[..i], c)
      invariant table == IndexIds(newIds[..i])
    {
      var h := Assemble(urls[i], c);
      table := Register(table, newIds, i);
      HandlesStep(urls, c, i);
      handles := handles + [h];
    }
    assert newIds[..|urls|] == newIds;
    assert urls[..|urls|] == urls;
  }

  /** The log `getUuidLog` reads: the success log when
      `$returnCodeMessage` is truthy, the error log otherwise. */
  function LogPathFor(successLog: string, errorLog: string, codeMessage: bool): string {
    if codeMessage then successLog else errorLog
  }

  /** `strpos($line, $uuid) === 0` and more than three colon fields. */
  predicate IsMatch(line: string, uuid: string) {
    StartsWith(line, uuid) && |Split(line, ':')| > 3
  }

  /** Position of the first matching line, or the number of lines. */
  function FirstMatch(lines: seq<string>, uuid: string): (k: nat)
    ensures k <= |lines|
    ensures k < |lines| ==> IsMatch(lines[k], uuid)
    ensures forall j :: 0 <= j < k ==> !IsMatch(lines[j], uuid)
    decreases |lines|
  {
    if lines == [] then 0
    else if IsMatch(lines[0], uuid) then 0
    else 1 + FirstMatch(lines[1..], uuid)
  }

  /** The first matching line is the one before which nothing matches. */
  lemma FirstMatchAt(lines: seq<string>, uuid: string, k: nat)
    requires k < |lines| && IsMatch(lines[k], uuid)
    requires forall i :: 0 <= i < k ==> !IsMatch(lines[i], uuid)
    ensures FirstMatch(lines, uuid) == k
  {
  }

  /** `"{$code}:{$message}"` when the code is asked for, else `$message`. */
  function Reported(code: string, message: string, codeMessage: bool): Reply {
    if codeMessage then Str(code + ":" + message) else Str(message)
  }

  /** What `getUuidLog` makes of a matching line: `trim($parts[2])` as the
      code and `trim($parts[3])` as the message. */
  function Answer(line: string, codeMessage: bool): Reply
    requires |Split(line, ':')| > 3
  {
    var parts := Split(line, ':');
    Reported(Trim(parts[2]), Trim(parts[3]), codeMessage)
  }

  /** `getUuidLog` on the lines of an existing log: the answer from the
      first matching line, or `false`. */
  function LookupLines(lines: seq<string>, uuid: string, codeMessage: bool): Reply {
    var k := FirstMatch(lines, uuid);
    if k < |lines| then Answer(lines[k], codeMessage) else Bool(false)
  }

  /** `getUuidLog($uuid, $returnCodeMessage)` on the log at `logPath`:
      `false` when the file does not exist. */
  function Lookup(files: Files, logPath: string, uuid: string, codeMessage: bool): Reply {
    if logPath !in files then Bool(false) else LookupLines(Lines(files[logPath]), uuid, codeMessage)
  }

  /** The `fgets` loop of `getUuidLog` over an existing log. */
  method ScanLog(lines: seq<string>, uuid: string, codeMessage: bool) returns (r: Reply)
    ensures r == LookupLines(lines, uuid, codeMessage)
  {
    var k := 0;
    while k < |lines|
      invariant k <= |lines|
      invariant forall i :: 0 <= i < k ==> !IsMatch(lines[i], uuid)
    {
      var line := lines[k];
      if StartsWith(line, uuid) {
        var parts := Split(line, ':');
        if |parts| > 3 {
          var code := Trim(parts[2]);
          var message := Trim(parts[3]);
          FirstMatchAt(lines, uuid, k);
          if codeMessage {
            return Str(code + ":" + message);
          }
          return Str(message);
        }
      }
      k := k + 1;
    }
    return Bool(false);
  }

  /** An id that `explode(':')` and `fgets` keep in one piece. */
  predicate PlainId(uuid: string) {
    ':' !in uuid && '\n' !in uuid
  }

  /** A text that comes back whole from `trim($parts[3])`: one colon field
      on one line, with nothing for `trim` to take away. */
  predicate PlainText(text: string) {
    ':' !in text && '\n' !in text && TrimStable(text)
  }

  /** A log `c` a record can be appended to and found in by `uuid`: it ends
      a line and no line of it matches. */
  predicate ReadyFor(c: string, uuid: string) {
    EndsLine(c) && forall i :: 0 <= i < |Lines(c)| ==> !IsMatch(Lines(c)[i], uuid)
  }

  /** How `fgets` reads a log holding `c`, then one record on one line,
      then `d`. */
  lemma LineLayout(c: string, id: string, tag: Tag, code: int, text: string, d: string)
    requires EndsLine(c) && PlainId(id) && '\n' !in text
    ensures Lines(c + LogLine(id, tag, code, text) + "\n" + d) ==
            Lines(c) + [Head(id, tag, code) + (text + "\n")] + Lines(d)
  {
    var h := Head(id, tag, code);
    var b := text + "\n";
    RegroupMiddle(c, h, text, "\n", d);
    HeadPlain(id, tag, code);
    OneLine(text);
    LinesAround(c, h, b, d);
    DropEmpty(Lines(c), [h + Lines(b)[0]], Lines(b)[1..], Lines(d));
  }

  /** A record line starts with every prefix of its id. */
  lemma HeadStarts(id: string, uuid: string, tag: Tag, code: int, rest: string)
    requires StartsWith(id, uuid)
    ensures StartsWith(Head(id, tag, code) + rest, uuid)
  {
    HeadFields(id, tag, code, rest);
    StartsWithAppend(id, [':'] + ((TagText(tag) + " code") + ([':'] + (IntToDec(code) + ([':'] + rest)))), uuid);
  }

  /** A record line of an id that starts with `uuid` matches `uuid`, and
      the answer is the code and the trimmed first colon field of the text
      behind the head. */
  lemma RecordLineAnswer(id: string, uuid: string, tag: Tag, code: int, rest: string, codeMessage: bool)
    requires PlainId(id) && StartsWith(id, uuid)
    ensures IsMatch(Head(id, tag, code) + rest, uuid)
    ensures Answer(Head(id, tag, code) + rest, codeMessage) ==
            Reported(IntToDec(code), Trim(Split(rest, ':')[0]), codeMessage)
  {
    HeadCode(id, tag, code, rest);
    HeadStarts(id, uuid, tag, code, rest);
  }

  /** A lookup answers from the first matching line. */
  lemma LookupAfter(a: seq<string>, line: string, b: seq<string>, uuid: string, codeMessage: bool)
    requires forall i :: 0 <= i < |a| ==> !IsMatch(a[i], uuid)
    requires IsMatch(line, uuid)
    ensures LookupLines(a + [line] + b, uuid, codeMessage) == Answer(line, codeMessage)
    ensures IntendedLookupLines(a + [line] + b, uuid, codeMessage) == IntendedAnswer(line, codeMessage)
  {
    var lines := a + [line] + b;
    assert lines[|a|] == line;
    forall i | 0 <= i < |a| ensures !IsMatch(lines[i], uuid) {
      assert lines[i] == a[i];
    }
    FirstMatchAt(lines, uuid, |a|);
  }

  /** The lines of a log that is ready for `uuid` once the record of an id
      starting with `uuid` is appended: nothing matches before the record
      line, and the record line matches. */
  lemma RecordLines(c: string, uuid: string, id: string, tag: Tag, code: int, text: string, d: string)
    requires ReadyFor(c, uuid) && PlainId(id) && StartsWith(id, uuid) && '\n' !in text
    ensures var line := Head(id, tag, code) + (text + "\n");
            && Lines(c + LogLine(id, tag, code, text) + "\n" + d) == Lines(c) + [line] + Lines(d)
            && IsMatch(line, uuid)
  {
    LineLayout(c, id, tag, code, text, d);
    HeadCode(id, tag, code, text + "\n");
    HeadStarts(id, uuid, tag, code, text + "\n");
  }

  /** What `getUuidLog` returns for a record appended to a log that is ready
      for it: the record's code and the first colon field of its text,
      trimmed, whatever follows in the log. */
  lemma LookupRecord(c: string, uuid: string, id: string, tag: Tag, code: int, text: string, d: string, codeMessage: bool)
    requires ReadyFor(c, uuid) && PlainId(id) && StartsWith(id, uuid) && '\n' !in text
    ensures LookupLines(Lines(c + LogLine(id, tag, code, text) + "\n" + d), uuid, codeMessage) ==
            Reported(IntToDec(code), Trim(Split(text + "\n", ':')[0]), codeMessage)
  {
    RecordLines(c, uuid, id, tag, code, text, d);
    LookupAfter(Lines(c), Head(id, tag, code) + (text + "\n"), Lines(d), uuid, codeMessage);
    RecordLineAnswer(id, uuid, tag, code, text + "\n", codeMessage);
  }

  /** The record comes back: a plain text is read back whole, with the
      code when it is asked for. */
  lemma LookupRoundTrip(c: string, uuid: string, id: string, tag: Tag, code: int, text: string, d: string, codeMessage: bool)
    requires ReadyFor(c, uuid) && PlainId(id) && StartsWith(id, uuid) && PlainText(text)
    ensures LookupLines(Lines(c + LogLine(id, tag, code, text) + "\n" + d), uuid, codeMessage) ==
            Reported(IntToDec(code), text, codeMessage)
  {
    LookupRecord(c, uuid, id, tag, code, text, d, codeMessage);
    PlainField(text);
  }

  /** A plain text and the line feed after it are one colon field, which
      `trim` turns back into the text. */
  lemma PlainField(text: string)
    requires PlainText(text)
    ensures Trim(Split(text + "\n", ':')[0]) == text
  {
    assert ':' !in text + "\n";
    SplitNone(text + "\n", ':');
    TrimLine(text);
  }

  /** A text with a colon is cut at it: `explode(':')` splits the text too,
      and only its first field is returned. */
  lemma LookupCutsAtColon(c: string, uuid: string, tag: Tag, code: int, a: string, b: string, d: string, codeMessage: bool)
    requires ReadyFor(c, uuid) && PlainId(uuid)
    requires ':' !in a && TrimStable(a) && '\n' !in a && '\n' !in b
    ensures LookupLines(Lines(c + LogLine(uuid, tag, code, a + ":" + b) + "\n" + d), uuid, codeMessage) ==
            Reported(IntToDec(code), a, codeMessage)
  {
    assert StartsWith(uuid, uuid);
    assert '\n' !in a + ":" + b;
    LookupRecord(c, uuid, uuid, tag, code, a + ":" + b, d, codeMessage);
    CutField(a, b);
  }

  /** The first colon field of `a:b` and a line feed, trimmed, is `a`. */
  lemma CutField(a: string, b: string)
    requires ':' !in a && TrimStable(a)
    ensures Trim(Split(a + ":" + b + "\n", ':')[0]) == a
  {
    assert a + ":" + b + "\n" == a + [':'] + (b + "\n");
    SplitJoin(a, ':', b + "\n");
    TrimOfStable(a);
  }

  /** The answer the log format calls for: everything after the third
      colon, trimmed, as the message. */
  function IntendedAnswer(line: string, codeMessage: bool): Reply
    requires |Split(line, ':')| > 3
  {
    Reported(Trim(Split(line, ':')[2]), Trim(AfterThird(line)), codeMessage)
  }

  function IntendedLookupLines(lines: seq<string>, uuid: string, codeMessage: bool): Reply {
    var k := FirstMatch(lines, uuid);
    if k < |lines| then IntendedAnswer(lines[k], codeMessage) else Bool(false)
  }

  /** With the whole rest of the line as the message, every one-line text
      that `trim` leaves alone comes back, colons included. */
  lemma IntendedRoundTrip(c: string, uuid: string, id: string, tag: Tag, code: int, text: string, d: string, codeMessage: bool)
    requires ReadyFor(c, uuid) && PlainId(id) && StartsWith(id, uuid)
    requires '\n' !in text && TrimStable(text)
    ensures IntendedLookupLines(Lines(c + LogLine(id, tag, code, text) + "\n" + d), uuid, codeMessage) ==
            Reported(IntToDec(code), text, codeMessage)
  {
    RecordLines(c, uuid, id, tag, code, text, d);
    LookupAfter(Lines(c), Head(id, tag, code) + (text + "\n"), Lines(d), uuid, codeMessage);
    IntendedLine(id, tag, code, text, codeMessage);
  }

  /** The intended answer on a record line is its code and its text. */
  lemma IntendedLine(id: string, tag: Tag, code: int, text: string, codeMessage: bool)
    requires PlainId(id) && TrimStable(text)
    ensures |Split(Head(id, tag, code) + (text + "\n"), ':')| > 3
    ensures IntendedAnswer(Head(id, tag, code) + (text + "\n"), codeMessage) == Reported(IntToDec(code), text, codeMessage)
  {
    HeadCode(id, tag, code, text + "\n");
    HeadSplit(id, tag, code, text + "\n");
    TrimLine(text);
  }

  /** `getUuidLog($uuid, true)` after a logged `singleRequest` on a log
      that is ready for it returns the code and the response text, for a
      plain text. */
  lemma SingleRoundTrip(files: Files, uuid: string, successLog: string, t: Transfer)
    requires PlainId(uuid) && PlainText(ExecText(t)) && ReadyFor(Content(files, successLog), uuid)
    ensures Lookup(Appended(files, SingleEntry(uuid, successLog, t)), LogPathFor(successLog, successLog, true), uuid, true)
            == Str(IntToDec(t.code) + ":" + ExecText(t))
  {
    var c := Content(files, successLog);
    assert StartsWith(uuid, uuid);
    LookupRoundTrip(c, uuid, uuid, Success, t.code, ExecText(t), "", true);
    assert c + LogLine(uuid, Success, t.code, ExecText(t)) + "\n" + "" ==
           c + LogLine(uuid, Success, t.code, ExecText(t)) + "\n";
  }

  /** A routed record comes back from `getUuidLog` when
      `$returnCodeMessage` is truthy exactly for a 2xx status: that call
      reads the log the record went to. */
  lemma RoutedRoundTrip(files: Files, uuid: string, successLog: string, errorLog: string, t: Transfer)
    requires PlainId(uuid) && PlainText(t.body)
    requires ReadyFor(Content(files, RoutedEntry(uuid, successLog, errorLog, t).path), uuid)
    ensures var codeMessage := IsSuccessCode(t.code);
            Lookup(Appended(files, RoutedEntry(uuid, successLog, errorLog, t)),
                   LogPathFor(successLog, errorLog, codeMessage), uuid, codeMessage)
            == Reported(IntToDec(t.code), t.body, codeMessage)
  {
    var e := RoutedEntry(uuid, successLog, errorLog, t);
    var tag := if IsSuccessCode(t.code) then Success else Error;
    assert e.message == LogLine(uuid, tag, t.code, t.body);
    var c := Content(files, e.path);
    assert StartsWith(uuid, uuid);
    LookupRoundTrip(c, uuid, uuid, tag, t.code, t.body, "", IsSuccessCode(t.code));
    assert c + e.message + "\n" + "" == c + e.message + "\n";
  }

  /** The configuration fields of a `CurlRequest` object. An empty string
      stands for an unset field. */
  datatype Settings = Settings(
    url: string,
    urls: seq<string>,
    headers: Arr<string, string>,
    httpMethod: string,
    options: Arr<OptKey, OptValue>,
    bearerToken: string,
    authorization: string,
    logsEnabled: bool,
    successLogPath: string,
    errorLogPath: string,
    response: Stored,
    responseRequired: bool)

  class CurlRequest {
    var url: string
    var urls: seq<string>
    var headers: Arr<string, string>
    var httpMethod: string
    var options: Arr<OptKey, OptValue>
    var bearerToken: string
    var authorization: string
    var logsEnabled: bool
    var successLogPath: string
    var errorLogPath: string
    var response: Stored
    var responseRequired: bool
    /** Set once by the constructor from `uniqid()`, taken as an input. */
    const uuidLog: string
    /** The file system the log records go to. */
    const fs: FileSystem

    function State(): Settings
      reads this
    {
      Settings(url, urls, headers, httpMethod, options, bearerToken, authorization, logsEnabled,
               successLogPath, errorLogPath, response, responseRequired)
    }

    /** The fields the request methods read to set up a handle. */
    function Config(): RequestConfig
      reads this
    {
      RequestConfig(bearerToken, authorization, httpMethod, options, headers)
    }

    constructor (url: string, urls: seq<string>, headers: Arr<string, string>, httpMethod: string,
                 options: Arr<OptKey, OptValue>, responseRequired: bool, uuid: string, fs: FileSystem)
      ensures State() == Settings(url, urls, headers, httpMethod, options, "", "", false, "", "",
                                  Unset, responseRequired)
      ensures uuidLog == uuid && this.fs == fs
    {
      this.url := url;
      this.urls := urls;
      this.headers := headers;
      this.httpMethod := httpMethod;
      this.options := options;
      this.responseRequired := responseRequired;
      logsEnabled := false;
      uuidLog := uuid;
      bearerToken := "";
      authorization := "";
      successLogPath := "";
      errorLogPath := "";
      response := Unset;
      this.fs := fs;
    }

    method SetUrl(url: string)
      modifies this
      ensures State() == old(State()).(url := url)
    {
      this.url := url;
    }

    method SetUrls(urls: seq<string>)
      modifies this
      ensures State() == old(State()).(urls := urls)
    {
      this.urls := urls;
    }

    /** `returnResponse`: what the last `singleRequest` stored. */
    method ReturnResponse() returns (r: Stored)
      ensures r == State().response
    {
      r := response;
    }

    method SetBearerToken(bearerToken: string)
      modifies this
      ensures State() == old(State()).(bearerToken := bearerToken)
    {
      this.bearerToken := bearerToken;
    }

    method SetAuthorization(authorization: string)
      modifies this
      ensures State() == old(State()).(authorization := authorization)
    {
      this.authorization := authorization;
    }

    method SetMethod(httpMethod: string)
      modifies this
      ensures State() == old(State()).(httpMethod := httpMethod)
    {
      this.httpMethod := httpMethod;
    }

    /** `$this->options[$key] = $value`: only that key of the option map
        changes. */
    method SetOption(key: OptKey, value: OptValue)
      modifies this
      ensures State() == old(State()).(options := Set(old(options), key, value))
    {
      options := Set(options, key, value);
    }

    /** Replaces the whole option map. */
    method SetOptions(options: Arr<OptKey, OptValue>)
      modifies this
      ensures State() == old(State()).(options := options)
    {
      this.options := options;
    }

    /** `$this->headers[$key] = $value`: only that header changes. */
    method AddHeader(key: string, value: string)
      modifies this
      ensures State() == old(State()).(headers := Set(old(headers), key, value))
    {
      headers := Set(headers, key, value);
    }

    /** `array_merge`: existing headers stay, the new values win. */
    method AddHeaders(newHeaders: Arr<string, string>)
      modifies this
      ensures State() == old(State()).(headers := Merge(old(headers), newHeaders))
    {
      headers := Merge(headers, newHeaders);
    }

    method EnableLogs()
      modifies this
      ensures State() == old(State()).(logsEnabled := true)
    {
      logsEnabled := true;
    }

    method SetSuccessLogPath(path: string)
      modifies this
      ensures State() == old(State()).(successLogPath := path)
    {
      successLogPath := path;
    }

    method SetErrorLogPath(path: string)
      modifies this
      ensures State() == old(State()).(errorLogPath := path)
    {
      errorLogPath := path;
    }

    /** `logMessage`: appends the message and a line feed to the log, and
        changes no other file. */
    method LogMessage(message: string, logPath: string)
      modifies fs
      ensures fs.files == Appended(old(fs.files), Entry(logPath, message))
    {
      fs.AppendLine(Entry(logPath, message));
    }

    /** `singleRequest` on a transfer with outcome `t`; `h` is the handle as
        it is sent. The response is stored and returned as it is. */
    method SingleRequest(t: Transfer) returns (h: Handle, r: Reply)
      modifies this, fs
      ensures h == EffectiveHandle(url, Config())
      ensures State() == old(State()).(response := ExecResult(t))
      ensures fs.files == if logsEnabled
                          then Appended(old(fs.files), SingleEntry(uuidLog, successLogPath, t))
                          else old(fs.files)
      ensures r == ExecReply(t)
    {
      h := Assemble(url, Config());
      response := ExecResult(t);
      var text := if response == Failed then "" else t.body;
      if logsEnabled {
        LogMessage(LogLine(uuidLog, Success, t.code, text), successLogPath);
      }
      r := if response == Failed then Bool(false) else Str(t.body);
    }

    /** `multipleRequests` with `transfers[i]` the outcome for `urls[i]`. It
        returns the bodies and keeps no response. */
    method MultipleRequests(transfers: seq<Transfer>) returns (handles: seq<Handle>, responses: seq<string>)
      requires |transfers| == |urls|
      modifies fs
      ensures |handles| == |urls|
      ensures forall i :: 0 <= i < |urls| ==> handles[i] == EffectiveHandle(urls[i], Config())
      ensures responses == BodiesOf(transfers)
      ensures fs.files == Replay(old(fs.files),
                                 if logsEnabled then MultiEntries(uuidLog, successLogPath, errorLogPath, transfers) else [])
    {
      handles := AssembleAll(urls, Config());
      responses := CollectResponses(transfers);
    }

    /** The second loop of `multipleRequests`: each handle's content, and
        one routed record per handle. */
    method CollectResponses(transfers: seq<Transfer>) returns (responses: seq<string>)
      modifies fs
      ensures responses == BodiesOf(transfers)
      ensures fs.files == Replay(old(fs.files),
                                 if logsEnabled then MultiEntries(uuidLog, successLogPath, errorLogPath, transfers) else [])
    {
      responses := [];
      ghost var logged: seq<Entry> := [];
      for i := 0 to |transfers|
        invariant responses == BodiesOf(transfers[..i])
        invariant logged == if logsEnabled then MultiEntries(uuidLog, successLogPath, errorLogPath, transfers[..i]) else []
        invariant fs.files == Replay(old(fs.files), logged)
      {
        var t := transfers[i];
        MultiStep(uuidLog, successLogPath, errorLogPath, transfers, i);
        if logsEnabled {
          var e := RoutedEntry(uuidLog, successLogPath, errorLogPath, t);
          ReplaySnoc(old(fs.files), logged, e);
          LogMessage(e.message, e.path);
          logged := logged + [e];
        }
        responses := responses + [t.body];
      }
      assert transfers[..|transfers|] == transfers;
    }

    /** `asyncSingleRequest` on a transfer with outcome `t`. The class has
        no response-file switch, so the handle is the common one. */
    method AsyncSingleRequest(t: Transfer) returns (h: Handle, r: Reply)
      modifies fs
      ensures h == EffectiveHandle(url, Config())
      ensures fs.files == if logsEnabled
                          then Appended(old(fs.files), RoutedEntry(uuidLog, successLogPath, errorLogPath, t))
                          else old(fs.files)
      ensures r == AsyncReply(t, responseRequired)
    {
      h := Assemble(url, Config());
      var uuid := uuidLog;
      var successLog := successLogPath;
      var errorLog := errorLogPath;
      if logsEnabled {
        if IsSuccessCode(t.code) {
          LogMessage(LogLine(uuid, Success, t.code, t.body), successLog);
        } else {
          LogMessage(LogLine(uuid, Error, t.code, t.body), errorLog);
        }
      }
      if IsSuccessCode(t.code) {
        r := if responseRequired then Str(t.body) else Bool(true);
      } else {
        r := if responseRequired then Str(t.body) else Bool(false);
      }
    }

    /** `asyncMultipleRequests` with `transfers[i]` the outcome for `urls[i]`
        and `newIds[i]` the id `getNewUuid` gives its handle. */
    method AsyncMultipleRequests(transfers: seq<Transfer>, newIds: seq<string>) returns (handles: seq<Handle>, r: Reply)
      requires |transfers| == |urls| && |newIds| == |urls|
      modifies fs
      ensures |handles| == |urls|
      ensures forall i :: 0 <= i < |urls| ==> handles[i] == EffectiveHandle(urls[i], Config())
      ensures fs.files == Replay(old(fs.files),
                                 if logsEnabled then AsyncEntries(newIds, successLogPath, errorLogPath, transfers) else [])
      ensures r == Bool(true)
    {
      var table;
      handles, table := StartHandles(urls, newIds, Config());
      IndexIdsInRange(newIds);
      LogTable(table, transfers);
      r := Bool(true);
    }

    /** The second loop of `asyncMultipleRequests`: one routed record per
        table entry, in table order. */
    method LogTable(table: seq<(string, nat)>, transfers: seq<Transfer>)
      requires forall j :: 0 <= j < |table| ==> table[j].1 < |transfers|
      modifies fs
      ensures fs.files == Replay(old(fs.files),
                                 if logsEnabled then Visit(table, transfers, Routed(successLogPath, errorLogPath)) else [])
    {
      var successLog, errorLog := successLogPath, errorLogPath;
      if logsEnabled {
        for j := 0 to |table|
          invariant fs.files == Replay(old(fs.files), Visit(table[..j], transfers, Routed(successLog, errorLog)))
        {
          VisitStep(table, transfers, Routed(successLog, errorLog), j);
          var e := RoutedEntry(table[j].0, successLog, errorLog, transfers[table[j].1]);
          ReplaySnoc(old(fs.files), Visit(table[..j], transfers, Routed(successLog, errorLog)), e);
          LogMessage(e.message, e.path);
        }
        assert table[..|table|] == table;
      }
    }

    /** `getUuidLog($uuid, $returnCodeMessage)`: reads the success log when
        the flag is truthy, the error log otherwise, and scans it with
        `fgets` for the first line that starts with the id and has more than
        three colon fields. */
    method GetUuidLog(uuid: string, codeMessage: bool) returns (r: Reply)
      ensures r == Lookup(fs.files, LogPathFor(successLogPath, errorLogPath, codeMessage), uuid, codeMessage)
    {
      var logPath := successLogPath;
      if !codeMessage {
        logPath := errorLogPath;
      }
      if logPath in fs.files {
        r := ScanLog(Lines(fs.files[logPath]), uuid, codeMessage);
      } else {
        r := Bool(false);
      }
    }
  }
}
