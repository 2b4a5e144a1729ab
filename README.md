# SweetCurls request classes in Dafny

A model of the two cURL wrapper classes of the SweetCurls library:

- `SweetCurls\SweetCurl` (lib/SweetCurl.php);
- `Ohswedd\Sweetcurls\CurlRequest` (lib/Ohswedd/Sweetcurls/CurlsHandler.php).

Both classes do the same four jobs:

- They hold a request configuration that builder setters change in place.
- They assemble a cURL easy handle with a fixed series of `curl_setopt` calls.
- They dispatch one or several transfers and append one outcome record per transfer to a success log or an error log.
- `getUuidLog` finds a record again by its correlation id.

The two classes differ in record format, routing and lookup, so each has its own module and class.

## Files

| file | module | what it holds |
|---|---|---|
| `php_array.dfy` | `PhpArray` | PHP ordered arrays: `$a[$k] = $v`, `array_merge`, and the id-to-handle table built by `$handles[$uuid] = $ch`. |
| `php_string.dfy` | `PhpString` | The PHP string functions the lookups use: `trim`, `explode`, `strpos`, `substr`, integer interpolation, and `fgets` as a split into lines that keep their line feed. |
| `curl_handle.dfy` | `Curl` | The easy handle as a map from option to value where the last `curl_setopt` wins. It also holds the layered definition of the effective handle, the method that performs the `curl_setopt` series, the transfer outcome and the reply reduction. |
| `log_store.dfy` | `LogStore` | The file system as a map from path to content, `logMessage`'s append, the record head `{$id}:{$tag} code:{$code}:`, and `getResponseFilePath`. |
| `handle_table.dfy` | `HandleTable` | The first loop of `asyncMultipleRequests` fills `$handles`, and the second loop visits it. |
| `sweet_curl.dfy` | `SweetCurls` | Class `SweetCurl`: records wrapped in the three-pipe marker, routing per method, and the nested `fgets` lookup. |
| `curls_handler.dfy` | `OhsweddSweetcurls` | Class `CurlRequest`: one-line records, routing per method, and the prefix-match lookup. |

## Model choices

- **Transfer outcomes are inputs.** The network transfer is not modelled. Each request method takes a `Transfer(code, body, errno, error)` per URL: the status code from `curl_getinfo`, the body, `curl_errno` and `curl_error`. Each method returns the handle it would send, so the `curl_setopt` series is checked against `EffectiveHandle`.
- **Absent fields.** Unset string fields are the empty string, which is PHP-falsy exactly when empty. Unset `urls` is the empty list.
- **Option and header maps** are PHP ordered arrays (`Arr`).
- **Return values.** A reply is `Bool`, `Str` or `Null`.
- **`$returnCodeMessage`.** SweetCurl's `getUuidLog` compares it with `===`, so the model gives it the values `false`, `true`, `'code'`, `'response'` and any other. CurlRequest only tests it for truthiness, so there it is a boolean.
- **Header precedence.** Bearer and authorization share the `CURLOPT_HTTPHEADER` slot. Authorization is set after bearer, so it wins (`Curl.HttpHeaderPrecedence`).
- **Routing differs per method:**
  - `SweetCurl::singleRequest` routes by `curl_errno`, so a 404 goes to the success log as Success.
  - `SweetCurl::multipleRequests` logs every record as Success to the success log.
  - `CurlRequest::singleRequest` always logs Success to the success log.
  - Only the async methods, and `CurlRequest::multipleRequests`, route by the `[200,300)` status range.

## Model

| member | source | states |
|---|---|---|
| `PhpArray.Set` | lib/SweetCurl.php:71-73 | `$a[$k] = $v`: looking up `k` gives `v` and every other key gives what it gave before. An existing key keeps its place; a new key is appended at the end. Keys stay distinct. |
| `PhpArray.Merge` | lib/SweetCurl.php:83-85 | `array_merge` on string keys: on a key of the second map the second map's value wins, and every other key keeps the first map's value. The first map's keys keep their positions. |
| `PhpArray.MergeOrder` | lib/SweetCurl.php:83-85 | After the first map's keys, `array_merge` places exactly the keys only the second map has, in the second map's order. This is the order of the HTTPHEADER lines those headers give. |
| `PhpArray.IndexIdsDistinct` | lib/SweetCurl.php:375 | With pairwise different ids, entry `i` of the `$handles` table is `(ids[i], i)` and nothing collapses. |
| `PhpArray.IndexIdsPointsAtId` | lib/SweetCurl.php:375 | Every table entry points at a handle that was started under the entry's id. |
| `PhpArray.IndexIdsCovers` | lib/SweetCurl.php:375 | Every id has an entry, and that entry points at a handle no earlier than any other handle started under the same id. |
| `PhpArray.IndexIdsLast` | lib/SweetCurl.php:375 | An entry points at the last handle started under its id. |
| `PhpString.TrimLine` | lib/SweetCurl.php:435 | `trim` removes the line feed `fgets` keeps, and nothing else, from a text it leaves alone otherwise. |
| `PhpString.FlattenLines` | lib/SweetCurl.php:432-434 | Joining the lines `fgets` returns gives back the file. |
| `PhpString.LinesAppend` | lib/SweetCurl.php:479 | Appending to a file that ends a line adds lines after its old lines and changes none of them. |
| `PhpString.SplitJoin` | lib/Ohswedd/Sweetcurls/CurlsHandler.php:402 | `explode(':')` on `x:y` with no colon in `x` gives `x`, then the fields of `y`. |
| `Curl.HeaderLines` | lib/SweetCurl.php:127-132 | The header list has one `"key: value"` line per header-map entry, in map order. |
| `Curl.BuildHeaderLines` | lib/SweetCurl.php:128-131 | The `$headers[]` loop builds exactly `HeaderLines` of the map. |
| `Curl.OptionTable` | lib/SweetCurl.php:121-125 | The option map as handle options: exactly its keys, each with its value. |
| `Curl.SetPresets` | lib/SweetCurl.php:104-119 | The `curl_setopt` calls for URL, RETURNTRANSFER, HEADER, bearer, authorization and method yield the base, auth and method layers. Each later call overwrites the key it names. |
| `Curl.ApplyOptions` | lib/SweetCurl.php:121-125 | The option-map loop overwrites the handle with the option table. |
| `Curl.SetHeaders` | lib/SweetCurl.php:127-133 | The header-map step sets HTTPHEADER to the header list only when the map is not empty. |
| `Curl.Assemble` | lib/SweetCurl.php:104-133 | The whole `curl_setopt` series on a fresh handle gives `EffectiveHandle`. |
| `Curl.AssembleAll` | lib/SweetCurl.php:162-196 | The first loop of `multipleRequests` builds one handle per URL, in URL order, each the effective handle of its URL. |
| `Curl.HttpHeaderPrecedence` | lib/SweetCurl.php:109-133 | HTTPHEADER is set exactly when some source for it is set. The header map beats the option map, the option map beats authorization, and authorization beats bearer. |
| `Curl.CustomRequestPrecedence` | lib/Ohswedd/Sweetcurls/CurlsHandler.php:102-110 | CUSTOMREQUEST is set exactly when the option map or the method sets it, and the option map wins. |
| `Curl.OptionsWinOnBase` | lib/SweetCurl.php:104-125 | URL, RETURNTRANSFER and HEADER are always set. The option map's value wins on each. |
| `Curl.OtherKeysFromOptions` | lib/SweetCurl.php:121-125 | Every other option is set exactly when the option map has it, with the option map's value. |
| `Curl.BodiesOf` | lib/SweetCurl.php:203-213 | The `$responses[]` list has one body per handle, in handle order. |
| `Curl.AsyncReply` | lib/SweetCurl.php:305-317 | `asyncSingleRequest` returns the body when `responseRequired` is set. Otherwise it returns exactly whether the status code is 2xx. |
| `LogStore.Appended` | lib/SweetCurl.php:468-481 | After one `logMessage`, the target exists and holds its old content, then the message and a line feed. Every other file is unchanged. |
| `LogStore.FileSystem.AppendLine` | lib/Ohswedd/Sweetcurls/CurlsHandler.php:428-432 | `fopen` with `'a'`, then `fwrite` of the message and a line feed. |
| `LogStore.ReplayContent` | lib/SweetCurl.php:468-481 | After any sequence of `logMessage` calls, every file holds its old content followed by exactly the lines written to it, in call order. Nothing is truncated or rewritten. |
| `LogStore.ReplayKeys` | lib/SweetCurl.php:468-481 | Logging creates exactly the files it writes to and deletes none. |
| `LogStore.WrittenAppend` | lib/SweetCurl.php:468-481 | What two batches of calls write to a file is what the first batch writes, then what the second writes. |
| `LogStore.WrittenElsewhere` | lib/SweetCurl.php:468-481 | A file no call targets gets nothing. |
| `LogStore.HeadSplit` | lib/SweetCurl.php:427 | `explode(':')` on a record line gives the id, the tag with ` code`, the code, then the fields of the text. Everything after the third colon is the text. |
| `LogStore.HeadCode` | lib/Ohswedd/Sweetcurls/CurlsHandler.php:402-405 | A record line has more than three colon fields, and `trim($parts[2])` is the decimal status code. |
| `LogStore.ResponseFilePathInjective` | lib/SweetCurl.php:460-466 | `getResponseFilePath` gives different paths to different ids. For suffixes without a dot, it also gives different paths to different suffixes of one id. The ids themselves may hold dots. |
| `LogStore.ResponseAndErrorFilesDiffer` | lib/SweetCurl.php:460-466 | One id's `response` file and `error` file have different paths. |
| `HandleTable.Register` | lib/SweetCurl.php:375 | One `$handles[$uuid] = $ch` step extends the table built so far. |
| `HandleTable.VisitAllDistinct` | lib/SweetCurl.php:383-406 | With distinct ids, the visiting loop handles every transfer once, in start order. |
| `HandleTable.VisitAllRepeated` | lib/SweetCurl.php:375-395 | With a repeated id, only the last handle started under it is visited. |
| `SweetCurls.SingleReply` | lib/SweetCurl.php:138-155 | `singleRequest` returns the error text or the body when `responseRequired` is set. Otherwise it returns false on a transport error and true in every other case. |
| `SweetCurls.MultiEntriesAt` | lib/SweetCurl.php:203-216 | `multipleRequests` logs one record per URL: a Success record of that URL's code and body, to the success log, whatever the status. |
| `SweetCurls.AsyncEntriesDistinct` | lib/SweetCurl.php:383-395 | With distinct generated ids, `asyncMultipleRequests` logs one routed record per URL, in URL order, under that URL's id. |
| `SweetCurls.AsyncEntriesRepeated` | lib/SweetCurl.php:375-395 | With a repeated generated id, only the last transfer started under it is logged. |
| `SweetCurls.AsyncHandleFile` | lib/SweetCurl.php:259-264 | With the response file enabled, FILE is `getResponseFilePath($uuid, 'response')` and every other option is the common one. Without it the handle is the common one. |
| `SweetCurls.AsyncHandleFor` | lib/SweetCurl.php:225-264 | The `curl_setopt` series of an async method yields `AsyncHandle`. |
| `SweetCurls.AsyncHandles` | lib/SweetCurl.php:324-376 | One async handle per URL, each with the id generated for it. |
| `SweetCurls.StartHandles` | lib/SweetCurl.php:324-376 | The first loop of `asyncMultipleRequests` builds one async handle per URL, plus the `$handles` table from id to handle. |
| `SweetCurls.FirstMatch` | lib/SweetCurl.php:423-428 | The scan stops at the first line that contains the id and has more than three colon fields. No earlier line does both. |
| `SweetCurls.BodyEnd` | lib/SweetCurl.php:432 | The inner scan stops at the first later line that starts with the three-pipe marker, or at the end of the file. |
| `SweetCurls.ScanLog` | lib/SweetCurl.php:422-457 | The `fgets` loop returns what `LookupLines` specifies. It collects id-containing lines in `$message` and answers at the first match. |
| `SweetCurls.AnswerMatch` | lib/SweetCurl.php:427-444 | At the first match, the scan collects the body, then answers from the matching line and that body. |
| `SweetCurls.CollectBody` | lib/SweetCurl.php:431-434 | The inner loop joins the lines from the one after the match up to the next line starting with the three-pipe marker, or the end of the file. |
| `SweetCurls.AnswerLine` | lib/SweetCurl.php:429-444 | The answer is one of three. `'code'` gives `trim($parts[2])` and `'response'` gives the trimmed body without its last three characters. Every other mode gives `"{$uuidLog}:Success code:{$code}:{$response}"`. |
| `SweetCurls.LookupAtFirst` | lib/SweetCurl.php:427-444 | On a match, `getUuidLog` answers from the first matching line and the body after it. |
| `SweetCurls.LookupMiss` | lib/SweetCurl.php:445-457 | Without a matching line, the answer is false. In `'response'` mode it is instead the id-containing lines, joined. |
| `SweetCurls.LookupUnknownId` | lib/SweetCurl.php:422-457 | An id that no line contains gives false, or the empty string in `'response'` mode. |
| `SweetCurls.RecordFound` | lib/SweetCurl.php:423-428 | Append a record to a log in which no line matches its id. Its first line is then the line the scan stops at. |
| `SweetCurls.RecordBody` | lib/SweetCurl.php:431-434 | The body collected for such a record is the rest of its text's lines. This needs the rest to have no line starting with the three-pipe marker, and the record to be followed by nothing or by another record. |
| `SweetCurls.LookupCodeRoundTrip` | lib/SweetCurl.php:427-439 | `getUuidLog($uuid, 'code')` returns the code the record was written with. This holds for any tag, any text and whatever follows. |
| `SweetCurls.SingleRequestCodeFound` | lib/SweetCurl.php:147-153 | After a logged `singleRequest` without a transport error, `getUuidLog($uuid, 'code')` returns its status code. This holds for a 404 as well. |
| `SweetCurls.FullAnswerSaysSuccess` | lib/SweetCurl.php:436-443 | For a record whose text is one line, the full answer is `"{$uuid}:Success code:{$code}:"`. It says Success even for an Error record, and the text is missing. |
| `SweetCurls.MultiLineResponse` | lib/SweetCurl.php:431-441 | For a text of several lines, `'response'` mode returns everything after the text's first line. |
| `SweetCurls.SingleLineResponseLost` | lib/SweetCurl.php:427-441 | For a text with no line feed, `'response'` mode returns the empty string. |
| `SweetCurls.IntendedResponseRoundTrip` | lib/SweetCurl.php:427-441 | With the rest of the matching line counted as body, `'response'` mode returns the record's text. |
| `SweetCurls.SweetCurl.constructor` | lib/SweetCurl.php:27-37 | The constructor stores the given fields. Logging and the response file start disabled, and the id is fixed. |
| `SweetCurls.SweetCurl.SetUrl` | lib/SweetCurl.php:39-41 | Only the URL changes. |
| `SweetCurls.SweetCurl.SetUrls` | lib/SweetCurl.php:43-45 | Only the URL list changes. |
| `SweetCurls.SweetCurl.GetUuid` | lib/SweetCurl.php:47-49 | Returns the object's id. |
| `SweetCurls.SweetCurl.ReturnResponse` | lib/SweetCurl.php:51-53 | Returns the stored response. |
| `SweetCurls.SweetCurl.ReturnResponses` | lib/SweetCurl.php:55-57 | Returns the same stored response field. After `multipleRequests` that is the list of bodies. |
| `SweetCurls.SweetCurl.SetBearerToken` | lib/SweetCurl.php:59-61 | Only the bearer token changes. |
| `SweetCurls.SweetCurl.SetAuthorization` | lib/SweetCurl.php:63-65 | Only the authorization string changes. |
| `SweetCurls.SweetCurl.SetMethod` | lib/SweetCurl.php:67-69 | Only the method changes. |
| `SweetCurls.SweetCurl.SetOption` | lib/SweetCurl.php:71-73 | Only the given key of the option map changes. |
| `SweetCurls.SweetCurl.SetOptions` | lib/SweetCurl.php:75-77 | The option map is replaced and nothing else changes. |
| `SweetCurls.SweetCurl.AddHeader` | lib/SweetCurl.php:79-81 | Only the given header changes. |
| `SweetCurls.SweetCurl.AddHeaders` | lib/SweetCurl.php:83-85 | The header map becomes the `array_merge` of the old one and the new one. Nothing else changes. |
| `SweetCurls.SweetCurl.EnableLogs` | lib/SweetCurl.php:87-89 | Only the logging switch changes, to on. |
| `SweetCurls.SweetCurl.SetSuccessLogPath` | lib/SweetCurl.php:91-93 | Only the success log path changes. |
| `SweetCurls.SweetCurl.SetErrorLogPath` | lib/SweetCurl.php:95-97 | Only the error log path changes. |
| `SweetCurls.SweetCurl.EnableResponseFile` | lib/SweetCurl.php:99-101 | Only the response-file switch changes, to on. |
| `SweetCurls.SweetCurl.LogMessage` | lib/SweetCurl.php:468-481 | Appends the message and a line feed to the log, and changes no other file. |
| `SweetCurls.SweetCurl.SingleRequest` | lib/SweetCurl.php:103-156 | Sends the effective handle and stores the `curl_exec` result. With logs on, it logs one record routed by errno and returns `SingleReply`. |
| `SweetCurls.SweetCurl.MultipleRequests` | lib/SweetCurl.php:158-222 | Sends one effective handle per URL and returns and stores the bodies in URL order. With logs on, it appends exactly `MultiEntries` to the logs. |
| `SweetCurls.SweetCurl.CollectResponses` | lib/SweetCurl.php:203-216 | The second loop collects the bodies in order and logs one Success record per handle. |
| `SweetCurls.SweetCurl.AsyncSingleRequest` | lib/SweetCurl.php:224-318 | Sends the async handle. With logs on, it logs one record routed by status range, and it returns `AsyncReply`. The stored response is unchanged. |
| `SweetCurls.SweetCurl.AsyncMultipleRequests` | lib/SweetCurl.php:320-411 | Sends one async handle per URL. With logs on, it appends exactly the routed records of the `$handles` table. It returns true. |
| `SweetCurls.SweetCurl.LogTable` | lib/SweetCurl.php:383-406 | The second loop appends one routed record per table entry, in table order. |
| `SweetCurls.SweetCurl.GetUuidLog` | lib/SweetCurl.php:413-458 | Reads the error log for `false` and the success log for every other mode. It returns `Lookup`: a missing file gives `null` in `'response'` mode and false otherwise. |
| `OhsweddSweetcurls.ExecReply` | lib/Ohswedd/Sweetcurls/CurlsHandler.php:120-130 | `singleRequest` returns false exactly when the transfer failed, and the body otherwise. |
| `OhsweddSweetcurls.MultiEntriesAt` | lib/Ohswedd/Sweetcurls/CurlsHandler.php:178-196 | `multipleRequests` logs, for each URL in order, a record under the object's id. The record goes to the success log as Success when the status is 2xx and to the error log as Error otherwise. |
| `OhsweddSweetcurls.AsyncEntriesDistinct` | lib/Ohswedd/Sweetcurls/CurlsHandler.php:362-374 | With distinct generated ids, `asyncMultipleRequests` logs one routed record per URL, in URL order. |
| `OhsweddSweetcurls.AsyncEntriesRepeated` | lib/Ohswedd/Sweetcurls/CurlsHandler.php:354-374 | With a repeated generated id, only the last transfer started under it is logged. |
| `OhsweddSweetcurls.StartHandles` | lib/Ohswedd/Sweetcurls/CurlsHandler.php:303-355 | The first loop of `asyncMultipleRequests` builds one effective handle per URL, plus the `$handles` table. |
| `OhsweddSweetcurls.FirstMatch` | lib/Ohswedd/Sweetcurls/CurlsHandler.php:400-403 | The scan stops at the first line that starts with the id and has more than three colon fields. No earlier line does both. |
| `OhsweddSweetcurls.ScanLog` | lib/Ohswedd/Sweetcurls/CurlsHandler.php:400-417 | The `fgets` loop returns what `LookupLines` specifies: the answer from the first match, or false. |
| `OhsweddSweetcurls.LineLayout` | lib/Ohswedd/Sweetcurls/CurlsHandler.php:428-432 | A record appended after content that ends a line is read back by `fgets` as exactly one line between the old lines and what follows. |
| `OhsweddSweetcurls.RecordLineAnswer` | lib/Ohswedd/Sweetcurls/CurlsHandler.php:401-410 | The record line of any id that starts with the searched id matches, so the prefix match also finds longer ids. The answer is the code and the trimmed first colon field of the text. |
| `OhsweddSweetcurls.LookupAfter` | lib/Ohswedd/Sweetcurls/CurlsHandler.php:400-411 | The lookup answers from the first matching line, whatever follows it. |
| `OhsweddSweetcurls.LookupRecord` | lib/Ohswedd/Sweetcurls/CurlsHandler.php:402-410 | A record appended to a log in which no line matches is answered with its code and the trimmed first colon field of its text. |
| `OhsweddSweetcurls.LookupRoundTrip` | lib/Ohswedd/Sweetcurls/CurlsHandler.php:402-410 | A record whose text has no colon, no line feed and no surrounding white space comes back whole. With a truthy flag it comes back as `"{$code}:{$text}"`. |
| `OhsweddSweetcurls.LookupCutsAtColon` | lib/Ohswedd/Sweetcurls/CurlsHandler.php:402-405 | A text `a:b` comes back as `a`: the message is cut at its first colon. |
| `OhsweddSweetcurls.IntendedRoundTrip` | lib/Ohswedd/Sweetcurls/CurlsHandler.php:402-410 | With everything after the third colon taken as the message, every one-line text comes back whole, colons included. The text must have no surrounding white space. |
| `OhsweddSweetcurls.SingleRoundTrip` | lib/Ohswedd/Sweetcurls/CurlsHandler.php:125-128 | After a logged `singleRequest`, `getUuidLog($uuid, true)` returns `"{$code}:{$response}"` for a plain response. |
| `OhsweddSweetcurls.RoutedRoundTrip` | lib/Ohswedd/Sweetcurls/CurlsHandler.php:183-190 | A routed record comes back from the log its flag selects. A 2xx record is read from the success log with its code; any other record is read from the error log as its text alone. |
| `OhsweddSweetcurls.CurlRequest.constructor` | lib/Ohswedd/Sweetcurls/CurlsHandler.php:25-34 | The constructor stores the given fields. Logging starts disabled, and the id is fixed. |
| `OhsweddSweetcurls.CurlRequest.SetUrl` | lib/Ohswedd/Sweetcurls/CurlsHandler.php:36-38 | Only the URL changes. |
| `OhsweddSweetcurls.CurlRequest.SetUrls` | lib/Ohswedd/Sweetcurls/CurlsHandler.php:40-42 | Only the URL list changes. |
| `OhsweddSweetcurls.CurlRequest.ReturnResponse` | lib/Ohswedd/Sweetcurls/CurlsHandler.php:44-46 | Returns the stored response. |
| `OhsweddSweetcurls.CurlRequest.SetBearerToken` | lib/Ohswedd/Sweetcurls/CurlsHandler.php:48-50 | Only the bearer token changes. |
| `OhsweddSweetcurls.CurlRequest.SetAuthorization` | lib/Ohswedd/Sweetcurls/CurlsHandler.php:52-54 | Only the authorization string changes. |
| `OhsweddSweetcurls.CurlRequest.SetMethod` | lib/Ohswedd/Sweetcurls/CurlsHandler.php:56-58 | Only the method changes. |
| `OhsweddSweetcurls.CurlRequest.SetOption` | lib/Ohswedd/Sweetcurls/CurlsHandler.php:60-62 | Only the given key of the option map changes. |
| `OhsweddSweetcurls.CurlRequest.SetOptions` | lib/Ohswedd/Sweetcurls/CurlsHandler.php:64-66 | The option map is replaced and nothing else changes. |
| `OhsweddSweetcurls.CurlRequest.AddHeader` | lib/Ohswedd/Sweetcurls/CurlsHandler.php:68-70 | Only the given header changes. |
| `OhsweddSweetcurls.CurlRequest.AddHeaders` | lib/Ohswedd/Sweetcurls/CurlsHandler.php:72-74 | The header map becomes the `array_merge` of the old one and the new one. |
| `OhsweddSweetcurls.CurlRequest.EnableLogs` | lib/Ohswedd/Sweetcurls/CurlsHandler.php:76-78 | Only the logging switch changes, to on. |
| `OhsweddSweetcurls.CurlRequest.SetSuccessLogPath` | lib/Ohswedd/Sweetcurls/CurlsHandler.php:80-82 | Only the success log path changes. |
| `OhsweddSweetcurls.CurlRequest.SetErrorLogPath` | lib/Ohswedd/Sweetcurls/CurlsHandler.php:84-86 | Only the error log path changes. |
| `OhsweddSweetcurls.CurlRequest.LogMessage` | lib/Ohswedd/Sweetcurls/CurlsHandler.php:428-432 | Appends the message and a line feed to the log, and changes no other file. |
| `OhsweddSweetcurls.CurlRequest.SingleRequest` | lib/Ohswedd/Sweetcurls/CurlsHandler.php:88-131 | Sends the effective handle and stores and returns the `curl_exec` result. With logs on, it logs one Success record to the success log whatever the outcome. |
| `OhsweddSweetcurls.CurlRequest.MultipleRequests` | lib/Ohswedd/Sweetcurls/CurlsHandler.php:133-201 | Sends one effective handle per URL and returns the bodies in URL order. With logs on, it appends exactly the routed records. |
| `OhsweddSweetcurls.CurlRequest.CollectResponses` | lib/Ohswedd/Sweetcurls/CurlsHandler.php:178-196 | The second loop collects the bodies in order and logs one routed record per handle. |
| `OhsweddSweetcurls.CurlRequest.AsyncSingleRequest` | lib/Ohswedd/Sweetcurls/CurlsHandler.php:203-297 | Sends the effective handle. With logs on, it logs one record routed by status range, and it returns `AsyncReply`. |
| `OhsweddSweetcurls.CurlRequest.AsyncMultipleRequests` | lib/Ohswedd/Sweetcurls/CurlsHandler.php:299-390 | Sends one effective handle per URL. With logs on, it appends exactly the routed records of the `$handles` table. It returns true. |
| `OhsweddSweetcurls.CurlRequest.LogTable` | lib/Ohswedd/Sweetcurls/CurlsHandler.php:362-385 | The second loop appends one routed record per table entry, in table order. |
| `OhsweddSweetcurls.CurlRequest.GetUuidLog` | lib/Ohswedd/Sweetcurls/CurlsHandler.php:392-418 | Reads the success log for a truthy flag and the error log otherwise. It returns `Lookup`: false for a missing file. |

## Left out

- The cURL transfer itself (`curl_exec`, `curl_multi_*`, `curl_getinfo`, `curl_errno`, `curl_error`) is not modelled. Its outcome is an input per URL, and the `curl_multi_exec` wait loops have no counterpart.
- `uniqid()` and `getNewUuid()` are time-based. The object's id and the ids of `asyncMultipleRequests` are inputs. Record counts per URL are stated for pairwise different ids, and the collapse for repeated ids is stated separately.
- `umask`, `chmod` and `mkdir` have no counterpart: log files and the `phpcurl` directory carry no permissions in the model. `getResponseFilePath` is modelled as its string only.
- The per-id response files are only modelled as the FILE option they set. Writing the body into them, reusing `$fh` in the loop of `asyncMultipleRequests` and closing it repeatedly are not modelled.
- `errorFileRequired` is never declared or set, so the STDERR branches never run and are not modelled.
- `CurlRequest` never declares `responseFileRequired`, so its FILE branches never run. Its async handles are the common handle.
- PHP truthiness is modelled only for what the code can observe:
  - strings are set exactly when non-empty;
  - flags are booleans;
  - a log line `"0"` stops `CurlRequest`'s `fgets` loop, but such a line could never match, so it is not modelled.
- Option values are passed to libcurl without interpretation. They are opaque values, and option codes other than the named ones are plain integers.
- `Curl.OptKey`: an option the classes set by name is assumed to appear in a caller's option map under its named key. An `OtherOpt` holding the code of a named option, such as `CURLOPT_URL`, would be a second key for one libcurl option, and the precedence lemmas do not cover it.
- `PhpArray.Merge`: header and option keys are string keys. PHP gives integer keys to list-style headers such as `addHeaders(['Accept: x'])` and to numeric-string names, and `array_merge` renumbers and appends integer keys instead of overwriting them. That renumbering is not modelled, and neither is the `0: Accept: x` line such a header would give.
- PHP 8 semantics are assumed for `substr` and `strpos` (`PhpString.DropFirst`, `PhpString.DropLast`, `PhpString.StartsWith`, `PhpString.Contains`). A string too short for `substr` gives `""`, where PHP 7 gives false. An empty needle matches at position 0, where PHP 7 warns and returns false. The first row of "## Findings" returns `""` under PHP 8 and false under PHP 7.
- Concurrency and failing file I/O are not modelled; `logMessage` always succeeds.

## Findings

| source | as written | input that shows it | evidently intended | confidence | as-written member | corrected member |
|---|---|---|---|---|---|---|
| lib/SweetCurl.php:427-435 | The body is collected only from the lines after the matching line, but a record's text starts on the matching line, after its third colon. | The record logged for id `id`, code 200 and body `hello` is one line. `getUuidLog('id', 'response')` returns `""` under PHP 8 (false under PHP 7), not `hello`. | The text after the third colon of the matching line is the start of the body, so the lookup returns the logged text. | not executed | `SweetCurls.SingleLineResponseLost` | `SweetCurls.IntendedResponseRoundTrip` |
| lib/Ohswedd/Sweetcurls/CurlsHandler.php:402-405 | The message is `trim($parts[3])`, the fourth colon field only. | A record `id:Success code:200:{"id":5}`: `getUuidLog('id')` returns `{"id"`. | Everything after the third colon, trimmed, is the message. | not executed | `OhsweddSweetcurls.LookupCutsAtColon` | `OhsweddSweetcurls.IntendedRoundTrip` |

The class methods `GetUuidLog` model the code as written. The corrected lookups `SweetCurls.IntendedLookupLines` and `OhsweddSweetcurls.IntendedLookupLines` state what each lookup should return. The round trips proved about those lookups are the corrected members above.
