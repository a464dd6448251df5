# AI Chat Compressor: a Dafny model of the extension's text logic

The extension exports a Claude conversation from the open page. Its content
script walks the page's message containers. It serialises each message element
to markdown-like text and returns a conversation record. The popup then turns
such records into markdown documents. It also classifies the job state a
background worker reports, keeps a single progress-poll timer, lays out
progress messages, stores two settings (the API key and the chunk size), and
names the downloaded files.

The model is split into these modules:

- `JsString` (`js_string.dfy`) holds the JavaScript string operations the code
  relies on: `trim`, `includes`, `indexOf`, `replace`, `split`, `join` and
  `parseInt`, plus decimal rendering of numbers.
- `Dom` (`dom.dfy`) is the part of the DOM the content script reads: text and
  element nodes, `textContent`, `tagName.toLowerCase()` and
  `querySelectorAll('li')`.
- `Content` (`content.dfy`) covers `extractTextContent` and
  `extractConversation`. Both are imperative loops, each proved against a
  recursive specification function.
- `PopupMarkdown` (`popup_markdown.dfy`) covers `convertToMarkdown` and
  `convertToCompressedMarkdown`.
- `PopupState` (`popup_state.dfy`) covers the state branching in
  `checkForOngoingOperation` and `startProgressPolling`, the
  `progressInterval` timer as a class, and the line split in
  `updateProgress`.
- `PopupSettings` (`popup_settings.dfy`) covers chunk-size defaulting, the
  settings save, load and key removal, and the settings read before a
  compression. Storage is a class holding a key/value map.
- `PopupFiles` (`popup_files.dfy`) covers the names of the downloaded files.

Clock readings, the page URL and title, and the DOM facts the content script
tests (class lists, inline styles, selector matches) are inputs to the model.

## Model

| member | source | states |
|---|---|---|
| JsString.Trim | content.js:116 | the result has no whitespace at either end and is a contiguous slice of the input; everything cut away is whitespace (ECMAScript WhiteSpace and LineTerminator) |
| JsString.TrimStart | popup.js:448 | the leading whitespace run, and only it, is dropped: what is cut is whitespace and what is left starts with a non-whitespace character or is empty |
| JsString.TrimOfTrimmed | content.js:116 | trimming text that has no whitespace at either end changes nothing |
| JsString.TrimPadded | content.js:116 | trimming text that already has no edge whitespace, followed by whitespace, gives back that text |
| JsString.TrimIdempotent | popup.js:447 | trimming twice is trimming once |
| JsString.IncludesAt | popup.js:98 | `includes` holds exactly when the substring occurs at some position |
| JsString.IndexOf | popup.js:354 | the result is -1 or a position holding the character; no earlier position holds it, and with -1 no position at all does |
| JsString.ReplaceFirstEach | popup.js:422 | `replace(/T/, '_')` changes only the first occurrence and keeps every other position |
| JsString.ReplaceAllEach | popup.js:422 | `replace(/:/g, '-')` changes every occurrence and only those, position for position |
| JsString.ReplaceAllRemoves | popup.js:599 | after replacing every `:` by `-` no `:` remains |
| JsString.BeforeFirst | popup.js:422 | `split('.')[0]` is a prefix free of `.`, followed by a `.` when shorter than the text |
| JsString.Split | popup.js:354 | `split` yields at least one piece |
| JsString.SplitPiecesFree | popup.js:354 | no piece of a split contains the separator |
| JsString.SplitFront | popup.js:354-358 | the first piece is the text before the first separator; when there is a separator, there is a second piece and the rest splits the text after it |
| JsString.SplitJoin | popup.js:354 | joining the pieces of a split with the separator gives back the text |
| JsString.JoinSplit | popup.js:354 | splitting a join of separator-free pieces gives back the pieces |
| JsString.JoinLength | popup.js:582-584 | joining n pieces adds the separator n - 1 times |
| JsString.NatToString | popup.js:575 | a count renders as a non-empty run of decimal digits without leading zeros |
| JsString.ParseInt | popup.js:448 | `parseInt` yields a number only when a digit or a sign follows the leading whitespace; the number is negative only after a minus sign; a leading decimal digit not followed by `x`/`X` always yields a non-negative number |
| JsString.ParseIntOfNatToString | popup.js:448 | `parseInt` reads back a rendered number, with or without a minus sign, when the character after it is neither a digit nor `x`/`X` |
| Dom.Lower | content.js:94 | lower-casing keeps the length and maps each character |
| Dom.ListItems | content.js:103 | `querySelectorAll('li')` returns only `li` elements, each smaller than the list |
| Dom.ListItemsIncludeNested | content.js:103 | an `li` child of the list, and every item of any child, are among the list's items |
| Dom.DescendantItemsAppend | content.js:103 | items come in document order: the items of sibling runs concatenate |
| Dom.TextContentAllAppend | content.js:101 | `textContent` of sibling runs concatenates in document order |
| Content.ExtractTextContent | content.js:84-117 | an absent element gives ""; a present one gives its children's contributions, accumulated in order and trimmed; the result has no edge whitespace |
| Content.ChildText | content.js:91-113 | a text node adds its data; `br` adds a line break; `p` adds its own text and a blank line; `pre`/`code` add their raw `textContent` fenced; `ul`/`ol` add one bullet per descendant `li`, then a blank line; `h1`-`h3` add a `###` heading; other elements add their own text; other nodes add nothing |
| Content.RenderNodesAppend | content.js:90-114 | the accumulated text of a sibling run is the concatenation of its parts' texts |
| Content.TextRunVerbatim | content.js:91-92 | a run of text nodes is copied verbatim |
| Content.OtherNodeIgnored | content.js:90-114 | a node that is neither text nor element contributes nothing wherever it stands |
| Content.CodeBlockIsRaw | content.js:100-101 | a `pre` or `code` block depends only on its `textContent`, inside a fence, whatever markup it contains |
| Content.KindOf | content.js:94-113 | the tag tests in source order: `br`, `p`, `pre`/`code`, `ul`/`ol`, `h1`-`h3`, anything else inline |
| Content.ListText | content.js:102-107 | a list gives one bullet line per descendant `li`, in document order, each with that item's own text, then a blank line |
| Content.NestedListItems | content.js:103 | on `<ul><li>a<ul><li>b</li></ul></li></ul>`, for any item texts a and b, the item query returns the outer item, then the nested one |
| Content.OuterItemText | content.js:102-107 | for non-empty a and b without edge whitespace, the outer item's own text runs its nested list's bullet into it: `a- b` |
| Content.NestedListBlock | content.js:102-107 | the outer list renders as `- a- b`, then `- b`, then a blank line |
| Content.NestedListRepeated | content.js:102-107 | a list nested in a list item is rendered twice: inside the outer item's line, and again as a bullet of its own |
| Content.Classify | content.js:20-66 | a container without a first child yields nothing; the user flag wins: a user-flagged container yields the user message extracted from its user content element, or nothing when that element is missing; otherwise an assistant-flagged container yields the assistant message extracted from its assistant content element, or nothing; a container with neither flag yields a message exactly when its trimmed text is longer than 10 characters, with that trimmed text as content and the role `user` exactly when a user avatar is present; every message carries the container's index and timestamp and has no edge whitespace |
| Content.MessagesFromContainers | content.js:18-70 | there are at most as many messages as containers, and each message is exactly what the container at its index yields |
| Content.MessagesIncreasing | content.js:18-70 | message indices strictly increase |
| Content.MessagesComplete | content.js:18-70 | every container that yields a message has that message in the result |
| Content.ExtractConversation | content.js:3-82 | the messages are those of the containers in order; `total_messages` equals the number of messages; the title defaults to `Claude Conversation` when empty; URL, time and `browser_extension` are recorded |
| PopupMarkdown.RoleLabel | popup.js:579 | role `user` gets the User label and every other role the Claude label |
| PopupMarkdown.SectionStep | popup.js:577-585 | appending the heading and text of message i extends the sections of the first i messages, joined by rules, by one |
| PopupMarkdown.ConvertToMarkdown | popup.js:572-589 | the loop builds the header followed by the message sections with a rule between consecutive sections |
| PopupMarkdown.MarkdownLength | popup.js:577-585 | n messages give n sections and exactly n - 1 rules between them |
| PopupMarkdown.MarkdownEndsWithLastSection | popup.js:582-584 | no rule follows the last message: the document ends with its section |
| PopupMarkdown.MarkdownEmpty | popup.js:572-576 | without messages the document is the header alone |
| PopupMarkdown.ConvertToCompressedMarkdown | popup.js:405-419 | the header reports the message count as the compressed count, followed by one block per message in order |
| PopupMarkdown.BlocksAppend | popup.js:415-418 | the blocks of consecutive message runs concatenate in order |
| PopupMarkdown.BlockAt | popup.js:415-418 | the k-th message's block sits right after the blocks of the messages before it |
| PopupState.FailureText | popup.js:68 | the failure text ends with the reported error |
| PopupState.OnLoad | popup.js:55-73 | `isRunning` wins over data and error, and only a running job resumes; data without error means completion; otherwise an error means failure; a missing response, or a stopped state with neither data nor error, changes nothing, and nothing else does |
| PopupState.OnPoll | popup.js:83-114 | the same precedence while polling, and only a running job updates the progress; a missing response or a stopped state with neither data nor error is exactly what changes nothing; an error containing `cancelled` is shown as a cancellation, and any other error as a failure |
| PopupState.PollAgreesWithLoad | popup.js:58-71 | opening and polling classify every state alike, and report a failure that is not a cancellation with the same text |
| PopupState.CancellationOnlyWhilePolling | popup.js:98-110 | a cancelled job shows as a cancellation while polling but as a failure when found on opening |
| PopupState.ProgressPoller.constructor | popup.js:22 | the popup opens with no timer running |
| PopupState.ProgressPoller.StartPolling | popup.js:77-82 | a running timer is cleared before the new one is stored, so exactly one timer runs and none leaks |
| PopupState.ProgressPoller.StopPolling | popup.js:89-97 | the timer is cleared and the handle forgotten |
| PopupState.ProgressPoller.HandlePoll | popup.js:83-114 | a tick returns the classification of the state, and stops the timer exactly when the job is over |
| PopupState.ProgressPoller.CheckForOngoingOperation | popup.js:55-64 | a running job resumes polling on a new timer; any other state leaves the timer alone |
| PopupState.ProgressPoller.Unload | popup.js:31-35 | closing the popup clears the running timer |
| PopupState.ProgressMessageView | popup.js:349-362 | a message without a line break is shown as it is; otherwise the first line, then the second line only when it is non-empty; later lines are dropped |
| PopupState.ProgressLinesFromMessage | popup.js:353-358 | neither shown line contains a break, and what is shown is a prefix of the message |
| PopupSettings.StoredChunkSize | popup.js:273 | a stored chunk size that is missing or zero becomes 5000; any other value, negative included, is used as stored |
| PopupSettings.ParsedChunkSize | popup.js:448 | a typed chunk size that does not parse or parses to zero becomes 5000; any other parse is kept; the result is never zero |
| PopupSettings.ParsedChunkSizeKeepsNumber | popup.js:448 | a typed non-zero number, negative ones included, is stored exactly |
| PopupSettings.ParsedChunkSizeZero | popup.js:448 | a typed zero, signed or not, becomes 5000 |
| PopupSettings.PlainChunkSizeKept | popup.js:448 | a positive number typed in decimal, and nothing else, is stored as that number |
| PopupSettings.ResetChunkSizeSaves | popup.js:506-508 | the reset value 5000, once saved, is stored as 5000 |
| PopupSettings.BlankChunkSizeDefaults | popup.js:448 | an empty or whitespace-only field gives 5000 |
| PopupSettings.SaveUpdate | popup.js:446-482 | the chunk size is always stored as parsed; a non-empty trimmed key is stored, while an empty one removes the stored key; no other key changes |
| PopupSettings.SettingsStorage.SaveSettings | popup.js:446-482 | the two branches (one `set`; or a `remove` then a `set`) leave storage as the save update describes, and the key status reports whether a key is stored |
| PopupSettings.CompressSettingsOf | popup.js:265-276 | without a truthy stored key compression is refused; otherwise it uses that key and the stored chunk size, defaulted to 5000 |
| PopupSettings.SaveThenCompress | popup.js:446-482 | after a save, compression uses the trimmed key and the chunk size as typed, or is refused when the key was empty |
| PopupSettings.FormOf | popup.js:518-531 | the form shows a truthy stored key, or clears the field, and shows the stored chunk size defaulted to 5000 |
| PopupSettings.SaveThenLoad | popup.js:518-531 | after a save, loading shows the saved key and the saved chunk size |
| PopupSettings.SettingsStorage.Set | popup.js:458 | `storage.local.set` overwrites or adds the given entries and keeps every other stored entry |
| PopupSettings.SettingsStorage.Remove | popup.js:471 | `storage.local.remove` deletes exactly the given keys and keeps every other stored entry |
| PopupSettings.SettingsStorage.LoadSettings | popup.js:518-537 | loading fills the form from the stored values, writes the default 5000 only when no truthy chunk size is stored, and afterwards a truthy chunk size is always stored |
| PopupSettings.LoadSettled | popup.js:529-535 | after one load the stored chunk size is truthy, so a second load writes nothing and shows the same value |
| PopupSettings.SettingsStorage.RemoveKey | popup.js:490-504 | only the key is removed from storage, and the key field is cleared |
| PopupSettings.SettingsStorage.ReadCompressSettings | popup.js:265-276 | the compress button reads the settings without changing storage |
| PopupFiles.CompressedStamp | popup.js:422 | the stamp is no longer than the ISO time and holds no `:` and no `.` |
| PopupFiles.CompressedStampEach | popup.js:422 | the stamp is the ISO time up to its first `.`, position for position, with the first `T` shown as `_` and each `:` as `-` |
| PopupFiles.CompressedStampOfIso | popup.js:422 | the ISO time `date`T`hh`:`mm`:`ss`.`rest` gives the stamp `date`_`hh`-`mm`-`ss` |
| PopupFiles.CompressedFilename | popup.js:421-423 | the compressed download's name holds no `:` |
| PopupFiles.PlainStamp | popup.js:598-599 | the plain downloads' stamp is the ISO date before `T`, then `_`, then the local time before the first space with `:` turned into `-`; the time part holds no `:` |
| PopupFiles.PlainFilenameNoColon | popup.js:602 | a plain download's name holds no `:` when the ISO date part holds none |

## Left out

- DOM rendering, button states, spinners, `innerHTML` messages and the
  `setTimeout` delays that clear them. These are display effects with no
  contract beyond the classification that selects them.
- Timing of the poll. `setInterval` and `clearInterval` become explicit
  method calls on `ProgressPoller`. The handle `setInterval` returns is a parameter,
  assumed positive and fresh.
- Browser messaging (`runtime.sendMessage`), `tabs.query`,
  `tabs.executeScript`, Blob downloads and `URL.createObjectURL`. The
  responses the popup receives are inputs.
- background.js and the background job engine the popup talks to
  (`getCompressionState`, `startBackgroundOperation`, `cancelOperation`,
  `clearCompressionState`). background.js is not part of this model, and no
  chunking, progress bands or token statistics are modelled.
- `handleCompletedOperation`, `displaySuccess` and
  `displayCompressedSuccess`. They render the result, start the compressed
  download or wire the download button to `downloadMarkdown`/`downloadJSON`
  (the file names are modelled in `PopupFiles`), report an empty extraction as
  "No conversation messages found", and clear the stored state after a
  2-second delay. All of this is display and messaging; the model stops at the
  `Completed` classification.
- Asynchrony of `storage.local`. The source issues `remove` and `set` without
  waiting for either when a blank key is saved, and writes the default chunk
  size inside the callback of `get`. `SettingsStorage` applies each call at
  once, in program order; the saved result does not depend on the order,
  because the removed and the written keys differ.
- `startOperation`'s checks that the content script returned data, and the
  page-URL check that enables the buttons. Both are browser plumbing.
- The test API call (`testClaudeAPI`). It is display of a remote response.
- Content.ExtractConversation: the `try`/`catch` around each container is
  left out. The modelled operations cannot throw.
- Content.ExtractConversation: the message timestamps and `extracted_at` are
  parameters, because `new Date()` is a clock reading.
- Dom.Lower: only ASCII letters are lower-cased. No non-ASCII character
  lower-cases to a letter of `br`, `p`, `pre`, `code`, `ul`, `ol`, `h1`-`h3`
  or `li`, so every tag test and the `li` selector, which matches ASCII
  letters case-insensitively, give the same answer as with full lower-casing.
- JsString.Trim: lengths are counted in Unicode scalar values, not UTF-16
  code units. This differs only for the length-10 fallback threshold on text
  outside the Basic Multilingual Plane.
- JsString.ParseInt: integers are unbounded. JavaScript's `parseInt` returns
  a floating-point number, which loses precision beyond 2^53.
- Content.Classify: the selector and style tests (`classList.contains`,
  `style.height`, `querySelector`) are inputs recorded in `Container`. CSS
  selector matching is not modelled.
- PopupState.JobState: truthiness of `state.data` is a flag. A missing or
  null `state.error` is the empty string, which is equally falsy.
- PopupSettings.Value: the only stored values are strings and integers, since
  those are the only values the popup writes.
