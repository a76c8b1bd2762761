# Yia Mas Bot chat widget — a verified model

The repository is a one-page chat widget (`index.tsx`, class `YiaMasBot`)
that sends the user's text to a hosted Gemini chat session and shows the
replies in a chat history. Its logic fits in one handler,
`handleFormSubmit`. That handler trims the input and ignores a blank
submission. For any other input it appends the user's message, clears the
input box and disables the send button and the input. It then awaits the
remote reply, builds the bot's HTML (the reply text plus a list of source
links taken from the grounding chunks) or an apology on error, appends
that, and enables the controls again.

The model has four modules:

- `Wrappers` (`wrappers.dfy`): `Option` and `Result`.
- `Text` (`text.dfy`): JavaScript's `String.prototype.trim`, over ECMAScript's
  whitespace and line-terminator characters.
- `Citations` (`citations.dfy`): the chunk filter, the link label, the
  sources block, and the reply assembly. `ReplyHtml` is the specification;
  `BuildReplyHtml` and `AppendItems` are the source's `+=` loop, proved
  equal to it. A reader `ParseSources` reads a rendered block back into
  `(href, text)` pairs. It states what the block contains: one item per
  linked chunk, in order, each with its uri and label.
- `Widget` (`widget.dfy`): the class `YiaMasBot`, whose fields are its own
  chat session `chat`, the transcript, the input value and the two disabled
  flags. The session is a `Session`: it answers from an oracle and logs
  every message it receives. The `await` splits `handleFormSubmit` into
  `BeginSubmit`, which ends by sending the message on `chat`, and
  `FinishSubmit`, which renders the reply. `HandleFormSubmit` runs both
  halves. The class invariant `Valid` ties the transcript to the session's
  call log: the welcome message followed by one user/bot pair per message
  the session received. Each user entry echoes that trimmed, non-empty
  message. When a message is in flight, its bot entry is missing and the
  input is empty.

## Model

| member | source | states |
|---|---|---|
| `Text.IsWhitespace` | index.tsx:101 | the characters `trim` strips from either end are exactly ECMAScript's WhiteSpace and LineTerminator characters (TAB, VT, FF, SP, NBSP, ZWNBSP, the Zs characters, LF, CR, LS, PS) |
| `Text.TrimStart` | index.tsx:101 | removing the leading whitespace never lengthens the string |
| `Text.TrimEnd` | index.tsx:101 | removing the trailing whitespace never lengthens the string |
| `Text.TrimStartSuffix` | index.tsx:101 | trimming the start keeps exactly the suffix after the leading whitespace, which starts with a non-whitespace character |
| `Text.TrimEndPrefix` | index.tsx:101 | trimming the end keeps exactly the prefix before the trailing whitespace, which ends with a non-whitespace character |
| `Text.Trim` | index.tsx:101-102 | the trimmed input is empty exactly when the input is all whitespace; otherwise it neither starts nor ends with whitespace |
| `Text.TrimSlice` | index.tsx:101 | the trimmed input is the slice of the input between its leading and trailing whitespace |
| `Text.TrimFixesTrimmed` | index.tsx:101 | a string that neither starts nor ends with whitespace is its own trim |
| `Text.TrimIdempotent` | index.tsx:101 | trimming twice is trimming once |
| `Citations.HasLink` | index.tsx:116 | the filter's test `chunk.web && chunk.web.uri` under JavaScript truthiness: a web record is present and its uri is present and not the empty string |
| `Citations.ValidLinks` | index.tsx:116 | every chunk the filter keeps has a web record with a non-empty uri, and the filter never adds chunks |
| `Citations.ValidLinksMembers` | index.tsx:116 | a chunk survives the filter if and only if it is in the input and has a non-empty `web.uri` |
| `Citations.ValidLinksAppend` | index.tsx:116 | the filter distributes over concatenation, so kept chunks stay in their input order |
| `Citations.ValidLinksCount` | index.tsx:116-117 | the number of kept chunks is the number of linked chunks; all are kept if and only if all are linked |
| `Citations.ValidLinksIdempotent` | index.tsx:116 | filtering a filtered list changes nothing |
| `Citations.Label` | index.tsx:120 | a link's text is its title when the title is present and non-empty, otherwise its uri, and is never empty |
| `Citations.LinkItem` | index.tsx:120 | one item is `<li><a href="` + uri + `" target="_blank" rel="noopener noreferrer">` + label + `</a></li>`, with nothing escaped |
| `Citations.Items` | index.tsx:119-121 | the items of the kept chunks, one after another in their order |
| `Citations.SourcesBlock` | index.tsx:118-122 | the header `<div class="message-sources"><h4>Here you go, book a table:</h4><ul>`, the items, then the footer `</ul></div>` |
| `Citations.Links` | index.tsx:111-117 | the chunks that get an item: none when the chunk list is absent, otherwise the filtered list |
| `Citations.ReplyHtml` | index.tsx:113-124 | the bot entry starts with the reply text unchanged; it equals the text exactly when no chunk has a link (including when the chunk list is absent or empty); otherwise it is the text followed by header, items and footer |
| `Citations.BuildReplyHtml` | index.tsx:113-124 | the filter-then-append assembly builds exactly `ReplyHtml` |
| `Citations.AppendItems` | index.tsx:119-121 | the `forEach` loop appends one item per kept chunk, in order |
| `Citations.ItemsAppend` | index.tsx:119-121 | appending one more chunk's item at the end extends the item list by exactly that item |
| `Citations.Rendered` | index.tsx:120 | the i-th rendered link has href the i-th kept chunk's uri and text its label, one per chunk |
| `Citations.ParseItemsRendered` | index.tsx:119-121 | for kept chunks whose uri has no `"` and whose label has no `<`, the items read back as exactly one (uri, label) per kept chunk, in order |
| `Citations.ReplySourcesReadBack` | index.tsx:113-124 | when some chunk has a link, and every kept chunk's uri has no `"` and its label no `<`, what follows the unchanged reply text is a sources block with one link per kept chunk, href = uri and text = label |
| `Widget.UserEntry` | index.tsx:104 | the user's entry is sender `user` with HTML `<p>` + trimmed message + `</p>` |
| `Widget.ApiKeyPresent` | index.tsx:25 | `!process.env.API_KEY` is false exactly when the key is present and not the empty string |
| `Widget.Session.constructor` | index.tsx:70-76 | a new chat session has received no messages and answers through the given oracle |
| `Widget.Session.SendMessage` | index.tsx:109 | sending a message logs exactly that message as one more call and returns the oracle's answer to it |
| `Widget.BotHtml` | index.tsx:126-133 | on error the bot entry is the fixed apology; on success it starts with the reply text and is just the text when no chunk has a link |
| `Widget.ConversationSend` | index.tsx:104-106 | sending a trimmed non-empty message from an idle transcript appends its user entry and leaves it waiting for its reply |
| `Widget.ConversationReply` | index.tsx:126-135 | one bot entry completes a waiting transcript |
| `Widget.YiaMasBot.constructor` | index.tsx:17-22 | from the page's initial state, the widget creates a new session that has received nothing and appends the welcome message, which is then its only entry |
| `Widget.YiaMasBot.Create` | index.tsx:24-27 | construction fails with "API_KEY environment variable not set" if and only if the key is absent or empty; otherwise the widget holds a new session that has received nothing and answers through the given oracle, just the welcome message, an empty input and enabled controls |
| `Widget.YiaMasBot.DisplayWelcomeMessage` | index.tsx:92-97 | appends the fixed welcome message as a bot entry |
| `Widget.YiaMasBot.AddMessageToHistory` | index.tsx:139-145 | appends exactly one entry and never edits or removes earlier ones |
| `Widget.YiaMasBot.SetLoading` | index.tsx:156-158 | sets both the send button's and the input's disabled flag to the argument |
| `Widget.YiaMasBot.BeginSubmit` | index.tsx:99-106 | a blank input changes nothing and sends nothing; otherwise the user entry `<p>trimmed</p>` is appended, the input is cleared, both controls are disabled and the trimmed text is sent once on the widget's own session, whose answer is returned as pending |
| `Widget.YiaMasBot.FinishSubmit` | index.tsx:108-136 | exactly one bot entry is appended, the built reply or the apology, and both controls are enabled on either path |
| `Widget.YiaMasBot.HandleFormSubmit` | index.tsx:99-137 | a blank input leaves transcript, input and lock unchanged and sends nothing on the widget's session (its call log is unchanged); any other sends the trimmed message exactly once on that session and adds exactly the user entry and then the bot entry for that session's reply, and leaves the input empty and the controls enabled |
| `Widget.GyroQuestionTrimmed` | index.tsx:101 | "best gyro in Greektown" trims to itself |
| `Widget.MenuChunkLinked` | index.tsx:116-120 | a chunk with uri "https://example.com" and title "Menu" passes the filter and renders as that link |
| `Widget.MenuReadsBack` | index.tsx:113-124 | the reply "Try Mr. Greek Gyros" with that chunk is the text followed by a one-link block |
| `Widget.GyroScenario` | index.tsx:92-137 | after the welcome message and one submission, the transcript is welcome, user entry and a bot entry starting with the reply and listing exactly that one link |

## Left out

- The Gemini SDK (`GoogleGenAI`, `ai.chats.create`, `chat.sendMessage`) is a foreign asynchronous network call. It is the class `Session`, which answers through an oracle `answer: string -> Reply` (`Ok(text, chunks)` or `Err`) and logs each message sent. The session's own conversational memory, which can make its answer depend on earlier messages, is not modelled.
- The page markup is not part of this model. The constructor assumes what that markup provides at page load: an empty chat history, an empty input box, and an enabled send button and input.
- The response's `text` is modelled as always present. The SDK may leave it `undefined`; what the browser then shows is not modelled.
- The persona and system-instruction text, the model name and the search tool configuration are prompt content with no behaviour here.
- DOM lookups, `innerHTML` rendering, CSS classes, `aria-live`, scrolling and the typing indicator are UI side effects. The transcript keeps each entry's sender and HTML string.
- The source escapes nothing, and neither does the model. `ParseSources` reads a block back only when every kept uri has no `"` and every label has no `<` (`MarkupSafe`). For other chunks the markup the source produces is still modelled exactly, but it does not read back.
- `Widget.YiaMasBot.BeginSubmit`: requires the controls to be enabled. While they are disabled the browser delivers no submit event, which is how the source keeps one message in flight.
- `Widget.YiaMasBot.HandleFormSubmit`: requires the controls to be enabled, for the same reason.
- `console.error` logging is left out.
- The interleaving of other events at the `await` is not modelled beyond the lock. The remote call is one atomic step between `BeginSubmit` and `FinishSubmit`.
- `process.env` is the `apiKey` parameter of `Create`.
- A streamed reply is not part of this source, so there is no streaming mode.
