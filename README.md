# AI Research Assistant — a Dafny model

The AI Research Assistant is a Chrome extension with a Spring Boot backend.

On the browser side:
- **The side panel** (`sidepanel.js`) reads the selection of the active tab and asks the backend to summarize it. When that fails it falls back on the selection's first thirty words. It can append the summary, as plain text, to a notes area and save the notes as a research entry.
- **The content script** (`content.js`) remembers the page's selection. It writes the selection to extension storage only when the selection changes.
- **The history page** (`history.js`) lists the saved entries and renders them as a table. It can search them by keyword or filter them by date, edit one entry at a time in a modal, and delete entries.

On the backend side:
- **`Service/GeminiService.java`** builds a prompt for an operation, calls Gemini and takes the text out of the reply. Every failure becomes one fixed apology.
- **The root `ResearchService.java`** is an older service. It spaces requests at least one second apart, rotates round robin through a pool of API keys and moves on to the next key on a 429.
- **`Service/ResearchService.java`** creates, reads, updates, deletes and searches research entries. Its repository queries are in `Repository/ResearchRepository.java`.

## How the model is organised

| file | module | what it holds |
|---|---|---|
| `wrappers.dfy` | `Wrappers` | `Option` and `Result`. |
| `text.dfy` | `Text` | The string operations the code relies on, as pure functions with their laws: JavaScript's and Java's `trim`, `split`/`join` on one character, ASCII lower-casing, SQL `LIKE`, and Java's decimal rendering of a `long`. |
| `api.dfy` | `Api` | The `/process` request body and the parsed Gemini reply. A JSON `null` or a missing field is `None`. |
| `gemini.dfy` | `Gemini` | `GeminiService`, as pure functions: the code only computes. The outcome of the WebClient call is a parameter. |
| `key_rotation.dfy` | `KeyRotation` | The root `ResearchService`, as a class. `currentKeyIndex`, `lastRequestTime` and the calls sent are fields that the methods update. The attempt loop is a `while` loop, proved against a recursive specification function `Run`. The reply of each attempt comes from a `network` function parameter. |
| `sidepanel.dfy` | `SidePanel` | The panel's module state and form fields, as a class `Panel`. The markup-stripping chain of `appendToNotes` is pure functions, one per `replace`. Tabs, script injection, storage and the backend are parameters that say what they answered. |
| `content.dfy` | `SelectionCapture` | The content script, as a class, plus a pure replay of a run of selection events. |
| `history.dfy` | `History` | The page's `currentData` and `currentEntryId`, as a class `HistoryPage`. Rendering is pure functions. The backend's answers are parameters, and the requests the page sends are recorded. |
| `crud.dfy` | `ResearchCrud` | The CRUD service over a repository modelled as a map from id to entity. The two query methods of the repository are stated by what they select. Today's date is a parameter. |

## Model

| member | source | states |
|---|---|---|
| Api.Appended | research-assistant-backend/research-assistant/src/main/java/com/research/assistant/Service/GeminiService.java:131 | A present content is appended as itself, and a null content as the four characters "null". |
| Gemini.BuildPrompt | research-assistant-backend/research-assistant/src/main/java/com/research/assistant/Service/GeminiService.java:118-147 | A null operation raises; this is the only failure. The prompt always ends with the content (or "null"). For each operation, the exact prompt: "summarize" with and without a field, "suggest" with the field or "general", and the content alone for any other operation. |
| Gemini.NullAndEmptyContextAgree | research-assistant-backend/research-assistant/src/main/java/com/research/assistant/Service/GeminiService.java:125-135 | A null context and an empty one give the same prompt. |
| Gemini.PromptDeterminesContent | research-assistant-backend/research-assistant/src/main/java/com/research/assistant/Service/GeminiService.java:123-146 | For a fixed operation and context, two different contents give different prompts. |
| Gemini.ExtractText | research-assistant-backend/research-assistant/src/main/java/com/research/assistant/Service/GeminiService.java:100-113 | No candidates gives "No candidates found in response". Otherwise the result is the first part's text when the first candidate has content with parts, and "No content found in response" when it does not. |
| Gemini.ProcessContent | research-assistant-backend/research-assistant/src/main/java/com/research/assistant/Service/GeminiService.java:36-95 | A null operation, a missing reply and a thrown call all yield the fixed apology. A reply yields the extracted text. |
| Gemini.ProcessContentNullOnlyFromNullText | research-assistant-backend/research-assistant/src/main/java/com/research/assistant/Service/GeminiService.java:81-109 | The caller gets null exactly when a reply's first part has a null text. |
| KeyRotation.BuildPrompt | research-assistant-backend/research-assistant/src/main/java/com/research/assistant/ResearchService.java:106-120 | The call succeeds exactly for "summarize" and "suggest", giving the fixed lead plus the content. A null operation raises the NullPointerException. Any other operation raises "Unknown Operation: " plus its name. |
| KeyRotation.ExtractTextFromResponse | research-assistant-backend/research-assistant/src/main/java/com/research/assistant/ResearchService.java:89-104 | An unparseable body raises "Failed to parse API response: " plus the parser's message. A parsed reply gives the first part's text, or "No content found in response". |
| KeyRotation.ExtractorsAgreeOnCandidates | research-assistant-backend/research-assistant/src/main/java/com/research/assistant/ResearchService.java:92-100 | On any reply with a candidate, both services extract the same text. They differ only on a reply without candidates. |
| KeyRotation.Delay | research-assistant-backend/research-assistant/src/main/java/com/research/assistant/ResearchService.java:70-83 | The pause is never negative. It is zero exactly when at least 1000 ms have passed. Otherwise it ends exactly 1000 ms after the previous request, and it is at most 1000 ms. |
| KeyRotation.NextWraps | research-assistant-backend/research-assistant/src/main/java/com/research/assistant/ResearchService.java:85-87 | The counter moves to the following key, or wraps to key 0 after the last one. |
| KeyRotation.KeyIndex | research-assistant-backend/research-assistant/src/main/java/com/research/assistant/ResearchService.java:85-87 | After any number of draws the counter still designates a key. |
| KeyRotation.KeyIndexIsOffset | research-assistant-backend/research-assistant/src/main/java/com/research/assistant/ResearchService.java:34-36 | Draw j (for j up to the number of keys) uses the key j places after the start, wrapped around once. |
| KeyRotation.RoundRobinCoversAllKeys | research-assistant-backend/research-assistant/src/main/java/com/research/assistant/ResearchService.java:34-36 | As many draws as there are keys use every key, and the counter ends where it started. |
| KeyRotation.Run | research-assistant-backend/research-assistant/src/main/java/com/research/assistant/ResearchService.java:31-49 | The loop makes at most one attempt per key. It makes no attempt only when it starts after the last key. |
| KeyRotation.SkipRateLimited | research-assistant-backend/research-assistant/src/main/java/com/research/assistant/ResearchService.java:39-43 | A 429 on any attempt but the last only moves the loop on to the next key. |
| KeyRotation.NotProcessedOnlyWithoutKeys | research-assistant-backend/research-assistant/src/main/java/com/research/assistant/ResearchService.java:34-48 | "Failed to process request" is raised exactly when there are no keys, and then no attempt is made. |
| KeyRotation.NeverNotProcessed | research-assistant-backend/research-assistant/src/main/java/com/research/assistant/ResearchService.java:34-48 | With a key left to try, the loop never falls through to "Failed to process request". |
| KeyRotation.BadOperationFailsFirstAttempt | research-assistant-backend/research-assistant/src/main/java/com/research/assistant/ResearchService.java:36-46 | A bad or null operation aborts the first attempt, after one key has been drawn, with the prompt builder's exception. |
| KeyRotation.AllRateLimitedIff | research-assistant-backend/research-assistant/src/main/java/com/research/assistant/ResearchService.java:39-43 | "All API keys rate limited" is raised if and only if the prompt builds and every key's attempt got a 429. Every key has then been tried. |
| KeyRotation.FirstNonRateLimited | research-assistant-backend/research-assistant/src/main/java/com/research/assistant/ResearchService.java:36-46 | If any attempt is not rate limited, "All API keys rate limited" is not raised. |
| KeyRotation.OtherErrorAborts | research-assistant-backend/research-assistant/src/main/java/com/research/assistant/ResearchService.java:44-46 | Any other failure aborts at once, with "API request failed: " plus its message. |
| KeyRotation.AnswerEndsLoop | research-assistant-backend/research-assistant/src/main/java/com/research/assistant/ResearchService.java:36-38 | The first answered attempt ends the loop. It returns the text extracted from the reply, or raises "API request failed: " wrapped around the parse error. |
| KeyRotation.UnparseableAnswerAborts | research-assistant-backend/research-assistant/src/main/java/com/research/assistant/ResearchService.java:36-45 | A reply that cannot be parsed aborts at once, and no further key is tried. The message is "API request failed: " followed by "Failed to parse API response: " and the parser's message. |
| KeyRotation.Message | research-assistant-backend/research-assistant/src/main/java/com/research/assistant/ResearchService.java:41-48 | Gives the message of the RuntimeException that `processContent` raises. It is unknown only for the NullPointerException of a null operation. |
| KeyRotation.MessageIdentifiesError | research-assistant-backend/research-assistant/src/main/java/com/research/assistant/ResearchService.java:41-48 | Two errors with the same known message are the same error. |
| KeyRotation.Calls | research-assistant-backend/research-assistant/src/main/java/com/research/assistant/ResearchService.java:51-68 | One API call per attempt. |
| KeyRotation.CallsUseKeysInTurn | research-assistant-backend/research-assistant/src/main/java/com/research/assistant/ResearchService.java:35-37 | Call j sends the same prompt with the key drawn at draw j. |
| KeyRotation.ResearchService.constructor | research-assistant-backend/research-assistant/src/main/java/com/research/assistant/ResearchService.java:19-22 | The counter and the last request time start at 0. |
| KeyRotation.ResearchService.GetNextApiKey | research-assistant-backend/research-assistant/src/main/java/com/research/assistant/ResearchService.java:85-87 | Returns the key at the counter, and advances the counter by one modulo the number of keys. |
| KeyRotation.ResearchService.EnforceRateLimit | research-assistant-backend/research-assistant/src/main/java/com/research/assistant/ResearchService.java:70-83 | Sleeps exactly `Delay`, then records the clock read after the pause. |
| KeyRotation.ResearchService.TryKey | research-assistant-backend/research-assistant/src/main/java/com/research/assistant/ResearchService.java:35-46 | One attempt either ends the loop with `Run`'s outcome, or is a 429 that leaves the rest to the next attempt. It sends one call with the drawn key whenever the prompt builds. |
| KeyRotation.ResearchService.ProcessContent | research-assistant-backend/research-assistant/src/main/java/com/research/assistant/ResearchService.java:31-49 | Returns or raises what `Run` says. The counter advances once per attempt. Exactly the calls `Calls` lists are sent, and the rate-limit clock is updated. |
| KeyRotation.ResearchService.TryKeys | research-assistant-backend/research-assistant/src/main/java/com/research/assistant/ResearchService.java:34-48 | The loop agrees with `Run`: the same outcome, the counter after the same number of draws, and the calls of those attempts. |
| Text.Trim | RESEARCH_ASSISTANT_EXTENSIONS/sidepanel.js:143-144 | `trim` removes exactly the leading and trailing space: the result is empty if and only if the text is all space, and otherwise it neither starts nor ends with space. |
| Text.TrimRemovesSurroundingSpaces | RESEARCH_ASSISTANT_EXTENSIONS/sidepanel.js:101 | Trimming text wrapped in runs of space gives back exactly the text. |
| Text.Split | RESEARCH_ASSISTANT_EXTENSIONS/sidepanel.js:92 | `split(' ')` returns at least one piece, and no piece holds the separator. |
| Text.JoinSplit | RESEARCH_ASSISTANT_EXTENSIONS/sidepanel.js:92 | Joining the pieces of a split gives back the text. |
| Text.SplitJoin | RESEARCH_ASSISTANT_EXTENSIONS/sidepanel.js:92 | Splitting a join of separator-free pieces gives back the pieces. |
| Text.JoinTakeIsPrefix | RESEARCH_ASSISTANT_EXTENSIONS/sidepanel.js:92 | Joining the first k pieces gives a prefix of the whole join. |
| Text.Lower | research-assistant-backend/research-assistant/src/main/java/com/research/assistant/Repository/ResearchRepository.java:17 | `LOWER` keeps the length and lower-cases each character. |
| Text.LikePercentMatchesAll | research-assistant-backend/research-assistant/src/main/java/com/research/assistant/Repository/ResearchRepository.java:17 | `LIKE '%'` matches every text. |
| Text.LikeTrailingPercent | research-assistant-backend/research-assistant/src/main/java/com/research/assistant/Repository/ResearchRepository.java:17 | For a wildcard-free word, `LIKE w%` holds if and only if the text starts with w. |
| Text.LikeLeadingPercent | research-assistant-backend/research-assistant/src/main/java/com/research/assistant/Repository/ResearchRepository.java:17 | `LIKE %q` holds if and only if some suffix of the text matches q. |
| Text.LikeSurroundedMeansContains | research-assistant-backend/research-assistant/src/main/java/com/research/assistant/Repository/ResearchRepository.java:17 | For a wildcard-free word, `LIKE %w%` holds if and only if the text contains w. |
| Text.NatToString | research-assistant-backend/research-assistant/src/main/java/com/research/assistant/Service/ResearchService.java:30 | A number renders as a non-empty run of decimal digits. |
| Text.ParseNatToString | research-assistant-backend/research-assistant/src/main/java/com/research/assistant/Service/ResearchService.java:30 | Reading back the rendered digits gives the number. |
| Text.IntToStringInjective | research-assistant-backend/research-assistant/src/main/java/com/research/assistant/Service/ResearchService.java:30 | Different ids render differently. |
| SidePanel.FallbackSummary | RESEARCH_ASSISTANT_EXTENSIONS/sidepanel.js:92 | The fallback always ends with "...". |
| SidePanel.FallbackOfShortSelection | RESEARCH_ASSISTANT_EXTENSIONS/sidepanel.js:92 | A selection of at most 30 space-separated pieces is kept whole, followed by "...". |
| SidePanel.FallbackKeepsLeadingWords | RESEARCH_ASSISTANT_EXTENSIONS/sidepanel.js:92 | The fallback's text is a prefix of the selection, made of exactly its first (at most 30) pieces. |
| SidePanel.BreakTagLength | RESEARCH_ASSISTANT_EXTENSIONS/sidepanel.js:116 | A break-tag match starts with `<` and has at least four characters. |
| SidePanel.IndexOf | RESEARCH_ASSISTANT_EXTENSIONS/sidepanel.js:120 | Finds the first occurrence of the character. |
| SidePanel.StripTags | RESEARCH_ASSISTANT_EXTENSIONS/sidepanel.js:120 | After removing `<[^>]*>`, no `<` is followed by a `>`, and no character is added. |
| SidePanel.PlainText | RESEARCH_ASSISTANT_EXTENSIONS/sidepanel.js:115-120 | The plain text of a summary holds no `<` that a later `>` closes. |
| SidePanel.PlainTextPrefix | RESEARCH_ASSISTANT_EXTENSIONS/sidepanel.js:115-120 | A markup-free prefix passes through the five replacements unchanged. |
| SidePanel.PlainTextOfMarkupFree | RESEARCH_ASSISTANT_EXTENSIONS/sidepanel.js:115-120 | A summary without `<` and `&` is appended as it is. |
| SidePanel.ReplaceBreaksPrefix | RESEARCH_ASSISTANT_EXTENSIONS/sidepanel.js:116 | The break replacement copies text without `<`. |
| SidePanel.ReplaceFoldedPrefix | RESEARCH_ASSISTANT_EXTENSIONS/sidepanel.js:117-119 | A case-insensitive literal replacement whose pattern starts with `<` or `&` copies text without that character. |
| SidePanel.ReplaceFoldedAtMatch | RESEARCH_ASSISTANT_EXTENSIONS/sidepanel.js:117-119 | A match in any letter case is replaced. |
| SidePanel.StripTagsPrefix | RESEARCH_ASSISTANT_EXTENSIONS/sidepanel.js:120 | Tag removal copies text without `<`. |
| SidePanel.BreakTagLengthAt | RESEARCH_ASSISTANT_EXTENSIONS/sidepanel.js:116 | `<br\s*\/?>` matches `<br`, the whole run of white space, and `>` or `/>`. |
| SidePanel.BreakTagMatches | RESEARCH_ASSISTANT_EXTENSIONS/sidepanel.js:116 | A whole break tag, in any letter case, becomes one line break. |
| SidePanel.BreakBecomesNewline | RESEARCH_ASSISTANT_EXTENSIONS/sidepanel.js:115-120 | After markup-free text, a break tag in any case and with any spacing becomes "\n" in the plain text. |
| SidePanel.BoldOpenSteps | RESEARCH_ASSISTANT_EXTENSIONS/sidepanel.js:117 | `<b>`, in any letter case, disappears in its own step. |
| SidePanel.BoldCloseSteps | RESEARCH_ASSISTANT_EXTENSIONS/sidepanel.js:118 | `</b>`, in any letter case, disappears in its own step, after the `<b>` step copied it. |
| SidePanel.BoldTagVanishes | RESEARCH_ASSISTANT_EXTENSIONS/sidepanel.js:115-120 | `<b>` and `</b>`, in any letter case, vanish from the plain text. |
| SidePanel.NbspSteps | RESEARCH_ASSISTANT_EXTENSIONS/sidepanel.js:119 | `&nbsp;` passes the earlier steps and becomes one space in its own step. |
| SidePanel.NbspBecomesSpace | RESEARCH_ASSISTANT_EXTENSIONS/sidepanel.js:115-120 | `&nbsp;`, in any letter case, becomes one space in the plain text. |
| SidePanel.LeadingTagDropped | RESEARCH_ASSISTANT_EXTENSIONS/sidepanel.js:120 | A tag at the front, from `<` up to the first `>`, is dropped. |
| SidePanel.TagRemoved | RESEARCH_ASSISTANT_EXTENSIONS/sidepanel.js:120 | Any tag, from `<` up to the first `>`, is removed, and the text around it is kept. |
| SidePanel.AppendedNotes | RESEARCH_ASSISTANT_EXTENSIONS/sidepanel.js:123-124 | The old notes are a prefix of the new ones, which end with a line break. |
| SidePanel.AppendTwice | RESEARCH_ASSISTANT_EXTENSIONS/sidepanel.js:123-124 | Appending the same summary twice leaves two copies, separated by a blank line. |
| SidePanel.ValidationError | RESEARCH_ASSISTANT_EXTENSIONS/sidepanel.js:143-155 | The title is checked first and the notes second, each after trimming. A save goes ahead if and only if both are non-empty. |
| SidePanel.Panel.constructor | RESEARCH_ASSISTANT_EXTENSIONS/sidepanel.js:205-211 | The stored notes, if any, fill the notes area. Everything else starts empty, with append disabled. |
| SidePanel.Panel.Fallback | RESEARCH_ASSISTANT_EXTENSIONS/sidepanel.js:90-95 | With a selection, the summary becomes its fallback and append is enabled. Without one, nothing changes. |
| SidePanel.Panel.Summarize | RESEARCH_ASSISTANT_EXTENSIONS/sidepanel.js:20-97 | For each case: a missing tab gives the engine's error and falls back on the previous selection; a browser page or a refused script changes nothing; an empty selection sends nothing. Otherwise exactly one `/process` request is sent with operation "summarize" and context "research"; a reply gives the summary and any failure gives the fallback. The title, notes and storage are untouched. |
| SidePanel.Panel.Ask | RESEARCH_ASSISTANT_EXTENSIONS/sidepanel.js:38-84 | An empty selection stops before the request. A non-empty one is sent once, and the reply decides the summary and the status. |
| SidePanel.Panel.Receive | RESEARCH_ASSISTANT_EXTENSIONS/sidepanel.js:69-96 | A summary is shown. An error status or a failed fetch shows its message and falls back on the selection. Append is enabled either way. |
| SidePanel.SummaryStatusReports | RESEARCH_ASSISTANT_EXTENSIONS/sidepanel.js:70-88 | Only a summary is reported as "Summary complete!". Every failure is an error starting with "Error: ". A failed request shows its own message after that. |
| SidePanel.SaveError | RESEARCH_ASSISTANT_EXTENSIONS/sidepanel.js:174-200 | Every save failure starts with "Error saving: ". A rejected save adds "Save failed: " and the response body. Any other failure adds its own message. |
| SidePanel.PrivilegedByScheme | RESEARCH_ASSISTANT_EXTENSIONS/sidepanel.js:27 | A URL with a scheme is refused if and only if the scheme is `chrome` or `edge`. |
| SidePanel.Panel.AppendToNotes | RESEARCH_ASSISTANT_EXTENSIONS/sidepanel.js:105-136 | Without a summary it fails and changes nothing. Otherwise the notes become `AppendedNotes` of the old notes and the summary. |
| SidePanel.Panel.Send | RESEARCH_ASSISTANT_EXTENSIONS/sidepanel.js:157-201 | The trimmed title and notes are posted once. Only a confirmed save stores the notes and clears the form. Any failure shows its message and keeps the form. |
| SidePanel.Panel.SaveNotes | RESEARCH_ASSISTANT_EXTENSIONS/sidepanel.js:139-202 | A validation error shows its message and changes nothing. Otherwise the method behaves as `Send` with the trimmed fields. |
| SelectionCapture.Capture | RESEARCH_ASSISTANT_EXTENSIONS/content.js:5-7 | A write happens if and only if the trimmed selection is non-empty and differs from the remembered one, and it writes that trimmed selection. |
| SelectionCapture.CaptureIdempotent | RESEARCH_ASSISTANT_EXTENSIONS/content.js:5-7 | Seeing the same selection again writes nothing. |
| SelectionCapture.ReplayWritesChanges | RESEARCH_ASSISTANT_EXTENSIONS/content.js:4-27 | Over any run of events, every write is non-empty and differs from the one before it. |
| SelectionCapture.RememberedIsLastWrite | RESEARCH_ASSISTANT_EXTENSIONS/content.js:4-27 | The remembered selection is the last one written. |
| SelectionCapture.ContentScript.constructor | RESEARCH_ASSISTANT_EXTENSIONS/content.js:1 | The script starts with nothing remembered. |
| SelectionCapture.ContentScript.OnMouseUp | RESEARCH_ASSISTANT_EXTENSIONS/content.js:4-14 | Writes with its timestamp exactly what `Capture` says, and keeps the remembered selection equal to the last write. |
| SelectionCapture.ContentScript.OnSelectionChange | RESEARCH_ASSISTANT_EXTENSIONS/content.js:17-27 | Behaves as `mouseup`. |
| SelectionCapture.ContentScript.CheckInitialSelection | RESEARCH_ASSISTANT_EXTENSIONS/content.js:30-40 | Writes any non-empty trimmed selection, even one equal to the remembered selection. |
| History.Preview | RESEARCH_ASSISTANT_EXTENSIONS/history.js:64 | Content of at most 80 characters is shown whole. Longer content shows its first 80 characters followed by "...". |
| History.PreviewBounds | RESEARCH_ASSISTANT_EXTENSIONS/history.js:64 | A preview has at most 83 characters and begins with the content's first (up to) 80 characters. |
| History.TitleCell | RESEARCH_ASSISTANT_EXTENSIONS/history.js:63 | The cell reads "Untitled" if and only if the title is null, empty or literally "Untitled". A present, non-empty title is shown as itself. |
| History.ContentCell | RESEARCH_ASSISTANT_EXTENSIONS/history.js:64 | A null or empty content reads "No content". Any other content shows its preview. |
| History.DateCell | RESEARCH_ASSISTANT_EXTENSIONS/history.js:65 | A null or empty date reads "-". Any other date shows the date itself. |
| History.RenderRow | RESEARCH_ASSISTANT_EXTENSIONS/history.js:59-72 | A row carries its entry's id. |
| History.Render | RESEARCH_ASSISTANT_EXTENSIONS/history.js:50-74 | The placeholder is shown if and only if the list is empty. Otherwise there is one row per entry, in order. |
| History.EditedRowMatchesRender | RESEARCH_ASSISTANT_EXTENSIONS/history.js:134-138 | The cells that `saveEdit` patches show what `renderTable` would show for the patched entry. |
| History.FindIndex | RESEARCH_ASSISTANT_EXTENSIONS/history.js:80 | Finds the first entry with the id, or finds none if and only if no entry has it. |
| History.Without | RESEARCH_ASSISTANT_EXTENSIONS/history.js:158 | Keeps exactly the entries with another id. |
| History.WithoutConcat | RESEARCH_ASSISTANT_EXTENSIONS/history.js:158 | The filter keeps the remaining entries in order. |
| History.WithoutAbsent | RESEARCH_ASSISTANT_EXTENSIONS/history.js:158 | Deleting an id no entry carries changes nothing. |
| History.WithoutIdempotent | RESEARCH_ASSISTANT_EXTENSIONS/history.js:158 | Deleting the same id twice is deleting it once. |
| History.UpdateError | RESEARCH_ASSISTANT_EXTENSIONS/history.js:122-125 | A failed update is an error alert. A rejected update shows "Update failed: " and the response body. An unreachable backend shows the fetch error's message. |
| History.Patched | RESEARCH_ASSISTANT_EXTENSIONS/history.js:128-132 | The first entry with the id gets the new title and content. Every other entry is kept, and a list without the id is unchanged. |
| History.HistoryPage.constructor | RESEARCH_ASSISTANT_EXTENSIONS/history.js:2-3 | No entries and no edit slot. |
| History.HistoryPage.Replace | RESEARCH_ASSISTANT_EXTENSIONS/history.js:35-41 | A list reply replaces the cached list. A failure keeps it and raises the alert. |
| History.HistoryPage.LoadHistory | RESEARCH_ASSISTANT_EXTENSIONS/history.js:32-45 | Sends one list request. A reply replaces the list. A failure keeps it with "Failed to load research". |
| History.HistoryPage.SearchByKeyword | RESEARCH_ASSISTANT_EXTENSIONS/history.js:220-236 | An empty trimmed query reloads the whole list. Otherwise it searches for the trimmed query, and a failure keeps the list with "Search failed". |
| History.HistoryPage.FilterByDate | RESEARCH_ASSISTANT_EXTENSIONS/history.js:238-255 | A missing date warns and sends nothing. Otherwise it sends one filter request, and a failure keeps the list with "Date filter failed". |
| History.HistoryPage.ShowEditModal | RESEARCH_ASSISTANT_EXTENSIONS/history.js:79-104 | For an id in the list, the edit slot takes the id and the form shows the entry's title and content ("" for null). For an unknown id, it warns and leaves the slot as it was. |
| History.HistoryPage.CloseModal | RESEARCH_ASSISTANT_EXTENSIONS/history.js:185-191 | Empties the edit slot. |
| History.HistoryPage.SaveEdit | RESEARCH_ASSISTANT_EXTENSIONS/history.js:109-146 | With no entry selected, it warns and changes nothing. Otherwise it sends the trimmed fields once. A confirmed update patches the list and closes the modal; a failure keeps both and shows its message. |
| History.HistoryPage.Submit | RESEARCH_ASSISTANT_EXTENSIONS/history.js:115-145 | Sends the update once, and then acts as `SaveEdit` does after it. |
| History.HistoryPage.DeleteEntry | RESEARCH_ASSISTANT_EXTENSIONS/history.js:151-168 | Without confirmation nothing happens. Otherwise it sends one delete; a success drops every entry with the id, and a failure keeps the list with "Failed to delete". |
| ResearchCrud.NotFoundNamesTheId | research-assistant-backend/research-assistant/src/main/java/com/research/assistant/Service/ResearchService.java:30 | The not-found message names the id: different ids give different messages. |
| ResearchCrud.LowerConcat | research-assistant-backend/research-assistant/src/main/java/com/research/assistant/Repository/ResearchRepository.java:17 | `LOWER(CONCAT(...))` is the concatenation of the lowered parts. |
| ResearchCrud.FieldMatchesMeansContains | research-assistant-backend/research-assistant/src/main/java/com/research/assistant/Repository/ResearchRepository.java:17 | For a wildcard-free word, a field matches if and only if it is non-null and its lower-cased text contains the lower-cased word. |
| ResearchCrud.PercentMatchesEveryField | research-assistant-backend/research-assistant/src/main/java/com/research/assistant/Repository/ResearchRepository.java:17 | An empty query, or `%` alone, matches every non-null field. |
| ResearchCrud.ResearchService.constructor | research-assistant-backend/research-assistant/src/main/java/com/research/assistant/Entity/Research.java:13-15 | The store starts empty, and the first identity is 1. |
| ResearchCrud.ResearchService.Create | research-assistant-backend/research-assistant/src/main/java/com/research/assistant/Service/ResearchService.java:17-22 | A null date becomes today and a given date is kept. The entity gets a fresh id, and nothing else in the store changes. |
| ResearchCrud.ResearchService.GetAll | research-assistant-backend/research-assistant/src/main/java/com/research/assistant/Service/ResearchService.java:24-26 | Returns exactly the stored entities. |
| ResearchCrud.ResearchService.GetById | research-assistant-backend/research-assistant/src/main/java/com/research/assistant/Service/ResearchService.java:28-31 | Returns the stored entity, or fails with "Research not found with id: " plus the id. |
| ResearchCrud.ResearchService.Update | research-assistant-backend/research-assistant/src/main/java/com/research/assistant/Service/ResearchService.java:33-39 | A missing id fails and changes nothing. Otherwise the title and content are replaced, the date becomes today, the id stays, and every other entity is untouched. |
| ResearchCrud.ResearchService.Delete | research-assistant-backend/research-assistant/src/main/java/com/research/assistant/Service/ResearchService.java:41-46 | A missing id fails with the not-found message and changes nothing. Otherwise exactly that entity is removed. |
| ResearchCrud.ResearchService.Search | research-assistant-backend/research-assistant/src/main/java/com/research/assistant/Service/ResearchService.java:48-50 | Returns exactly the stored entities whose title or content matches the Java-trimmed query. |
| ResearchCrud.ResearchService.SearchByDateRange | research-assistant-backend/research-assistant/src/main/java/com/research/assistant/Service/ResearchService.java:52-57 | A start after the end fails with "Start date cannot be after end date". Otherwise it returns exactly the stored entities dated within the bounds, both included. |
| ResearchCrud.SearchFindsContainingEntries | research-assistant-backend/research-assistant/src/main/java/com/research/assistant/Repository/ResearchRepository.java:17-18 | A search for a wildcard-free word finds exactly the entries whose lower-cased title or content contains it. |
| ResearchCrud.DateRangeProperties | research-assistant-backend/research-assistant/src/main/java/com/research/assistant/Repository/ResearchRepository.java:15 | A one-day range selects that day's entries, and widening a range never loses an entry. |

## Left out

- `GeminiResponse.java` is not part of this model. Its shape (candidates, content, parts, text) is taken from how the two services read it. A `null` element inside a list would make the Java code raise a NullPointerException; the model cannot express one.
- Strings are sequences of Dafny characters, not UTF-16 code units. Lengths, `substring(0, 80)` and `trim` agree with the browser except on surrogate pairs. Case folding is ASCII only, both for the `i` regex flag and for the database's `LOWER`.
- The DOM is not modelled: innerHTML, the loading row of `showLoading`, the modal's CSS classes, `showStatus`/`showAlert` timers and the scroll position. Alerts and status lines are returned as values instead of being displayed.
- `openHistory`, the back buttons, `downloadPdf`, `PdfExportService` and both controllers are not modelled. They only navigate, or forward to the modelled services.
- `chrome.tabs`, `chrome.scripting` and `chrome.storage` are not modelled as APIs. What they answered is a parameter (`TabInfo`, `Probe`, the stored notes). The storage writes of the side panel and the content script are recorded as fields.
- The clock (`Date.now()`, `LocalDate.now()`, `System.currentTimeMillis()`) is a parameter.
- `Thread.sleep` is modelled by the pause it is asked for, not by real time.
- The WebClient calls are not modelled. That covers the 503 retries with backoff, `onErrorResume`, the JSON request bodies and the generation settings (temperature, topP and so on). Each call's outcome is a parameter: `CallOutcome` for `GeminiService`, and the `network` function for the root service.
- Jackson parsing in `extractTextFromResponse` is not modelled. It is a `Body` that is either the parsed reply or the parser's message.
- KeyRotation.Message: for a null operation, the message embeds the JVM's own NullPointerException text. It is left unspecified (`None`).
- SidePanel.Panel.Summarize: for a missing tab, the TypeError's message is chosen by the JavaScript engine. It is left unspecified (`EngineError`).
- `AtomicInteger` and `AtomicLong` are modelled as plain fields. Concurrent requests to the root service are not modelled.
- ResearchCrud.ResearchService.Create: models an entity posted without an id. A client-supplied id (a JPA merge) is not modelled.
- The order of `findAll` and of the two query results is not specified by the repository. The model returns sets.
- A null query or null dates reaching `searchResearch` and `searchByDateRange` would raise a NullPointerException. This is not modelled.
- The `LIKE` pattern is modelled without an escape character: a `%` or `_` in the query acts as a wildcard. The database is not specified by these sources. MySQL, PostgreSQL and H2 treat `\` as the default escape, so there a `\` in the query may escape the character after it. The model does not capture that.
- History ids: the page compares a JSON number with a `data-id` string using `==`. One integer type stands for both, which is what that loose comparison achieves.
- History.Render: a `null` list reply is not modelled. Every successful list reply is a sequence.
- The initial markup of `sidepanel.html` and `history.html` is not modelled.
